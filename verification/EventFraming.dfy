/** The text in which the broker lists its events, and the loop that reads it back: every
    object is written with its length before it, and the reader trusts the lengths only. */
module EventFraming {
  import opened DecimalText
  import opened EventTable
  import opened Options
  import opened Sequences

  // ---- writing ----

  /** The object that carries an id. Ids are hexadecimal, so nothing in them is escaped. */
  function IdObject(id: string): string { "{\"id\":\"" + id + "\"}" }

  function Sized(text: string): string { Digits(|text|) + text }

  function Record(e: Event): string {
    Sized(IdObject(e.id)) + Sized(e.json.meta) + (if e.json.data.Some? then Sized(e.json.data.value) else "") + "\n"
  }

  function Records(events: seq<Event>): string {
    if events == [] then "" else Records(events[..|events| - 1]) + Record(events[|events| - 1])
  }

  /** The text that lists some events; `{}` stands for none. */
  function ListText(events: seq<Event>): string { if events == [] then "{}" else Records(events) }

  /** One event as it is listed. */
  lemma RecordText(e: Event)
    ensures var id := "{\"id\":\"" + e.id + "\"}";
            ListText([e]) ==
            (Digits(|id|) + id) + (Digits(|e.json.meta|) + e.json.meta)
            + (if e.json.data.Some? then Digits(|e.json.data.value|) + e.json.data.value else "") + "\n"
  {
    hide Digits;
    assert [e][..0] == [] && Records([]) == "";
    assert "" + Record(e) == Record(e);
  }

  /** Lists the events that are offered. */
  method GetEventsJson(group: GroupClients, worker: string) returns (text: string)
    modifies group`clients
    ensures text == ListText(Listing(group.events)) && group.events == old(group.events)
  {
    hide Record, IdObject, Listing;
    assert Listing([]) == [] by { ListingNone(); }
    group.Meet(worker);
    var events := group.events;
    text := "";
    for i := 0 to |events|
      invariant group.events == events && text == Records(Listing(events[..i]))
      invariant text == "" <==> Listing(events[..i]) == []
      modifies {}
    {
      ghost var listed := Listing(events[..i]);
      ListingSnoc(events, i);
      if events[i].busy && !events[i].process {
        assert (listed + [events[i]])[..|listed|] == listed;
        var line := WriteRecord(events[i]);
        text := text + line;
      }
    }
    assert events[..|events|] == events;
    if text == "" { text := "{}"; }
  }

  lemma ListingNone()
    ensures Listing([]) == []
  {
  }

  lemma ListingSnoc(events: seq<Event>, i: nat)
    requires i < |events|
    ensures Listing(events[..i + 1]) == if Offered(events[i]) then Listing(events[..i]) + [events[i]]
            else Listing(events[..i])
  {
    assert events[..i + 1][..i] == events[..i];
  }

  method WriteRecord(e: Event) returns (line: string)
    ensures line == Record(e) && line != ""
  {
    hide Digits, IdObject;
    var id := IdObject(e.id);
    line := Digits(|id|) + id + (Digits(|e.json.meta|) + e.json.meta);
    if e.json.data.Some? {
      line := line + (Digits(|e.json.data.value|) + e.json.data.value);
    }
    line := line + "\n";
  }

  // ---- reading ----

  datatype Task = Task(id: string, meta: string, data: string)

  /** What the reader knows between two objects. */
  datatype Reader = Reader(tasks: seq<Task>, index: nat, jump: bool, id: string, meta: string, temp: string)

  const START := Reader([], 0, false, "", "", "")

  predicate Known(known: set<string>, tasks: seq<Task>, id: string) {
    id in known || exists i :: 0 <= i < |tasks| && tasks[i].id == id
  }

  /** One object read: ids, metas and data take turns. */
  function Object(known: set<string>, r: Reader, object_: string): Reader {
    var temp := if r.jump then r.temp else object_;
    if r.index == 0 then r.(temp := temp, id := temp, jump := r.jump || Known(known, r.tasks, temp), index := 1)
    else if r.index == 1 then r.(temp := temp, meta := temp, index := 2)
    else Reader(if r.jump then r.tasks else r.tasks + [Task(r.id, r.meta, temp)], 0, false, r.id, r.meta, "")
  }

  function Objects(known: set<string>, objects: seq<string>): Reader {
    if objects == [] then START else Object(known, Objects(known, objects[..|objects| - 1]), objects[|objects| - 1])
  }

  /** Objects as they are laid out: every third one ends a line. */
  function Layout(objects: seq<string>): string {
    if objects == [] then "" else Layout(objects[..|objects| - 1]) + Piece(objects, |objects| - 1)
  }

  function Piece(objects: seq<string>, k: nat): string
    requires k < |objects|
  {
    Sized(objects[k]) + if k % 3 == 2 then "\n" else ""
  }

  predicate IsObject(text: string) { text != "" && text[0] == '{' && '\0' !in text && |text| < Pow10(9) }

  lemma {:induction false} LayoutAt(objects: seq<string>, k: nat)
    requires k < |objects|
    ensures var a, p, all := |Layout(objects[..k])|, Piece(objects, k), Layout(objects);
            && a + |p| == |Layout(objects[..k + 1])| <= |all|
            && all[a..a + |p|] == p
            && (k + 1 == |objects| ==> a + |p| == |all|)
    decreases |objects|
  {
    hide Piece;
    var n := |objects| - 1;
    assert objects[..k + 1][..k] == objects[..k];
    assert Piece(objects[..k + 1], k) == Piece(objects, k) by { SamePiece(objects, k + 1, k); }
    if k == n {
      assert objects[..k + 1] == objects;
    } else {
      LayoutAt(objects[..n], k);
      assert objects[..n][..k] == objects[..k] && objects[..n][..k + 1] == objects[..k + 1];
      SamePiece(objects, n, k);
      var a, p := |Layout(objects[..k])|, Piece(objects, k);
      assert Layout(objects)[a..a + |p|] == Layout(objects[..n])[a..a + |p|];
    }
  }

  lemma SamePiece(objects: seq<string>, n: nat, k: nat)
    requires k < n <= |objects|
    ensures Piece(objects[..n], k) == Piece(objects, k)
  {
  }

  /** The text before the first character 0. */
  function UntilNul(s: string): string {
    if s == "" || s[0] == '\0' then "" else [s[0]] + UntilNul(s[1..])
  }

  lemma {:induction false} EndsAtNul(s: string, rest: string)
    requires rest == "" || rest[0] == '\0'
    ensures UntilNul(s + rest) == UntilNul(s)
    ensures '\0' !in s ==> UntilNul(s) == s
    decreases |s|
  {
    if s == "" {
      assert s + rest == rest;
    } else {
      assert (s + rest)[1..] == s[1..] + rest;
      EndsAtNul(s[1..], rest);
    }
  }

  /** Reads the object of `size` characters at `j`: the character after it is overwritten with the
      character 0 for as long as the object is read. */
  method ParseAt(buffer: array<char>, j: nat, size: nat) returns (object_: string)
    requires j + size < buffer.Length
    modifies buffer
    ensures buffer[..] == old(buffer[..])
    ensures object_ == UntilNul(old(buffer[j..j + size]))
  {
    var temp := buffer[j + size];
    buffer[j + size] := '\0';
    object_ := UntilNul(buffer[j..]);
    assert buffer[j..] == old(buffer[j..j + size]) + buffer[j + size..];
    EndsAtNul(old(buffer[j..j + size]), buffer[j + size..]);
    buffer[j + size] := temp;
  }

  const INT_MAX := 0x7FFF_FFFF

  /** The reading of a response from position `j` on, where the next length begins at `n`. It fails
      if a length has more than ten characters, does not fit an `int`, or leads out of the response.
      An object is its text. On a text whose frames are not objects the program throws where this
      function reads on, so what it then says is not what the program does. */
  function ReadFrom(known: set<string>, text: string, n: nat, j: nat, r: Reader): (bool, seq<Task>)
    requires n <= j
    decreases |text| - j
  {
    if j >= |text| then (true, r.tasks)
    else if text[j] != '{' then ReadFrom(known, text, n, j + 1, r)
    else if j - n > 10 then (false, r.tasks)
    else
      var length := Atoi(text[n..j]);
      if length < 0 || length > INT_MAX || (!r.jump && j + length > |text|) then (false, r.tasks)
      else
        var object_ := if r.jump then "" else UntilNul(text[j..j + length]);
        var j' := j + length + if r.index == 2 then 1 else 0;
        ReadFrom(known, text, j', j' + 1, Object(known, r, object_))
  }

  function ReadText(known: set<string>, text: string): (bool, seq<Task>) {
    if text != "" && text[0] == '{' then (true, []) else ReadFrom(known, text, 0, 0, START)
  }

  lemma SliceOfText(buffer: array<char>, size: nat, a: nat, b: nat)
    requires a <= b <= size <= buffer.Length
    ensures buffer[a..b] == buffer[..size][a..b]
  {
    forall i | 0 <= i < b - a
      ensures buffer[a..b][i] == buffer[..size][a..b][i]
    {
      assert buffer[..size][a + i] == buffer[a + i];
    }
  }

  /** Reads the tasks out of a response of `size` characters; `known` are the ids of the tasks that
      are there already. */
  method GetEvents(buffer: array<char>, size: nat, known: set<string>) returns (ok: bool, tasks: seq<Task>)
    requires buffer.Length == size + 1
    modifies buffer
    ensures buffer[..] == old(buffer[..]) && (ok, tasks) == ReadText(known, buffer[..size])
  {
    hide Atoi, UntilNul, Object;
    if size > 0 && buffer[0] == '{' { return true, []; }
    ghost var text := buffer[..size];
    var r := START;
    var j: nat, n: nat := 0, 0;
    while j < size
      invariant buffer[..] == old(buffer[..]) && buffer[..size] == text && n <= j
      invariant ReadFrom(known, text, n, j, r) == ReadFrom(known, text, 0, 0, START)
    {
      if buffer[j] == '{' {
        SliceOfText(buffer, size, n, j);
        if j - n > 10 { return false, r.tasks; }
        var length := Atoi(buffer[n..j]);
        if length < 0 || length > INT_MAX || (!r.jump && j + length > size) { return false, r.tasks; }
        var object_ := "";
        if !r.jump {
          SliceOfText(buffer, size, j, j + length);
          object_ := ParseAt(buffer, j, length);
        }
        j := j + length;
        if r.index == 2 { j := j + 1; }
        r := Object(known, r, object_);
        n := j;
      }
      j := j + 1;
    }
    return true, r.tasks;
  }

  /** Where in the layout the reader is: object `k` is next, and its length begins at `n`. */
  predicate Reading(objects: seq<string>, k: nat, n: nat, j: nat) {
    && k <= |objects| && n == |Layout(objects[..k])|
    && if k < |objects| then n <= j <= n + |Digits(|objects[k]|)| else j >= n
  }

  lemma {:induction false} IndexIs(known: set<string>, objects: seq<string>, k: nat)
    requires k <= |objects|
    ensures Objects(known, objects[..k]).index == k % 3
    decreases k
  {
    if k > 0 {
      IndexIs(known, objects, k - 1);
      assert objects[..k][..k - 1] == objects[..k - 1];
      hide Known;
    }
  }

  /** The end of a line after every third object. */
  function LineEnd(k: nat): nat { if k % 3 == 2 then 1 else 0 }

  lemma Sub(s: string, a: nat, n: nat, i: nat, j: nat)
    requires a + n <= |s| && i <= j <= n
    ensures s[a..a + n][i..j] == s[a + i..a + j]
  {
    var z := s[a..a + n];
    forall q | 0 <= q < j - i
      ensures z[i..j][q] == s[a + i..a + j][q]
    {
      assert z[i + q] == s[a + (i + q)];
    }
  }

  lemma PieceParts(objects: seq<string>, k: nat, text: string, a: nat)
    requires k < |objects| && text == Layout(objects) && a == |Layout(objects[..k])|
    ensures var o := objects[k];
            var b := a + |Digits(|o|)|;
            && b + |o| + LineEnd(k) == |Layout(objects[..k + 1])| <= |text|
            && text[a..b] == Digits(|o|) && text[b..b + |o|] == o
  {
    hide Layout, Digits;
    LayoutAt(objects, k);
    var o := objects[k];
    var p, d := Piece(objects, k), Digits(|o|);
    assert p[..|d|] == d && p[|d|..|d| + |o|] == o;
    Sub(text, a, |p|, 0, |d|);
    Sub(text, a, |p|, |d|, |d| + |o|);
  }

  lemma ObjectIs(o: string)
    requires IsObject(o)
    ensures o != "" && o[0] == '{' && '\0' !in o && |o| < Pow10(9) && |o| <= INT_MAX
  {
    assert Pow10(3) == 1000 && Pow10(6) == 1000000 && Pow10(9) == 1000000000;
  }

  /** The next object, or the part of its length that was passed already. */
  lemma StillReading(objects: seq<string>, k: nat, n: nat, j: nat)
    requires Reading(objects, k, n, j) && j < |Layout(objects)|
    ensures k < |objects|
  {
    hide Layout, Digits;
    assert objects[..|objects|] == objects;
  }

  lemma PastDigit(objects: seq<string>, k: nat, n: nat, j: nat, text: string)
    requires Reading(objects, k, n, j) && text == Layout(objects) && k < |objects| && j < n + |Digits(|objects[k]|)|
    ensures j < |text| && IsDigit(text[j]) && Reading(objects, k, n, j + 1)
  {
    hide Layout, Digits, Piece;
    PieceParts(objects, k, text, n);
    assert text[j] == text[n..n + |Digits(|objects[k]|)|][j - n];
  }

  lemma AtObject(objects: seq<string>, k: nat, n: nat, j: nat, text: string)
    requires Reading(objects, k, n, j) && text == Layout(objects) && k < |objects| && j == n + |Digits(|objects[k]|)|
    requires IsObject(objects[k])
    ensures var o := objects[k];
            && j < j + |o| <= |text| && j - n < 10 && text[n..j] == Digits(|o|)
            && text[j] == '{' && text[j..j + |o|] == o && '\0' !in o
            && Reading(objects, k + 1, j + |o| + LineEnd(k), j + |o| + LineEnd(k) + 1)
  {
    assert n == |Layout(objects[..k])|;
    hide Layout, Digits, Piece, IsObject, Pow10, Reading;
    var o := objects[k];
    ObjectIs(o);
    PieceParts(objects, k, text, n);
    DigitsLength(|o|, 9);
    NextReading(objects, k, n, j);
    assert text[j] == text[j..j + |o|][0];
  }

  lemma ReadingAt(objects: seq<string>, k: nat, n: nat, j: nat, text: string)
    requires Reading(objects, k, n, j) && text == Layout(objects) && j < |text| && forall o :: o in objects ==>
             IsObject(o)
    ensures k < |objects|
    ensures text[j] != '{' ==> Reading(objects, k, n, j + 1)
    ensures var o := objects[k];
            text[j] == '{' ==>
              && j - n < 10 && text[n..j] == Digits(|o|)
              && j < j + |o| <= |text| && text[j..j + |o|] == o && '\0' !in o
              && Reading(objects, k + 1, j + |o| + LineEnd(k), j + |o| + LineEnd(k) + 1)
  {
    hide Layout, Digits, IsObject, LineEnd;
    StillReading(objects, k, n, j);
    if j < n + |Digits(|objects[k]|)| {
      PastDigit(objects, k, n, j, text);
    } else {
      AtObject(objects, k, n, j, text);
    }
  }

  lemma NextReading(objects: seq<string>, k: nat, n: nat, j: nat)
    requires k < |objects| && j + |objects[k]| + LineEnd(k) == |Layout(objects[..k + 1])|
    ensures Reading(objects, k + 1, j + |objects[k]| + LineEnd(k), j + |objects[k]| + LineEnd(k) + 1)
  {
    hide Layout, Digits;
  }

  lemma NoObjects(known: set<string>)
    ensures Objects(known, []) == START
  {
  }

  lemma ObjectsNext(known: set<string>, objects: seq<string>, k: nat, r: Reader, object_: string)
    requires k < |objects| && r == Objects(known, objects[..k]) && (!r.jump ==> object_ == objects[k])
    ensures Object(known, r, object_) == Objects(known, objects[..k + 1])
  {
    assert objects[..k + 1][..k] == objects[..k];
  }

  lemma FirstIsDigit(objects: seq<string>, text: string)
    requires objects != [] && text == Layout(objects)
    ensures text != "" && IsDigit(text[0]) && Reading(objects, 0, 0, 0) && objects[..0] == []
  {
    hide Digits;
    assert objects[..0] == [];
    PieceParts(objects, 0, text, 0);
    assert text[0] == text[0..|Digits(|objects[0]|)|][0];
  }

  /** The reader has not passed the next object. */
  lemma InFrame(objects: seq<string>, k: nat, n: nat, j: nat)
    requires Reading(objects, k, n, j) && k < |objects| && IsObject(objects[k])
    ensures j < |Layout(objects)|
  {
    hide Layout, Digits;
    PieceParts(objects, k, Layout(objects), n);
    ObjectIs(objects[k]);
  }

  /** A framed text is read object by object, wherever in it the reader is, and whatever comes after it. */
  lemma {:induction false} FramedTo(known: set<string>, objects: seq<string>, rest: string, k: nat, n: nat, j: nat)
    requires Reading(objects, k, n, j) && n <= j && forall o :: o in objects ==> IsObject(o)
    requires k <= |objects| && (k == |objects| ==> j == n + 1)
    ensures var end, text := |Layout(objects)|, Layout(objects) + rest;
            ReadFrom(known, text, n, j, Objects(known, objects[..k])) ==
            ReadFrom(known, text, end, end + 1, Objects(known, objects))
    decreases |objects| - k, |Layout(objects)| + 1 - j
  {
    hide Layout, Digits, IsObject, Atoi, UntilNul, Objects, Object, Reading;
    var framed := Layout(objects);
    var text := framed + rest;
    if k == |objects| {
      assert objects[..k] == objects;
      ReadingEnds(objects, n, j);
    } else {
      InFrame(objects, k, n, j);
      ReadingAt(objects, k, n, j, framed);
      assert text[j] == framed[j];
      if text[j] != '{' {
        FramedTo(known, objects, rest, k, n, j + 1);
      } else {
        ObjectIs(objects[k]);
        ObjectNext(known, objects, rest, k, n, j);
        FramedTo(known, objects, rest, k + 1, j + |objects[k]| + LineEnd(k), j + |objects[k]| + LineEnd(k) + 1);
      }
    }
  }

  lemma ReadingEnds(objects: seq<string>, n: nat, j: nat)
    requires Reading(objects, |objects|, n, j)
    ensures n == |Layout(objects)|
  {
    hide Layout;
    assert objects[..|objects|] == objects;
  }

  lemma ObjectNext(known: set<string>, objects: seq<string>, rest: string, k: nat, n: nat, j: nat)
    requires k < |objects| && n <= j && j - n < 10 && |objects[k]| <= INT_MAX
    requires var framed, o := Layout(objects), objects[k];
             && j < j + |o| <= |framed| && framed[j] == '{' && framed[n..j] == Digits(|o|)
             && framed[j..j + |o|] == o && '\0' !in o
    ensures ReadFrom(known, Layout(objects) + rest, n, j, Objects(known, objects[..k])) ==
            ReadFrom(known, Layout(objects) + rest, j + |objects[k]| + LineEnd(k), j + |objects[k]| + LineEnd(k) + 1,
                     Objects(known, objects[..k + 1]))
  {
    hide Layout, Digits, Atoi, UntilNul, Objects, Object;
    var framed, o := Layout(objects), objects[k];
    var text := framed + rest;
    assert text[n..j] == framed[n..j] && text[j..j + |o|] == framed[j..j + |o|];
    var r := Objects(known, objects[..k]);
    IndexIs(known, objects, k);
    AtoiOfDigits(|o|);
    EndsAtNul(o, "");
    ObjectsNext(known, objects, k, r, if r.jump then "" else o);
  }

  // ---- from the broker to the worker ----

  function TaskOf(e: Event): Task {
    Task(IdObject(e.id), e.json.meta, if e.json.data.Some? then e.json.data.value else "")
  }

  function TasksOf(events: seq<Event>): (r: seq<Task>)
    ensures |r| == |events| && forall i :: 0 <= i < |r| ==> r[i] == TaskOf(events[i])
  {
    seq(|events|, i requires 0 <= i < |events| => TaskOf(events[i]))
  }

  /** The reader trusts that every part of an event is an object. */
  predicate Sound(t: Task) { IsObject(t.id) && IsObject(t.meta) && IsObject(t.data) }

  predicate AllSound(tasks: seq<Task>) { forall i :: 0 <= i < |tasks| ==> Sound(tasks[i]) }

  /** The tasks in order, without those whose id is known or came before. */
  function Accepted(known: set<string>, tasks: seq<Task>): seq<Task> {
    if tasks == [] then []
    else
      var n := |tasks| - 1;
      var before := Accepted(known, tasks[..n]);
      if Known(known, before, tasks[n].id) then before else before + [tasks[n]]
  }

  function ObjectsOf(tasks: seq<Task>): (r: seq<string>)
    ensures |r| == 3 * |tasks| && |r| % 3 == 0
  {
    if tasks == [] then []
    else ObjectsOf(tasks[..|tasks| - 1]) + [tasks[|tasks| - 1].id, tasks[|tasks| - 1].meta, tasks[|tasks| - 1].data]
  }

  lemma {:induction false} SoundObjects(tasks: seq<Task>)
    requires AllSound(tasks)
    ensures forall o :: o in ObjectsOf(tasks) ==> IsObject(o)
  {
    if tasks != [] {
      hide IsObject;
      var n := |tasks| - 1;
      SoundObjects(tasks[..n]);
      assert Sound(tasks[n]);
    }
  }

  lemma LayoutSnoc(objects: seq<string>, o: string)
    ensures Layout(objects + [o]) ==
            if |objects| % 3 == 2 then Layout(objects) + (Sized(o) + "\n") else Layout(objects) + Sized(o)
  {
    hide Sized;
    assert (objects + [o])[..|objects|] == objects;
    assert Sized(o) + "" == Sized(o);
  }

  lemma Nest(l: string, a: string, b: string, c: string, d: string)
    ensures l + a + b + (c + d) == l + (a + b + c + d)
  {
  }

  lemma Append(objects: seq<string>, a: string, b: string, c: string)
    ensures objects + [a] + [b] == objects + [a, b] && objects + [a, b] + [c] == objects + [a, b, c]
  {
  }

  lemma TwoMore(objects: seq<string>, a: string, b: string)
    requires |objects| % 3 == 0
    ensures Layout(objects + [a] + [b]) == Layout(objects) + Sized(a) + Sized(b)
  {
    hide Sized, Layout;
    LayoutSnoc(objects, a);
    LayoutSnoc(objects + [a], b);
  }

  lemma ThirdMore(objects: seq<string>, l: string, a: string, b: string, c: string)
    requires |objects| % 3 == 2 && Layout(objects) == l + a + b
    ensures Layout(objects + [c]) == l + (a + b + Sized(c) + "\n")
  {
    hide Sized, Layout;
    LayoutSnoc(objects, c);
    Nest(l, a, b, Sized(c), "\n");
  }

  lemma ThreeMore(objects: seq<string>, a: string, b: string, c: string)
    requires |objects| % 3 == 0
    ensures Layout(objects + [a, b]) == Layout(objects) + Sized(a) + Sized(b)
    ensures Layout(objects + [a, b, c]) == Layout(objects) + (Sized(a) + Sized(b) + Sized(c) + "\n")
  {
    hide Sized, Layout;
    Append(objects, a, b, c);
    TwoMore(objects, a, b);
    ThirdMore(objects + [a, b], Layout(objects), Sized(a), Sized(b), c);
  }

  predicate AllData(events: seq<Event>) {
    forall i :: 0 <= i < |events| ==> events[i].json.data.Some?
  }

  lemma AllDataSnoc(events: seq<Event>)
    requires AllData(events) && events != []
    ensures AllData(events[..|events| - 1]) && events[|events| - 1].json.data.Some?
  {
  }

  lemma {:induction false} RecordsAreLayout(events: seq<Event>)
    requires AllData(events)
    ensures Records(events) == Layout(ObjectsOf(TasksOf(events)))
    decreases |events|
  {
    if events == [] {
      assert TasksOf(events) == [];
    } else {
      hide IdObject, Sized, Layout, Record, ObjectsOf, Records, TasksOf, TaskOf, AllData;
      var n := |events| - 1;
      AllDataSnoc(events);
      var t := TaskOf(events[n]);
      RecordsAreLayout(events[..n]);
      ObjectsOfSnoc(events);
      RecordsLast(events);
      RecordIs(events[n]);
      OneMore(Records(events[..n]), ObjectsOf(TasksOf(events[..n])), t.id, t.meta, t.data);
    }
  }

  lemma OneMore(text: string, objects: seq<string>, a: string, b: string, c: string)
    requires text == Layout(objects) && |objects| % 3 == 0
    ensures text + (Sized(a) + Sized(b) + Sized(c) + "\n") == Layout(objects + [a, b, c])
  {
    hide Sized, Layout;
    ThreeMore(objects, a, b, c);
  }

  lemma RecordsLast(events: seq<Event>)
    requires events != []
    ensures Records(events) == Records(events[..|events| - 1]) + Record(events[|events| - 1])
  {
  }

  lemma ObjectsOfSnoc(events: seq<Event>)
    requires events != []
    ensures var n, t := |events| - 1, TaskOf(events[|events| - 1]);
            ObjectsOf(TasksOf(events)) == ObjectsOf(TasksOf(events[..n])) + [t.id, t.meta, t.data]
  {
    hide IdObject;
    assert TasksOf(events)[..|events| - 1] == TasksOf(events[..|events| - 1]);
  }

  lemma RecordIs(e: Event)
    requires e.json.data.Some?
    ensures var t := TaskOf(e); Record(e) == Sized(t.id) + Sized(t.meta) + Sized(t.data) + "\n"
  {
    hide Sized, IdObject;
  }

  lemma ObjectsSnoc(known: set<string>, objects: seq<string>, o: string)
    ensures Objects(known, objects + [o]) == Object(known, Objects(known, objects), o)
  {
    assert (objects + [o])[..|objects|] == objects;
  }

  /** Three objects are one task, unless its id is known. */
  lemma ThreeRead(known: set<string>, objects: seq<string>, t: Task)
    requires var r := Objects(known, objects); r.index == 0 && !r.jump
    ensures var r := Objects(known, objects);
            && Objects(known, objects + [t.id, t.meta]).tasks == r.tasks
            && var r' := Objects(known, objects + [t.id, t.meta, t.data]);
               r'.index == 0 && !r'.jump && r'.tasks == if Known(known, r.tasks, t.id) then r.tasks else r.tasks + [t]
  {
    hide Known, Objects;
    assert objects + [t.id] + [t.meta] == objects + [t.id, t.meta];
    assert objects + [t.id, t.meta] + [t.data] == objects + [t.id, t.meta, t.data];
    ObjectsSnoc(known, objects, t.id);
    ObjectsSnoc(known, objects + [t.id], t.meta);
    ObjectsSnoc(known, objects + [t.id, t.meta], t.data);
  }

  lemma {:induction false} ObjectsAreAccepted(known: set<string>, tasks: seq<Task>)
    ensures var r := Objects(known, ObjectsOf(tasks)); r.tasks == Accepted(known, tasks) && r.index == 0 && !r.jump
    decreases |tasks|
  {
    if tasks == [] {
      NoObjects(known);
    } else {
      hide Known, Objects;
      var n := |tasks| - 1;
      ObjectsAreAccepted(known, tasks[..n]);
      ThreeRead(known, ObjectsOf(tasks[..n]), tasks[n]);
    }
  }

  lemma {:induction false} FirstOf(objects: seq<string>, rest: string)
    requires objects != []
    ensures var text := Layout(objects) + rest; text != "" && text[0] != '{'
    ensures Reading(objects, 0, 0, 0) && objects[..0] == []
  {
    FirstIsDigit(objects, Layout(objects));
    hide Layout, Digits;
  }

  /** The reader gets to the end of a framed text and goes on with what comes after it. */
  lemma FramedText(known: set<string>, objects: seq<string>, rest: string)
    requires objects != [] && forall o :: o in objects ==> IsObject(o)
    ensures var end, text := |Layout(objects)|, Layout(objects) + rest;
            ReadText(known, text) == ReadFrom(known, text, end, end + 1, Objects(known, objects))
  {
    hide Layout, ReadFrom, Objects, IsObject, Reading;
    FirstOf(objects, rest);
    NoObjects(known);
    FramedTo(known, objects, rest, 0, 0, 0);
  }

  /** The text that lists events which all have data is read back as exactly these events, in order,
      whatever braces and line ends are in them; only ids that are known or repeated are left out. */
  lemma ListIsRead(known: set<string>, events: seq<Event>)
    requires events != [] && AllSound(TasksOf(events)) && AllData(events)
    ensures ReadText(known, Records(events)) == (true, Accepted(known, TasksOf(events)))
  {
    var objects := ObjectsOf(TasksOf(events));
    RecordsAreLayout(events);
    ObjectsAreAccepted(known, TasksOf(events));
    SoundObjects(TasksOf(events));
    hide Layout, ReadText, AllSound, Accepted, Objects, ObjectsOf, Records;
    FramedText(known, objects, "");
    assert Layout(objects) + "" == Layout(objects);
  }

  // ---- events without data ----

  /** The parts of an event that are there are objects. */
  predicate PartsSound(e: Event) {
    IsObject(IdObject(e.id)) && IsObject(e.json.meta) && (e.json.data.Some? ==> IsObject(e.json.data.value))
  }

  predicate AllParts(events: seq<Event>) { forall i :: 0 <= i < |events| ==> PartsSound(events[i]) }

  /** No event is known, and no two have the same id. */
  predicate AllNew(known: set<string>, events: seq<Event>) {
    && (forall i :: 0 <= i < |events| ==> IdObject(events[i].id) !in known)
    && (forall i, j :: 0 <= i < j < |events| ==> events[i].id != events[j].id)
  }

  lemma {:induction false} RecordsJoin(a: seq<Event>, b: seq<Event>)
    ensures Records(a + b) == Records(a) + Records(b)
    decreases |b|
  {
    hide Record;
    if b == [] {
      assert a + b == a;
    } else {
      var n := |b| - 1;
      RecordsJoin(a, b[..n]);
      assert (a + b)[..|a| + n] == a + b[..n];
      Associate(Records(a), Records(b[..n]), Record(b[n]));
    }
  }

  lemma RecordShort(e: Event)
    requires e.json.data.None?
    ensures Record(e) == Sized(IdObject(e.id)) + Sized(e.json.meta) + "\n"
  {
    hide Sized, IdObject;
    var a := Sized(IdObject(e.id)) + Sized(e.json.meta);
    assert a + "" == a;
  }

  /** The text of a list in which `short` is the first event without data. */
  lemma ShortText(before: seq<Event>, short: Event, after: seq<Event>)
    requires AllData(before) && short.json.data.None?
    ensures var objects := ObjectsOf(TasksOf(before)) + [IdObject(short.id), short.json.meta];
            Records(before + [short] + after) == Layout(objects) + ("\n" + Records(after))
  {
    hide Layout, ObjectsOf, Records, Record, IdObject, Sized, TasksOf, AllData;
    var id, meta := IdObject(short.id), short.json.meta;
    RecordsJoin(before + [short], after);
    RecordsJoin(before, [short]);
    OneRecord(short);
    RecordShort(short);
    RecordsAreLayout(before);
    ThreeMore(ObjectsOf(TasksOf(before)), id, meta, "");
    Associate(Records(before), Sized(id) + Sized(meta), "\n");
    Associate(Records(before), Sized(id), Sized(meta));
    Associate(Records(before) + Sized(id) + Sized(meta), "\n", Records(after));
  }

  lemma OneRecord(e: Event)
    ensures Records([e]) == Record(e)
  {
    hide Record;
    assert [e][..0] == [] && Records([]) == "";
    assert "" + Record(e) == Record(e);
  }

  /** The two parts of an event without data: the reader now waits for its data. */
  lemma TwoRead(known: set<string>, objects: seq<string>, id: string, meta: string)
    requires var r := Objects(known, objects); r.index == 0 && !r.jump && !Known(known, r.tasks, id)
    ensures Objects(known, objects + [id, meta]) == Reader(Objects(known, objects).tasks, 2, false, id, meta, meta)
  {
    hide Known, Objects;
    assert objects + [id] + [meta] == objects + [id, meta];
    ObjectsSnoc(known, objects, id);
    ObjectsSnoc(known, objects + [id], meta);
  }

  /** What the reader knows when it comes to the end of the first event without data. */
  function Waiting(before: seq<Event>, short: Event): Reader {
    Reader(TasksOf(before), 2, false, IdObject(short.id), short.json.meta, short.json.meta)
  }

  lemma ReadToShort(known: set<string>, before: seq<Event>, short: Event, after: seq<Event>)
    requires AllData(before) && short.json.data.None? && AllParts(before + [short]) && AllNew(known, before + [short])
    ensures var text := Records(before + [short] + after);
            var end := |Layout(ObjectsOf(TasksOf(before)) + [IdObject(short.id), short.json.meta])|;
            ReadText(known, text) == ReadFrom(known, text, end, end + 1, Waiting(before, short))
  {
    var tasks := TasksOf(before);
    var objects := ObjectsOf(tasks) + [IdObject(short.id), short.json.meta];
    NewTasks(known, before, short);
    AllAccepted(known, tasks);
    ObjectsAreAccepted(known, tasks);
    PartsAreSound(before, short);
    SoundObjects(tasks);
    hide Layout, ReadText, ReadFrom, Objects, ObjectsOf, Records, IdObject, IsObject, TasksOf, Known, AllParts, AllNew;
    TwoRead(known, ObjectsOf(tasks), IdObject(short.id), short.json.meta);
    ShortText(before, short, after);
    FramedText(known, objects, "\n" + Records(after));
  }

  lemma PartsAreSound(before: seq<Event>, short: Event)
    requires AllData(before) && AllParts(before + [short])
    ensures AllSound(TasksOf(before)) && IsObject(IdObject(short.id)) && IsObject(short.json.meta)
  {
    hide IsObject, IdObject;
    assert (before + [short])[|before|] == short;
    forall i | 0 <= i < |before|
      ensures Sound(TasksOf(before)[i])
    {
      assert (before + [short])[i] == before[i] && PartsSound((before + [short])[i]);
    }
    assert PartsSound((before + [short])[|before|]);
  }

  /** The ids of the tasks are as new as those of the events. */
  lemma NewTasks(known: set<string>, before: seq<Event>, short: Event)
    requires AllNew(known, before + [short])
    ensures var tasks := TasksOf(before);
            && (forall i :: 0 <= i < |tasks| ==> tasks[i].id !in known)
            && (forall i, j :: 0 <= i < j < |tasks| ==> tasks[i].id != tasks[j].id)
            && !Known(known, tasks, IdObject(short.id))
  {
    hide IdObject;
    var all, tasks := before + [short], TasksOf(before);
    forall i, j | 0 <= i < j < |all|
      ensures IdObject(all[i].id) != IdObject(all[j].id)
    {
      if IdObject(all[i].id) == IdObject(all[j].id) { IdsApart(all[i].id, all[j].id); }
    }
    assert all[|before|] == short;
    assert forall i :: 0 <= i < |tasks| ==> tasks[i].id == IdObject(all[i].id);
  }

  /** Tasks that were read stay. */
  lemma {:induction false} TasksStay(known: set<string>, text: string, n: nat, j: nat, r: Reader)
    requires n <= j
    ensures r.tasks <= ReadFrom(known, text, n, j, r).1
    decreases |text| - j
  {
    hide Atoi, UntilNul, Known;
    if j < |text| {
      if text[j] != '{' {
        TasksStay(known, text, n, j + 1, r);
      } else if j - n <= 10 {
        var length := Atoi(text[n..j]);
        if !(length < 0 || length > INT_MAX || (!r.jump && j + length > |text|)) {
          var object_ := if r.jump then "" else UntilNul(text[j..j + length]);
          var j' := j + length + if r.index == 2 then 1 else 0;
          TasksStay(known, text, j', j' + 1, Object(known, r, object_));
        }
      }
    }
  }

  lemma {:induction false} SkipTo(known: set<string>, text: string, n: nat, j: nat, b: nat, r: Reader)
    requires n <= j <= b <= |text| && forall i :: j <= i < b ==> text[i] != '{'
    ensures ReadFrom(known, text, n, j, r) == ReadFrom(known, text, n, b, r)
    decreases b - j
  {
    if j < b { SkipTo(known, text, n, j + 1, b, r); }
  }

  /** The next length, behind a line end, and the object it announces. */
  lemma AfterLine(known: set<string>, text: string, end: nat, b: nat, o: string, r: Reader)
    requires IsObject(o) && r.index == 2 && !r.jump
    requires end < end + 1 <= b && b + |o| <= |text| && text[end] == '\n'
    requires text[end + 1..b] == Digits(|o|) && text[b..b + |o|] == o
    ensures ReadFrom(known, text, end, end + 1, r) ==
            ReadFrom(known, text, b + |o| + 1, b + |o| + 2, Object(known, r, o))
  {
    LineThenDigits(text, end, b);
    NoBrace(text, end + 1, b, |o|);
    LengthRead(text, end, b, o);
    hide ReadFrom, Digits, IsDigit, IsObject, Object, Atoi;
    SkipTo(known, text, end, end + 1, b, r);
    ObjectStep(known, text, end, b, o, r);
  }

  lemma LengthRead(text: string, end: nat, b: nat, o: string)
    requires end <= b <= |text| && text[end..b] == "\n" + Digits(|o|) && IsObject(o)
    ensures Atoi(text[end..b]) == |o| && b - end <= 10
  {
    ObjectIs(o);
    DigitsLength(|o|, 9);
    AtoiAfterLine(|o|);
    hide Digits, IsDigit, IsObject, Atoi, Pow10;
  }

  lemma NoBrace(text: string, a: nat, b: nat, n: nat)
    requires a <= b <= |text| && text[a..b] == Digits(n)
    ensures forall i :: a <= i < b ==> text[i] != '{'
  {
    var d := Digits(n);
    forall i | a <= i < b
      ensures text[i] != '{'
    {
      assert text[i] == d[i - a] && IsDigit(d[i - a]);
    }
  }

  /** One object, the data of a task that is not known. */
  lemma ObjectStep(known: set<string>, text: string, n: nat, b: nat, o: string, r: Reader)
    requires IsObject(o) && r.index == 2 && !r.jump
    requires n <= b && b - n <= 10 && b + |o| <= |text| && text[b..b + |o|] == o && Atoi(text[n..b]) == |o|
    ensures ReadFrom(known, text, n, b, r) == ReadFrom(known, text, b + |o| + 1, b + |o| + 2, Object(known, r, o))
  {
    hide ReadFrom, IsObject, Atoi, UntilNul, Object, Pow10;
    ObjectIs(o);
    EndsAtNul(o, "");
    assert text[b] == text[b..b + |o|][0];
    ReadStep(known, text, n, b, |o|, r);
  }

  lemma ReadStep(known: set<string>, text: string, n: nat, b: nat, size: nat, r: Reader)
    requires r.index == 2 && !r.jump && size <= INT_MAX
    requires n <= b < |text| && b - n <= 10 && b + size <= |text| && text[b] == '{' && Atoi(text[n..b]) == size
    ensures ReadFrom(known, text, n, b, r) ==
            ReadFrom(known, text, b + size + 1, b + size + 2, Object(known, r, UntilNul(text[b..b + size])))
  {
    hide Atoi, UntilNul, Object;
  }

  lemma LineThenDigits(text: string, end: nat, b: nat)
    requires end + 1 <= b <= |text| && text[end] == '\n'
    ensures text[end..b] == "\n" + text[end + 1..b]
  {
  }

  /** The text of a list begins with the object of its first id. */
  lemma ListStarts(events: seq<Event>) returns (more: string)
    requires events != []
    ensures var o := IdObject(events[0].id); Records(events) == Digits(|o|) + o + more
  {
    hide Digits, IdObject;
    var o, e := IdObject(events[0].id), events[0];
    var data := if e.json.data.Some? then Sized(e.json.data.value) else "";
    more := Sized(e.json.meta) + data + "\n" + Records(events[1..]);
    assert events == [e] + events[1..];
    OneRecord(e);
    RecordsJoin([e], events[1..]);
    hide Records;
    StartPieces(Digits(|o|) + o, Sized(e.json.meta), data, Records(events[1..]));
  }

  lemma StartPieces(a: string, b: string, c: string, d: string)
    ensures a + b + c + "\n" + d == a + (b + c + "\n" + d)
  {
  }

  /** An event without data that is followed by another one is delivered with the other one's id for its
      data, and the reading goes on one character too far into the other one's meta. */
  lemma ForeignData(known: set<string>, before: seq<Event>, short: Event, after: seq<Event>)
    requires AllData(before) && short.json.data.None? && after != []
    requires AllParts(before + [short]) && AllNew(known, before + [short]) && IsObject(IdObject(after[0].id))
    ensures TasksOf(before) + [Task(IdObject(short.id), short.json.meta, IdObject(after[0].id))]
            <= ReadText(known, Records(before + [short] + after)).1
  {
    var o := IdObject(after[0].id);
    var front := Layout(ObjectsOf(TasksOf(before)) + [IdObject(short.id), short.json.meta]);
    var text := Records(before + [short] + after);
    var r := Waiting(before, short);
    ReadToShort(known, before, short, after);
    ShortText(before, short, after);
    var more := ListStarts(after);
    hide Layout, ReadText, ReadFrom, ObjectsOf, Records, IdObject, IsObject, TasksOf, AllParts, AllNew, AllData, Digits;
    hide Known;
    TakesForeign(known, text, front, o, more, r);
  }

  /** The data that is waited for is read behind the line end. */
  lemma TakesForeign(known: set<string>, text: string, front: string, o: string, more: string, r: Reader)
    requires IsObject(o) && r.index == 2 && !r.jump && text == front + ("\n" + (Digits(|o|) + o + more))
    ensures r.tasks + [Task(r.id, r.meta, o)] <= ReadFrom(known, text, |front|, |front| + 1, r).1
  {
    hide ReadFrom, IsObject, Digits, Known;
    FivePieces(text, front, Digits(|o|), o, more);
    var b := |front| + 1 + |Digits(|o|)|;
    AfterLine(known, text, |front|, b, o, r);
    TasksStay(known, text, b + |o| + 1, b + |o| + 2, Object(known, r, o));
  }

  lemma FivePieces(text: string, a: string, d: string, o: string, more: string)
    requires text == a + ("\n" + (d + o + more))
    ensures var b := |a| + 1 + |d|;
            b + |o| <= |text| && text[|a|] == '\n' && text[|a| + 1..b] == d && text[b..b + |o|] == o
  {
  }

  /** An event without data at the end of the list is not delivered, although it is listed. */
  lemma NoDataNoTask(known: set<string>, before: seq<Event>, short: Event)
    requires AllData(before) && short.json.data.None? && AllParts(before + [short]) && AllNew(known, before + [short])
    ensures ReadText(known, Records(before + [short])) == (true, TasksOf(before))
  {
    ReadToShort(known, before, short, []);
    ShortText(before, short, []);
    assert before + [short] + [] == before + [short];
    var front := Layout(ObjectsOf(TasksOf(before)) + [IdObject(short.id), short.json.meta]);
    assert Records([]) == "" && "\n" + "" == "\n";
    hide Layout, ReadText, ObjectsOf, Records, IdObject, IsObject, TasksOf, AllParts, AllNew, AllData, Digits, Known;
    hide Object, Atoi, UntilNul;
    assert |front + "\n"| == |front| + 1;
  }

  /** The first event without data. */
  lemma {:induction false} FirstShort(events: seq<Event>) returns (m: nat)
    requires !AllData(events)
    ensures m < |events| && events[m].json.data.None? && AllData(events[..m])
    decreases |events|
  {
    var n := |events| - 1;
    if AllData(events[..n]) {
      m := n;
    } else {
      m := FirstShort(events[..n]);
      assert events[..n][..m] == events[..m];
    }
  }

  /** A list of new events is recovered exactly if all of them have data. */
  lemma ReadIffData(known: set<string>, events: seq<Event>)
    requires events != [] && AllParts(events) && AllNew(known, events)
    ensures ReadText(known, Records(events)) == (true, TasksOf(events)) <==> AllData(events)
  {
    if AllData(events) {
      NewList(known, events);
      ListIsRead(known, events);
      AllAccepted(known, TasksOf(events));
    } else {
      var m := FirstShort(events);
      NotRecovered(known, events, m);
    }
  }

  lemma NewList(known: set<string>, events: seq<Event>)
    requires AllData(events) && AllParts(events) && AllNew(known, events)
    ensures AllSound(TasksOf(events))
    ensures var tasks := TasksOf(events);
            && (forall i :: 0 <= i < |tasks| ==> tasks[i].id !in known)
            && (forall i, j :: 0 <= i < j < |tasks| ==> tasks[i].id != tasks[j].id)
  {
    hide IdObject, IsObject;
    var tasks := TasksOf(events);
    forall i | 0 <= i < |events|
      ensures Sound(tasks[i])
    {
      assert PartsSound(events[i]);
    }
    forall i, j | 0 <= i < j < |tasks|
      ensures tasks[i].id != tasks[j].id
    {
      if IdObject(events[i].id) == IdObject(events[j].id) { IdsApart(events[i].id, events[j].id); }
    }
  }

  lemma NotRecovered(known: set<string>, events: seq<Event>, m: nat)
    requires AllParts(events) && AllNew(known, events)
    requires m < |events| && events[m].json.data.None? && AllData(events[..m])
    ensures ReadText(known, Records(events)) != (true, TasksOf(events))
  {
    FrontOf(known, events, m);
    if m + 1 < |events| { assert PartsSound(events[m + 1]); }
    hide ReadText, Records, AllNew, IdObject, IsObject, AllData, TasksOf, AllParts;
    Around(events, m);
    if m + 1 == |events| {
      NoDataNoTask(known, events[..m], events[m]);
    } else {
      NotRead(known, events[..m], events[m], events[m + 1..]);
    }
  }

  lemma Around<T>(s: seq<T>, m: nat)
    requires m < |s|
    ensures s == s[..m] + [s[m]] + s[m + 1..]
    ensures m + 1 == |s| ==> s == s[..m] + [s[m]]
    ensures m + 1 < |s| ==> s[m + 1..] != [] && s[m + 1..][0] == s[m + 1]
  {
  }

  lemma NotRead(known: set<string>, before: seq<Event>, short: Event, after: seq<Event>)
    requires AllData(before) && short.json.data.None? && after != []
    requires AllParts(before + [short]) && AllNew(known, before + [short]) && IsObject(IdObject(after[0].id))
    ensures ReadText(known, Records(before + [short] + after)).1 != TasksOf(before + [short] + after)
  {
    var events, m := before + [short] + after, |before|;
    assert events[m] == short && TasksOf(events)[m].data == "";
    ObjectIs(IdObject(after[0].id));
    var read := Task(IdObject(short.id), short.json.meta, IdObject(after[0].id));
    hide ReadText, Records, AllNew, IdObject, IsObject, AllData, TasksOf, AllParts;
    ForeignData(known, before, short, after);
    OtherAt(TasksOf(before), read, ReadText(known, Records(events)).1, TasksOf(events), m);
  }

  lemma OtherAt(a: seq<Task>, read: Task, got: seq<Task>, tasks: seq<Task>, m: nat)
    requires a + [read] <= got && |a| == m < |tasks| && tasks[m] != read
    ensures got != tasks
  {
    assert got[m] == (a + [read])[m] == read;
  }

  lemma FrontOf(known: set<string>, events: seq<Event>, m: nat)
    requires AllParts(events) && AllNew(known, events) && m < |events|
    ensures AllParts(events[..m] + [events[m]]) && AllNew(known, events[..m] + [events[m]])
  {
    hide PartsSound, IdObject;
    assert events[..m] + [events[m]] == events[..m + 1];
  }

  /** Such a list: the second of three events has no data, and gets the id of the third for it. */
  lemma ForeignDataAt()
    ensures var some, none := Payload("{}", Some("{}")), Payload("{}", None);
            var events := [Event("b", some, 0, true, false), Event("a", none, 0, true, false),
                Event("c", some, 0, true, false)];
            var tasks := ReadText({}, Records(events)).1;
            |tasks| > 1 && tasks[1] == Task("{\"id\":\"a\"}", "{}", "{\"id\":\"c\"}")
  {
    var some, none := Payload("{}", Some("{}")), Payload("{}", None);
    var b, a, c := Event("b", some, 0, true, false), Event("a", none, 0, true, false), Event("c", some, 0, true, false);
    assert Pow10(9) == 1000000000 by { assert Pow10(3) == 1000 && Pow10(6) == 1000000; }
    assert IdObject("a") == "{\"id\":\"a\"}" && IdObject("c") == "{\"id\":\"c\"}" && IdObject("b") == "{\"id\":\"b\"}";
    assert PartsSound(a) && PartsSound(b) && PartsSound(c);
    assert [b] + [a] == [b, a] && [b] + [a] + [c] == [b, a, c];
    assert AllParts([b] + [a]) && AllNew({}, [b] + [a]);
    hide ReadText, Records;
    ForeignData({}, [b], a, [c]);
    assert (TasksOf([b]) + [Task(IdObject("a"), "{}", IdObject("c"))])[1] == Task(IdObject("a"), "{}", IdObject("c"));
  }

  /** With distinct ids of which none is known, every event becomes a task. */
  lemma {:induction false} AllAccepted(known: set<string>, tasks: seq<Task>)
    requires forall i :: 0 <= i < |tasks| ==> tasks[i].id !in known
    requires forall i, j :: 0 <= i < j < |tasks| ==> tasks[i].id != tasks[j].id
    ensures Accepted(known, tasks) == tasks
    decreases |tasks|
  {
    if tasks != [] {
      var n := |tasks| - 1;
      AllAccepted(known, tasks[..n]);
      assert !Known(known, tasks[..n], tasks[n].id);
      hide Known;
      assert tasks == tasks[..n] + [tasks[n]];
    }
  }

  /** The objects of different ids are different. */
  lemma IdsApart(a: string, b: string)
    requires IdObject(a) == IdObject(b)
    ensures a == b
  {
    assert a == IdObject(a)[7..|IdObject(a)| - 2] && b == IdObject(b)[7..|IdObject(b)| - 2];
  }

  lemma {:induction false} ListingDistinct(events: seq<Event>)
    requires forall i, j :: 0 <= i < j < |events| && events[i].busy && events[j].busy ==> events[i].id != events[j].id
    ensures forall i, j :: 0 <= i < j < |Listing(events)| ==> Listing(events)[i].id != Listing(events)[j].id
    decreases |events|
  {
    if events != [] {
      var n := |events| - 1;
      var before := Listing(events[..n]);
      ListingDistinct(events[..n]);
      forall i | 0 <= i < |before| && Offered(events[n])
        ensures before[i].id != events[n].id
      {
        ListingHas(events[..n], before[i]);
        var j :| 0 <= j < n && events[..n][j] == before[i];
        assert events[j].busy;
      }
    }
  }

  /** After any fair run of the broker, a worker that knows none of the listed events reads exactly
      these events, in their order, if and only if all of them have data. */
  lemma BrokerToWorker(known: set<string>, ops: seq<Op>)
    requires Fair(ops)
    requires var listed := Listing(Run(ops));
             AllParts(listed) && forall i :: 0 <= i < |listed| ==> IdObject(listed[i].id) !in known
    ensures var listed := Listing(Run(ops));
            ReadText(known, ListText(listed)) == (true, TasksOf(listed)) <==> AllData(listed)
  {
    hide Run, Listing, Fair, IdObject, AllParts, Records, MadeIn;
    RunInv(ops);
    ListingDistinct(Run(ops));
    var listed := Listing(Run(ops));
    if listed == [] {
      assert TasksOf(listed) == [];
    } else {
      hide ReadText;
      ReadIffData(known, listed);
    }
  }

  /** Each task carries the meta and the data of the add that its event goes back to. */
  predicate CarryAdds(ops: seq<Op>, listed: seq<Event>, tasks: seq<Task>) {
    |tasks| == |listed| && forall k :: 0 <= k < |tasks| ==>
      && tasks[k].id == IdObject(listed[k].id)
      && PayloadOf(ops, listed[k].id) == Payload(tasks[k].meta, Some(tasks[k].data))
  }

  lemma TasksCarry(ops: seq<Op>)
    requires Fair(ops) && AllData(Listing(Run(ops)))
    ensures CarryAdds(ops, Listing(Run(ops)), TasksOf(Listing(Run(ops))))
  {
    hide Run, Fair, Listing, IdObject, PayloadOf;
    CarriesItsAdd(ops);
    var listed := Listing(Run(ops));
    forall k | 0 <= k < |listed|
      ensures PayloadOf(ops, listed[k].id) == listed[k].json
    {
      ListingHas(Run(ops), listed[k]);
    }
  }

  /** A worker asks for events: the broker lists them, and the worker reads the response in its buffer. The
      tasks carry what was added. */
  method Poll(group: GroupClients, worker: string, known: set<string>, ghost ops: seq<Op>) returns (ok: bool,
      tasks: seq<Task>)
    requires Fair(ops) && group.events == Run(ops)
    requires var listed := Listing(Run(ops));
             AllParts(listed) && forall i :: 0 <= i < |listed| ==> IdObject(listed[i].id) !in known
    modifies group`clients
    ensures ok && tasks == TasksOf(Listing(group.events)) <==> AllData(Listing(group.events))
    ensures AllData(Listing(group.events)) ==> CarryAdds(ops, Listing(group.events), tasks)
  {
    hide ReadText, ListText, Listing, Run, Fair, AllParts, IdObject, AllData, TasksOf, CarryAdds;
    var text := GetEventsJson(group, worker);
    var buffer := new char[|text| + 1](i requires 0 <= i <= |text| => if i < |text| then text[i] else '\0');
    assert buffer[..|text|] == text;
    ok, tasks := GetEvents(buffer, |text|, known);
    BrokerToWorker(known, ops);
    if AllData(Listing(group.events)) { TasksCarry(ops); }
  }
}
