/** The loader as it works: it reads a buffer from front to end, marks the ends of strings in
    the buffer itself, and undoes escapes in place when a string is asked for. */
module JsonLoad {
  import opened DecimalText
  import opened JsonGrammar
  import opened JsonRoundTrip
  import opened JsonText
  import opened Options
  import opened TextAt

  /** A value as ranges of the buffer. A string has a flag in the place before it that says
      whether there are escapes in it. */
  datatype RValue =
    | RError
    | RNull
    | RFalse
    | RTrue
    | RNumber(start: nat, end: nat)
    | RString(start: nat, end: nat)
    | RList(items: seq<RValue>)
    | RObject(members: seq<RMember>)

  datatype RMember = RMember(keyStart: nat, keyEnd: nat, value: RValue)

  const NO_ESCAPES: char := 0 as char
  const ESCAPES: char := 1 as char

  /** The value says `j`, if the buffer holds `b`. */
  predicate Denotes(r: RValue, b: string, j: Json)
    decreases r, 0
  {
    match r
    case RError => false
    case RNull => j == JNull
    case RFalse => j == JFalse
    case RTrue => j == JTrue
    case RNumber(s, e) => s <= e <= |b| && j == JNumber(b[s..e])
    case RString(s, e) =>
      && 0 < s <= e < |b| && j.JString?
      && (if b[s - 1] == NO_ESCAPES then b[s..e] == j.s else WellEscaped(b[s..e]) && Unescaped(b[s..e]) == j.s)
    case RList(items) => j.JList? && AllDenote(items, b, j.l)
    case RObject(members) => j.JObject? && MembersDenote(members, b, j.o)
  }

  predicate AllDenote(rs: seq<RValue>, b: string, js: seq<Json>)
    decreases rs, 1
  {
    |rs| == |js| && forall i :: 0 <= i < |rs| ==> Denotes(rs[i], b, js[i])
  }

  predicate MembersDenote(rs: seq<RMember>, b: string, js: seq<JMember>)
    decreases rs, 1
  {
    |rs| == |js| && forall i :: 0 <= i < |rs| ==> MemberDenotes(rs[i], b, js[i])
  }

  predicate MemberDenotes(r: RMember, b: string, j: JMember)
    decreases r, 0
  {
    && r.keyStart <= r.keyEnd <= |b| && b[r.keyStart..r.keyEnd] == j.key
    && Denotes(r.value, b, j.value)
  }

  /** All ranges of the value, with the places around its strings, are between `lo` and `hi`. */
  predicate Within(r: RValue, lo: nat, hi: nat)
    decreases r, 0
  {
    match r
    case RNumber(s, e) => lo <= s <= e <= hi
    case RString(s, e) => lo < s <= e < hi
    case RList(items) => AllWithin(items, lo, hi)
    case RObject(members) => MembersWithin(members, lo, hi)
    case _ => true
  }

  predicate AllWithin(rs: seq<RValue>, lo: nat, hi: nat)
    decreases rs, 1
  {
    forall i :: 0 <= i < |rs| ==> Within(rs[i], lo, hi)
  }

  predicate MembersWithin(rs: seq<RMember>, lo: nat, hi: nat)
    decreases rs, 1
  {
    forall i :: 0 <= i < |rs| ==> MemberWithin(rs[i], lo, hi)
  }

  predicate MemberWithin(r: RMember, lo: nat, hi: nat)
    decreases r, 0
  {
    lo <= r.keyStart <= r.keyEnd <= hi && Within(r.value, lo, hi)
  }

  predicate Agree(b: string, c: string, lo: nat, hi: nat)
    requires hi <= |b| && hi <= |c|
  {
    forall i :: lo <= i < hi ==> b[i] == c[i]
  }

  /** A value depends on its own part of the buffer only. */
  lemma {:induction false} DenotesFrame(r: RValue, b: string, c: string, j: Json, lo: nat, hi: nat)
    requires Denotes(r, b, j) && Within(r, lo, hi) && lo <= hi <= |b| && |b| == |c| && Agree(b, c, lo, hi)
    ensures Denotes(r, c, j)
    decreases r, 0
  {
    match r {
      case RNumber(s, e) => SameSlice(b, c, lo, hi, s, e);
      case RString(s, e) =>
        SameSlice(b, c, lo, hi, s, e);
        SameSlice(b, c, lo, hi, s - 1, s);
        assert b[s - 1..s][0] == c[s - 1..s][0];
      case RList(items) =>
        forall i | 0 <= i < |items|
          ensures Denotes(items[i], c, j.l[i])
        {
          DenotesFrame(items[i], b, c, j.l[i], lo, hi);
        }
      case RObject(members) =>
        forall i | 0 <= i < |members|
          ensures MemberDenotes(members[i], c, j.o[i])
        {
          MemberFrame(members[i], b, c, j.o[i], lo, hi);
        }
      case _ =>
    }
  }

  lemma {:induction false} MemberFrame(r: RMember, b: string, c: string, j: JMember, lo: nat, hi: nat)
    requires MemberDenotes(r, b, j) && MemberWithin(r, lo, hi) && lo <= hi <= |b| && |b| == |c| && Agree(b, c, lo, hi)
    ensures MemberDenotes(r, c, j)
    decreases r, 0
  {
    SameSlice(b, c, lo, hi, r.keyStart, r.keyEnd);
    DenotesFrame(r.value, b, c, j.value, lo, hi);
  }

  lemma SameSlice(b: string, c: string, lo: nat, hi: nat, s: nat, e: nat)
    requires lo <= s <= e <= hi <= |b| == |c| && Agree(b, c, lo, hi)
    ensures b[s..e] == c[s..e]
  {
  }

  lemma {:induction false} WithinWider(r: RValue, lo: nat, hi: nat, lo': nat, hi': nat)
    requires Within(r, lo, hi) && lo' <= lo && hi <= hi'
    ensures Within(r, lo', hi')
    decreases r, 0
  {
    match r {
      case RList(items) =>
        forall i | 0 <= i < |items|
          ensures Within(items[i], lo', hi')
        {
          WithinWider(items[i], lo, hi, lo', hi');
        }
      case RObject(members) =>
        forall i | 0 <= i < |members|
          ensures MemberWithin(members[i], lo', hi')
        {
          MemberWider(members[i], lo, hi, lo', hi');
        }
      case _ =>
    }
  }

  lemma {:induction false} MemberWider(r: RMember, lo: nat, hi: nat, lo': nat, hi': nat)
    requires MemberWithin(r, lo, hi) && lo' <= lo && hi <= hi'
    ensures MemberWithin(r, lo', hi')
    decreases r, 0
  {
    WithinWider(r.value, lo, hi, lo', hi');
  }

  // ---- escapes in place ----

  lemma {:induction false} NoBackslash(s: string)
    requires WellEscaped(s) && '\\' !in s
    ensures Unescaped(s) == s
    decreases |s|
  {
    if s != "" {
      assert s[0] in s && UnitLength(s) == 1;
      NoBackslash(s[1..]);
      assert s == [s[0]] + s[1..];
    }
  }

  /** The first character or escape of a text, and the rest of it. */
  lemma UnescapeFirst(was: string, head: nat, end: nat)
    requires head < end <= |was| && WellEscaped(was[head..end])
    ensures var n, u := UnitLength(was[head..end]), Unit(was[head..end]);
            && 0 < |u| <= n <= end - head && WellEscaped(was[head + n..end])
            && Unescaped(was[head..end]) == u + Unescaped(was[head + n..end])
  {
    hide Unit, UnitLength;
    var n := UnitLength(was[head..end]);
    assert was[head..end][n..] == was[head + n..end];
  }

  /** Writes a character or what an escape stands for; the reading stays ahead of the writing. */
  method UnescapeUnit(buf: array<char>, head: nat, tail: nat, ghost end: nat) returns (head': nat, tail': nat)
    requires tail <= head < end <= buf.Length && UnitLength(buf[head..end]) > 0
    modifies buf
    ensures head' == head + old(UnitLength(buf[head..end])) && tail' == tail + |old(Unit(buf[head..end]))|
    ensures head' <= end
    ensures forall i :: 0 <= i < |old(Unit(buf[head..end]))| ==> buf[tail + i] == old(Unit(buf[head..end]))[i]
    ensures forall i :: 0 <= i < tail || head' <= i < buf.Length ==> buf[i] == old(buf[i])
  {
    ghost var s := buf[head..end];
    if buf[head] == '\\' {
      var c := buf[head + 1];
      if c == 'u' {
        var u := Utf8(Code(buf[head + 2], buf[head + 3], buf[head + 4], buf[head + 5]));
        buf[tail] := u[0];
        if |u| > 1 { buf[tail + 1] := u[1]; }
        if |u| > 2 { buf[tail + 2] := u[2]; }
        return head + 6, tail + |u|;
      }
      buf[tail] := SimpleEscape(c);
      return head + 2, tail + 1;
    }
    buf[tail] := buf[head];
    return head + 1, tail + 1;
  }

  /** Undoes the escapes between `start` and `end`, unless there are none or that was done before. What
      is written never overtakes what is read. */
  method Unescape(buf: array<char>, start: nat, end: nat) returns (end': nat)
    requires 0 < start <= end < buf.Length
    requires buf[start - 1] != NO_ESCAPES ==> WellEscaped(buf[start..end])
    modifies buf
    ensures start <= end' <= end && buf[start - 1] == NO_ESCAPES
    ensures forall i :: 0 <= i < start - 1 || end < i < buf.Length ==> buf[i] == old(buf[i])
    ensures buf[start..end'] ==
            old(if buf[start - 1] == NO_ESCAPES then buf[start..end] else Unescaped(buf[start..end]))
    ensures old(buf[start - 1]) == NO_ESCAPES ==> buf[..] == old(buf[..]) && end' == end
  {
    if buf[start - 1] == NO_ESCAPES { return end; }
    ghost var text := buf[start..end];
    var tail := Compact(buf, start, end);
    buf[tail] := '\0';
    buf[start - 1] := NO_ESCAPES;
    SliceIs(buf, start, tail, Unescaped(text));
    return tail;
  }

  lemma SliceIs(buf: array<char>, start: nat, end: nat, s: string)
    requires start <= end <= buf.Length && |s| == end - start && forall i :: 0 <= i < |s| ==> buf[start + i] == s[i]
    ensures buf[start..end] == s
  {
  }

  lemma SliceOf(buf: array<char>, was: string, a: nat, b: nat)
    requires a <= b <= buf.Length == |was| && forall i :: a <= i < buf.Length ==> buf[i] == was[i]
    ensures buf[a..b] == was[a..b]
  {
  }

  /** The loop that undoes the escapes. */
  method Compact(buf: array<char>, start: nat, end: nat) returns (tail: nat)
    requires start <= end < buf.Length && WellEscaped(buf[start..end])
    modifies buf
    ensures tail == start + |Unescaped(old(buf[start..end]))| && tail <= end
    ensures forall i :: 0 <= i < start || end <= i < buf.Length ==> buf[i] == old(buf[i])
    ensures var u := Unescaped(old(buf[start..end])); forall i :: 0 <= i < |u| ==> buf[start + i] == u[i]
  {
    hide Unit, UnitLength, WellEscaped, Unescaped;
    ghost var was := buf[..];
    SliceOf(buf, was, start, end);
    ghost var done: string := "";
    var head := start;
    tail := start;
    while head != end
      invariant start <= tail <= head <= end && |done| == tail - start
      invariant forall i :: head <= i < buf.Length || 0 <= i < start ==> buf[i] == was[i]
      invariant forall i :: 0 <= i < |done| ==> buf[start + i] == done[i]
      invariant WellEscaped(was[head..end]) && done + Unescaped(was[head..end]) == Unescaped(was[start..end])
      decreases end - head
    {
      UnescapeFirst(was, head, end);
      SliceOf(buf, was, head, end);
      ghost var u := Unit(was[head..end]);
      done := More(done, u, Unescaped(was[head + UnitLength(was[head..end])..end]));
      head, tail := UnescapeUnit(buf, head, tail, end);
    }
    NothingToUnescape();
    assert was[end..end] == "";
  }

  ghost function More(done: string, u: string, rest: string): (r: string)
    ensures r == done + u && r + rest == done + (u + rest)
  {
    done + u
  }

  lemma NothingToUnescape()
    ensures WellEscaped("") && Unescaped("") == ""
  {
  }

  // ---- the parser ----

  /** One more item, read after the others. */
  lemma OneMoreItem(rs: seq<RValue>, r: RValue, b: string, c: string, js: seq<Json>, j: Json, lo: nat, mid: nat,
      hi: nat)
    requires lo <= mid <= hi <= |b| == |c| && Agree(b, c, lo, mid)
    requires AllDenote(rs, b, js) && AllWithin(rs, lo, mid) && Denotes(r, c, j) && Within(r, mid, hi)
    ensures AllDenote(rs + [r], c, js + [j]) && AllWithin(rs + [r], lo, hi)
  {
    forall i | 0 <= i < |rs|
      ensures Denotes(rs[i], c, js[i]) && Within(rs[i], lo, hi)
    {
      DenotesFrame(rs[i], b, c, js[i], lo, mid);
      WithinWider(rs[i], lo, mid, lo, hi);
    }
    WithinWider(r, mid, hi, lo, hi);
    hide Denotes, Within;
  }

  lemma OneMoreMember(rs: seq<RMember>, r: RMember, b: string, c: string, js: seq<JMember>, j: JMember, lo: nat,
      mid: nat, hi: nat)
    requires lo <= mid <= hi <= |b| == |c| && Agree(b, c, lo, mid)
    requires MembersDenote(rs, b, js) && MembersWithin(rs, lo, mid) && MemberDenotes(r, c, j)
             && MemberWithin(r, mid, hi)
    ensures MembersDenote(rs + [r], c, js + [j]) && MembersWithin(rs + [r], lo, hi)
  {
    forall i | 0 <= i < |rs|
      ensures MemberDenotes(rs[i], c, js[i]) && MemberWithin(rs[i], lo, hi)
    {
      MemberFrame(rs[i], b, c, js[i], lo, mid);
      MemberWider(rs[i], lo, mid, lo, hi);
    }
    MemberWider(r, mid, hi, lo, hi);
    hide MemberDenotes, MemberWithin;
  }

  class Parser {
    const buf: array<char>
    ghost const text: string
    var data: nat

    constructor (buf: array<char>, ghost text: string)
      requires buf.Length == |text| + 1 && buf[..|text|] == text && buf[|text|] == '\0'
      ensures this.buf == buf && this.text == text && data == 0 && Unread()
    {
      this.buf, this.text, data := buf, text, 0;
      new;
      assert forall i :: 0 <= i < |text| ==> buf[i] == buf[..|text|][i];
    }

    /** From the place of the reader on the buffer is as it was given. */
    ghost predicate Unread()
      reads this, buf
    {
      && buf.Length == |text| + 1 && data <= |text| && buf[|text|] == '\0'
      && forall i :: data <= i < |text| ==> buf[i] == text[i]
    }

    /** The character `k` places ahead. */
    function Peek(k: nat): (c: char)
      reads this, buf
      requires buf.Length > 0
      ensures Unread() ==> c == At(text, data + k)
    {
      if data + k < buf.Length then buf[data + k] else '\0'
    }

    method Consume(c: char) returns (ok: bool)
      requires Unread() && c != '\0'
      modifies this`data
      ensures Unread() && ok == (At(text, old(data)) == c) && data == old(data) + if ok then 1 else 0
    {
      ok := Peek(0) == c;
      if ok { data := data + 1; }
    }

    method WsSkip()
      requires Unread()
      modifies this`data
      ensures Unread() && data == SkipSpace(text, old(data))
    {
      while IsSpace(Peek(0))
        invariant Unread() && SkipSpace(text, data) == SkipSpace(text, old(data))
        decreases |text| - data
      {
        data := data + 1;
      }
    }

    /** Goes to the quote that ends the string. */
    method FindQuote() returns (ok: bool, escapes: bool)
      requires Unread()
      modifies this`data
      ensures ok == StringEnd(text, old(data)).Some?
      ensures ok ==> data == StringEnd(text, old(data)).value && Unread()
      ensures ok && !escapes ==> '\\' !in text[old(data)..data]
    {
      hide UnitLength, StringEnd, IsHex, IsSimpleEscape;
      ghost var start := data;
      escapes := false;
      while Peek(0) != '"'
        invariant start <= data && Unread()
        invariant StringEnd(text, data) == StringEnd(text, start)
        invariant !escapes ==> forall i :: start <= i < data ==> text[i] != '\\'
        decreases |text| - data
      {
        StringStep(text, data);
        var c := Peek(0);
        if c == '\0' { return false, escapes; }
        if c != '\\' {
          data := data + 1;
        } else {
          escapes := true;
          if Peek(1) == 'u' {
            if !(IsHex(Peek(2)) && IsHex(Peek(3)) && IsHex(Peek(4)) && IsHex(Peek(5))) { return false, true; }
            data := data + 6;
          } else if IsSimpleEscape(Peek(1)) {
            data := data + 2;
          } else {
            return false, true;
          }
        }
      }
      StringStep(text, data);
      return true, escapes;
    }

    /** Reads a string; its closing quote becomes its end mark, and its opening quote the flag. */
    method DecodeString() returns (r: RValue)
      requires Unread()
      modifies this`data, buf
      ensures forall i :: 0 <= i < old(data) ==> buf[i] == old(buf[i])
      ensures if At(text, old(data)) == '"' && old(data) < |text| && StringEnd(text, old(data) + 1).Some? then
                var e := StringEnd(text, old(data) + 1).value;
                && Unread() && data == e + 1 && r == RString(old(data) + 1, e)
                && WellEscaped(text[old(data) + 1..e])
                && (forall i :: old(data) < i < e ==> buf[i] == text[i])
                && (buf[old(data)] == NO_ESCAPES ==> '\\' !in text[old(data) + 1..e])
              else r == RError
    {
      hide UnitLength, WellEscaped, StringEnd;
      var ok := Consume('"');
      if !ok { return RError; }
      var start := data;
      var found, escapes := FindQuote();
      if !found { return RError; }
      StringWellEscaped(text, start);
      buf[data] := '\0';
      buf[start - 1] := if escapes then ESCAPES else NO_ESCAPES;
      data := data + 1;
      return RString(start, data - 1);
    }

    method DecodeNumber() returns (r: RValue)
      requires Unread()
      modifies this`data
      ensures match NumberEnd(text, old(data), Minus)
              case None => r == RError
              case Some(e) => data == e && Unread() && r == RNumber(old(data), e)
    {
      hide NumberEnd;
      var start := data;
      var state := Minus;
      while state != Invalid
        invariant Unread() && NumberEnd(text, data, state) == NumberEnd(text, start, Minus)
        decreases |text| - data, if state == Invalid then 0 else 1
      {
        NumberStep(text, data, state);
        var c := Peek(0);
        if c == '0' {
          state := AfterZero(state);
        } else if '1' <= c <= '9' {
          state := AfterDigit(state);
          ghost var first := data + 1;
          while IsDigit(Peek(1))
            invariant Unread() && data < |text| && DigitsEnd(text, data + 1) == DigitsEnd(text, first)
            decreases |text| - data
          {
            data := data + 1;
          }
        } else if c == '.' {
          state := AfterPoint(state);
        } else if c == '-' || c == '+' {
          state := AfterSign(state, c == '-');
        } else if c == 'e' || c == 'E' {
          state := AfterE(state);
        } else if Accepts(state) {
          return RNumber(start, data);
        } else {
          return RError;
        }
        data := data + 1;
      }
      NumberInvalid(text, data);
      return RError;
    }

    /** What was read from position `lo` on is what the grammar says. */
    ghost predicate Result(p: Option<(Json, nat)>, r: RValue, lo: nat)
      reads this, buf
    {
      match p
      case None => r == RError
      case Some((j, e)) => data == e && Unread() && r != RError && Within(r, lo, e) && Denotes(r, buf[..], j)
    }

    method DecodeValue(depth: nat) returns (r: RValue)
      requires Unread()
      modifies this`data, buf
      ensures forall i :: 0 <= i < old(data) ==> buf[i] == old(buf[i])
      ensures Result(ParseValue(text, old(data), depth), r, old(data))
      decreases |text| - data, 3
    {
      hide ParseItems, ParseMembers, StringEnd, NumberEnd, UnitLength, Unescaped, WellEscaped;
      ghost var lo := data;
      match Peek(0) {
        case '[' => r := DecodeList(depth + 1);
        case '{' => r := DecodeObject(depth + 1);
        case '"' =>
          r := DecodeString();
          if r != RError { StringDenotes(buf[..], text, lo, r.end); }
        case 't' => r := DecodeWord("true", RTrue, JTrue);
        case 'f' => r := DecodeWord("false", RFalse, JFalse);
        case 'n' => r := DecodeWord("null", RNull, JNull);
        case _ =>
          NumberStep(text, data, Minus);
          r := DecodeNumber();
          if r != RError { assert buf[..][lo..r.end] == text[lo..r.end]; }
      }
    }

    method DecodeWord(word: string, v: RValue, ghost j: Json) returns (r: RValue)
      requires Unread() && word != "" && '\0' !in word && Peek(0) == word[0]
      requires (v == RNull && j == JNull) || (v == RTrue && j == JTrue) || (v == RFalse && j == JFalse)
      modifies this`data
      ensures Result(ParseWord(text, old(data), word, j), r, old(data))
    {
      var k := 1;
      while k < |word| && Peek(k) == word[k]
        invariant 1 <= k <= |word| && forall i :: 0 <= i < k ==> At(text, data + i) == word[i]
      {
        k := k + 1;
      }
      WordAt(text, data, word, k);
      if k < |word| { return RError; }
      data := data + |word|;
      return v;
    }

    method DecodeList(depth: nat) returns (r: RValue)
      requires Unread() && Peek(0) == '[' && depth > 0
      modifies this`data, buf
      ensures forall i :: 0 <= i < old(data) ==> buf[i] == old(buf[i])
      ensures Result(ParseValue(text, old(data), depth - 1), r, old(data))
      decreases |text| - data, 2
    {
      hide ParseItems, ParseMembers, StringEnd, NumberEnd, UnitLength, Unescaped, WellEscaped, Denotes, Within,
           AllDenote, AllWithin;
      ghost var lo := data;
      var ok := Consume('[');
      if depth > MAX_DEPTH { return RError; }
      WsSkip();
      var items: seq<RValue> := [];
      ghost var js: seq<Json> := [];
      NoItems(buf[..], lo, data + 1);
      if Peek(0) == ']' {
        data := data + 1;
        ListDenotes([], buf[..], [], lo, data);
        return RList([]);
      }
      ghost var whole := ParseItems(text, data, depth, []);
      assert whole == ParseValue(text, lo, depth - 1);
      hide ParseValue;
      NoItems(buf[..], lo, data);
      var done := false;
      while !done
        invariant lo < data && Unread() && forall i :: 0 <= i < lo ==> buf[i] == old(buf[i])
        invariant if done then whole == Some((JList(js), data)) else ParseItems(text, data, depth, js) == whole
        invariant AllDenote(items, buf[..], js) && AllWithin(items, lo, data)
        decreases |text| - data
      {
        ok, done, items, js := NextItems(depth, items, js, lo);
        if !ok { return RError; }
      }
      ListDenotes(items, buf[..], js, lo, data);
      return RList(items);
    }

    /** One more of them, and the comma or bracket after it. */
    method NextItems(depth: nat, items: seq<RValue>, ghost js: seq<Json>, ghost lo: nat)
      returns (ok: bool, done: bool, items': seq<RValue>, ghost js': seq<Json>)
      requires Unread() && lo < data && AllDenote(items, buf[..], js) && AllWithin(items, lo, data)
      modifies this`data, buf
      ensures forall i :: 0 <= i < old(data) ==> buf[i] == old(buf[i])
      ensures ok ==> old(data) < data && Unread() && AllDenote(items', buf[..], js') && AllWithin(items', lo, data)
      ensures ParseItems(text, old(data), depth, js) ==
              if !ok then None else if done then Some((JList(js'), data)) else ParseItems(text, data, depth, js')
      decreases |text| - data, 5
    {
      hide ParseItems, ParseMembers, ParseMember, ParseValue, Denotes, Within, MemberDenotes, MemberWithin, AllDenote,
           AllWithin;
      ghost var before, mid := buf[..], data;
      ItemUnfold(text, data, depth, js);
      var v := DecodeValue(depth + 1);
      if v == RError { return false, false, items, js; }
      ghost var j := ParseValue(text, mid, depth + 1).value.0;
      OneMoreItem(items, v, before, buf[..], js, j, lo, mid, data);
      items', js' := items + [v], js + [j];
      mid := data;
      WsSkip();
      AllWider(items', lo, mid, data + 1);
      if Peek(0) == ']' {
        data := data + 1;
        return true, true, items', js';
      }
      ok := Consume(',');
      if !ok { return false, false, items, js; }
      mid := data;
      WsSkip();
      AllWider(items', lo, mid, data);
      return true, false, items', js';
    }

    method DecodeObject(depth: nat) returns (r: RValue)
      requires Unread() && Peek(0) == '{' && depth > 0
      modifies this`data, buf
      ensures forall i :: 0 <= i < old(data) ==> buf[i] == old(buf[i])
      ensures Result(ParseValue(text, old(data), depth - 1), r, old(data))
      decreases |text| - data, 2
    {
      hide ParseItems, ParseMembers, StringEnd, NumberEnd, UnitLength, Unescaped, WellEscaped;
      hide Denotes, Within, MembersDenote, MembersWithin;
      ghost var lo := data;
      var ok := Consume('{');
      if depth > MAX_DEPTH { return RError; }
      WsSkip();
      var members: seq<RMember> := [];
      ghost var js: seq<JMember> := [];
      NoMembers(buf[..], lo, data + 1);
      if Peek(0) == '}' {
        data := data + 1;
        ObjectDenotes([], buf[..], [], lo, data);
        return RObject([]);
      }
      ghost var whole := ParseMembers(text, data, depth, []);
      assert whole == ParseValue(text, lo, depth - 1);
      hide ParseValue;
      NoMembers(buf[..], lo, data);
      var done := false;
      while !done
        invariant lo < data && Unread() && forall i :: 0 <= i < lo ==> buf[i] == old(buf[i])
        invariant if done then whole == Some((JObject(js), data)) else ParseMembers(text, data, depth, js) == whole
        invariant MembersDenote(members, buf[..], js) && MembersWithin(members, lo, data)
        decreases |text| - data
      {
        ok, done, members, js := NextMembers(depth, members, js, lo);
        if !ok { return RError; }
      }
      ObjectDenotes(members, buf[..], js, lo, data);
      return RObject(members);
    }

    /** One more of them, and the comma or bracket after it. */
    method NextMembers(depth: nat, members: seq<RMember>, ghost js: seq<JMember>, ghost lo: nat)
      returns (ok: bool, done: bool, members': seq<RMember>, ghost js': seq<JMember>)
      requires Unread() && lo < data && MembersDenote(members, buf[..], js) && MembersWithin(members, lo, data)
      modifies this`data, buf
      ensures forall i :: 0 <= i < old(data) ==> buf[i] == old(buf[i])
      ensures ok ==>
                old(data) < data && Unread() && MembersDenote(members', buf[..], js')
                && MembersWithin(members', lo, data)
      ensures ParseMembers(text, old(data), depth, js) ==
              if !ok then None else if done then Some((JObject(js'), data)) else ParseMembers(text, data, depth, js')
      decreases |text| - data, 5
    {
      hide ParseItems, ParseMembers, ParseMember, ParseValue;
      hide Denotes, Within, MemberDenotes, MemberWithin, MembersDenote, MembersWithin;
      ghost var before, mid := buf[..], data;
      MemberUnfold(text, data, depth, js);
      ghost var j;
      var v;
      v, j := DecodeMember(depth);
      if v.value == RError { return false, false, members, js; }
      OneMoreMember(members, v, before, buf[..], js, j, lo, mid, data);
      members', js' := members + [v], js + [j];
      mid := data;
      WsSkip();
      MembersWider(members', lo, mid, data + 1);
      if Peek(0) == '}' {
        data := data + 1;
        return true, true, members', js';
      }
      ok := Consume(',');
      if !ok { return false, false, members, js; }
      mid := data;
      WsSkip();
      MembersWider(members', lo, mid, data);
      return true, false, members', js';
    }

    /** A key, a colon and a value; the escapes of the key are undone at once. */
    method DecodeMember(depth: nat) returns (r: RMember, ghost j: JMember)
      requires Unread()
      modifies this`data, buf
      ensures forall i :: 0 <= i < old(data) ==> buf[i] == old(buf[i])
      ensures match ParseMember(text, old(data), depth)
              case None => r.value == RError
              case Some((m, e)) => && data == e && Unread() && r.value != RError && j == m
                                   && MemberWithin(r, old(data), e) && MemberDenotes(r, buf[..], m)
      decreases |text| - data, 4
    {
      hide ParseValue, StringEnd, UnitLength, WellEscaped, Unescaped, Denotes, Within;
      var bad := RMember(0, 0, RError);
      j := JMember("", JNull);
      ghost var lo := data;
      var t := DecodeString();
      if t == RError { return bad, j; }
      ghost var key := Unescaped(text[lo + 1..t.end]);
      WsSkip();
      var ok := Consume(':');
      if !ok { return bad, j; }
      var keyEnd := KeyOf(t, lo);
      WsSkip();
      ghost var before, mid := buf[..], data;
      var v := DecodeValue(depth + 1);
      if v == RError { return bad, j; }
      j := JMember(key, ParseValue(text, mid, depth + 1).value.0);
      KeyKept(before, buf[..], t.start, keyEnd, mid, key);
      WithinWider(v, mid, data, lo, data);
      return RMember(t.start, keyEnd, v), j;
    }

    /** Undoes the escapes of a key that was just read. */
    method KeyOf(t: RValue, ghost lo: nat) returns (keyEnd: nat)
      requires Unread() && t.RString? && t.start == lo + 1 && t.start <= t.end < data
      requires WellEscaped(text[t.start..t.end]) && forall i :: t.start <= i < t.end ==> buf[i] == text[i]
      requires buf[lo] == NO_ESCAPES ==> '\\' !in text[t.start..t.end]
      modifies buf
      ensures Unread() && t.start <= keyEnd <= t.end && forall i :: 0 <= i < lo ==> buf[i] == old(buf[i])
      ensures buf[t.start..keyEnd] == Unescaped(text[t.start..t.end])
    {
      hide UnitLength, Unescaped, WellEscaped;
      assert buf[t.start..t.end] == text[t.start..t.end];
      if buf[lo] == NO_ESCAPES { NoBackslash(text[t.start..t.end]); }
      keyEnd := Unescape(buf, t.start, t.end);
    }
  }

  /** One step of the search for the end of a string. */
  lemma StringStep(t: string, i: nat)
    requires i <= |t|
    ensures At(t, i) == '"' ==> i < |t| && StringEnd(t, i) == Some(i)
    ensures At(t, i) == '\0' ==> StringEnd(t, i) == None
    ensures At(t, i) != '"' && At(t, i) != '\\' && At(t, i) != '\0' ==>
            i < |t| && StringEnd(t, i) == StringEnd(t, i + 1)
    ensures At(t, i) == '\\' ==>
              if At(t, i + 1) == 'u' then
                if IsHex(At(t, i + 2)) && IsHex(At(t, i + 3)) && IsHex(At(t, i + 4)) && IsHex(At(t, i + 5)) then
                  i + 6 <= |t| && StringEnd(t, i) == StringEnd(t, i + 6)
                else StringEnd(t, i) == None
              else if IsSimpleEscape(At(t, i + 1)) then i + 2 <= |t| && StringEnd(t, i) == StringEnd(t, i + 2)
              else StringEnd(t, i) == None
  {
  }

  lemma NumberStep(t: string, i: nat, st: NumberState)
    requires i <= |t| && st != Invalid
    ensures var c := At(t, i);
            NumberEnd(t, i, st) ==
            if c == '0' && i < |t| then NumberEnd(t, i + 1, AfterZero(st))
            else if '1' <= c <= '9' && i < |t| then NumberEnd(t, DigitsEnd(t, i + 1), AfterDigit(st))
            else if c == '.' && i < |t| then NumberEnd(t, i + 1, AfterPoint(st))
            else if (c == '-' || c == '+') && i < |t| then NumberEnd(t, i + 1, AfterSign(st, c == '-'))
            else if (c == 'e' || c == 'E') && i < |t| then NumberEnd(t, i + 1, AfterE(st))
            else if Accepts(st) then Some(i) else None
  {
  }

  lemma NumberInvalid(t: string, i: nat)
    requires i <= |t|
    ensures NumberEnd(t, i, Invalid) == None
  {
  }

  lemma WordAt(t: string, i: nat, word: string, k: nat)
    requires i <= |t| && 1 <= k <= |word| && '\0' !in word && forall j :: 0 <= j < k ==> At(t, i + j) == word[j]
    requires k < |word| ==> At(t, i + k) != word[k]
    ensures Holds(t, i, word) <==> k == |word|
  {
    if k == |word| {
      assert word[|word| - 1] in word;
      assert t[i..i + |word|] == word;
    } else if Holds(t, i, word) {
      CharAt(t, i, word, k);
    }
  }

  /** A key, a colon and a value. */
  function ParseMember(t: string, i: nat, d: nat): (r: Option<(JMember, nat)>)
    requires i <= |t|
    ensures r.Some? ==> i < r.value.1 <= |t|
  {
    if At(t, i) != '"' || i == |t| then None
    else
      match StringEnd(t, i + 1)
      case None => None
      case Some(e) =>
        StringWellEscaped(t, i + 1);
        var c := SkipSpace(t, e + 1);
        if At(t, c) != ':' || c == |t| then None
        else
          match ParseValue(t, SkipSpace(t, c + 1), d + 1)
          case None => None
          case Some((v, f)) => Some((JMember(Unescaped(t[i + 1..e]), v), f))
  }

  lemma ItemUnfold(t: string, i: nat, d: nat, acc: seq<Json>)
    requires i <= |t|
    ensures ParseItems(t, i, d, acc) ==
            match ParseValue(t, i, d + 1)
            case None => None
            case Some((v, e)) =>
              var j := SkipSpace(t, e);
              if At(t, j) == ']' then Some((JList(acc + [v]), j + 1))
              else if At(t, j) == ',' then ParseItems(t, SkipSpace(t, j + 1), d, acc + [v])
              else None
  {
    hide ParseValue;
  }

  lemma MemberUnfold(t: string, i: nat, d: nat, acc: seq<JMember>)
    requires i <= |t|
    ensures ParseMembers(t, i, d, acc) ==
            match ParseMember(t, i, d)
            case None => None
            case Some((m, f)) =>
              var j := SkipSpace(t, f);
              if At(t, j) == '}' then Some((JObject(acc + [m]), j + 1))
              else if At(t, j) == ',' then ParseMembers(t, SkipSpace(t, j + 1), d, acc + [m])
              else None
  {
    hide ParseValue, StringEnd, UnitLength, Unescaped, WellEscaped;
  }

  lemma NoItems(b: string, lo: nat, hi: nat)
    ensures AllDenote([], b, []) && AllWithin([], lo, hi)
  {
  }

  lemma NoMembers(b: string, lo: nat, hi: nat)
    ensures MembersDenote([], b, []) && MembersWithin([], lo, hi)
  {
  }

  lemma AllWider(rs: seq<RValue>, lo: nat, hi: nat, hi': nat)
    requires AllWithin(rs, lo, hi) && hi <= hi'
    ensures AllWithin(rs, lo, hi')
  {
    forall i | 0 <= i < |rs| ensures Within(rs[i], lo, hi') { WithinWider(rs[i], lo, hi, lo, hi'); }
  }

  lemma MembersWider(rs: seq<RMember>, lo: nat, hi: nat, hi': nat)
    requires MembersWithin(rs, lo, hi) && hi <= hi'
    ensures MembersWithin(rs, lo, hi')
  {
    forall i | 0 <= i < |rs| ensures MemberWithin(rs[i], lo, hi') { MemberWider(rs[i], lo, hi, lo, hi'); }
  }

  lemma ListDenotes(rs: seq<RValue>, b: string, js: seq<Json>, lo: nat, hi: nat)
    requires AllDenote(rs, b, js) && AllWithin(rs, lo, hi)
    ensures Denotes(RList(rs), b, JList(js)) && Within(RList(rs), lo, hi)
  {
  }

  lemma ObjectDenotes(rs: seq<RMember>, b: string, js: seq<JMember>, lo: nat, hi: nat)
    requires MembersDenote(rs, b, js) && MembersWithin(rs, lo, hi)
    ensures Denotes(RObject(rs), b, JObject(js)) && Within(RObject(rs), lo, hi)
  {
  }

  lemma KeyKept(b: string, c: string, s: nat, e: nat, mid: nat, key: string)
    requires s <= e <= mid <= |b| == |c| && Agree(b, c, 0, mid) && b[s..e] == key
    ensures c[s..e] == key
  {
    SameSlice(b, c, 0, mid, s, e);
  }

  /** Loads a text: the buffer is a copy with the character 0 at its end. */
  method LoadText(t: string) returns (r: RValue, buf: array<char>)
    ensures match Load(t)
            case None => r == RError
            case Some(j) => r != RError && Denotes(r, buf[..], j)
  {
    hide ParseValue, Denotes, Within;
    buf := new char[|t| + 1](i requires 0 <= i <= |t| => if i < |t| then t[i] else '\0');
    assert buf[..|t|] == t;
    var p := new Parser(buf, t);
    p.WsSkip();
    r := p.DecodeValue(0);
    if r == RError { return; }
    p.WsSkip();
    if p.Peek(0) != '\0' { r := RError; }
  }

  /** The text of a string value that was read. Asking again changes nothing more. */
  method TextOf(buf: array<char>, r: RValue, ghost s: string) returns (end': nat)
    requires r.RString? && Denotes(r, buf[..], JString(s))
    modifies buf
    ensures r.start <= end' <= r.end && buf[r.start..end'] == s
    ensures forall i :: 0 <= i < r.start - 1 || r.end < i < buf.Length ==> buf[i] == old(buf[i])
    ensures Denotes(RString(r.start, end'), buf[..], JString(s)) && buf[r.start - 1] == NO_ESCAPES
  {
    hide WellEscaped, Unescaped, UnitLength;
    assert buf[r.start..r.end] == buf[..][r.start..r.end];
    end' := Unescape(buf, r.start, r.end);
    assert buf[r.start..end'] == buf[..][r.start..end'];
  }

  lemma StringDenotes(b: string, text: string, lo: nat, e: nat)
    requires lo < e < |b| && e < |text| && WellEscaped(text[lo + 1..e]) && forall i :: lo < i < e ==> b[i] == text[i]
    requires b[lo] == NO_ESCAPES ==> '\\' !in text[lo + 1..e]
    ensures Denotes(RString(lo + 1, e), b, JString(Unescaped(text[lo + 1..e])))
  {
    hide WellEscaped, Unescaped, UnitLength;
    assert b[lo + 1..e] == text[lo + 1..e];
    if b[lo] == NO_ESCAPES { NoBackslash(text[lo + 1..e]); }
  }

  /** What was written is loaded as the value it was, in a buffer of its own, unless it is nested too deep. */
  method WriteAndLoad(v: Value) returns (r: RValue, buf: array<char>)
    ensures if Levels(v) <= 5000 then r != RError && Denotes(r, buf[..], JsonOf(v)) else r == RError
  {
    hide Denotes, Dump, Load;
    var w := new Writer();
    w.DumpInternal(v);
    assert "" + Dump(v) == Dump(v);
    LoadDump(v);
    r, buf := LoadText(w.out);
  }

  // ---- the array of a list ----

  /** The items of a list: an array that grows by doubling, but by no more than 60000 places at once. */
  class Items<T(0)> {
    var l: array<T>
    var lsize: nat
    var lremain: nat

    ghost predicate Valid()
      reads this
    {
      lsize + lremain == l.Length
    }

    ghost function Contents(): seq<T>
      reads this, l
      requires Valid()
    {
      l[..lsize]
    }

    constructor ()
      ensures Valid() && Contents() == [] && fresh(l)
    {
      l := new T[0];
      lsize, lremain := 0, 0;
    }

    method EmplaceBack(v: T)
      requires Valid()
      modifies this, l
      ensures Valid() && Contents() == old(Contents()) + [v]
      ensures l == old(l)
              || (fresh(l) && (l.Length == 4 || old(lsize) < l.Length <= 2 * old(lsize))
              && l.Length <= old(lsize) + 60000)
    {
      if lremain == 0 {
        var newSize := lsize + lsize;
        if newSize - lsize > 60000 { newSize := lsize + 60000; }
        if newSize < 4 { newSize := 4; }
        var p := new T[newSize];
        for i := 0 to lsize
          invariant forall j :: 0 <= j < i ==> p[j] == l[j]
          modifies p
        {
          p[i] := l[i];
        }
        l := p;
        lremain := newSize - lsize;
      }
      l[lsize] := v;
      lsize := lsize + 1;
      lremain := lremain - 1;
    }
  }
}
