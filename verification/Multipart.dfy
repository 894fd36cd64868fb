/** Multipart messages (section 5.1.1 of RFC 2046): how they are written and how they are taken
    apart again by searching for separators and erasing what was read. */
module Multipart {
  import opened Options
  import opened TextAt

  datatype Param = Param(name: string, value: string)

  datatype Header = Header(value: string, params: seq<Param>)

  datatype Field = Field(key: string, header: Header)

  datatype Part = Part(fields: seq<Field>, body: string)

  const CRLF := "\r\n"
  const DASHES := "--"

  // ---- searching ----

  /** The first place from `i` on where `pattern` stands, or the end of the text. */
  function Find(s: string, pattern: string, i: nat): (r: nat)
    requires i <= |s| && pattern != ""
    ensures i <= r <= |s|
    ensures r < |s| ==> Holds(s, r, pattern) && r + |pattern| <= |s|
    ensures forall j :: i <= j < r ==> !Holds(s, j, pattern)
    decreases |s| - i
  {
    if i == |s| || Holds(s, i, pattern) then i else Find(s, pattern, i + 1)
  }

  lemma FindIs(s: string, pattern: string, i: nat, r: nat)
    requires i <= r && pattern != "" && Holds(s, r, pattern) && forall j :: i <= j < r ==> !Holds(s, j, pattern)
    ensures r < |s| && Find(s, pattern, i) == r
  {
  }

  lemma FindNone(s: string, pattern: string)
    requires pattern != "" && forall j :: 0 <= j < |s| ==> !Holds(s, j, pattern)
    ensures Find(s, pattern, 0) == |s|
  {
  }

  // ---- writing ----

  function Pad(s: string): string { "\"" + s + "\"" }

  function DumpParam(p: Param): string { "; " + (p.name + ("=" + Pad(p.value))) }

  function DumpParams(ps: seq<Param>): string {
    if ps == [] then "" else DumpParam(ps[0]) + DumpParams(ps[1..])
  }

  /** A header line without its end. */
  function DumpLine(f: Field): string { f.key + ": " + f.header.value + DumpParams(f.header.params) }

  function DumpFields(fs: seq<Field>): string {
    if fs == [] then "" else DumpLine(fs[0]) + CRLF + DumpFields(fs[1..])
  }

  function DumpPart(p: Part): string { DumpFields(p.fields) + CRLF + p.body + CRLF }

  function DumpParts(parts: seq<Part>, delimiter: string): string {
    if parts == [] then delimiter + DASHES + CRLF
    else delimiter + CRLF + DumpPart(parts[0]) + DumpParts(parts[1..], delimiter)
  }

  // ---- reading ----

  function Trim(s: string): string {
    if |s| > 1 && s[0] == '"' && s[|s| - 1] == '"' then s[1..|s| - 1] else s
  }

  predicate HasName(ps: seq<Param>, name: string) {
    exists i :: 0 <= i < |ps| && ps[i].name == name
  }

  /** Adds a parameter, unless there is one of that name. */
  function Emplace(ps: seq<Param>, p: Param): seq<Param> {
    if HasName(ps, p.name) then ps else ps + [p]
  }

  /** What comes after the separator, if there is one. */
  function Beyond(s: string, at: nat): string
    requires at <= |s|
  {
    if at + 2 <= |s| then s[at + 2..] else ""
  }

  function ParseParam(param: string): Param {
    var split := Find(param, "=", 0);
    Param(param[..split], Trim(if split < |param| then param[split + 1..] else param))
  }

  function ParseParams(line: string, ps: seq<Param>): seq<Param>
    decreases |line|
  {
    if line == "" then ps
    else
      var found := Find(line, "; ", 0);
      ParseParams(Beyond(line, found), Emplace(ps, ParseParam(line[..found])))
  }

  /** A header line; it throws if it begins with the separator of parameters. */
  function ParseLine(line: string): Option<Field> {
    if line == "" then Some(Field("", Header("", [])))
    else
      var found := Find(line, "; ", 0);
      var header := line[..found];
      var split := Find(header, ": ", 0);
      if header == "" then None
      else
        var value := if split < |header| then header[split + 2..] else header[1..];
        Some(Field(header[..split], Header(value, ParseParams(Beyond(line, found), []))))
  }

  /** The header lines. A line without an end is read again from its second character. */
  function ParseHead(lines: string, fields: seq<Field>): Option<seq<Field>>
    decreases |lines|
  {
    if lines == "" then Some(fields)
    else
      var found := Find(lines, CRLF, 0);
      match ParseLine(lines[..found])
      case None => None
      case Some(f) => ParseHead(if found < |lines| then lines[found + 2..] else lines[1..], fields + [f])
  }

  function DropLast2(s: string): string { if |s| < 2 then s else s[..|s| - 2] }

  function From(s: string, i: nat): string { if i <= |s| then s[i..] else "" }

  function ParseSection(section: string): Option<Part> {
    var found := Find(section, CRLF + CRLF, 0);
    var none := found == |section|;
    var head := if none then (if |section| < 1 then section else section[..1]) else section[..found + 2];
    var body := if none then From(section, 3) else section[found + 4..];
    match ParseHead(head, [])
    case None => None
    case Some(fs) => Some(Part(fs, DropLast2(body)))
  }

  // ---- the name of a part ----

  function Upper(c: char): char { if 'a' <= c <= 'z' then c - 32 as char else c }

  predicate SameKey(a: string, b: string) {
    |a| == |b| && forall i :: 0 <= i < |a| ==> Upper(a[i]) == Upper(b[i])
  }

  /** The parameters of the first header of this key, whatever the case of its letters. */
  function ParamsOf(fs: seq<Field>, key: string): seq<Param> {
    if fs == [] then []
    else if SameKey(fs[0].key, key) then fs[0].header.params
    else ParamsOf(fs[1..], key)
  }

  function ValueOf(ps: seq<Param>, name: string): Option<string> {
    if ps == [] then None
    else if ps[0].name == name then Some(ps[0].value)
    else ValueOf(ps[1..], name)
  }

  /** The name under which a part is kept, if it has one. */
  function NameOf(p: Part): Option<string> { ValueOf(ParamsOf(p.fields, "Content-Disposition"), "name") }

  predicate AllNamed(parts: seq<Part>) { forall i :: 0 <= i < |parts| ==> NameOf(parts[i]).Some? }

  /** The parts of a body; what follows the last delimiter is ignored. There are none if a header line
      throws, or a part has no name: the source then uses the end of a map as if it were an entry. */
  function ParseBody(body: string, delimiter: string, parts: seq<Part>): Option<seq<Part>>
    requires delimiter != ""
    decreases |body|
  {
    if body == CRLF || body == "" then Some(parts)
    else
      var found := Find(body, delimiter, 0);
      if found == |body| then Some(parts)
      else
        var rest := From(body, found + |delimiter| + 2);
        if found == 0 then ParseBody(rest, delimiter, parts)
        else
          match ParseSection(body[..found])
          case None => None
          case Some(p) => if NameOf(p).None? then None else ParseBody(rest, delimiter, parts + [p])
  }

  // ---- what may be written ----

  /** The pattern does not occur. */
  predicate Avoids(s: string, pattern: string) {
    forall j :: 0 <= j < |s| ==> !Holds(s, j, pattern)
  }

  predicate CleanParam(p: Param) {
    && Avoids(p.name, "; ") && '=' !in p.name && Avoids(p.name, CRLF)
    && Avoids(p.value, "; ") && Avoids(p.value, CRLF)
  }

  predicate CleanParams(ps: seq<Param>) {
    && (forall i :: 0 <= i < |ps| ==> CleanParam(ps[i]))
    && (forall i, j :: 0 <= i < j < |ps| ==> ps[i].name != ps[j].name)
  }

  /** A header whose texts hold none of the separators that are written between them. */
  predicate CleanField(f: Field) {
    && Avoids(f.key, "; ") && Avoids(f.key, ": ") && Avoids(f.key, CRLF)
    && Avoids(f.header.value, "; ") && Avoids(f.header.value, CRLF)
    && CleanParams(f.header.params)
  }

  predicate CleanPart(p: Part) {
    forall i :: 0 <= i < |p.fields| ==> CleanField(p.fields[i])
  }

  /** Before the delimiter that is written after it the section holds none, nor the beginning of one. */
  predicate Separate(section: string, delimiter: string) {
    forall j :: 0 <= j < |section| ==> !Holds(section + delimiter, j, delimiter)
  }

  predicate Writable(parts: seq<Part>, delimiter: string) {
    forall i :: 0 <= i < |parts| ==> CleanPart(parts[i]) && Separate(DumpPart(parts[i]), delimiter)
  }

  // ---- two-character separators ----

  lemma HoldsPair(s: string, j: nat, a: char, b: char)
    ensures Holds(s, j, [a, b]) <==> j + 1 < |s| && s[j] == a && s[j + 1] == b
  {
    if j + 1 < |s| { assert s[j..j + 2] == [s[j], s[j + 1]]; }
  }

  /** Two texts without a separator make one without, if it does not arise where they meet. */
  lemma AvoidsJoin(s: string, t: string, a: char, b: char)
    requires Avoids(s, [a, b]) && Avoids(t, [a, b])
    requires s == "" || t == "" || s[|s| - 1] != a || t[0] != b
    ensures Avoids(s + t, [a, b])
  {
    forall j | 0 <= j < |s + t|
      ensures !Holds(s + t, j, [a, b])
    {
      HoldsPair(s + t, j, a, b);
      if j < |s| { HoldsPair(s, j, a, b); } else { HoldsPair(t, j - |s|, a, b); }
    }
  }

  /** The first separator after a text without one. */
  lemma FindAfter(s: string, rest: string, a: char, b: char)
    requires Avoids(s, [a, b]) && a != b
    ensures Find(s + [a, b] + rest, [a, b], 0) == |s| && |s| < |s + [a, b] + rest|
  {
    var all := s + [a, b] + rest;
    forall j | 0 <= j < |s|
      ensures !Holds(all, j, [a, b])
    {
      HoldsPair(all, j, a, b);
      HoldsPair(s, j, a, b);
    }
    HoldsPair(all, |s|, a, b);
    FindIs(all, [a, b], 0, |s|);
  }

  // ---- parameters ----

  lemma ParamRead(p: Param)
    requires CleanParam(p)
    ensures ParseParam(p.name + ("=" + Pad(p.value))) == p
    ensures Avoids(p.name + ("=" + Pad(p.value)), "; ") && Avoids(p.name + ("=" + Pad(p.value)), CRLF)
  {
    var value := "=" + Pad(p.value);
    var text := p.name + value;
    forall j | 0 <= j < |p.name|
      ensures !Holds(text, j, "=")
    {
      assert text[j] == p.name[j] && p.name[j] in p.name;
      if Holds(text, j, "=") { CharAt(text, j, "=", 0); }
    }
    assert text[|p.name|..|p.name| + 1] == "=";
    FindIs(text, "=", 0, |p.name|);
    assert text[..|p.name|] == p.name && text[|p.name| + 1..] == Pad(p.value);
    assert Pad(p.value)[1..|Pad(p.value)| - 1] == p.value;
    PadAvoids(p.value, ';', ' ');
    PadAvoids(p.value, '\r', '\n');
    AvoidsJoin(p.name, value, ';', ' ');
    AvoidsJoin(p.name, value, '\r', '\n');
  }

  lemma PadAvoids(v: string, a: char, b: char)
    requires Avoids(v, [a, b]) && a != '"' && b != '"' && a != '='
    ensures Avoids("=" + Pad(v), [a, b])
  {
    AvoidsOne('"', a, b);
    AvoidsJoin("\"", v, a, b);
    AvoidsJoin("\"" + v, "\"", a, b);
    AvoidsOne('=', a, b);
    AvoidsJoin("=", Pad(v), a, b);
  }

  lemma AvoidsOne(c: char, a: char, b: char)
    ensures Avoids([c], [a, b])
  {
  }

  function ParamText(p: Param): string { p.name + ("=" + Pad(p.value)) }

  /** The parameters without the separator before the first one. */
  function Tail(ps: seq<Param>): string {
    if ps == [] then "" else ParamText(ps[0]) + DumpParams(ps[1..])
  }

  lemma DumpParamsIs(ps: seq<Param>)
    ensures DumpParams(ps) == if ps == [] then "" else "; " + Tail(ps)
  {
    if ps != [] { assert "; " + ParamText(ps[0]) + DumpParams(ps[1..]) ==
        "; " + (ParamText(ps[0]) + DumpParams(ps[1..])); }
  }

  /** A text without separators, and then parameters or nothing. */
  lemma SplitFirst(s: string, ps: seq<Param>)
    requires Avoids(s, "; ")
    ensures var all := s + DumpParams(ps);
            Find(all, "; ", 0) == |s| && all[..|s|] == s && Beyond(all, |s|) == Tail(ps)
  {
    hide Find, Holds, Tail, DumpParams;
    DumpParamsIs(ps);
    if ps == [] {
      assert s + "" == s;
      FindNone(s, "; ");
      assert Tail(ps) == "" by { TailNone(); }
    } else {
      FindAfter(s, Tail(ps), ';', ' ');
      assert s + "; " + Tail(ps) == s + ("; " + Tail(ps));
    }
  }

  lemma TailNone()
    ensures Tail([]) == ""
  {
  }

  /** No name of the one list is a name of the other. */
  predicate Apart(acc: seq<Param>, ps: seq<Param>) {
    forall i, j :: 0 <= i < |acc| && 0 <= j < |ps| ==> acc[i].name != ps[j].name
  }

  lemma ApartStep(acc: seq<Param>, ps: seq<Param>)
    requires ps != [] && Apart(acc, ps) && CleanParams(ps)
    ensures CleanParams(ps[1..]) && Apart(acc + [ps[0]], ps[1..]) && !HasName(acc, ps[0].name)
  {
    hide CleanParam;
  }

  lemma {:induction false} ParamsRead(ps: seq<Param>, acc: seq<Param>)
    requires CleanParams(ps) && Apart(acc, ps)
    ensures ParseParams(Tail(ps), acc) == acc + ps
    decreases |ps|
  {
    hide Trim, Avoids, Find, Beyond, Holds, CleanParam, CleanParams, ParamText, Apart, HasName, DumpParams, Pad,
         ParseParam;
    if ps == [] {
      assert acc + ps == acc;
    } else {
      FirstParam(ps);
      SplitFirst(ParamText(ps[0]), ps[1..]);
      ApartStep(acc, ps);
      ParseParamsStep(ps, acc);
      ParamsRead(ps[1..], acc + [ps[0]]);
      assert acc + [ps[0]] + ps[1..] == acc + ps;
    }
  }

  lemma FirstParam(ps: seq<Param>)
    requires CleanParams(ps) && ps != []
    ensures ParseParam(ParamText(ps[0])) == ps[0] && ParamText(ps[0]) != ""
    ensures Avoids(ParamText(ps[0]), "; ") && Avoids(ParamText(ps[0]), CRLF)
  {
    ParamRead(ps[0]);
  }

  /** One parameter is taken off the front. */
  lemma ParseParamsStep(ps: seq<Param>, acc: seq<Param>)
    requires ps != [] && ParseParam(ParamText(ps[0])) == ps[0] && ParamText(ps[0]) != ""
    requires var t := Tail(ps);
             Find(t, "; ", 0) == |ParamText(ps[0])| && t[..|ParamText(ps[0])|] == ParamText(ps[0])
             && Beyond(t, |ParamText(ps[0])|) == Tail(ps[1..])
    requires !HasName(acc, ps[0].name)
    ensures ParseParams(Tail(ps), acc) == ParseParams(Tail(ps[1..]), acc + [ps[0]])
  {
    hide Find, Beyond, ParseParam, ParamText, DumpParams, HasName;
  }

  lemma CleanRest(ps: seq<Param>)
    requires CleanParams(ps) && ps != []
    ensures CleanParams(ps[1..]) && forall j :: 0 <= j < |ps[1..]| ==> ps[0].name != ps[1..][j].name
  {
    hide CleanParam;
  }

  // ---- headers ----

  lemma SeparatorsAvoid()
    ensures Avoids("; ", CRLF) && Avoids(": ", CRLF) && Avoids(": ", "; ")
  {
    forall j | 0 <= j < 2
      ensures !Holds("; ", j, CRLF) && !Holds(": ", j, CRLF) && !Holds(": ", j, "; ")
    {
      HoldsPair("; ", j, '\r', '\n');
      HoldsPair(": ", j, '\r', '\n');
      HoldsPair(": ", j, ';', ' ');
    }
  }

  /** The texts of a header line hold no line end, nor does the line. */
  lemma {:induction false} ParamsAvoid(ps: seq<Param>)
    requires CleanParams(ps)
    ensures Avoids(DumpParams(ps), CRLF)
    ensures DumpParams(ps) == "" || DumpParams(ps)[0] == ';'
    decreases |ps|
  {
    if ps != [] {
      hide Pad, Avoids, Find;
      ParamRead(ps[0]);
      CleanRest(ps);
      hide CleanParam, CleanParams;
      ParamsAvoid(ps[1..]);
      var p := ParamText(ps[0]);
      SeparatorsAvoid();
      AvoidsJoin("; ", p, '\r', '\n');
      AvoidsJoin("; " + p, DumpParams(ps[1..]), '\r', '\n');
    }
  }

  lemma HeadText(f: Field)
    requires CleanField(f)
    ensures var h := f.key + ": " + f.header.value;
            Avoids(h, "; ") && Avoids(h, CRLF) && Find(h, ": ", 0) == |f.key|
  {
    hide Avoids, Find, CleanParams;
    var key, value := f.key, f.header.value;
    SeparatorsAvoid();
    AvoidsJoin(key, ": ", ';', ' ');
    AvoidsJoin(key, ": ", '\r', '\n');
    AvoidsJoin(key + ": ", value, ';', ' ');
    AvoidsJoin(key + ": ", value, '\r', '\n');
    FindAfter(key, value, ':', ' ');
  }

  lemma LineRead(f: Field)
    requires CleanField(f)
    ensures ParseLine(DumpLine(f)) == Some(f) && Avoids(DumpLine(f), CRLF) && |DumpLine(f)| >= 2
  {
    hide Avoids, Find, CleanParams, ParseParams, Tail, Beyond;
    var ps := f.header.params;
    var h := f.key + ": " + f.header.value;
    HeadText(f);
    SplitFirst(h, ps);
    ParamsRead(ps, []);
    ParamsAvoid(ps);
    AvoidsJoin(h, DumpParams(ps), '\r', '\n');
    assert h[..|f.key|] == f.key && h[|f.key| + 2..] == f.header.value;
    assert [] + ps == ps;
  }

  lemma {:induction false} HeadRead(fs: seq<Field>, acc: seq<Field>)
    requires forall i :: 0 <= i < |fs| ==> CleanField(fs[i])
    ensures ParseHead(DumpFields(fs), acc) == Some(acc + fs)
    decreases |fs|
  {
    hide Avoids, Find, Holds, CleanField, ParseLine, DumpLine;
    if fs != [] {
      LineRead(fs[0]);
      HeadStep(fs, acc);
      HeadRead(fs[1..], acc + [fs[0]]);
      assert acc + [fs[0]] + fs[1..] == acc + fs;
    } else {
      assert acc + fs == acc;
    }
  }

  /** One line is taken off the front. */
  lemma HeadStep(fs: seq<Field>, acc: seq<Field>)
    requires fs != [] && ParseLine(DumpLine(fs[0])) == Some(fs[0]) && Avoids(DumpLine(fs[0]), CRLF)
    ensures ParseHead(DumpFields(fs), acc) == ParseHead(DumpFields(fs[1..]), acc + [fs[0]])
  {
    hide Avoids, Find, Holds, ParseLine, DumpLine;
    var line, rest := DumpLine(fs[0]), DumpFields(fs[1..]);
    FindAfter(line, rest, '\r', '\n');
    var all := line + CRLF + rest;
    assert all[..|line|] == line && all[|line| + 2..] == rest;
    assert DumpFields(fs) == all;
    hide DumpFields;
  }

  // ---- parts ----

  /** In header lines no line is empty. */
  lemma {:induction false} NoEmptyLine(fs: seq<Field>, rest: string, j: nat)
    requires (forall i :: 0 <= i < |fs| ==> CleanField(fs[i])) && j + 2 < |DumpFields(fs)|
    ensures !Holds(DumpFields(fs) + (CRLF + rest), j, CRLF + CRLF)
    decreases |fs|
  {
    hide Avoids, Find, Holds, CleanField, DumpLine;
    if fs != [] {
      var line, more := DumpLine(fs[0]), DumpFields(fs[1..]) + (CRLF + rest);
      LineRead(fs[0]);
      FieldsFirst(fs, rest);
      var next := NextLine(fs[1..], rest);
      if j >= |line| + 2 { NoEmptyLine(fs[1..], rest, j - |line| - 2); }
      hide DumpFields;
      EmptyLineAt(line, more, j, next);
    }
  }

  /** The lines begin with the first of them, which is not empty. */
  lemma NextLine(fs: seq<Field>, rest: string) returns (next: string)
    requires forall i :: 0 <= i < |fs| ==> CleanField(fs[i])
    ensures fs != [] ==> next <= DumpFields(fs) + (CRLF + rest) && |next| >= 2 && Avoids(next, CRLF)
    ensures fs == [] ==> DumpFields(fs) == ""
  {
    hide Avoids, CleanField, DumpLine;
    next := "";
    if fs != [] {
      next := DumpLine(fs[0]);
      LineRead(fs[0]);
      FieldsFirst(fs, rest);
    }
  }

  lemma FieldsFirst(fs: seq<Field>, rest: string)
    requires fs != []
    ensures var line, more := DumpLine(fs[0]), DumpFields(fs[1..]) + (CRLF + rest);
            DumpFields(fs) + (CRLF + rest) == line + CRLF + more
              && |DumpFields(fs)| == |line| + 2 + |DumpFields(fs[1..])|
  {
    hide DumpLine;
    var head, tail := DumpLine(fs[0]) + CRLF, DumpFields(fs[1..]);
    assert DumpFields(fs) == head + tail;
    hide DumpFields;
    assert head + tail + (CRLF + rest) == head + (tail + (CRLF + rest));
  }

  /** Two line ends one after the other stand in a text only where they stand in what follows its first
      line, unless the second line is empty. */
  lemma EmptyLineAt(line: string, more: string, j: nat, next: string)
    requires Avoids(line, CRLF)
    requires j == |line| ==> next <= more && |next| >= 2 && Avoids(next, CRLF)
    requires j >= |line| + 2 ==> !Holds(more, j - |line| - 2, CRLF + CRLF)
    ensures !Holds(line + CRLF + more, j, CRLF + CRLF)
  {
    var all := line + CRLF + more;
    HoldsFour(all, j);
    if j < |line| { HoldsPair(line, j, '\r', '\n'); }
    if j == |line| { HoldsPair(next, 0, '\r', '\n'); }
    if j >= |line| + 2 { HoldsFour(more, j - |line| - 2); }
  }

  lemma HoldsFour(s: string, j: nat)
    ensures Holds(s, j, CRLF + CRLF) <==>
            j + 3 < |s| && s[j] == '\r' && s[j + 1] == '\n' && s[j + 2] == '\r' && s[j + 3] == '\n'
  {
    if j + 3 < |s| { assert s[j..j + 4] == [s[j], s[j + 1], s[j + 2], s[j + 3]]; }
  }

  lemma FieldsEnd(fs: seq<Field>)
    requires fs != []
    ensures |DumpFields(fs)| >= 2 && DumpFields(fs)[|DumpFields(fs)| - 2..] == CRLF
  {
    hide DumpLine;
    if |fs| > 1 { FieldsEnd(fs[1..]); }
  }

  /** A written part is read back. */
  lemma PartRead(p: Part)
    requires CleanPart(p) && p.fields != []
    ensures ParseSection(DumpPart(p)) == Some(p)
  {
    hide Find, CleanField, DumpFields, ParseHead;
    var head, rest := DumpFields(p.fields), p.body + CRLF;
    var section := DumpPart(p);
    assert section == head + (CRLF + rest);
    FieldsEnd(p.fields);
    forall j | 0 <= j < |head| - 2
      ensures !Holds(section, j, CRLF + CRLF)
    {
      NoEmptyLine(p.fields, rest, j);
    }
    HoldsFour(section, |head| - 2);
    assert section[|head| - 2] == head[|head| - 2..][0] && section[|head| - 1] == head[|head| - 2..][1];
    FindIs(section, CRLF + CRLF, 0, |head| - 2);
    assert section[..|head|] == head && section[|head| + 2..] == rest;
    HeadRead(p.fields, []);
    assert [] + p.fields == p.fields;
    assert rest[..|rest| - 2] == p.body;
  }

  /** Reading header lines never gives fewer headers than there were. */
  lemma {:induction false} HeadGrows(lines: string, fields: seq<Field>)
    ensures var r := ParseHead(lines, fields); r.Some? ==> |r.value| >= |fields| + if lines == "" then 0 else 1
    decreases |lines|
  {
    hide Find, Holds, ParseLine;
    if lines != "" {
      var found := Find(lines, CRLF, 0);
      var f := ParseLine(lines[..found]);
      var rest := if found < |lines| then lines[found + 2..] else lines[1..];
      if f.Some? { HeadGrows(rest, fields + [f.value]); }
    }
  }

  /** A part with clean headers is read back exactly if it has a header at all. */
  lemma PartReadIffHeader(p: Part)
    requires CleanPart(p)
    ensures ParseSection(DumpPart(p)) == Some(p) <==> p.fields != []
  {
    if p.fields != [] {
      PartRead(p);
    } else {
      hide Find, Holds, CleanField;
      var section := DumpPart(p);
      var found := Find(section, CRLF + CRLF, 0);
      HeadGrows(if found == |section| then section[..1] else section[..found + 2], []);
    }
  }

  // ---- messages ----

  /** What is read stays, whatever comes after it. */
  lemma {:induction false} BodyKeeps(body: string, delimiter: string, acc: seq<Part>)
    requires delimiter != ""
    ensures var r := ParseBody(body, delimiter, acc); r.Some? ==> acc <= r.value
    decreases |body|
  {
    hide ParseSection, Find, Holds, NameOf;
    if body != CRLF && body != "" {
      var found := Find(body, delimiter, 0);
      if found < |body| {
        var rest := From(body, found + |delimiter| + 2);
        var p := ParseSection(body[..found]);
        BodyKeeps(rest, delimiter, if found == 0 || p.None? then acc else acc + [p.value]);
      }
    }
  }

  lemma NoHeaderNoName(p: Part)
    ensures NameOf(p).Some? ==> p.fields != []
  {
  }

  /** The parts all have headers. */
  predicate AllHeaded(parts: seq<Part>) { forall i :: 0 <= i < |parts| ==> parts[i].fields != [] }

  /** From inside the body, before a part: this part and all the others are read, if they have names. */
  lemma {:induction false} PartsRead(parts: seq<Part>, delimiter: string, acc: seq<Part>)
    requires parts != [] && delimiter != "" && Writable(parts, delimiter)
    ensures var r := ParseBody(DumpPart(parts[0]) + DumpParts(parts[1..], delimiter), delimiter, acc);
            && (r == Some(acc + parts) <==> AllNamed(parts))
            && (AllHeaded(parts) && !AllNamed(parts) ==> r == None)
    decreases |parts|
  {
    hide ParseSection, DumpPart, CleanPart, Separate, ParseBody, DumpParts, NameOf;
    var p, rest := parts[0], parts[1..];
    PartTaken(p, rest, delimiter, acc);
    PartReadIffHeader(p);
    NoHeaderNoName(p);
    assert AllNamed(parts) <==> NameOf(p).Some? && AllNamed(rest);
    var q := ParseSection(DumpPart(p));
    if q == Some(p) && NameOf(p).Some? {
      assert acc + [p] + rest == acc + parts;
      if rest == [] {
        assert acc + [p] == acc + parts;
        BodyEnds(delimiter, acc + [p]);
      } else {
        PartsRead(rest, delimiter, acc + [p]);
      }
    } else if q.Some? {
      assert (acc + parts)[|acc|] == p;
      BodyKeeps(if rest == [] then CRLF else DumpPart(rest[0]) + DumpParts(rest[1..], delimiter),
        delimiter, acc + [q.value]);
    }
  }

  /** One part and the delimiter after it are taken off the front. */
  lemma PartTaken(p: Part, parts: seq<Part>, delimiter: string, acc: seq<Part>)
    requires delimiter != "" && Separate(DumpPart(p), delimiter)
    ensures ParseBody(DumpPart(p) + DumpParts(parts, delimiter), delimiter, acc) ==
            match ParseSection(DumpPart(p))
            case None => None
            case Some(q) =>
              if NameOf(q).None? then None
              else
                ParseBody(if parts == [] then CRLF
                  else DumpPart(parts[0]) + DumpParts(parts[1..], delimiter), delimiter, acc + [q])
  {
    hide Find, ParseSection, DumpPart, DumpParts, Separate, ParseBody, Holds, From, NameOf;
    var section, rest := DumpPart(p), DumpParts(parts, delimiter);
    PartLong(p);
    AfterPart(parts, delimiter);
    SectionFound(section, rest, delimiter);
    Pieces(section, rest, |delimiter| + 2);
    BodyStep(section + rest, delimiter, acc, |section|);
  }

  lemma PartLong(p: Part)
    ensures |DumpPart(p)| > 2
  {
  }

  /** What stands after the delimiter that follows a part. */
  lemma AfterPart(rest: seq<Part>, delimiter: string)
    ensures var t := DumpParts(rest, delimiter);
            && delimiter <= t && |t| >= |delimiter| + 2
            && t[|delimiter| + 2..] == if rest == [] then CRLF else DumpPart(rest[0]) + DumpParts(rest[1..], delimiter)
  {
    hide DumpPart;
    var t := DumpParts(rest, delimiter);
    if rest == [] {
      assert t == delimiter + DASHES + CRLF;
    } else {
      assert t == delimiter + CRLF + (DumpPart(rest[0]) + DumpParts(rest[1..], delimiter));
    }
  }

  lemma BodyEnds(delimiter: string, acc: seq<Part>)
    requires delimiter != ""
    ensures ParseBody(CRLF, delimiter, acc) == Some(acc)
  {
  }

  lemma SectionFound(section: string, rest: string, delimiter: string)
    requires delimiter != "" && Separate(section, delimiter) && delimiter <= rest
    ensures Find(section + rest, delimiter, 0) == |section| && |section| < |section + rest|
  {
    var all := section + rest;
    assert section + delimiter <= all;
    forall j | 0 <= j < |section|
      ensures !Holds(all, j, delimiter)
    {
      SameStart(section + delimiter, all, j, delimiter);
    }
    assert all[|section|..|section| + |delimiter|] == delimiter;
    FindIs(all, delimiter, 0, |section|);
  }

  lemma SameStart(s: string, t: string, j: nat, pattern: string)
    requires s <= t && j + |pattern| <= |s|
    ensures Holds(s, j, pattern) == Holds(t, j, pattern)
  {
    assert s[j..j + |pattern|] == t[j..j + |pattern|];
  }

  lemma Pieces(s: string, t: string, n: nat)
    requires n <= |t|
    ensures (s + t)[..|s|] == s && From(s + t, |s| + n) == t[n..]
  {
  }

  /** The text up to the delimiter and what comes after it. */
  lemma BodyStep(body: string, delimiter: string, acc: seq<Part>, found: nat)
    requires delimiter != "" && |body| > 2 && Find(body, delimiter, 0) == found < |body|
    ensures var rest := From(body, found + |delimiter| + 2);
            ParseBody(body, delimiter, acc) ==
            if found == 0 then ParseBody(rest, delimiter, acc)
            else
              match ParseSection(body[..found])
              case None => None
              case Some(p) => if NameOf(p).None? then None else ParseBody(rest, delimiter, acc + [p])
  {
    hide Find, ParseSection, From, NameOf;
  }

  /** A message that is written and read again has the same parts, headers, parameters and bodies, exactly
      if every part has a name. A part with headers and without a name ends the reading. */
  lemma MessageRead(parts: seq<Part>, delimiter: string)
    requires delimiter != "" && Writable(parts, delimiter)
    ensures var r := ParseBody(DumpParts(parts, delimiter), delimiter, []);
            && (r == Some(parts) <==> AllNamed(parts))
            && (AllHeaded(parts) && !AllNamed(parts) ==> r == None)
  {
    hide Find, ParseSection, DumpPart, CleanPart, Separate, Writable, NameOf;
    var body := DumpParts(parts, delimiter);
    if parts == [] {
      FrontDelimiter(DASHES + CRLF, delimiter, []);
      assert body == delimiter + (DASHES + CRLF);
    } else {
      var more := DumpPart(parts[0]) + DumpParts(parts[1..], delimiter);
      assert body == delimiter + (CRLF + more);
      FrontDelimiter(CRLF + more, delimiter, []);
      assert (CRLF + more)[2..] == more;
      PartsRead(parts, delimiter, []);
      assert [] + parts == parts;
    }
  }

  /** The delimiter at the front is skipped with the two characters after it. */
  lemma FrontDelimiter(rest: string, delimiter: string, acc: seq<Part>)
    requires delimiter != "" && |rest| >= 2
    ensures ParseBody(delimiter + rest, delimiter, acc) == ParseBody(rest[2..], delimiter, acc)
  {
    hide ParseSection, From, ParseBody, Find;
    var body := delimiter + rest;
    assert body[0..0 + |delimiter|] == delimiter;
    FindIs(body, delimiter, 0, 0);
    BodyStep(body, delimiter, acc, 0);
    Pieces(delimiter, rest, 2);
  }

  /** A message of one part as it is written. */
  lemma MessageText(key: string, value: string, name: string, v: string, body: string, delimiter: string)
    ensures DumpParts([Part([Field(key, Header(value, [Param(name, v)]))], body)], delimiter) ==
            delimiter + "\r\n"
            + (key + ": " + value + ("; " + name + "=\"" + v + "\"") + "\r\n" + "\r\n" + body + "\r\n")
            + (delimiter + "--" + "\r\n")
  {
    var p := Param(name, v);
    var f := Field(key, Header(value, [p]));
    assert DumpParams([p]) == DumpParam(p) + "" == "; " + name + "=\"" + v + "\"" by {
      assert DumpParams([]) == "" && [p][1..] == [];
      assert "; " + (name + ("=" + ("\"" + v + "\""))) == "; " + name + "=\"" + v + "\"";
    }
    assert DumpFields([f]) == DumpLine(f) + CRLF + "" == DumpLine(f) + CRLF by {
      assert DumpFields([]) == "" && [f][1..] == [];
    }
    hide DumpParams, DumpFields, DumpParam;
    assert [Part([f], body)][1..] == [];
    assert DumpParts([], delimiter) == delimiter + "--" + "\r\n";
  }
}
