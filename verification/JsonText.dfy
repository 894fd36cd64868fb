/** JSON values and their text: escaping, and the writer. Characters stand for bytes. */
module JsonText {
  import opened DecimalText

  /** A value to be written. The members of an object come in some order, with distinct keys. */
  datatype Value =
    | Null
    | False
    | True
    | Signed(i: int)
    | Unsigned(u: nat)
    | String(s: string)
    | List(l: seq<Value>)
    | Object(o: seq<Member>)

  datatype Member = Member(key: string, value: Value)

  // ---- escaping ----

  function HexDigit(d: nat): (c: char)
    requires d < 16
    ensures IsHex(c) && FromHex(c) == d
  {
    if d < 10 then '0' + d as char else 'a' + (d - 10) as char
  }

  predicate IsHex(c: char) { '0' <= c <= '9' || 'a' <= c <= 'f' || 'A' <= c <= 'F' }

  function FromHex(c: char): nat
    requires IsHex(c)
  {
    if c >= 'a' then c as int - 'a' as int + 10
    else if c >= 'A' then c as int - 'A' as int + 10
    else c as int - '0' as int
  }

  const BACKSPACE: char := 8 as char
  const FORM_FEED: char := 12 as char

  function EscapeChar(c: char): string {
    if c == '"' then "\\\""
    else if c == '\\' then "\\\\"
    else if c == '\n' then "\\n"
    else if c == BACKSPACE then "\\b"
    else if c == FORM_FEED then "\\f"
    else if c == '\r' then "\\r"
    else if c == '\t' then "\\t"
    else if c as int < 0x20 then "\\u00" + [HexDigit(c as int / 16), HexDigit(c as int % 16)]
    else [c]
  }

  function Escaped(s: string): string {
    if s == "" then "" else EscapeChar(s[0]) + Escaped(s[1..])
  }

  method Escape(s: string, out: string) returns (out': string)
    ensures out' == out + Escaped(s)
  {
    hide EscapeChar;
    out' := out;
    for i := 0 to |s|
      invariant out' + Escaped(s[i..]) == out + Escaped(s)
    {
      assert s[i..][1..] == s[i + 1..];
      assert out' + (EscapeChar(s[i]) + Escaped(s[i + 1..])) == out' + EscapeChar(s[i]) + Escaped(s[i + 1..]);
      out' := out' + EscapeChar(s[i]);
    }
    assert s[|s|..] == "";
  }

  // ---- undoing it ----

  predicate IsSimpleEscape(c: char) {
    c == '"' || c == '\\' || c == '/' || c == 'b' || c == 'f' || c == 'n' || c == 'r' || c == 't'
  }

  function SimpleEscape(c: char): char {
    if c == 'b' then BACKSPACE
    else if c == 'f' then FORM_FEED
    else if c == 'n' then '\n'
    else if c == 'r' then '\r'
    else if c == 't' then '\t'
    else c
  }

  /** The bytes of a character code below 2^16. */
  function Utf8(code: nat): (r: string)
    requires code < 0x10000
    ensures 1 <= |r| <= 3
  {
    if code >= 0x800 then
      [(0xE0 + code / 0x1000) as char, (0x80 + code / 0x40 % 0x40) as char, (0x80 + code % 0x40) as char]
    else if code >= 0x80 then [(0xC0 + code / 0x40) as char, (0x80 + code % 0x40) as char]
    else [code as char]
  }

  function Code(a: char, b: char, c: char, d: char): (n: nat)
    requires IsHex(a) && IsHex(b) && IsHex(c) && IsHex(d)
    ensures n < 0x10000
  {
    FromHex(a) * 0x1000 + FromHex(b) * 0x100 + FromHex(c) * 0x10 + FromHex(d)
  }

  /** The length of the escape or character at the front of a string's text, or 0 if it is none. */
  function UnitLength(s: string): (n: nat)
    ensures n <= |s|
  {
    if s == "" || s[0] == '"' || s[0] == '\0' then 0
    else if s[0] != '\\' then 1
    else if |s| >= 2 && IsSimpleEscape(s[1]) then 2
    else if |s| >= 6 && s[1] == 'u' && IsHex(s[2]) && IsHex(s[3]) && IsHex(s[4]) && IsHex(s[5]) then 6
    else 0
  }

  /** What it stands for. */
  function Unit(s: string): (r: string)
    requires UnitLength(s) > 0
    ensures 1 <= |r| <= UnitLength(s)
  {
    if UnitLength(s) == 1 then [s[0]]
    else if UnitLength(s) == 2 then [SimpleEscape(s[1])]
    else Utf8(Code(s[2], s[3], s[4], s[5]))
  }

  /** A string's text: characters and escapes without a quote between them. */
  predicate WellEscaped(s: string) {
    s != "" ==> UnitLength(s) > 0 && WellEscaped(s[UnitLength(s)..])
  }

  function Unescaped(s: string): string
    requires WellEscaped(s)
  {
    if s == "" then "" else Unit(s) + Unescaped(s[UnitLength(s)..])
  }

  lemma EscapeCharRead(c: char, rest: string)
    ensures UnitLength(EscapeChar(c) + rest) == |EscapeChar(c)|
    ensures Unit(EscapeChar(c) + rest) == [c]
  {
    var s := EscapeChar(c) + rest;
    if c as int < 0x20 && |EscapeChar(c)| == 6 {
      assert s[2] == '0' && s[3] == '0' && s[4] == HexDigit(c as int / 16) && s[5] == HexDigit(c as int % 16);
      assert Code(s[2], s[3], s[4], s[5]) == c as int;
    }
  }

  /** Unescaping undoes escaping, for every byte string. */
  lemma {:induction false} EscapeRoundTrip(s: string)
    ensures WellEscaped(Escaped(s)) && Unescaped(Escaped(s)) == s
  {
    if s != "" {
      EscapeRoundTrip(s[1..]);
      EscapeCharRead(s[0], Escaped(s[1..]));
      var t := Escaped(s);
      assert t[|EscapeChar(s[0])|..] == Escaped(s[1..]);
      hide EscapeChar, Unit, UnitLength;
      assert s == [s[0]] + s[1..];
    }
  }

  // ---- the writer ----

  function NumberText(v: Value): string
    requires v.Signed? || v.Unsigned?
  {
    if v.Unsigned? then Digits(v.u) else if v.i < 0 then "-" + Digits(-v.i) else Digits(v.i)
  }

  function Quoted(s: string): string { "\"" + Escaped(s) + "\"" }

  function Dump(v: Value): string
    decreases v, 0
  {
    match v
    case Null => "null"
    case False => "false"
    case True => "true"
    case Signed(_) => NumberText(v)
    case Unsigned(_) => NumberText(v)
    case String(s) => Quoted(s)
    case List(l) => "[" + DumpItems(l) + "]"
    case Object(o) => "{" + DumpMembers(o) + "}"
  }

  function DumpItems(l: seq<Value>): string
    decreases l, 1
  {
    if l == [] then "" else Dump(l[0]) + DumpTail(l[1..])
  }

  /** The items after the first, each with a comma before it. */
  function DumpTail(l: seq<Value>): string
    decreases l, 1
  {
    if l == [] then "" else "," + Dump(l[0]) + DumpTail(l[1..])
  }

  function DumpMember(m: Member): string
    decreases m, 0
  {
    Quoted(m.key) + ":" + Dump(m.value)
  }

  function DumpMembers(o: seq<Member>): string
    decreases o, 1
  {
    if o == [] then "" else DumpMember(o[0]) + DumpMore(o[1..])
  }

  function DumpMore(o: seq<Member>): string
    decreases o, 1
  {
    if o == [] then "" else "," + DumpMember(o[0]) + DumpMore(o[1..])
  }

  /** What is still to be written after the first `k` items. */
  function RestList(l: seq<Value>, k: nat): string
    requires k <= |l|
  {
    if k == 0 then DumpItems(l) else DumpTail(l[k..])
  }

  lemma StepList(l: seq<Value>, k: nat)
    requires k < |l|
    ensures RestList(l, k) == if k == 0 then Dump(l[k]) + RestList(l, k + 1) else "," + Dump(l[k]) + RestList(l, k + 1)
    ensures RestList(l, |l|) == ""
  {
    hide Dump;
    assert l[k..][0] == l[k] && l[k..][1..] == l[k + 1..] && l[|l|..] == [];
  }

  lemma FirstList(l: seq<Value>)
    ensures RestList(l, 0) == DumpItems(l) && RestList(l, |l|) == (if l == [] then DumpItems(l) else "")
            && DumpItems([]) == ""
  {
    assert l[|l|..] == [];
  }

  /** What is still to be written after the first `k` members. */
  function RestObject(o: seq<Member>, k: nat): string
    requires k <= |o|
  {
    if k == 0 then DumpMembers(o) else DumpMore(o[k..])
  }

  lemma StepObject(o: seq<Member>, k: nat)
    requires k < |o|
    ensures RestObject(o, k) ==
            if k == 0 then DumpMember(o[k]) + RestObject(o, k + 1) else "," + DumpMember(o[k]) + RestObject(o, k + 1)
    ensures RestObject(o, |o|) == ""
  {
    hide DumpMember;
    assert o[k..][0] == o[k] && o[k..][1..] == o[k + 1..] && o[|o|..] == [];
  }

  lemma FirstObject(o: seq<Member>)
    ensures RestObject(o, 0) == DumpMembers(o) && DumpMembers([]) == ""
    ensures RestObject(o, |o|) == if o == [] then DumpMembers(o) else ""
  {
    assert o[|o|..] == [];
  }

  /** Where a piece goes between what is written and what is to be written. */
  lemma Associate(out: string, piece: string, rest: string)
    ensures out + (piece + rest) == out + piece + rest
    ensures out + ("," + piece + rest) == out + "," + piece + rest
  {
  }

  lemma Enclose(out: string, open: string, inner: string, close: string)
    ensures out + open + inner + close == out + (open + inner + close)
    ensures forall s: string :: s + "" == s
  {
  }

  class Writer {
    var out: string

    constructor ()
      ensures out == ""
    {
      out := "";
    }

    method DumpString(s: string)
      modifies this
      ensures out == old(out) + Quoted(s)
    {
      out := out + "\"";
      out := Escape(s, out);
      out := out + "\"";
    }

    method DumpInternal(v: Value)
      modifies this
      ensures out == old(out) + Dump(v)
      decreases v, 0
    {
      hide Quoted, NumberText, DumpItems, DumpMembers;
      match v {
        case Null => out := out + "null";
        case False => out := out + "false";
        case True => out := out + "true";
        case Signed(_) => out := out + NumberText(v);
        case Unsigned(_) => out := out + NumberText(v);
        case String(s) => DumpString(s);
        case List(l) => DumpList(l);
        case Object(o) => DumpObject(o);
      }
    }

    method DumpList(l: seq<Value>)
      modifies this
      ensures out == old(out) + ("[" + DumpItems(l) + "]")
      decreases l
    {
      hide Dump, RestList;
      ghost var start := out + "[";
      out := out + "[";
      var first := true;
      FirstList(l);
      for k := 0 to |l|
        invariant first == (k == 0)
        invariant out + RestList(l, k) == start + DumpItems(l)
      {
        StepList(l, k);
        Associate(out, Dump(l[k]), RestList(l, k + 1));
        if !first { out := out + ","; }
        first := false;
        DumpInternal(l[k]);
      }
      Enclose(old(out), "[", DumpItems(l), "]");
      out := out + "]";
    }

    method DumpObject(o: seq<Member>)
      modifies this
      ensures out == old(out) + ("{" + DumpMembers(o) + "}")
      decreases o
    {
      hide DumpMember, RestObject;
      ghost var start := out + "{";
      out := out + "{";
      var first := true;
      FirstObject(o);
      for k := 0 to |o|
        invariant first == (k == 0)
        invariant out + RestObject(o, k) == start + DumpMembers(o)
      {
        StepObject(o, k);
        Associate(out, DumpMember(o[k]), RestObject(o, k + 1));
        if !first { out := out + ","; }
        first := false;
        DumpOne(o[k]);
      }
      Enclose(old(out), "{", DumpMembers(o), "}");
      out := out + "}";
    }

    method DumpOne(m: Member)
      modifies this
      ensures out == old(out) + DumpMember(m)
      decreases m
    {
      hide Quoted, Dump;
      DumpString(m.key);
      out := out + ":";
      DumpInternal(m.value);
    }
  }
}
