/** Loading what was written gives the value back, exactly as far as the depth limit allows. */
module JsonRoundTrip {
  import opened DecimalText
  import opened JsonGrammar
  import opened JsonText
  import opened Options
  import opened TextAt

  function MemberOf(m: Member): JMember
    decreases m, 0
  {
    JMember(m.key, JsonOf(m.value))
  }

  /** A value as it is read: numbers lose their sign tag and keep their digits. */
  function JsonOf(v: Value): Json
    decreases v, 0
  {
    match v
    case Null => JNull
    case False => JFalse
    case True => JTrue
    case Signed(_) => JNumber(NumberText(v))
    case Unsigned(_) => JNumber(NumberText(v))
    case String(s) => JString(s)
    case List(l) => JList(ItemsOf(l))
    case Object(o) => JObject(MembersOf(o))
  }

  function ItemsOf(l: seq<Value>): seq<Json>
    decreases l, 1
  {
    if l == [] then [] else [JsonOf(l[0])] + ItemsOf(l[1..])
  }

  function MembersOf(o: seq<Member>): seq<JMember>
    decreases o, 1
  {
    if o == [] then [] else [MemberOf(o[0])] + MembersOf(o[1..])
  }

  // ---- integers ----

  const MAX_I64: int := 0x7fff_ffff_ffff_ffff
  const MIN_I64: int := -0x8000_0000_0000_0000
  const MAX_U64: int := 0xffff_ffff_ffff_ffff

  datatype NumType = SignedInteger | UnsignedInteger | FloatingPoint

  function NumTypeOf(text: string): NumType {
    if '.' in text || 'e' in text || 'E' in text then FloatingPoint
    else if '-' in text then SignedInteger
    else UnsignedInteger
  }

  /** The text extracted from a stream as a signed integer of 64 bits, which stops at the bounds. */
  function ReadSigned(text: string): int {
    var v := Atoi(text);
    if v > MAX_I64 then MAX_I64 else if v < MIN_I64 then MIN_I64 else v
  }

  /** The same as an unsigned integer: a minus sign negates it modulo 2^64. */
  function ReadUnsigned(text: string): int {
    var v := Atoi(text);
    if v > MAX_U64 || v < -MAX_U64 then MAX_U64 else if v < 0 then v + MAX_U64 + 1 else v
  }

  /** The integer of a value that has one. */
  function IntegerOf(v: Value): int
    requires v.Signed? || v.Unsigned?
  {
    if v.Signed? then v.i else v.u
  }

  /** An integer that the writer can hold. */
  predicate HasInteger(v: Value) {
    (v.Signed? && MIN_I64 <= v.i <= MAX_I64) || (v.Unsigned? && v.u <= MAX_U64)
  }

  /** An integer that was written is read back by its type, which depends on its sign and not on the type it
      was written with. Read as the other type it is the same exactly if it is in the range of that type. */
  lemma IntegerRead(v: Value)
    requires HasInteger(v)
    ensures var n, text := IntegerOf(v), NumberText(v);
            && NumTypeOf(text) == (if n < 0 then SignedInteger else UnsignedInteger)
            && n == (if NumTypeOf(text) == SignedInteger then ReadSigned(text) else ReadUnsigned(text))
            && (ReadSigned(text) == n <==> n <= MAX_I64)
            && (ReadUnsigned(text) == n <==> n >= 0)
  {
    TextRead(v);
    TypeRead(v);
  }

  lemma TypeRead(v: Value)
    requires v.Signed? || v.Unsigned?
    ensures NumTypeOf(NumberText(v)) == if IntegerOf(v) < 0 then SignedInteger else UnsignedInteger
  {
    var n, text := IntegerOf(v), NumberText(v);
    var d := Digits(if n < 0 then -n else n);
    assert text == (if n < 0 then "-" else "") + d;
    forall c | c in d
      ensures IsDigit(c)
    {
    }
    if n < 0 { assert text[0] == '-'; }
  }

  /** The digits that are read stand for the number that was written. */
  lemma TextRead(v: Value)
    requires v.Signed? || v.Unsigned?
    ensures Atoi(NumberText(v)) == IntegerOf(v)
  {
    if v.Signed? && v.i < 0 {
      var s := NumberText(v);
      var n: nat := -v.i;
      var d := Digits(n);
      AllDigits(s, 1, d);
      ValueOfDigits(n);
      assert s[1..|s|] == d;
    } else {
      AtoiOfDigits(IntegerOf(v));
    }
  }

  lemma AllDigits(s: string, i: nat, d: string)
    requires s == "-" + d && 1 <= i <= |s| && forall j :: 0 <= j < |d| ==> IsDigit(d[j])
    ensures DigitsEnd(s, i) == |s|
    decreases |s| - i
  {
    if i < |s| {
      assert s[i] == d[i - 1];
      AllDigits(s, i + 1, d);
    }
  }

  // ---- depth ----

  /** The value can be read at depth `d`: every container takes two levels. */
  predicate Fits(v: Value, d: nat)
    decreases v, 0
  {
    match v
    case List(l) => d + 1 <= MAX_DEPTH && ItemsFit(l, d + 2)
    case Object(o) => d + 1 <= MAX_DEPTH && MembersFit(o, d + 2)
    case _ => true
  }

  predicate ItemsFit(l: seq<Value>, d: nat)
    decreases l, 1
  {
    l != [] ==> Fits(l[0], d) && ItemsFit(l[1..], d)
  }

  predicate MemberFits(m: Member, d: nat)
    decreases m, 0
  {
    Fits(m.value, d)
  }

  predicate MembersFit(o: seq<Member>, d: nat)
    decreases o, 1
  {
    o != [] ==> MemberFits(o[0], d) && MembersFit(o[1..], d)
  }

  function Max(a: nat, b: nat): nat { if a < b then b else a }

  /** How many containers are nested. */
  function Levels(v: Value): nat
    decreases v, 0
  {
    match v
    case List(l) => 1 + ItemLevels(l)
    case Object(o) => 1 + MemberLevels(o)
    case _ => 0
  }

  function ItemLevels(l: seq<Value>): nat
    decreases l, 1
  {
    if l == [] then 0 else Max(Levels(l[0]), ItemLevels(l[1..]))
  }

  function LevelsOf(m: Member): nat
    decreases m, 0
  {
    Levels(m.value)
  }

  function MemberLevels(o: seq<Member>): nat
    decreases o, 1
  {
    if o == [] then 0 else Max(LevelsOf(o[0]), MemberLevels(o[1..]))
  }

  lemma {:induction false} FitsIff(v: Value, d: nat)
    requires d <= MAX_DEPTH + 1
    ensures Fits(v, d) <==> d + 2 * Levels(v) <= MAX_DEPTH + 1
    decreases v, 0
  {
    match v {
      case List(l) => if d + 1 <= MAX_DEPTH { ItemsFitIff(l, d + 2); }
      case Object(o) => if d + 1 <= MAX_DEPTH { MembersFitIff(o, d + 2); }
      case _ =>
    }
  }

  lemma {:induction false} ItemsFitIff(l: seq<Value>, d: nat)
    requires d <= MAX_DEPTH + 1
    ensures ItemsFit(l, d) <==> d + 2 * ItemLevels(l) <= MAX_DEPTH + 1
    decreases l, 1
  {
    if l != [] {
      FitsIff(l[0], d);
      ItemsFitIff(l[1..], d);
    }
  }

  lemma {:induction false} MemberFitsIff(m: Member, d: nat)
    requires d <= MAX_DEPTH + 1
    ensures MemberFits(m, d) <==> d + 2 * LevelsOf(m) <= MAX_DEPTH + 1
    decreases m, 0
  {
    FitsIff(m.value, d);
  }

  lemma {:induction false} MembersFitIff(o: seq<Member>, d: nat)
    requires d <= MAX_DEPTH + 1
    ensures MembersFit(o, d) <==> d + 2 * MemberLevels(o) <= MAX_DEPTH + 1
    decreases o, 1
  {
    if o != [] {
      MemberFitsIff(o[0], d);
      MembersFitIff(o[1..], d);
    }
  }

  // ---- strings and numbers ----

  /** The end of a written string is found, and its text is read back. */
  lemma {:induction false} StringRead(t: string, i: nat, s: string)
    requires Holds(t, i, Escaped(s) + "\"")
    ensures i + |Escaped(s)| < |t|
    ensures StringEnd(t, i) == Some(i + |Escaped(s)|) && t[i..i + |Escaped(s)|] == Escaped(s)
    decreases |s|
  {
    hide Holds, EscapeChar, UnitLength;
    HoldsSplit(t, i, Escaped(s), "\"");
    CharAt(t, i + |Escaped(s)|, "\"", 0);
    HoldsIs(t, i, Escaped(s));
    if s != "" {
      var u := EscapeChar(s[0]);
      var rest := Escaped(s[1..]) + "\"";
      assert Escaped(s) + "\"" == u + rest;
      UnitAt(t, i, s[0], rest);
      HoldsSplit(t, i, u, rest);
      hide Escaped;
      StringRead(t, i + |u|, s[1..]);
    }
  }

  lemma HoldsIs(t: string, i: nat, s: string)
    requires Holds(t, i, s)
    ensures i + |s| <= |t| && t[i..i + |s|] == s
  {
  }

  /** The first character of a written string takes the reader over its escape. */
  lemma UnitAt(t: string, i: nat, c: char, rest: string)
    requires Holds(t, i, EscapeChar(c) + rest)
    ensures i < |t| && t[i] != '"' && UnitLength(t[i..]) == |EscapeChar(c)|
  {
    hide UnitLength;
    var more := t[i + |EscapeChar(c) + rest|..];
    assert t[i..] == EscapeChar(c) + (rest + more);
    EscapeCharRead(c, rest + more);
    assert t[i] == EscapeChar(c)[0];
  }

  predicate Stops(c: char) { c == ',' || c == ']' || c == '}' || c == '\0' || IsSpace(c) }

  lemma {:induction false} DigitsAt(t: string, i: nat, e: nat)
    requires i <= e <= |t| && (forall j :: i <= j < e ==> IsDigit(t[j])) && !IsDigit(At(t, e))
    ensures DigitsEnd(t, i) == e
    decreases e - i
  {
    if i < e { DigitsAt(t, i + 1, e); }
  }

  lemma {:induction false} NoLeadingZero(n: nat)
    ensures Digits(n)[0] == '0' ==> n == 0 && Digits(n) == "0"
  {
    if n >= 10 { NoLeadingZero(n / 10); }
  }

  lemma DigitsRead(t: string, i: nat, n: nat, st: NumberState)
    requires Holds(t, i, Digits(n)) && Stops(At(t, i + |Digits(n)|)) && (st == Minus || st == AfterMinus)
    ensures NumberEnd(t, i, st) == Some(i + |Digits(n)|)
  {
    hide Holds, Digits, Stops;
    var d := Digits(n);
    var e := i + |d|;
    NoLeadingZero(n);
    NoDigit(At(t, e));
    forall j | i <= j < e
      ensures j < |t| && IsDigit(t[j])
    {
      CharAt(t, i, d, j - i);
    }
    CharAt(t, i, d, 0);
    HoldsEnd(t, i, d);
    if t[i] == '0' {
      NumberStops(t, e, ZeroFirst);
    } else {
      DigitsAt(t, i + 1, e);
      NumberStops(t, e, InDigits);
    }
  }

  lemma HoldsEnd(t: string, i: nat, s: string)
    requires Holds(t, i, s)
    ensures i + |s| <= |t|
  {
  }

  lemma NoDigit(c: char)
    requires Stops(c)
    ensures !IsDigit(c)
  {
  }

  lemma NumberStops(t: string, i: nat, st: NumberState)
    requires i <= |t| && Stops(At(t, i)) && Accepts(st)
    ensures NumberEnd(t, i, st) == Some(i)
  {
  }

  lemma NumberRead(t: string, i: nat, v: Value)
    requires v.Signed? || v.Unsigned?
    requires Holds(t, i, NumberText(v)) && Stops(At(t, i + |NumberText(v)|))
    ensures NumberEnd(t, i, Minus) == Some(i + |NumberText(v)|)
    ensures i < |t| && (t[i] == '-' || IsDigit(t[i]))
  {
    hide Holds, Digits, Stops;
    var s := NumberText(v);
    CharAt(t, i, s, 0);
    if v.Signed? && v.i < 0 {
      HoldsSplit(t, i, "-", Digits(-v.i));
      hide NumberEnd;
      DigitsRead(t, i + 1, -v.i, AfterMinus);
      NumberMinus(t, i);
    } else {
      hide NumberEnd;
      DigitsRead(t, i, if v.Signed? then v.i else v.u, Minus);
    }
  }

  lemma NumberMinus(t: string, i: nat)
    requires i < |t| && t[i] == '-'
    ensures NumberEnd(t, i, Minus) == NumberEnd(t, i + 1, AfterMinus)
  {
  }

  // ---- values ----

  lemma FirstChar(v: Value)
    ensures Dump(v) != "" && !IsSpace(Dump(v)[0]) && Dump(v)[0] != ']' && Dump(v)[0] != '}'
  {
  }

  lemma NoSpace(t: string, i: nat)
    requires i <= |t| && !IsSpace(At(t, i))
    ensures SkipSpace(t, i) == i
  {
  }

  /** A written value is read back where it stands, if it fits, and nothing is read if it does not. */
  lemma {:induction false} ValueRead(t: string, i: nat, v: Value, d: nat)
    requires Holds(t, i, Dump(v)) && Stops(At(t, i + |Dump(v)|))
    ensures ParseValue(t, i, d) == if Fits(v, d) then Some((JsonOf(v), i + |Dump(v)|)) else None
    decreases v, 0
  {
    hide Escaped, NumberText, Holds, Stops, ParseValue;
    match v {
      case Signed(_) => NumberAt(t, i, v, d);
      case Unsigned(_) => NumberAt(t, i, v, d);
      case String(s) => StringAt(t, i, s, d);
      case List(l) => ListRead(t, i, l, d);
      case Object(o) => ObjectRead(t, i, o, d);
      case _ => WordRead(t, i, v, d);
    }
  }

  lemma WordRead(t: string, i: nat, v: Value, d: nat)
    requires Holds(t, i, Dump(v)) && (v.Null? || v.False? || v.True?)
    ensures ParseValue(t, i, d) == Some((JsonOf(v), i + |Dump(v)|))
  {
    CharAt(t, i, Dump(v), 0);
  }

  lemma NumberAt(t: string, i: nat, v: Value, d: nat)
    requires v.Signed? || v.Unsigned?
    requires Holds(t, i, NumberText(v)) && Stops(At(t, i + |NumberText(v)|))
    ensures ParseValue(t, i, d) == Some((JNumber(NumberText(v)), i + |NumberText(v)|))
  {
    hide NumberText, NumberEnd, StringEnd;
    NumberRead(t, i, v);
  }

  lemma StringAt(t: string, i: nat, s: string, d: nat)
    requires Holds(t, i, Quoted(s))
    ensures ParseValue(t, i, d) == Some((JString(s), i + |Quoted(s)|))
  {
    hide Holds, Quoted, NumberEnd, StringEnd, UnitLength, Unit;
    QuotedRead(t, i, s);
  }

  /** The text of a string says `s`. */
  predicate Says(text: string, s: string) { WellEscaped(text) && Unescaped(text) == s }

  /** A quoted string: where it begins, where it ends, and what it says. */
  lemma QuotedRead(t: string, i: nat, s: string)
    requires Holds(t, i, Quoted(s))
    ensures var e := i + |Quoted(s)| - 1;
            && i < e < |t| && t[i] == '"' && StringEnd(t, i + 1) == Some(e)
            && Says(t[i + 1..e], s)
  {
    hide Escaped, StringEnd, Holds, UnitLength, Unit, WellEscaped, Unescaped;
    var e := i + |Quoted(s)| - 1;
    HoldsThree(t, i, "\"", Escaped(s), "\"");
    CharAt(t, i, "\"", 0);
    StringRead(t, i + 1, s);
    EscapeRoundTrip(s);
    assert t[i + 1..e] == Escaped(s);
  }

  lemma ListStarts(t: string, i: nat, d: nat)
    requires i < |t| && t[i] == '['
    ensures ParseValue(t, i, d) ==
            if d + 1 > MAX_DEPTH then None
            else if At(t, SkipSpace(t, i + 1)) == ']' then Some((JList([]), SkipSpace(t, i + 1) + 1))
            else ParseItems(t, SkipSpace(t, i + 1), d + 1, [])
  {
    hide ParseItems;
  }

  lemma ObjectStarts(t: string, i: nat, d: nat)
    requires i < |t| && t[i] == '{'
    ensures ParseValue(t, i, d) ==
            if d + 1 > MAX_DEPTH then None
            else if At(t, SkipSpace(t, i + 1)) == '}' then Some((JObject([]), SkipSpace(t, i + 1) + 1))
            else ParseMembers(t, SkipSpace(t, i + 1), d + 1, [])
  {
    hide ParseMembers;
  }

  /** What comes after an item. */
  lemma ItemStep(t: string, i: nat, d: nat, acc: seq<Json>, e: nat)
    requires i <= |t|
    requires ParseValue(t, i, d + 1).Some? ==> ParseValue(t, i, d + 1).value.1 == e && !IsSpace(At(t, e))
    ensures ParseItems(t, i, d, acc) ==
            match ParseValue(t, i, d + 1)
            case None => None
            case Some((v, _)) =>
              if At(t, e) == ']' then Some((JList(acc + [v]), e + 1))
              else if At(t, e) == ',' then ParseItems(t, SkipSpace(t, e + 1), d, acc + [v])
              else None
  {
    hide ParseValue;
    if ParseValue(t, i, d + 1).Some? { NoSpace(t, e); }
  }

  lemma {:induction false} ListRead(t: string, i: nat, l: seq<Value>, d: nat)
    requires Holds(t, i, "[" + DumpItems(l) + "]")
    ensures ParseValue(t, i, d) ==
            if Fits(List(l), d) then Some((JList(ItemsOf(l)), i + |DumpItems(l)| + 2)) else None
    decreases l, 3
  {
    hide Holds, Dump, Fits, ItemsFit, ParseValue, ParseItems, DumpItems, ItemsOf;
    ItemsNone();
    var items := DumpItems(l);
    HoldsThree(t, i, "[", items, "]");
    CharAt(t, i, "[", 0);
    CharAt(t, i + 1 + |items|, "]", 0);
    ListStarts(t, i, d);
    FitsList(l, d);
    if l == [] {
      NoSpace(t, i + 1);
    } else {
      FirstItem(l);
      CharAt(t, i + 1, items, 0);
      NoSpace(t, i + 1);
      ItemsRead(t, i + 1, l, d + 1, []);
      assert [] + ItemsOf(l) == ItemsOf(l);
    }
  }

  lemma FitsList(l: seq<Value>, d: nat)
    ensures Fits(List(l), d) <==> d + 1 <= MAX_DEPTH && ItemsFit(l, d + 2)
    ensures l == [] ==> ItemsFit(l, d + 2)
  {
  }

  lemma {:induction false} ItemsRead(t: string, i: nat, l: seq<Value>, d: nat, acc: seq<Json>)
    requires l != [] && Holds(t, i, DumpItems(l) + "]")
    ensures ParseItems(t, i, d, acc) ==
            if ItemsFit(l, d + 1) then Some((JList(acc + ItemsOf(l)), i + |DumpItems(l)| + 1)) else None
    decreases l, 2
  {
    hide Holds, Dump, Fits, ParseValue, ParseItems, DumpTail, DumpItems, ItemsOf, JsonOf;
    ItemsSplit(t, i, l);
    var e := i + |Dump(l[0])|;
    var rest := l[1..];
    ValueRead(t, i, l[0], d + 1);
    ItemStep(t, i, d, acc, e);
    ItemsFirst(l);
    if rest != [] {
      FirstItem(rest);
      CharAt(t, e + 1, DumpItems(rest) + "]", 0);
      NoSpace(t, e + 1);
      ItemsRead(t, e + 1, rest, d, acc + [JsonOf(l[0])]);
    }
    Join(acc, JsonOf(l[0]), ItemsOf(rest));
  }

  lemma Join<T>(acc: seq<T>, x: T, rest: seq<T>)
    ensures acc + [x] + rest == acc + ([x] + rest)
    ensures rest == [] ==> acc + [x] == acc + ([x] + rest)
  {
  }

  /** The first item and what follows it. */
  lemma ItemsSplit(t: string, i: nat, l: seq<Value>)
    requires l != [] && Holds(t, i, DumpItems(l) + "]")
    ensures var e := i + |Dump(l[0])|;
            && e < |t| && Holds(t, i, Dump(l[0]))
            && if l[1..] == [] then t[e] == ']' else t[e] == ',' && Holds(t, e + 1, DumpItems(l[1..]) + "]")
  {
    hide Holds, Dump;
    var one, rest := Dump(l[0]), l[1..];
    if rest == [] {
      assert DumpItems(l) + "]" == one + "]";
      HoldsSplit(t, i, one, "]");
      CharAt(t, i + |one|, "]", 0);
    } else {
      assert DumpItems(l) + "]" == one + "," + (DumpItems(rest) + "]");
      HoldsThree(t, i, one, ",", DumpItems(rest) + "]");
      CharAt(t, i + |one|, ",", 0);
    }
  }

  lemma ItemsFirst(l: seq<Value>)
    requires l != []
    ensures ItemsOf(l) == [JsonOf(l[0])] + ItemsOf(l[1..]) && ItemsOf([]) == []
    ensures |DumpItems(l)| == |Dump(l[0])| + if l[1..] == [] then 0 else 1 + |DumpItems(l[1..])|
  {
    hide Dump, JsonOf;
  }

  lemma MembersFirst(o: seq<Member>)
    requires o != []
    ensures MembersOf(o) == [MemberOf(o[0])] + MembersOf(o[1..]) && MembersOf([]) == []
    ensures |DumpMembers(o)| == |DumpMember(o[0])| + if o[1..] == [] then 0 else 1 + |DumpMembers(o[1..])|
  {
    hide DumpMember, MemberOf;
  }

  lemma MembersSplit(t: string, i: nat, o: seq<Member>)
    requires o != [] && Holds(t, i, DumpMembers(o) + "}")
    ensures var e := i + |DumpMember(o[0])|;
            && e < |t| && Holds(t, i, DumpMember(o[0]))
            && if o[1..] == [] then t[e] == '}' else t[e] == ',' && Holds(t, e + 1, DumpMembers(o[1..]) + "}")
  {
    hide Holds, DumpMember;
    var one, rest := DumpMember(o[0]), o[1..];
    if rest == [] {
      assert DumpMembers(o) + "}" == one + "}";
      HoldsSplit(t, i, one, "}");
      CharAt(t, i + |one|, "}", 0);
    } else {
      assert DumpMembers(o) + "}" == one + "," + (DumpMembers(rest) + "}");
      HoldsThree(t, i, one, ",", DumpMembers(rest) + "}");
      CharAt(t, i + |one|, ",", 0);
    }
  }

  lemma {:induction false} ObjectRead(t: string, i: nat, o: seq<Member>, d: nat)
    requires Holds(t, i, "{" + DumpMembers(o) + "}")
    ensures ParseValue(t, i, d) ==
            if Fits(Object(o), d) then Some((JObject(MembersOf(o)), i + |DumpMembers(o)| + 2)) else None
    decreases o, 3
  {
    hide Holds, DumpMember, Fits, MembersFit, ParseValue, ParseMembers, DumpMembers, MembersOf;
    MembersNone();
    var members := DumpMembers(o);
    HoldsThree(t, i, "{", members, "}");
    CharAt(t, i, "{", 0);
    CharAt(t, i + 1 + |members|, "}", 0);
    ObjectStarts(t, i, d);
    FitsObject(o, d);
    if o == [] {
      NoSpace(t, i + 1);
    } else {
      FirstQuote(o);
      CharAt(t, i + 1, members, 0);
      NoSpace(t, i + 1);
      MembersRead(t, i + 1, o, d + 1, []);
      assert [] + MembersOf(o) == MembersOf(o);
    }
  }

  lemma FitsObject(o: seq<Member>, d: nat)
    ensures Fits(Object(o), d) <==> d + 1 <= MAX_DEPTH && MembersFit(o, d + 2)
    ensures o == [] ==> MembersFit(o, d + 2)
  {
  }

  lemma FirstItem(l: seq<Value>)
    requires l != []
    ensures DumpItems(l) != "" && !IsSpace(DumpItems(l)[0]) && DumpItems(l)[0] != ']'
  {
    hide Dump;
    FirstChar(l[0]);
  }

  lemma ItemsNone()
    ensures DumpItems([]) == "" && ItemsOf([]) == []
  {
  }

  lemma MembersNone()
    ensures DumpMembers([]) == "" && MembersOf([]) == []
  {
  }

  lemma FirstQuote(o: seq<Member>)
    requires o != []
    ensures DumpMembers(o) != "" && DumpMembers(o)[0] == '"'
  {
    hide Escaped;
  }

  lemma {:induction false} MembersRead(t: string, i: nat, o: seq<Member>, d: nat, acc: seq<JMember>)
    requires o != [] && Holds(t, i, DumpMembers(o) + "}")
    ensures ParseMembers(t, i, d, acc) ==
            if MembersFit(o, d + 1) then Some((JObject(acc + MembersOf(o)), i + |DumpMembers(o)| + 1)) else None
    decreases o, 2
  {
    hide Holds, DumpMember, MemberFits, ParseMembers, DumpMore, DumpMembers, MembersOf, MemberOf;
    MembersSplit(t, i, o);
    var e := i + |DumpMember(o[0])|;
    var rest := o[1..];
    MemberRead(t, i, o[0], d, acc);
    NoSpace(t, e);
    MembersFirst(o);
    if rest != [] {
      FirstQuote(rest);
      CharAt(t, e + 1, DumpMembers(rest) + "}", 0);
      NoSpace(t, e + 1);
      MembersRead(t, e + 1, rest, d, acc + [MemberOf(o[0])]);
    }
    Join(acc, MemberOf(o[0]), MembersOf(rest));
  }

  /** One member: key, colon and value, and what is read after it. */
  lemma {:induction false} MemberRead(t: string, i: nat, m: Member, d: nat, acc: seq<JMember>)
    requires Holds(t, i, DumpMember(m)) && Stops(At(t, i + |DumpMember(m)|))
    ensures ParseMembers(t, i, d, acc) ==
            if !MemberFits(m, d + 1) then None
            else
              var j := SkipSpace(t, i + |DumpMember(m)|);
              if At(t, j) == '}' then Some((JObject(acc + [MemberOf(m)]), j + 1))
              else if At(t, j) == ',' then ParseMembers(t, SkipSpace(t, j + 1), d, acc + [MemberOf(m)])
              else None
    decreases m, 1
  {
    hide Holds, Quoted, StringEnd, Dump, Fits, ParseValue, ParseMembers, Stops, UnitLength, Unit;
    var key, value := Quoted(m.key), Dump(m.value);
    HoldsThree(t, i, key, ":", value);
    QuotedRead(t, i, m.key);
    CharAt(t, i + |key|, ":", 0);
    NoSpace(t, i + |key|);
    FirstChar(m.value);
    CharAt(t, i + |key| + 1, value, 0);
    NoSpace(t, i + |key| + 1);
    ValueRead(t, i + |key| + 1, m.value, d + 1);
    MemberStep(t, i, d, acc, i + |key| - 1);
  }

  /** What comes after a key. */
  lemma MemberStep(t: string, i: nat, d: nat, acc: seq<JMember>, e: nat)
    requires i < e < |t| && t[i] == '"' && StringEnd(t, i + 1) == Some(e) && WellEscaped(t[i + 1..e])
    requires e + 1 < |t| && t[e + 1] == ':' && !IsSpace(At(t, e + 2))
    ensures ParseMembers(t, i, d, acc) ==
            match ParseValue(t, e + 2, d + 1)
            case None => None
            case Some((v, f)) =>
              var j := SkipSpace(t, f);
              var acc' := acc + [JMember(Unescaped(t[i + 1..e]), v)];
              if At(t, j) == '}' then Some((JObject(acc'), j + 1))
              else if At(t, j) == ',' then ParseMembers(t, SkipSpace(t, j + 1), d, acc')
              else None
  {
    hide StringEnd, ParseValue, UnitLength, Unit, WellEscaped, Unescaped, SkipSpace;
    NoSpace(t, e + 1);
    NoSpace(t, e + 2);
  }

  /** Loading what was written gives the value back if at most 5000 containers are nested in it, and
      fails if there are more. */
  lemma LoadDump(v: Value)
    ensures Load(Dump(v)) == if Levels(v) <= 5000 then Some(JsonOf(v)) else None
  {
    hide Dump, ParseValue;
    var t := Dump(v);
    assert t[0..0 + |t|] == t;
    FirstChar(v);
    NoSpace(t, 0);
    NoSpace(t, |t|);
    ValueRead(t, 0, v, 0);
    FitsIff(v, 0);
  }
}
