/** Blanks between the tokens of a JSON text change nothing, and what escapes denote. */
module JsonSpaces {
  import opened JsonGrammar
  import opened JsonRoundTrip
  import opened JsonText
  import opened Options
  import opened TextAt

  // ---- texts with blanks ----

  /** A value as it is laid out, with blanks wherever they may stand. */
  datatype Wide =
    | Atom(v: Value)
    | Array(items: seq<WideItem>, gap: string)
    | Record(members: seq<WideMember>, gap: string)

  datatype WideItem = WideItem(before: string, value: Wide, after: string)

  datatype WideMember = WideMember(before: string, key: string, left: string, right: string, value: Wide, after: string)

  function Text(w: Wide): string
    decreases w, 0
  {
    match w
    case Atom(v) => Dump(v)
    case Array(items, gap) => "[" + ((if items == [] then gap else TextItems(items)) + "]")
    case Record(members, gap) => "{" + ((if members == [] then gap else TextMembers(members)) + "}")
  }

  function TextItems(l: seq<WideItem>): string
    decreases l, 1
  {
    if l == [] then "" else TextItem(l[0]) + (if l[1..] == [] then "" else "," + TextItems(l[1..]))
  }

  function TextItem(x: WideItem): string
    decreases x, 0
  {
    x.before + (Text(x.value) + x.after)
  }

  function TextMembers(o: seq<WideMember>): string
    decreases o, 1
  {
    if o == [] then "" else TextMember(o[0]) + (if o[1..] == [] then "" else "," + TextMembers(o[1..]))
  }

  function TextMember(m: WideMember): string
    decreases m, 0
  {
    m.before + (Quoted(m.key) + (m.left + (":" + (m.right + (Text(m.value) + m.after)))))
  }

  /** The value that is laid out. */
  function ValueOf(w: Wide): Value
    decreases w, 0
  {
    match w
    case Atom(v) => v
    case Array(items, _) => List(ValuesOf(items))
    case Record(members, _) => Object(MembersOfWide(members))
  }

  function ValuesOf(l: seq<WideItem>): seq<Value>
    decreases l, 1
  {
    if l == [] then [] else [ItemValue(l[0])] + ValuesOf(l[1..])
  }

  function ItemValue(x: WideItem): Value
    decreases x, 0
  {
    ValueOf(x.value)
  }

  function MembersOfWide(o: seq<WideMember>): seq<Member>
    decreases o, 1
  {
    if o == [] then [] else [MemberOfWide(o[0])] + MembersOfWide(o[1..])
  }

  function MemberOfWide(m: WideMember): Member
    decreases m, 0
  {
    Member(m.key, ValueOf(m.value))
  }

  predicate Blank(s: string) { forall i :: 0 <= i < |s| ==> s[i] in {' ', '\t', '\r', '\n'} }

  /** Only blanks stand between the tokens. */
  predicate Proper(w: Wide)
    decreases w, 0
  {
    match w
    case Atom(v) => !v.List? && !v.Object?
    case Array(items, gap) => Blank(gap) && forall x :: x in items ==> ProperItem(x)
    case Record(members, gap) => Blank(gap) && forall m :: m in members ==> ProperMember(m)
  }

  predicate ProperItem(x: WideItem)
    decreases x, 0
  {
    Blank(x.before) && Blank(x.after) && Proper(x.value)
  }

  predicate ProperMember(m: WideMember)
    decreases m, 0
  {
    Blank(m.before) && Blank(m.left) && Blank(m.right) && Blank(m.after) && Proper(m.value)
  }

  // ---- reading them ----

  lemma {:induction false} BlanksSkipped(t: string, i: nat, s: string)
    requires Holds(t, i, s) && Blank(s) && !IsSpace(At(t, i + |s|))
    ensures SkipSpace(t, i) == i + |s|
    decreases |s|
  {
    hide Holds;
    HoldsEnd(t, i, s);
    if s == "" {
      NoSpace(t, i);
    } else {
      CharAt(t, i, s, 0);
      assert s == [s[0]] + s[1..];
      HoldsSplit(t, i, [s[0]], s[1..]);
      BlanksSkipped(t, i + 1, s[1..]);
    }
  }

  lemma FirstOf(w: Wide)
    requires Proper(w)
    ensures Text(w) != "" && !IsSpace(Text(w)[0]) && Text(w)[0] != ']' && Text(w)[0] != '}'
  {
    hide Dump;
    if w.Atom? { FirstChar(w.v); }
  }

  /** A laid out value is read where it stands, if it fits, and nothing is read if it does not. */
  lemma {:induction false} WideRead(t: string, i: nat, w: Wide, d: nat)
    requires Proper(w) && Holds(t, i, Text(w)) && Stops(At(t, i + |Text(w)|))
    ensures ParseValue(t, i, d) == if Fits(ValueOf(w), d) then Some((JsonOf(ValueOf(w)), i + |Text(w)|)) else None
    decreases w, 0
  {
    hide Holds, Stops, ParseValue, Dump, Fits, JsonOf, TextItems, TextMembers;
    Containers(w);
    match w {
      case Atom(v) => ValueRead(t, i, v, d);
      case Array(items, gap) => ArrayRead(t, i, items, gap, d);
      case Record(members, gap) => RecordRead(t, i, members, gap, d);
    }
  }

  lemma Containers(w: Wide)
    ensures w.Array? ==> JsonOf(ValueOf(w)) == JList(ItemsOf(ValuesOf(w.items)))
    ensures w.Record? ==> JsonOf(ValueOf(w)) == JObject(MembersOf(MembersOfWide(w.members)))
  {
    hide ItemsOf, MembersOf, ValuesOf, MembersOfWide;
  }

  lemma {:induction false} ArrayRead(t: string, i: nat, l: seq<WideItem>, gap: string, d: nat)
    requires Proper(Array(l, gap)) && Holds(t, i, Text(Array(l, gap)))
    ensures ParseValue(t, i, d) ==
            if Fits(List(ValuesOf(l)), d) then Some((JList(ItemsOf(ValuesOf(l))), i + |Text(Array(l, gap))|)) else None
    decreases l, 3
  {
    hide Holds, Fits, ItemsFit, ParseValue, ParseItems, TextItems, ItemsOf, ValuesOf, IsSpace;
    var inside := if l == [] then gap else TextItems(l);
    HoldsSplit(t, i, "[", inside + "]");
    CharAt(t, i, "[", 0);
    ListStarts(t, i, d);
    FitsList(ValuesOf(l), d);
    NoValues();
    if l == [] {
      HoldsSplit(t, i + 1, gap, "]");
      CharAt(t, i + 1 + |gap|, "]", 0);
      CloseIsNoSpace();
      BlanksSkipped(t, i + 1, gap);
    } else {
      WideItemsRead(t, i + 1, l, d + 1, []);
      ItemStarts(t, i + 1, l);
      assert [] + ItemsOf(ValuesOf(l)) == ItemsOf(ValuesOf(l));
    }
  }

  lemma CloseIsNoSpace()
    ensures !IsSpace(']') && !IsSpace('}') && !IsSpace(',') && !IsSpace('"') && !IsSpace(':') && !IsSpace('\0')
  {
  }

  lemma NoValues()
    ensures ValuesOf([]) == [] && ItemsOf([]) == [] && MembersOfWide([]) == [] && MembersOf([]) == []
  {
  }

  /** After the blanks before an item its value begins. */
  lemma ItemStarts(t: string, i: nat, l: seq<WideItem>)
    requires l != [] && ProperItem(l[0]) && Holds(t, i, TextItems(l) + "]")
    ensures SkipSpace(t, i) == i + |l[0].before| && At(t, i + |l[0].before|) != ']'
    ensures i + |l[0].before| < |t|
  {
    hide Holds, Text, IsSpace;
    var x := l[0];
    ItemsText(l);
    HoldsSplit(t, i, x.before, Text(x.value) + (x.after + AfterItem(l)));
    HoldsSplit(t, i + |x.before|, Text(x.value), x.after + AfterItem(l));
    FirstOf(x.value);
    CharAt(t, i + |x.before|, Text(x.value), 0);
    BlanksSkipped(t, i, x.before);
  }

  function AfterItem(l: seq<WideItem>): string
    requires l != []
  {
    if l[1..] == [] then "]" else "," + (TextItems(l[1..]) + "]")
  }

  lemma ItemsText(l: seq<WideItem>)
    requires l != []
    ensures TextItems(l) + "]" == l[0].before + (Text(l[0].value) + (l[0].after + AfterItem(l)))
  {
    hide Text;
    var x := l[0];
    var rest := if l[1..] == [] then "" else "," + TextItems(l[1..]);
    AfterItemIs(l, rest);
    assert TextItems(l) == x.before + (Text(x.value) + x.after) + rest;
    hide TextItems, AfterItem;
    FourParts(x.before, Text(x.value), x.after, rest, "]");
  }

  lemma AfterItemIs(l: seq<WideItem>, rest: string)
    requires l != [] && rest == if l[1..] == [] then "" else "," + TextItems(l[1..])
    ensures rest + "]" == AfterItem(l)
  {
    hide TextItems;
  }

  lemma FourParts(a: string, b: string, c: string, r: string, z: string)
    ensures a + (b + c) + r + z == a + (b + (c + (r + z)))
  {
    var w := r + z;
    assert b + c + r + z == b + (c + w);
  }

  lemma ItemNext(t: string, i: nat, d: nat, acc: seq<Json>, e: nat, j: nat)
    requires i <= |t| && e <= |t|
    requires ParseValue(t, i, d + 1).Some? ==> ParseValue(t, i, d + 1).value.1 == e && SkipSpace(t, e) == j
    ensures ParseItems(t, i, d, acc) ==
            match ParseValue(t, i, d + 1)
            case None => None
            case Some((v, _)) =>
              if At(t, j) == ']' then Some((JList(acc + [v]), j + 1))
              else if At(t, j) == ',' then ParseItems(t, SkipSpace(t, j + 1), d, acc + [v])
              else None
  {
    hide ParseValue;
  }

  /** One item, and what is read after it. */
  lemma {:induction false} WideItemRead(t: string, i: nat, l: seq<WideItem>, d: nat, acc: seq<Json>)
    requires l != [] && ProperItem(l[0]) && Holds(t, i, TextItems(l) + "]")
    ensures var x := l[0];
            var j := i + |TextItem(x)|;
            && SkipSpace(t, i) <= |t| && j < |t| && Holds(t, j, AfterItem(l))
            && ParseItems(t, SkipSpace(t, i), d, acc) ==
               if !Fits(ValueOf(x.value), d + 1) then None
               else
                 var acc' := acc + [JsonOf(ValueOf(x.value))];
                 if At(t, j) == ']' then Some((JList(acc'), j + 1))
                 else if At(t, j) == ',' then ParseItems(t, SkipSpace(t, j + 1), d, acc')
                 else None
    decreases l[0], 1
  {
    hide Holds, Text, Fits, ParseValue, ParseItems, TextItems, JsonOf, IsSpace, Stops, Blank, SkipSpace, AfterItem;
    var x := l[0];
    var a := i + |x.before|;
    var e := a + |Text(x.value)|;
    var j := e + |x.after|;
    ItemPlaces(t, i, l);
    WideRead(t, a, x.value, d + 1);
    ItemNext(t, a, d, acc, e, j);
    hide TextItem;
  }

  /** Where an item begins and ends, and what stands after it. */
  lemma ItemPlaces(t: string, i: nat, l: seq<WideItem>)
    requires l != [] && ProperItem(l[0]) && Holds(t, i, TextItems(l) + "]")
    ensures var x := l[0];
            var a := i + |x.before|;
            var e := a + |Text(x.value)|;
            var j := i + |TextItem(x)|;
            && SkipSpace(t, i) == a <= e <= |t| && Holds(t, a, Text(x.value)) && Stops(At(t, e))
            && SkipSpace(t, e) == j == e + |x.after| < |t| && Holds(t, j, AfterItem(l))
  {
    hide Holds, Text, TextItems, IsSpace, Stops, Blank, SkipSpace, AfterItem, TextItem;
    var x := l[0];
    ItemLength(x);
    ItemStarts(t, i, l);
    ItemsText(l);
    var a := i + |x.before|;
    var e := a + |Text(x.value)|;
    var j := e + |x.after|;
    HoldsSplit(t, i, x.before, Text(x.value) + (x.after + AfterItem(l)));
    HoldsSplit(t, a, Text(x.value), x.after + AfterItem(l));
    HoldsSplit(t, e, x.after, AfterItem(l));
    AfterFirst(l);
    CharAt(t, j, AfterItem(l), 0);
    CloseIsNoSpace();
    BlanksSkipped(t, e, x.after);
    StopsAfter(t, e, x.after, j);
    HoldsEnd(t, a, Text(x.value));
  }

  lemma ItemLength(x: WideItem)
    ensures |TextItem(x)| == |x.before| + |Text(x.value)| + |x.after|
  {
    hide Text;
  }

  lemma AfterFirst(l: seq<WideItem>)
    requires l != []
    ensures AfterItem(l) != "" && AfterItem(l)[0] == if l[1..] == [] then ']' else ','
  {
    hide TextItems;
  }

  lemma AfterIs(l: seq<WideItem>)
    requires l != []
    ensures l[1..] != [] ==> AfterItem(l) == "," + (TextItems(l[1..]) + "]")
    ensures l[1..] == [] ==> |AfterItem(l)| == 1
  {
    hide TextItems;
  }

  lemma {:induction false} WideItemsRead(t: string, i: nat, l: seq<WideItem>, d: nat, acc: seq<Json>)
    requires l != [] && (forall x :: x in l ==> ProperItem(x)) && Holds(t, i, TextItems(l) + "]")
    ensures SkipSpace(t, i) <= |t|
    ensures ParseItems(t, SkipSpace(t, i), d, acc) ==
            if ItemsFit(ValuesOf(l), d + 1) then Some((JList(acc + ItemsOf(ValuesOf(l))), i + |TextItems(l)| + 1))
            else None
    decreases l, 2
  {
    hide Holds, Text, Fits, ParseItems, TextItems, TextItem, ItemsOf, JsonOf, IsSpace, ProperItem, AfterItem, SkipSpace,
         ValuesOf;
    var x, rest := l[0], l[1..];
    assert x in l && forall y :: y in rest ==> y in l;
    WideItemRead(t, i, l, d, acc);
    var j := i + |TextItem(x)|;
    AfterFirst(l);
    AfterIs(l);
    CharAt(t, j, AfterItem(l), 0);
    FirstValue(l);
    if rest != [] {
      HoldsSplit(t, j, ",", TextItems(rest) + "]");
      WideItemsRead(t, j + 1, rest, d, acc + [JsonOf(ValueOf(x.value))]);
    }
    Join(acc, JsonOf(ValueOf(x.value)), ItemsOf(ValuesOf(rest)));
  }

  lemma StopsAfter(t: string, e: nat, s: string, j: nat)
    requires Holds(t, e, s) && Blank(s) && j == e + |s| < |t| && t[j] in {']', ',', '}'}
    ensures Stops(At(t, e))
  {
    if s != "" { CharAt(t, e, s, 0); }
  }

  lemma FirstValue(l: seq<WideItem>)
    requires l != []
    ensures ValuesOf(l) == [ValueOf(l[0].value)] + ValuesOf(l[1..])
    ensures ItemsOf(ValuesOf(l)) == [JsonOf(ValueOf(l[0].value))] + ItemsOf(ValuesOf(l[1..])) && ItemsOf([]) == []
    ensures |TextItems(l)| + 1 == |TextItem(l[0])| + |AfterItem(l)|
    ensures ValuesOf(l)[1..] == ValuesOf(l[1..]) && ValuesOf([]) == []
  {
    hide JsonOf, TextItem;
  }

  lemma {:induction false} RecordRead(t: string, i: nat, o: seq<WideMember>, gap: string, d: nat)
    requires Proper(Record(o, gap)) && Holds(t, i, Text(Record(o, gap)))
    ensures ParseValue(t, i, d) ==
            if Fits(Object(MembersOfWide(o)), d) then
              Some((JObject(MembersOf(MembersOfWide(o))), i + |Text(Record(o, gap))|))
            else None
    decreases o, 3
  {
    hide Holds, Fits, MembersFit, ParseValue, ParseMembers, TextMembers, MembersOf, MembersOfWide, IsSpace;
    var inside := if o == [] then gap else TextMembers(o);
    HoldsSplit(t, i, "{", inside + "}");
    CharAt(t, i, "{", 0);
    ObjectStarts(t, i, d);
    FitsObject(MembersOfWide(o), d);
    NoValues();
    if o == [] {
      HoldsSplit(t, i + 1, gap, "}");
      CharAt(t, i + 1 + |gap|, "}", 0);
      CloseIsNoSpace();
      BlanksSkipped(t, i + 1, gap);
    } else {
      WideMembersRead(t, i + 1, o, d + 1, []);
      MemberStarts(t, i + 1, o);
      assert [] + MembersOf(MembersOfWide(o)) == MembersOf(MembersOfWide(o));
    }
  }

  function AfterMember(o: seq<WideMember>): string
    requires o != []
  {
    if o[1..] == [] then "}" else "," + (TextMembers(o[1..]) + "}")
  }

  /** A member after its key. */
  function AfterKey(o: seq<WideMember>): string
    requires o != []
  {
    o[0].left + (":" + (o[0].right + (Text(o[0].value) + (o[0].after + AfterMember(o)))))
  }

  lemma MembersText(o: seq<WideMember>)
    requires o != []
    ensures TextMembers(o) + "}" == o[0].before + (Quoted(o[0].key) + AfterKey(o))
  {
    hide Text, Quoted;
    var m := o[0];
    var rest := if o[1..] == [] then "" else "," + TextMembers(o[1..]);
    assert rest + "}" == AfterMember(o);
    SixParts(m.before, Quoted(m.key), m.left, ":", m.right, Text(m.value), m.after, rest, "}");
  }

  lemma SixParts(a: string, b: string, c: string, d: string, e: string, f: string, g: string, r: string, z: string)
    ensures a + (b + (c + (d + (e + (f + g))))) + r + z == a + (b + (c + (d + (e + (f + (g + (r + z)))))))
  {
    var w := r + z;
    assert f + g + r + z == f + (g + w);
    assert e + (f + g) + r + z == e + (f + (g + w));
    assert d + (e + (f + g)) + r + z == d + (e + (f + (g + w)));
    assert c + (d + (e + (f + g))) + r + z == c + (d + (e + (f + (g + w))));
    assert b + (c + (d + (e + (f + g)))) + r + z == b + (c + (d + (e + (f + (g + w)))));
  }

  lemma QuoteFirst(s: string)
    ensures Quoted(s) != "" && Quoted(s)[0] == '"'
  {
    hide Escaped;
  }

  /** After the blanks before a member its key begins. */
  lemma MemberStarts(t: string, i: nat, o: seq<WideMember>)
    requires o != [] && ProperMember(o[0]) && Holds(t, i, TextMembers(o) + "}")
    ensures SkipSpace(t, i) == i + |o[0].before| < |t| && t[i + |o[0].before|] == '"'
    ensures Holds(t, i + |o[0].before|, Quoted(o[0].key) + AfterKey(o))
  {
    hide Holds, Text, IsSpace, Quoted;
    var m := o[0];
    MembersText(o);
    HoldsSplit(t, i, m.before, Quoted(m.key) + AfterKey(o));
    HoldsSplit(t, i + |m.before|, Quoted(m.key), AfterKey(o));
    QuoteFirst(m.key);
    CharAt(t, i + |m.before|, Quoted(m.key), 0);
    CloseIsNoSpace();
    BlanksSkipped(t, i, m.before);
  }

  /** What is read after a key, with blanks around the colon. */
  lemma KeyNext(t: string, i: nat, d: nat, acc: seq<JMember>, e: nat, c: nat, v: nat)
    requires i < e < |t| && t[i] == '"' && StringEnd(t, i + 1) == Some(e) && WellEscaped(t[i + 1..e])
    requires e + 1 <= c < |t| && SkipSpace(t, e + 1) == c && t[c] == ':' && SkipSpace(t, c + 1) == v <= |t|
    ensures ParseMembers(t, i, d, acc) == AfterValue(t, d, acc, Unescaped(t[i + 1..e]), ParseValue(t, v, d + 1))
  {
    hide StringEnd, ParseValue, WellEscaped, Unescaped, SkipSpace, IsSpace, Holds, UnitLength, Unit, NumberEnd;
    assert At(t, i) == '"' && At(t, c) == ':';
    hide At;
  }

  /** How a member goes on after its value. */
  function AfterValue(t: string, d: nat, acc: seq<JMember>, key: string, x: Option<(Json, nat)>): Option<(Json, nat)>
    requires x.Some? ==> x.value.1 <= |t|
  {
    match x
    case None => None
    case Some((v, f)) =>
      var j := SkipSpace(t, f);
      if At(t, j) == '}' then Some((JObject(acc + [JMember(key, v)]), j + 1))
      else if At(t, j) == ',' && j < |t| then ParseMembers(t, SkipSpace(t, j + 1), d, acc + [JMember(key, v)])
      else None
  }

  /** The key, the colon and the place of the value. */
  lemma KeyRead(t: string, i: nat, o: seq<WideMember>)
    requires o != [] && ProperMember(o[0]) && Holds(t, i, TextMembers(o) + "}")
    ensures var m := o[0];
            var a := i + |m.before|;
            var e := a + |Quoted(m.key)| - 1;
            var v := e + 1 + |m.left| + 1 + |m.right|;
            && SkipSpace(t, i) == a < e < |t| && t[a] == '"' && StringEnd(t, a + 1) == Some(e)
            && Says(t[a + 1..e], m.key)
            && SkipSpace(t, e + 1) == e + 1 + |m.left| < |t| && t[e + 1 + |m.left|] == ':'
            && SkipSpace(t, e + 2 + |m.left|) == v && Holds(t, v, Text(m.value) + (m.after + AfterMember(o)))
  {
    hide Holds, Text, TextMembers, IsSpace, Quoted, StringEnd, Says, Blank, AfterMember, SkipSpace;
    var m := o[0];
    MemberStarts(t, i, o);
    var a := i + |m.before|;
    var e := a + |Quoted(m.key)| - 1;
    var value := Text(m.value) + (m.after + AfterMember(o));
    HoldsSplit(t, a, Quoted(m.key), AfterKey(o));
    QuotedRead(t, a, m.key);
    HoldsSplit(t, e + 1, m.left, ":" + (m.right + value));
    var c := e + 1 + |m.left|;
    HoldsSplit(t, c, ":", m.right + value);
    CharAt(t, c, ":", 0);
    CloseIsNoSpace();
    BlanksSkipped(t, e + 1, m.left);
    HoldsSplit(t, c + 1, m.right, value);
    var v := c + 1 + |m.right|;
    HoldsSplit(t, v, Text(m.value), m.after + AfterMember(o));
    FirstOf(m.value);
    CharAt(t, v, Text(m.value), 0);
    BlanksSkipped(t, c + 1, m.right);
  }

  /** One member, and what is read after it. */
  lemma {:induction false} WideMemberRead(t: string, i: nat, o: seq<WideMember>, d: nat, acc: seq<JMember>)
    requires o != [] && ProperMember(o[0]) && Holds(t, i, TextMembers(o) + "}")
    ensures var m := o[0];
            var j := i + |TextMember(m)|;
            && SkipSpace(t, i) <= |t| && j < |t| && Holds(t, j, AfterMember(o))
            && ParseMembers(t, SkipSpace(t, i), d, acc) ==
               if !Fits(ValueOf(m.value), d + 1) then None
               else
                 var acc' := acc + [JMember(m.key, JsonOf(ValueOf(m.value)))];
                 if At(t, j) == '}' then Some((JObject(acc'), j + 1))
                 else if At(t, j) == ',' then ParseMembers(t, SkipSpace(t, j + 1), d, acc')
                 else None
    decreases o[0], 1
  {
    hide Holds, Text, Fits, ParseValue, ParseMembers, TextMembers, JsonOf, IsSpace, Stops, Quoted, StringEnd, Says,
         Blank, SkipSpace, AfterMember, WellEscaped, Unescaped;
    var m := o[0];
    KeyRead(t, i, o);
    var a := i + |m.before|;
    var e := a + |Quoted(m.key)| - 1;
    var v := e + 1 + |m.left| + 1 + |m.right|;
    MemberEnds(t, v, o);
    WideRead(t, v, m.value, d + 1);
    Spoken(t[a + 1..e], m.key);
    KeyNext(t, a, d, acc, e, e + 1 + |m.left|, v);
    MemberLength(m);
    hide TextMember;
  }

  /** Where a member ends, and what stands after it. */
  lemma MemberEnds(t: string, v: nat, o: seq<WideMember>)
    requires o != [] && ProperMember(o[0]) && Holds(t, v, Text(o[0].value) + (o[0].after + AfterMember(o)))
    ensures var m := o[0];
            var f := v + |Text(m.value)|;
            var j := f + |m.after|;
            && Holds(t, v, Text(m.value)) && f <= |t| && Stops(At(t, f)) && SkipSpace(t, f) == j < |t|
            && Holds(t, j, AfterMember(o))
  {
    hide Holds, Text, IsSpace, Stops, Blank, SkipSpace, AfterMember;
    var m := o[0];
    var f := v + |Text(m.value)|;
    var j := f + |m.after|;
    HoldsSplit(t, v, Text(m.value), m.after + AfterMember(o));
    HoldsSplit(t, f, m.after, AfterMember(o));
    AfterFirstMember(o);
    CharAt(t, j, AfterMember(o), 0);
    CloseIsNoSpace();
    BlanksSkipped(t, f, m.after);
    StopsAfter(t, f, m.after, j);
    HoldsEnd(t, v, Text(m.value));
  }

  lemma AfterFirstMember(o: seq<WideMember>)
    requires o != []
    ensures AfterMember(o) != "" && AfterMember(o)[0] == if o[1..] == [] then '}' else ','
  {
    hide TextMembers;
  }

  lemma AfterMemberIs(o: seq<WideMember>)
    requires o != []
    ensures o[1..] != [] ==> AfterMember(o) == "," + (TextMembers(o[1..]) + "}")
    ensures o[1..] == [] ==> |AfterMember(o)| == 1
  {
    hide TextMembers;
  }

  lemma Spoken(text: string, key: string)
    requires Says(text, key)
    ensures WellEscaped(text) && Unescaped(text) == key
  {
  }

  lemma MemberLength(m: WideMember)
    ensures |TextMember(m)| == |m.before| + |Quoted(m.key)| + |m.left| + 1 + |m.right| + |Text(m.value)| + |m.after|
  {
    hide Text, Quoted;
  }

  lemma {:induction false} WideMembersRead(t: string, i: nat, o: seq<WideMember>, d: nat, acc: seq<JMember>)
    requires o != [] && (forall m :: m in o ==> ProperMember(m)) && Holds(t, i, TextMembers(o) + "}")
    ensures SkipSpace(t, i) <= |t|
    ensures ParseMembers(t, SkipSpace(t, i), d, acc) ==
            if MembersFit(MembersOfWide(o), d + 1) then
              Some((JObject(acc + MembersOf(MembersOfWide(o))), i + |TextMembers(o)| + 1))
            else None
    decreases o, 2
  {
    hide Holds, Text, Fits, ParseMembers, TextMembers, TextMember, MembersOf, JsonOf, IsSpace, ProperMember,
         AfterMember, SkipSpace, MembersOfWide;
    var m, rest := o[0], o[1..];
    assert m in o && forall x :: x in rest ==> x in o;
    WideMemberRead(t, i, o, d, acc);
    var j := i + |TextMember(m)|;
    AfterFirstMember(o);
    AfterMemberIs(o);
    CharAt(t, j, AfterMember(o), 0);
    FirstMember(o);
    if rest != [] {
      HoldsSplit(t, j, ",", TextMembers(rest) + "}");
      WideMembersRead(t, j + 1, rest, d, acc + [JMember(m.key, JsonOf(ValueOf(m.value)))]);
    }
    Join(acc, JMember(m.key, JsonOf(ValueOf(m.value))), MembersOf(MembersOfWide(rest)));
  }

  lemma FirstMember(o: seq<WideMember>)
    requires o != []
    ensures MembersOfWide(o) == [Member(o[0].key, ValueOf(o[0].value))] + MembersOfWide(o[1..])
    ensures MembersOf(MembersOfWide(o)) ==
            [JMember(o[0].key, JsonOf(ValueOf(o[0].value)))] + MembersOf(MembersOfWide(o[1..])) && MembersOf([]) == []
    ensures |TextMembers(o)| + 1 == |TextMember(o[0])| + |AfterMember(o)|
    ensures MembersOfWide(o)[1..] == MembersOfWide(o[1..]) && MembersOfWide([]) == []
  {
    hide JsonOf, TextMember;
  }

  /** Blanks between the tokens change nothing: a text with any of them is loaded as the text that is written
      without. */
  lemma BlanksChangeNothing(w: Wide, front: string, back: string)
    requires Proper(w) && Blank(front) && Blank(back)
    ensures Load(front + Text(w) + back) == Load(Dump(ValueOf(w)))
    ensures Load(front + Text(w) + back) == if Levels(ValueOf(w)) <= 5000 then Some(JsonOf(ValueOf(w))) else None
  {
    hide Dump, Text, ParseValue, Fits, Levels, Stops, Holds, IsSpace;
    LoadDump(ValueOf(w));
    var t := front + Text(w) + back;
    Whole(t);
    HoldsThree(t, 0, front, Text(w), back);
    FirstOf(w);
    CharAt(t, |front|, Text(w), 0);
    BlanksSkipped(t, 0, front);
    var e := |front| + |Text(w)|;
    CloseIsNoSpace();
    BlanksSkipped(t, e, back);
    EndStops(t, e, back);
    WideRead(t, |front|, w, 0);
    FitsIff(ValueOf(w), 0);
  }

  lemma Whole(t: string)
    ensures Holds(t, 0, t)
  {
  }

  lemma EndStops(t: string, e: nat, s: string)
    requires Holds(t, e, s) && Blank(s) && e + |s| == |t|
    ensures Stops(At(t, e))
  {
    if s != "" { CharAt(t, e, s, 0); }
  }

  // ---- what escapes denote ----

  /** The code that up to three bytes stand for (section 3 of RFC 3629). */
  function CodeOf(b: string): nat
    requires 0 < |b| <= 3
  {
    if |b| == 1 then b[0] as nat
    else if |b| == 2 then (b[0] as nat % 32) * 64 + b[1] as nat % 64
    else (b[0] as nat % 16) * 4096 + (b[1] as nat % 64) * 64 + b[2] as nat % 64
  }

  /** A code is written as its bytes, as many as it needs, each marked with its place. */
  lemma Utf8Denotes(code: nat)
    requires code < 0x10000
    ensures var b := Utf8(code);
            && CodeOf(b) == code && |b| == (if code < 0x80 then 1 else if code < 0x800 then 2 else 3)
            && (|b| == 1 ==> b[0] as int < 0x80)
            && (|b| == 2 ==> 0xC0 <= b[0] as int < 0xE0)
            && (|b| == 3 ==> 0xE0 <= b[0] as int < 0xF0)
            && forall i :: 0 < i < |b| ==> 0x80 <= b[i] as int < 0xC0
  {
    var low := code % 0x40;
    Marked(low);
    if 0x80 <= code < 0x800 {
      var high := code / 0x40;
      Marked(high);
      assert code == high * 0x40 + low && high < 32;
    } else if 0x800 <= code {
      var high, middle := code / 0x1000, code / 0x40 % 0x40;
      Marked(high);
      Marked(middle);
      Split(code);
      assert high < 16 && middle < 64;
    }
  }

  lemma Split(code: nat)
    ensures code == code / 0x1000 * 0x1000 + code / 0x40 % 0x40 * 0x40 + code % 0x40
  {
    assert code / 0x40 / 0x40 == code / 0x1000;
  }

  lemma Marked(x: nat)
    ensures x < 16 ==> (0xE0 + x) % 16 == x
    ensures x < 32 ==> (0xC0 + x) % 32 == x
    ensures x < 64 ==> (0x80 + x) % 64 == x
  {
  }

  /** The digits of an escape, in either case. */
  lemma HexTexts(i: nat)
    requires i < 16
    ensures IsHex("0123456789abcdef"[i]) && FromHex("0123456789abcdef"[i]) == i
    ensures IsHex("0123456789ABCDEF"[i]) && FromHex("0123456789ABCDEF"[i]) == i
  {
  }

  /** The escapes, one by one. */
  lemma EscapeTexts()
    ensures Unescaped("\\\"") == "\"" && Unescaped("\\\\") == "\\" && Unescaped("\\/") == "/"
    ensures Unescaped("\\n") == "\n" && Unescaped("\\r") == "\r" && Unescaped("\\t") == "\t"
    ensures Unescaped("\\b") == [8 as char] && Unescaped("\\f") == [12 as char]
  {
    Pair('"');
    Pair('\\');
    Pair('/');
    Pair('n');
    Pair('r');
    Pair('t');
    Pair('b');
    Pair('f');
  }

  lemma Pair(c: char)
    requires IsSimpleEscape(c)
    ensures WellEscaped(['\\', c]) && Unescaped(['\\', c]) == [SimpleEscape(c)]
  {
    var s := ['\\', c];
    assert s[2..] == "";
  }

  // ---- the tokens, spelled out ----

  /** How values are written. */
  lemma Tokens(a: Value, b: Value, key: string, s: string)
    ensures Dump(Null) == "null" && Dump(True) == "true" && Dump(False) == "false"
    ensures Dump(String(s)) == "\"" + Escaped(s) + "\""
    ensures Dump(List([])) == "[]" && Dump(Object([])) == "{}"
    ensures Dump(List([a, b])) == "[" + (Dump(a) + "," + Dump(b)) + "]"
    ensures Dump(Object([Member(key, a), Member(s, b)])) ==
            "{" + (DumpMember(Member(key, a)) + "," + DumpMember(Member(s, b))) + "}"
    ensures DumpMember(Member(key, a)) == "\"" + Escaped(key) + "\"" + ":" + Dump(a)
  {
    Pairs(a, b, Member(key, a), Member(s, b));
    hide Escaped, DumpItems, DumpMembers;
  }

  lemma Pairs(a: Value, b: Value, m: Member, n: Member)
    ensures DumpItems([a, b]) == Dump(a) + "," + Dump(b) && DumpItems([]) == "" && DumpMembers([]) == ""
    ensures DumpMembers([m, n]) == DumpMember(m) + "," + DumpMember(n)
  {
    hide Dump, DumpMember;
    assert [a, b][1..] == [b] && [b][1..] == [] && [m, n][1..] == [n] && [n][1..] == [];
    assert DumpTail([b]) == "," + Dump(b) + DumpTail([]) && DumpMore([n]) == "," + DumpMember(n) + DumpMore([]);
    assert "," + Dump(b) + "" == "," + Dump(b) && "," + DumpMember(n) + "" == "," + DumpMember(n);
    assert Dump(a) + ("," + Dump(b)) == Dump(a) + "," + Dump(b);
    assert DumpMember(m) + ("," + DumpMember(n)) == DumpMember(m) + "," + DumpMember(n);
  }
}
