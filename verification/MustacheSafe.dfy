/** What may stand in the output of a template: escaping, and which tags escape. */
module MustacheSafe {
  import opened MustacheTemplate
  import opened MustacheTrim
  import opened Options

  // ---- escaping ----

  /** No character that means something to HTML is left, other than the `&` of an entity. */
  predicate Harmless(c: char) {
    c != '<' && c != '>' && c != '"' && c != '\'' && c != '/' && c != '`' && c != '='
  }

  lemma {:induction false} EscapedHarmless(s: string)
    ensures forall i :: 0 <= i < |Escaped(s)| ==> Harmless(Escaped(s)[i])
  {
    if s != "" {
      EscapedHarmless(s[..|s| - 1]);
      CharHarmless(s[|s| - 1]);
    }
  }

  lemma CharHarmless(c: char)
    ensures forall i :: 0 <= i < |EscapeChar(c)| ==> Harmless(EscapeChar(c)[i])
  {
  }

  lemma {:induction false} EscapedCons(s: string)
    requires s != ""
    ensures Escaped(s) == EscapeChar(s[0]) + Escaped(s[1..])
  {
    hide EscapeChar;
    if |s| > 1 {
      EscapedCons(s[..|s| - 1]);
      assert s[..|s| - 1][1..] == s[1..][..|s| - 2];
    }
  }

  /** The escapes of two characters are not the beginning of one another. */
  lemma PrefixFree(c: char, d: char, s: string, t: string)
    requires EscapeChar(c) + s == EscapeChar(d) + t
    ensures c == d && s == t
  {
    var x, y := EscapeChar(c) + s, EscapeChar(d) + t;
    assert c == d by {
      assert x[0] == y[0];
      if x[0] == '&' {
        assert x[1] == y[1] && x[2] == y[2] && x[3] == y[3];
      }
    }
    assert s == x[|EscapeChar(c)|..] && t == y[|EscapeChar(d)|..];
  }

  /** Escaping loses nothing: different texts are escaped differently. */
  lemma {:induction false} EscapedInjective(s: string, t: string)
    requires Escaped(s) == Escaped(t)
    ensures s == t
    decreases |s|
  {
    hide EscapeChar;
    if s != "" { EscapedCons(s); EscapeNonempty(s[0]); }
    if t != "" { EscapedCons(t); EscapeNonempty(t[0]); }
    if s != "" && t != "" {
      PrefixFree(s[0], t[0], Escaped(s[1..]), Escaped(t[1..]));
      EscapedInjective(s[1..], t[1..]);
      assert s == [s[0]] + s[1..] && t == [t[0]] + t[1..];
    }
  }

  lemma EscapeNonempty(c: char)
    ensures EscapeChar(c) != ""
  {
  }

  /** The escapes of the characters that are special in HTML. */
  lemma EscapeTable()
    ensures Escaped("&") == "&amp;" && Escaped("<") == "&lt;" && Escaped(">") == "&gt;" && Escaped("\"") == "&quot;"
    ensures Escaped("\'") == "&#39;" && Escaped("/") == "&#x2F;" && Escaped("`") == "&#x60;" && Escaped("=") == "&#x3D;"
    ensures forall c: char :: Harmless(c) && c != '&' ==> Escaped([c]) == [c]
  {
    OneEscaped();
    hide Escaped, EscapeChar;
    assert "&" == ['&'] && "<" == ['<'] && ">" == ['>'] && "\"" == ['"'] && "\'" == ['\''] && "/" == ['/'];
    forall c: char | Harmless(c) && c != '&'
      ensures Escaped([c]) == [c]
    {
      Unescaped(c);
    }
    EscapesAre();
  }

  lemma OneEscaped()
    ensures forall c: char :: Escaped([c]) == EscapeChar(c)
  {
    hide EscapeChar;
    forall c: char
      ensures Escaped([c]) == EscapeChar(c)
    {
      assert [c][..0] == "" && Escaped("") == "" && "" + EscapeChar(c) == EscapeChar(c);
    }
  }

  lemma Unescaped(c: char)
    requires Harmless(c) && c != '&'
    ensures EscapeChar(c) == [c]
  {
  }

  lemma EscapesAre()
    ensures EscapeChar('&') == "&amp;" && EscapeChar('<') == "&lt;" && EscapeChar('>') == "&gt;"
    ensures EscapeChar('"') == "&quot;" && EscapeChar('\'') == "&#39;" && EscapeChar('/') == "&#x2F;"
    ensures EscapeChar('`') == "&#x60;" && EscapeChar('=') == "&#x3D;"
  {
  }

  /** Of a section and the inverted section of the same name exactly one is rendered. */
  lemma OneOfBoth(v: Option<Value>)
    ensures Entered(v, false) == [] <==> Entered(v, true) != []
    ensures v.Some? && v.value.List? ==> Entered(v, false) == v.value.l
    ensures Entered(v, false) == [] <==> v == None || v.value in {False, Null, List([])}
    ensures v.Some? && !v.value.List? && Entered(v, false) != [] ==> Entered(v, false) == [v.value]
    ensures |Entered(v, true)| <= 1
  {
  }

  // ---- what a tag prints ----

  predicate AllHarmless(s: string) { forall i :: 0 <= i < |s| ==> Harmless(s[i]) }

  /** A plain tag prints a string without special characters, a raw tag prints it as it is. */
  lemma TagPrints(s: string)
    ensures TagText(Some(String(s)), true) == Some(s)
    ensures TagText(Some(String(s)), false).Some? && AllHarmless(TagText(Some(String(s)), false).value)
  {
    EscapedHarmless(s);
  }

  /** The printed numbers of a value hold no special characters. */
  predicate TameValue(v: Value)
    decreases v
  {
    match v
    case Number(text) => AllHarmless(text)
    case List(l) => forall x :: x in l ==> TameValue(x)
    case Object(o) => forall key :: key in o ==> TameValue(o[key])
    case _ => true
  }

  predicate TameStack(stack: seq<Value>) { forall v :: v in stack ==> TameValue(v) }

  /** The items have no raw tags, and their texts no special characters. */
  predicate Tame(items: seq<Item>)
    decreases items, 1
  {
    forall item :: item in items ==> AllHarmless(item.text) && TameNode(item.node)
  }

  predicate TameNode(node: Node)
    decreases node, 0
  {
    match node
    case Tag(_, raw) => !raw
    case Note => true
    case Section(_, _, items, tail) => Tame(items) && AllHarmless(tail)
  }

  lemma {:induction false} FollowTame(names: seq<string>, view: Value)
    requires TameValue(view)
    ensures Follow(names, view).Some? ==> TameValue(Follow(names, view).value)
    decreases |names|
  {
    if names != [] && view.Object? && names[0] in view.o { FollowTame(names[1..], view.o[names[0]]); }
  }

  lemma {:induction false} LookupTame(names: seq<string>, stack: seq<Value>, narrow: bool)
    requires TameStack(stack)
    ensures Lookup(names, stack, narrow).Some? ==> TameValue(Lookup(names, stack, narrow).value)
  {
    hide Follow, TameValue;
    if stack != [] {
      FollowTame(names, stack[|stack| - 1]);
      LookupTame(names, stack[..|stack| - 1], narrow);
    }
  }

  lemma ContextTame(name: string, stack: seq<Value>, narrow: bool)
    requires stack != [] && TameStack(stack)
    ensures Context(name, stack, narrow).Some? ==> TameValue(Context(name, stack, narrow).value)
  {
    hide Lookup, Names, TameValue;
    if name != "." { LookupTame(Names(name, 0), stack, narrow && '.' in name); }
  }

  /** What is printed for a text that holds no special characters where a string is not escaped. */
  predicate SafeText(t: Option<string>) { t.Some? ==> AllHarmless(t.value) }

  lemma ConcatSafe(a: Option<string>, b: Option<string>)
    requires SafeText(a) && SafeText(b)
    ensures SafeText(Concat(a, b))
  {
    hide Harmless;
  }

  lemma {:induction false} MeaningSafe(items: seq<Item>, stack: seq<Value>, place: Place)
    requires stack != [] && TameStack(stack) && Tame(items)
    ensures SafeText(Meaning(items, stack, place))
    decreases items, 0
  {
    hide SafeText, AllHarmless, TameStack, NodeMeaning, Behind, Concat;
    if items == [] {
      NothingSafe();
    } else {
      var node := items[0].node;
      assert items[0] in items;
      NodeSafe(node, stack, place);
      MeaningSafe(items[1..], stack, Behind(place, node));
      TextSafe(items[0].text);
      var first, rest := NodeMeaning(node, stack, place), Meaning(items[1..], stack, Behind(place, node));
      ConcatSafe(first, rest);
      ConcatSafe(Some(items[0].text), Concat(first, rest));
    }
  }

  lemma NothingSafe()
    ensures SafeText(Some("")) && SafeText(None)
  {
  }

  lemma TextSafe(s: string)
    requires AllHarmless(s)
    ensures SafeText(Some(s))
  {
  }

  lemma {:induction false} NodeSafe(node: Node, stack: seq<Value>, place: Place)
    requires stack != [] && TameStack(stack) && TameNode(node)
    ensures SafeText(NodeMeaning(node, stack, place))
    decreases node, 1
  {
    match node {
      case Tag(name, raw) =>
        ContextTame(name, stack, Narrow(stack, place));
        PrintedSafe(Context(name, stack, Narrow(stack, place)));
      case Note =>
      case Section(name, inverted, items, tail) =>
        hide TameStack;
        ContextTame(name, stack, false);
        EnteredTame(Context(name, stack, false), inverted);
        EachSafe(node, Entered(Context(name, stack, false), inverted), stack, place);
    }
  }

  lemma PrintedSafe(v: Option<Value>)
    requires v.Some? ==> TameValue(v.value)
    ensures SafeText(TagText(v, false))
  {
    if v.Some? && v.value.String? { TagPrints(v.value.s); }
    assert AllHarmless("true") && AllHarmless("false") && AllHarmless("");
    hide Harmless, Escaped;
  }

  lemma EnteredTame(v: Option<Value>, inverted: bool)
    requires v.Some? ==> TameValue(v.value)
    ensures TameStack(Entered(v, inverted))
  {
  }

  lemma {:induction false} EachSafe(node: Node, contexts: seq<Value>, stack: seq<Value>, place: Place)
    requires stack != [] && TameStack(stack) && TameStack(contexts) && node.Section? && TameNode(node)
    ensures SafeText(Each(node, contexts, stack, place))
    decreases node, 0, |contexts|
  {
    if contexts == [] {
      NothingSafe();
    } else {
      hide SafeText, AllHarmless, TameValue, Within;
      var n := |contexts| - 1;
      EachSafe(node, contexts[..n], stack, place);
      var top := stack + [contexts[n]];
      MeaningSafe(node.items, top, Within(place, node));
      TextSafe(node.tail);
      hide Meaning, Concat;
      ConcatSafe(Meaning(node.items, top, Within(place, node)), Some(node.tail));
      ConcatSafe(Each(node, contexts[..n], stack, place), BodyMeaning(node.items, node.tail, top, Within(place, node)));
    }
  }

  lemma BodySafe(items: seq<Item>, tail: string, stack: seq<Value>, place: Place)
    requires stack != [] && TameStack(stack) && Tame(items) && AllHarmless(tail)
    ensures SafeText(BodyMeaning(items, tail, stack, place))
  {
    hide SafeText, AllHarmless, Meaning, Concat, Tame, TameStack;
    MeaningSafe(items, stack, place);
    TextSafe(tail);
    ConcatSafe(Meaning(items, stack, place), Some(tail));
  }

  predicate HarmlessTexts(texts: seq<string>) { forall i :: 0 <= i < |texts| ==> AllHarmless(texts[i]) }

  lemma {:induction false} TextsTame(items: seq<Item>)
    requires Tame(items)
    ensures HarmlessTexts(Texts(items))
    decreases items, 1
  {
    if items != [] {
      hide AllHarmless, ItemTexts, NodeCount;
      var n := |items| - 1;
      TextsTame(items[..n]);
      assert items[n] in items;
      ItemTame(items[n]);
    }
  }

  lemma {:induction false} ItemTame(item: Item)
    requires AllHarmless(item.text) && TameNode(item.node)
    ensures HarmlessTexts(ItemTexts(item))
    decreases item, 0
  {
    hide AllHarmless;
    if item.node.Section? { TextsTame(item.node.items); }
  }

  lemma {:induction false} RetextTame(items: seq<Item>, texts: seq<string>)
    requires |texts| == Count(items) && Tame(items) && HarmlessTexts(texts)
    ensures Tame(Retext(items, texts))
    decreases items, 1
  {
    if items != [] {
      hide AllHarmless, RetextItem, NodeCount, TameNode;
      var n := |items| - 1;
      RetextSnoc(items, texts);
      var k := Count(items[..n]);
      hide Retext, Count;
      RetextTame(items[..n], texts[..k]);
      assert items[n] in items;
      RetextItemTame(items[n], texts[k..]);
    }
  }

  lemma {:induction false} RetextItemTame(item: Item, texts: seq<string>)
    requires |texts| == NodeCount(item.node) && TameNode(item.node) && HarmlessTexts(texts)
    ensures AllHarmless(RetextItem(item, texts).text) && TameNode(RetextItem(item, texts).node)
    decreases item, 0
  {
    hide AllHarmless;
    if item.node.Section? { RetextTame(item.node.items, texts[1..|texts| - 1]); }
  }

  lemma SliceHarmless(s: string, a: nat, b: nat)
    requires AllHarmless(s) && a <= b <= |s|
    ensures AllHarmless(s[a..b])
  {
    hide Harmless;
  }

  /** Taking out lines puts no special character into a template. */
  lemma TrimmedTame(items: seq<Item>, tail: string)
    requires Tame(items) && AllHarmless(tail)
    ensures Tame(TrimmedItems(items, tail)) && AllHarmless(TrimmedTail(items, tail))
  {
    hide AllHarmless, Tame, Actions, Texts, Count, Retext, High, Low, Trimmed;
    var code := Compiled(items, tail);
    var texts := Trimmed(code);
    TextsTame(items);
    forall i | 0 <= i < |texts|
      ensures AllHarmless(texts[i])
    {
      assert AllHarmless(code.fragments[i]);
      Ordered(code, i);
      TrimmedAt(code, i);
      SliceHarmless(code.fragments[i], Low(code, i), High(code, i));
    }
    RetextTame(items, texts[..Count(items)]);
  }

  lemma TrimmedAt(code: Code, i: nat)
    requires |code.fragments| == |code.actions| && i < |code.fragments|
    ensures Low(code, i) <= High(code, i) && Trimmed(code)[i] == code.fragments[i][Low(code, i)..High(code, i)]
  {
    hide Low, High;
    Ordered(code, i);
  }

  /** What is rendered with harmless texts and numbers, and without raw tags, is harmless, whatever the
      strings are. */
  lemma RenderedSafe(items: seq<Item>, tail: string, context: Value)
    requires Tame(items) && AllHarmless(tail) && TameValue(context)
    ensures SafeText(BodyMeaning(TrimmedItems(items, tail), TrimmedTail(items, tail), [context], TOP))
  {
    hide Tame, AllHarmless, TrimmedItems, TrimmedTail, BodyMeaning, SafeText, TameValue;
    TrimmedTame(items, tail);
    BodySafe(TrimmedItems(items, tail), TrimmedTail(items, tail), [context], TOP);
  }

  // ---- what names mean ----

  /** The parts of a name with dots between them. */
  function Dotted(names: seq<string>): string
    requires names != []
  {
    if |names| == 1 then names[0] else names[0] + "." + Dotted(names[1..])
  }

  lemma DottedMore(part: string, rest: seq<string>)
    requires rest != []
    ensures Dotted([part] + rest) == part + "." + Dotted(rest) && Dotted([part]) == part
  {
    assert ([part] + rest)[1..] == rest;
  }

  lemma PartsApart(name: string, i: nat, d: nat)
    requires i <= d < |name| && name[d] == '.'
    ensures name[i..] == name[i..d] + "." + name[d + 1..]
  {
  }

  lemma FirstPart(name: string, i: nat)
    requires i <= |name|
    ensures var d := DotAt(name, i);
            && '.' !in name[i..d]
            && Names(name, i) == if d == |name| then [name[i..]] else [name[i..d]] + Names(name, d + 1)
  {
    hide DotAt;
    var d := DotAt(name, i);
    assert d == |name| ==> name[i..d] == name[i..];
  }

  /** A name is cut at its dots and nowhere else. */
  lemma {:induction false} NamesAreParts(name: string, i: nat)
    requires i <= |name|
    ensures var r := Names(name, i); Dotted(r) == name[i..] && forall part :: part in r ==> '.' !in part
    decreases |name| - i
  {
    hide DotAt, Names, Dotted;
    var d := DotAt(name, i);
    FirstPart(name, i);
    if d == |name| {
      assert name[i..d] == name[i..];
      DottedMore(name[i..], ["."]);
    } else {
      NamesAreParts(name, d + 1);
      DottedMore(name[i..d], Names(name, d + 1));
      PartsApart(name, i, d);
    }
  }

  /** The innermost context from which the names lead on is the one that counts. */
  lemma {:induction false} InnermostCounts(names: seq<string>, stack: seq<Value>)
    ensures match Lookup(names, stack, false)
            case None => forall k :: 0 <= k < |stack| ==> Follow(names, stack[k]) == None
            case Some(x) =>
              exists k :: 0 <= k < |stack| && Follow(names, stack[k]) == Some(x)
                && forall j :: k < j < |stack| ==> Follow(names, stack[j]) == None
  {
    hide Follow;
    if stack != [] {
      var n := |stack| - 1;
      InnermostCounts(names, stack[..n]);
      if Follow(names, stack[n]) == None && Lookup(names, stack[..n], false).Some? {
        var x := Lookup(names, stack[..n], false).value;
        var k :| 0 <= k < n && Follow(names, stack[..n][k]) == Some(x)
                 && forall j :: k < j < n ==> Follow(names, stack[..n][j]) == None;
        assert Follow(names, stack[k]) == Some(x);
        assert forall j :: k < j < n ==> stack[j] == stack[..n][j];
      } else if Follow(names, stack[n]) == None {
        assert forall k :: 0 <= k < n ==> stack[k] == stack[..n][k];
      }
    }
  }

  /** Names of one part, and how longer ones go on. */
  lemma FollowStep(a: string, rest: seq<string>, v: Value)
    ensures Follow([a], v) == if v.Object? && a in v.o then Some(v.o[a]) else None
    ensures Follow([a] + rest, v) == if v.Object? && a in v.o then Follow(rest, v.o[a]) else None
  {
    assert [a][1..] == [] && ([a] + rest)[1..] == rest;
  }

  /** A text, a tag and a text: the output is these three in order. */
  lemma TextTagText(text: string, name: string, raw: bool, tail: string, stack: seq<Value>, place: Place)
    requires stack != []
    ensures var v := Context(name, stack, Narrow(stack, place));
            var output := BodyMeaning([Item(text, Tag(name, raw))], tail, stack, place);
            && (v.None? ==> output == Some(text + tail))
            && (v.Some? && v.value.String? ==>
                  output == Some(text + (if raw then v.value.s else Escaped(v.value.s)) + tail))
            && (v.Some? && v.value.Number? ==> output == Some(text + v.value.text + tail))
            && (v == Some(True) ==> output == Some(text + "true" + tail))
            && (v == Some(False) ==> output == Some(text + "false" + tail))
            && (v.Some? && (v.value.Null? || v.value.List? || v.value.Object?) ==> output == None)
  {
    hide Context, Narrow, Escaped;
    var items := [Item(text, Tag(name, raw))];
    assert items[1..] == [];
    var t := TagText(Context(name, stack, Narrow(stack, place)), raw);
    assert NodeMeaning(Tag(name, raw), stack, place) == t;
    assert Meaning([], stack, Behind(place, Tag(name, raw))) == Some("");
    if t.Some? {
      assert t.value + "" == t.value;
      assert text + "" + tail == text + tail;
    }
  }
}
