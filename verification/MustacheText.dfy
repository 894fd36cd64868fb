/** From template text to output: what a written template means, and how jumps, escaping and
    unclosed blocks behave. */
module MustacheText {
  import opened MustacheParse
  import opened MustacheRender
  import opened MustacheSafe
  import opened MustacheTemplate
  import opened MustacheTrim
  import opened Options
  import opened TextAt

  // ---- writing a template ----

  function ShowItems(items: seq<Item>): string
    decreases items, 1
  {
    if items == [] then "" else ShowItems(items[..|items| - 1]) + ShowItem(items[|items| - 1])
  }

  function ShowItem(item: Item): string
    decreases item, 0
  {
    item.text +
    match item.node
    case Tag(name, raw) => if raw then Tagged("{" + name) + "}" else Tagged(name)
    case Note => Tagged("!")
    case Section(block, inverted, items, tail) =>
      OpenTag(block, inverted) + (ShowItems(items) + (tail + CloseTag(block)))
  }

  function OpenTag(block: string, inverted: bool): string { Tagged([if inverted then '^' else '#'] + block) }

  function CloseTag(block: string): string { Tagged("/" + block) }

  function Tagged(inner: string): string { "{{" + (inner + "}}") }

  /** A text that has no tag in it and none together with a tag after it. */
  predicate CleanText(s: string) {
    forall i :: 0 <= i < |s| && s[i] == '{' ==> i + 1 < |s| && s[i + 1] != '{'
  }

  predicate CleanName(s: string) {
    s != "" && s[0] != ' ' && s[|s| - 1] != ' ' && forall i :: 0 <= i < |s| ==> s[i] != '{' && s[i] != '}'
  }

  /** A template that can be written: texts hold no tags, names no spaces at their ends and no
      braces, and a plain tag does not begin like another kind of tag. */
  predicate Writable(items: seq<Item>)
    decreases items, 1
  {
    forall item :: item in items ==> WritableItem(item)
  }

  predicate WritableItem(item: Item)
    decreases item, 0
  {
    && CleanText(item.text)
    && match item.node
       case Tag(name, raw) => CleanName(name) && (raw || !Special(name[0]))
       case Note => true
       case Section(block, _, items, tail) => CleanName(block) && Writable(items) && CleanText(tail)
  }

  predicate Special(c: char) {
    c == '#' || c == '/' || c == '^' || c == '!' || c == '{' || c == '&' || c == '>' || c == '='
  }

  // ---- reading it back ----

  lemma FindPairIs(body: string, c: char, i: nat, r: nat)
    requires i <= r && r + 1 < |body| && body[r] == c && body[r + 1] == c
    requires forall k :: i <= k < r ==> body[k] != c || body[k + 1] != c
    ensures FindPair(body, c, i) == r
    decreases r - i
  {
    if i < r { FindPairIs(body, c, i + 1, r); }
  }

  /** No tag begins before the one written after a clean text. */
  lemma OpenFound(body: string, a: nat, text: string)
    requires Holds(body, a, text) && Holds(body, a + |text|, "{{") && CleanText(text)
    ensures FindPair(body, '{', a) == a + |text|
  {
    var open := a + |text|;
    CharAt(body, open, "{{", 0);
    CharAt(body, open, "{{", 1);
    forall k | a <= k < open
      ensures body[k] != '{' || body[k + 1] != '{'
    {
      CharAt(body, a, text, k - a);
      if k + 1 < open { CharAt(body, a, text, k - a + 1); }
    }
    FindPairIs(body, '{', a, open);
  }

  lemma CloseFound(body: string, idx: nat, inner: string)
    requires Holds(body, idx, inner) && Holds(body, idx + |inner|, "}}")
    requires forall i :: 0 <= i < |inner| ==> inner[i] != '}'
    ensures FindPair(body, '}', idx) == idx + |inner| && body[idx + |inner|] == '}'
  {
    CharAt(body, idx + |inner|, "}}", 0);
    CharAt(body, idx + |inner|, "}}", 1);
    forall k | idx <= k < idx + |inner|
      ensures body[k] != '}'
    {
      CharAt(body, idx, inner, k - idx);
    }
    FindPairIs(body, '}', idx, idx + |inner|);
  }

  lemma TaggedHolds(body: string, at: nat, inner: string)
    requires Holds(body, at, Tagged(inner))
    ensures Holds(body, at, "{{") && Holds(body, at + 2, inner) && Holds(body, at + 2 + |inner|, "}}")
    ensures at + |inner| + 4 <= |body|
  {
    hide Holds;
    HoldsSplit(body, at, "{{", inner + "}}");
    HoldsSplit(body, at + 2, inner, "}}");
    CharAt(body, at + 2 + |inner|, "}}", 1);
  }

  lemma TextIs(body: string, a: nat, text: string)
    requires Holds(body, a, text)
    ensures a + |text| <= |body| && body[a..a + |text|] == text
  {
  }

  /** Where a written tag begins and ends. */
  lemma TagFound(body: string, a: nat, text: string, inner: string)
    requires Holds(body, a, text) && Holds(body, a + |text|, Tagged(inner)) && CleanText(text)
    requires inner != "" && forall i :: 0 <= i < |inner| ==> inner[i] != '}'
    ensures var idx := a + |text| + 2;
            && FindPair(body, '{', a) == a + |text| && body[a..a + |text|] == text
            && Holds(body, idx, inner) && FindPair(body, '}', idx) == idx + |inner|
            && idx + |inner| + 1 < |body| && body[idx - 1] == '{' && body[idx + |inner|] == '}'
            && body[idx] == inner[0]
  {
    hide FindPair, Holds, CleanText, Tagged;
    var open := a + |text|;
    TaggedHolds(body, open, inner);
    CharAt(body, open, "{{", 1);
    OpenFound(body, a, text);
    CloseFound(body, open + 2, inner);
    CharAt(body, open + 2, inner, 0);
    TextIs(body, a, text);
  }

  lemma NameIs(body: string, begin: nat, name: string)
    requires 0 < begin && Holds(body, begin, name) && CleanName(name) && begin + |name| < |body|
    requires body[begin - 1] != ' ' && body[begin + |name|] != ' '
    ensures Name(body, begin, begin + |name|) == name
  {
    CharAt(body, begin, name, 0);
    CharAt(body, begin, name, |name| - 1);
  }

  /** A written tag of one character and a name is read as its own kind. */
  lemma LexMarked(body: string, a: nat, text: string, c: char, name: string)
    requires Holds(body, a, text) && Holds(body, a + |text|, Tagged([c] + name)) && CleanText(text) && CleanName(name)
    requires c == '#' || c == '^' || c == '/'
    ensures LexAt(body, a) ==
            Piece(text, if c == '/' then End(name) else Begin(name, c == '^'), a + |text| + |name| + 5)
  {
    hide FindPair, Name, Holds, Tagged, CleanText;
    TagFound(body, a, text, [c] + name);
    HoldsSplit(body, a + |text| + 2, [c], name);
    NameIs(body, a + |text| + 3, name);
  }

  lemma LexNote(body: string, a: nat, text: string)
    requires Holds(body, a, text) && Holds(body, a + |text|, Tagged("!")) && CleanText(text)
    ensures LexAt(body, a) == Piece(text, Comment, a + |text| + 5)
  {
    hide FindPair, Name, Holds, Tagged, CleanText;
    TagFound(body, a, text, "!");
  }

  lemma LexPlain(body: string, a: nat, text: string, name: string)
    requires Holds(body, a, text) && Holds(body, a + |text|, Tagged(name)) && CleanText(text)
    requires CleanName(name) && !Special(name[0])
    ensures LexAt(body, a) == Piece(text, Print(name, false), a + |text| + |name| + 4)
  {
    hide FindPair, Name, Holds, Tagged, CleanText;
    TagFound(body, a, text, name);
    NameIs(body, a + |text| + 2, name);
  }

  lemma LexRaw(body: string, a: nat, text: string, name: string)
    requires Holds(body, a, text) && Holds(body, a + |text|, Tagged("{" + name) + "}") && CleanText(text)
             && CleanName(name)
    ensures LexAt(body, a) == Piece(text, Print(name, true), a + |text| + |name| + 6)
  {
    hide FindPair, Name, Holds, CleanText;
    var inner := ['{'] + name;
    assert |Tagged(inner)| == |name| + 5 && inner == "{" + name;
    hide Tagged;
    HoldsSplit(body, a + |text|, Tagged(inner), "}");
    TagFound(body, a, text, inner);
    HoldsSplit(body, a + |text| + 2, ['{'], name);
    CharAt(body, a + |text| + |name| + 5, "}", 0);
    hide CleanName;
    NameIs(body, a + |text| + 3, name);
  }

  function Added(st: State, items: seq<Item>): State { st.(items := st.items + items) }

  /** Reading written items adds just these items. */
  lemma {:induction false} ItemsRead(body: string, a: nat, items: seq<Item>, st: State)
    requires Holds(body, a, ShowItems(items)) && Writable(items)
    ensures a + |ShowItems(items)| <= |body|
    ensures ParseFrom(body, a, st) == ParseFrom(body, a + |ShowItems(items)|, Added(st, items))
    decreases items, 1
  {
    hide ParseFrom, ShowItem, WritableItem;
    if items == [] {
      assert Added(st, []) == st;
    } else {
      var n := |items| - 1;
      var front, last := ShowItems(items[..n]), items[n];
      HoldsSplit(body, a, front, ShowItem(last));
      ItemsRead(body, a, items[..n], st);
      ItemRead(body, a + |front|, last, Added(st, items[..n]));
      assert items[..n] + [last] == items;
      assert Added(Added(st, items[..n]), [last]) == Added(st, items) by {
        assert st.items + items[..n] + [last] == st.items + (items[..n] + [last]);
      }
    }
  }

  lemma {:induction false} ItemRead(body: string, a: nat, item: Item, st: State)
    requires Holds(body, a, ShowItem(item)) && WritableItem(item)
    ensures a + |ShowItem(item)| <= |body|
    ensures ParseFrom(body, a, st) == ParseFrom(body, a + |ShowItem(item)|, Added(st, [item]))
    decreases item, 0
  {
    hide LexAt;
    var text := item.text;
    HoldsSplit(body, a, text, ShowItem(item)[|text|..]);
    match item.node {
      case Tag(name, raw) =>
        if raw { LexRaw(body, a, text, name); } else { LexPlain(body, a, text, name); }
      case Note =>
        LexNote(body, a, text);
      case Section(block, inverted, items, tail) =>
        SectionRead(body, a, item, st);
    }
  }

  lemma {:induction false} SectionRead(body: string, a: nat, item: Item, st: State)
    requires Holds(body, a, ShowItem(item)) && WritableItem(item) && item.node.Section?
    ensures a + |ShowItem(item)| <= |body|
    ensures ParseFrom(body, a, st) == ParseFrom(body, a + |ShowItem(item)|, Added(st, [item]))
    decreases item.node, 0
  {
    hide LexAt, ShowItems, ShowItem, Writable, Holds, Tagged, ParseFrom, CleanText, CleanName;
    var node := item.node;
    SectionSplit(body, a, item);
    var b := a + |item.text| + |node.block| + 5;
    BlockOpens(body, a, item.text, if node.inverted then '^' else '#', node.block, st);
    var inside := State(st.frames + [Frame(node.block, node.inverted, item.text, st.items)], []);
    ItemsRead(body, b, node.items, inside);
    BlockCloses(body, b + |ShowItems(node.items)|, item, st);
  }

  lemma SectionSplit(body: string, a: nat, item: Item)
    requires Holds(body, a, ShowItem(item)) && item.node.Section?
    ensures var node := item.node;
            var b := a + |item.text| + |node.block| + 5;
            var d := b + |ShowItems(node.items)|;
            && Holds(body, a, item.text) && Holds(body, a + |item.text|, OpenTag(node.block, node.inverted))
            && Holds(body, b, ShowItems(node.items))
            && Holds(body, d, node.tail) && Holds(body, d + |node.tail|, CloseTag(node.block))
            && |ShowItem(item)| == d + |node.tail| + |node.block| + 5 - a
  {
    hide ShowItem, ShowItems, Holds, OpenTag, CloseTag;
    var node := item.node;
    TagLengths(node.block, node.inverted);
    ShowSection(item);
    FiveParts(body, a, ShowItem(item), item.text, OpenTag(node.block, node.inverted), ShowItems(node.items), node.tail,
      CloseTag(node.block));
  }

  lemma ShowSection(item: Item)
    requires item.node.Section?
    ensures var node := item.node;
            ShowItem(item) == item.text
              + (OpenTag(node.block, node.inverted) + (ShowItems(node.items) + (node.tail + CloseTag(node.block))))
  {
    hide ShowItems, OpenTag, CloseTag;
  }

  lemma TagLengths(block: string, inverted: bool)
    ensures |OpenTag(block, inverted)| == |block| + 5 && |CloseTag(block)| == |block| + 5
  {
  }

  lemma FiveParts(body: string, a: nat, all: string, t: string, u: string, v: string, w: string, x: string)
    requires Holds(body, a, all) && all == t + (u + (v + (w + x)))
    ensures |all| == |t| + |u| + |v| + |w| + |x|
    ensures Holds(body, a, t) && Holds(body, a + |t|, u) && Holds(body, a + |t| + |u|, v)
    ensures Holds(body, a + |t| + |u| + |v|, w) && Holds(body, a + |t| + |u| + |v| + |w|, x)
  {
    hide Holds;
    HoldsSplit(body, a, t, u + (v + (w + x)));
    HoldsSplit(body, a + |t|, u, v + (w + x));
    HoldsSplit(body, a + |t| + |u|, v, w + x);
    HoldsSplit(body, a + |t| + |u| + |v|, w, x);
  }

  lemma BlockOpens(body: string, a: nat, text: string, c: char, name: string, st: State)
    requires Holds(body, a, text) && Holds(body, a + |text|, Tagged([c] + name)) && CleanText(text) && CleanName(name)
    requires c == '#' || c == '^'
    ensures a + |text| + |name| + 5 <= |body|
    ensures ParseFrom(body, a, st) ==
            ParseFrom(body, a + |text| + |name| + 5, State(st.frames + [Frame(name, c == '^', text, st.items)], []))
  {
    hide LexAt, Holds, Tagged, CleanText, CleanName;
    LexMarked(body, a, text, c, name);
  }

  lemma BlockCloses(body: string, d: nat, item: Item, st: State)
    requires item.node.Section?
    requires Holds(body, d, item.node.tail) && Holds(body, d + |item.node.tail|, Tagged("/" + item.node.block))
    requires CleanText(item.node.tail) && CleanName(item.node.block)
    ensures d + |item.node.tail| + |item.node.block| + 5 <= |body|
    ensures var f := Frame(item.node.block, item.node.inverted, item.text, st.items);
            ParseFrom(body, d, Added(State(st.frames + [f], []), item.node.items)) ==
            ParseFrom(body, d + |item.node.tail| + |item.node.block| + 5, Added(st, [item]))
  {
    hide LexAt, Holds, Tagged, CleanText, CleanName;
    LexMarked(body, d, item.node.tail, '/', item.node.block);
    assert [] + item.node.items == item.node.items;
    assert (st.frames + [Frame(item.node.block, item.node.inverted, item.text, st.items)])[..|st.frames|] == st.frames;
  }

  /** A last text that holds no tag. */
  predicate LastText(body: string, a: nat) { a <= |body| && FindPair(body, '{', a) == |body| }

  lemma ParseLast(body: string, a: nat, st: State)
    requires LastText(body, a)
    ensures ParseFrom(body, a, st) == Ok((st, body[a..]))
  {
  }

  lemma HoldsFirst(s: string, t: string)
    ensures Holds(s + t, 0, s)
  {
    assert (s + t)[0..0 + |s|] == s;
  }

  /** Reading a written template gives exactly the template back, with no block left open. */
  lemma TemplateRead(items: seq<Item>, tail: string)
    requires Writable(items) && LastText(ShowItems(items) + tail, |ShowItems(items)|)
    ensures ParseFrom(ShowItems(items) + tail, 0, EMPTY) == Ok((State([], items), tail))
  {
    hide ShowItems, Writable, ParseFrom, Holds, FindPair;
    var shown := ShowItems(items);
    var body := shown + tail;
    ParseLast(body, |shown|, State([], items));
    HoldsFirst(shown, tail);
    ItemsRead(body, 0, items, EMPTY);
    assert Added(EMPTY, items) == State([], items) by { assert [] + items == items; }
    assert body[|shown|..] == tail;
  }

  // ---- the whole way from text to output ----

  datatype Rendered = Invalid(error: Error) | Failed | Output(text: string)

  function AsRendered(m: Option<string>): Rendered { if m.Some? then Output(m.value) else Failed }

  /** Taking out lines in the code gives the code of the tree without them. */
  lemma TrimmedIsTree(items: seq<Item>, tail: string)
    ensures var code := Compiled(items, tail);
            code.(fragments := Trimmed(code)) == Compiled(TrimmedItems(items, tail), TrimmedTail(items, tail))
  {
    hide Actions, Texts, Count, Trimmed, Retext;
    var texts := Trimmed(Compiled(items, tail));
    RetextCode(items, texts[..Count(items)], 0);
  }

  /** Compiles a text and renders it with one context. The output of a text that closes all its
      blocks is the meaning of the tree that it stands for, without the lines of standing tags. Without
      raw tags no string of the context brings a special character into it. */
  method Render(body: string, context: Value) returns (r: Rendered)
    requires var p := ParseFrom(body, 0, EMPTY); p.Ok? ==> p.value.0.frames == []
    ensures match ParseFrom(body, 0, EMPTY)
            case Err(e) => r == Invalid(e)
            case Ok((st, tail)) =>
              && r == AsRendered(BodyMeaning(TrimmedItems(st.items, tail), TrimmedTail(st.items, tail), [context], TOP))
              && (Tame(st.items) && AllHarmless(tail) && TameValue(context) && r.Output? ==> AllHarmless(r.text))
  {
    hide ParseFrom, BodyMeaning, Actions, StateCode, Trimmed, TrimmedItems, TrimmedTail, Compiled, Tame, AllHarmless,
         TameValue;
    var parsed := Parse(body);
    match parsed {
      case Err(e) => return Invalid(e);
      case Ok(code) =>
        ghost var (st, tail) := ParseFrom(body, 0, EMPTY).value;
        ghost var (items, last) := (TrimmedItems(st.items, tail), TrimmedTail(st.items, tail));
        ClosedIsTree(st.items, tail);
        TrimmedIsTree(st.items, tail);
        CompiledIsLaid(items, last);
        var renderer := new Renderer(context);
        var ok := renderer.RenderInternal(code, 0, |code.fragments| - 1, items, last, TOP);
        if !ok { return Failed; }
        assert "" + renderer.out == renderer.out;
        if Tame(st.items) && AllHarmless(tail) && TameValue(context) { RenderedSafe(st.items, tail, context); }
        return Output(renderer.out);
    }
  }

  lemma CompiledIsLaid(items: seq<Item>, tail: string)
    ensures var code := Compiled(items, tail);
            && |code.fragments| == Count(items) + 1
            && Laid(code, 0, |code.fragments| - 1, Work(items, tail, TOP, Bottom))
  {
    hide Actions, Texts, Count;
    var code := Compiled(items, tail);
    assert code.actions[0..Count(items)] == Actions(items, 0);
    assert code.fragments[0..Count(items)] == Texts(items);
  }

  // ---- names with dots ----

  /** The inverted sections that ended since the opening of the `i`th block, less the sections opened in it. */
  function Balance(scopes: seq<Scope>, i: nat, ended: int): int
    requires i < |scopes|
  {
    var n := |scopes| - 1;
    if i == n then ended
    else Balance(scopes[..n], i, ended + scopes[n].ended - if scopes[n].section then 1 else 0)
  }

  /** The scan finds a section exactly if around the tag there is one in which as many inverted sections have
      ended as sections are open. */
  lemma {:induction false} ReachesIff(scopes: seq<Scope>, ended: nat)
    ensures Reaches(scopes, ended) <==>
            exists i :: 0 <= i < |scopes| && scopes[i].section && Balance(scopes, i, ended) == 0
  {
    if scopes != [] {
      var n := |scopes| - 1;
      var front, s := scopes[..n], scopes[n];
      var more := ended + s.ended - if s.section then 1 else 0;
      if more >= 0 { ReachesIff(front, more); }
      if s.section && ended == 0 {
        assert Balance(scopes, n, ended) == 0;
      } else {
        assert forall i :: 0 <= i < n ==> front[i] == scopes[i] && Balance(scopes, i, ended) == Balance(front, i, more);
      }
    }
  }

  /** In a section that was entered with an object a name with dots is looked up in this object only, unless
      an inverted section ended before in the same section: then it is looked up outside as well. */
  lemma InvertedWidens(name: string, context: Value, entered: Value, before: seq<Item>)
    requires '.' in name && name != "." && entered.Object? && Follow(Names(name, 0), entered).None?
    ensures var place := Place([Scope(true, 0)], InvertedAll(before));
            var stack := [context, entered];
            Context(name, stack, Narrow(stack, place)) ==
            if InvertedAll(before) == 0 then None else Follow(Names(name, 0), context)
  {
    hide Names, Follow, InvertedAll;
    var place := Place([Scope(true, 0)], InvertedAll(before));
    assert place.scopes[..0] == [];
    assert [context, entered][..1] == [context] && [context][..0] == [];
    LookupTwo(Names(name, 0), context, entered);
    if InvertedAll(before) > 0 { assert !Reaches([], InvertedAll(before) - 1); }
    assert Reaches(place.scopes, place.ended) <==> InvertedAll(before) == 0;
  }

  lemma LookupTwo(names: seq<string>, context: Value, entered: Value)
    requires Follow(names, entered).None?
    ensures Lookup(names, [context, entered], true) == None
    ensures Lookup(names, [context, entered], false) == Follow(names, context)
  {
    hide Follow;
    assert [context, entered][..1] == [context] && [context][..0] == [];
    assert Lookup(names, [], false) == None;
    assert Lookup(names, [context], false) == Follow(names, context);
  }

  // ---- jumps ----

  predicate IsBlock(a: Action) { a.t.OpenBlock? || a.t.ElseBlock? }

  /** Every block's opening from `base` on jumps forward to a closing that names it, within `end`. */
  predicate Forward(acts: seq<Action>, base: nat) {
    forall i :: 0 <= i < |acts| && IsBlock(acts[i]) ==>
      && base + i < acts[i].pos < base + |acts|
      && acts[acts[i].pos - base] == Action(CloseBlock, acts[i].name, base + i)
  }

  lemma ForwardJoin(a: seq<Action>, b: seq<Action>, base: nat)
    requires Forward(a, base) && Forward(b, base + |a|)
    ensures Forward(a + b, base)
  {
  }

  lemma BlockForward(open: Action, inner: seq<Action>, at: nat)
    requires IsBlock(open) && open.pos == at + 1 + |inner| && Forward(inner, at + 1)
    ensures Forward([open] + inner + [Action(CloseBlock, open.name, at)], at)
  {
    var acts := [open] + inner + [Action(CloseBlock, open.name, at)];
    forall i | 0 <= i < |acts| && IsBlock(acts[i])
      ensures at + i < acts[i].pos < at + |acts| && acts[acts[i].pos - at] == Action(CloseBlock, acts[i].name, at + i)
    {
      if i > 0 { assert acts[i] == inner[i - 1] && inner[acts[i].pos - at - 1] == acts[acts[i].pos - at]; }
    }
  }

  lemma {:induction false} TreeForward(items: seq<Item>, base: nat)
    ensures Forward(Actions(items, base), base)
    decreases items, 1
  {
    if items != [] {
      hide Forward, NodeActions;
      var n := |items| - 1;
      var at := base + Count(items[..n]);
      TreeForward(items[..n], base);
      NodeForward(items[n].node, at);
      ForwardJoin(Actions(items[..n], base), NodeActions(items[n].node, at), base);
    }
  }

  lemma {:induction false} NodeForward(node: Node, at: nat)
    ensures Forward(NodeActions(node, at), at)
    decreases node, 0
  {
    if node.Section? {
      hide Actions, Count;
      TreeForward(node.items, at + 1);
      var open := Action(if node.inverted then ElseBlock else OpenBlock, node.block, at + 1 + Count(node.items));
      assert NodeActions(node, at) == [open] + Actions(node.items, at + 1) + [Action(CloseBlock, open.name, at)];
      hide NodeActions, Forward;
      BlockForward(open, Actions(node.items, at + 1), at);
    }
  }

  /** All openings jump forward to their own closing exactly if no block was left open: an
      opening that is never closed keeps the jump to the start of the template. */
  lemma JumpsForwardIffClosed(st: State)
    ensures Forward(StateActions(st), 0) <==> st.frames == []
  {
    if st.frames == [] {
      TreeForward(st.items, 0);
      assert StateActions(st) == Actions(st.items, 0);
    } else {
      hide Actions;
      var acts := FrameActions(st.frames);
      var k := |acts| - 1;
      assert acts[k].pos == 0 && IsBlock(acts[k]);
      assert StateActions(st)[k] == acts[k];
    }
  }

  // ---- the syntax, spelled out ----

  /** How plain and raw tags are written. */
  lemma TagSyntax(name: string)
    requires CleanName(name)
    ensures !Special(name[0]) ==>
              ParseFrom("{{" + name + "}}", 0, EMPTY) == Ok((State([], [Item("", Tag(name, false))]), ""))
    ensures ParseFrom("{{{" + name + "}}}", 0, EMPTY) == Ok((State([], [Item("", Tag(name, true))]), ""))
  {
    assert name != "";
    hide ParseFrom, Special, CleanName;
    CleanIsText();
    ShowsTag(name);
    hide ShowItem;
    if !Special(name[0]) { OneItemRead(Tag(name, false), "{{" + name + "}}"); }
    OneItemRead(Tag(name, true), "{{{" + name + "}}}");
  }

  lemma ShowsTag(name: string)
    ensures ShowItem(Item("", Tag(name, false))) == "{{" + name + "}}"
    ensures ShowItem(Item("", Tag(name, true))) == "{{{" + name + "}}}"
  {
    assert "" + ("{{" + (name + "}}")) == "{{" + name + "}}";
    assert "" + ("{{" + ("{" + name + "}}") + "}") == "{{{" + name + "}}}";
  }

  /** How sections and inverted sections are written. */
  lemma BlockSyntax(name: string, text: string)
    requires CleanName(name) && CleanText(text)
    ensures ParseFrom("{{#" + name + "}}" + text + "{{/" + name + "}}", 0, EMPTY) ==
            Ok((State([], [Item("", Section(name, false, [], text))]), ""))
    ensures ParseFrom("{{^" + name + "}}" + text + "{{/" + name + "}}", 0, EMPTY) ==
            Ok((State([], [Item("", Section(name, true, [], text))]), ""))
  {
    hide ParseFrom, CleanName;
    CleanIsText();
    hide CleanText;
    ShowsBlock(name, text);
    hide ShowItem;
    OneItemRead(Section(name, false, [], text), "{{#" + name + "}}" + text + "{{/" + name + "}}");
    OneItemRead(Section(name, true, [], text), "{{^" + name + "}}" + text + "{{/" + name + "}}");
  }

  lemma ShowsBlock(name: string, text: string)
    ensures ShowItem(Item("", Section(name, false, [], text))) == "{{#" + name + "}}" + text + "{{/" + name + "}}"
    ensures ShowItem(Item("", Section(name, true, [], text))) == "{{^" + name + "}}" + text + "{{/" + name + "}}"
  {
    var close := "{{" + ("/" + name + "}}");
    assert close == "{{/" + name + "}}" && ShowItems([]) == "";
    var rest := "" + (text + close);
    assert "" + ("{{" + (['#'] + name + "}}") + rest) == "{{#" + name + "}}" + text + "{{/" + name + "}}";
    assert "" + ("{{" + (['^'] + name + "}}") + rest) == "{{^" + name + "}}" + text + "{{/" + name + "}}";
  }

  lemma CleanIsText()
    ensures CleanText("") && Writable([])
  {
  }

  lemma OneItemRead(node: Node, shown: string)
    requires WritableItem(Item("", node)) && ShowItem(Item("", node)) == shown
    ensures ParseFrom(shown, 0, EMPTY) == Ok((State([], [Item("", node)]), ""))
  {
    hide ParseFrom, WritableItem, ShowItem;
    var items := [Item("", node)];
    assert items[..0] == [] && ShowItems([]) == "" && ShowItems(items) == "" + shown == shown;
    assert shown + "" == shown;
    TemplateRead(items, "");
  }
}
