/** Running the flat code of a template: one loop with jumps and a shared context stack. */
module MustacheRender {
  import opened MustacheSafe
  import opened MustacheTemplate
  import opened Options
  import opened Sequences

  // ---- what is left to run ----

  /** The blocks around the current one, innermost first: how each of them ends and goes on. */
  datatype Cont = Bottom | Outer(close: Action, items: seq<Item>, tail: string, place: Place, next: Cont)

  datatype Work = Work(items: seq<Item>, tail: string, place: Place, cont: Cont)

  function After(c: Cont): Work
    requires c.Outer?
  {
    Work(c.items, c.tail, c.place, c.next)
  }

  function Depth(c: Cont): nat { if c.Bottom? then 0 else 1 + Depth(c.next) }

  /** The text that is still to come; leaving a block drops the top of the stack. */
  function Rest(w: Work, stack: seq<Value>): Option<string>
    requires Depth(w.cont) < |stack|
    decreases w.cont
  {
    Concat(BodyMeaning(w.items, w.tail, stack, w.place),
           if w.cont.Bottom? then Some("") else Rest(After(w.cont), stack[..|stack| - 1]))
  }

  /** The code at `at` is that of the items. */
  predicate Coded(code: Code, at: nat, items: seq<Item>) {
    && at + Count(items) < |code.actions| && at + Count(items) < |code.fragments|
    && code.actions[at..at + Count(items)] == Actions(items, at)
    && code.fragments[at..at + Count(items)] == Texts(items)
  }

  /** Whether the scan back over the code finds a section that is still open; `ended` is the number of
      closings that it has to make up for. */
  predicate Scan(acts: seq<Action>, ended: nat) {
    if acts == [] then false
    else
      var n := |acts| - 1;
      if acts[n].t.OpenBlock? then ended == 0 || Scan(acts[..n], ended - 1)
      else if acts[n].t.CloseBlock? then Scan(acts[..n], ended + 1)
      else Scan(acts[..n], ended)
  }

  /** The scan back from a position in the code finds what the place in the tree says. */
  ghost predicate Placed(acts: seq<Action>, place: Place) {
    forall k: nat :: Scan(acts, k) == Reaches(place.scopes, place.ended + k)
  }

  lemma ScanSnoc(acts: seq<Action>, a: Action, k: nat)
    ensures Scan(acts + [a], k) ==
            if a.t.OpenBlock? then k == 0 || Scan(acts, k - 1)
            else if a.t.CloseBlock? then Scan(acts, k + 1)
            else Scan(acts, k)
  {
    assert (acts + [a])[..|acts|] == acts;
  }

  /** The code of items is passed over, but each inverted section in it stays to be made up for: its opening
      is not counted and its closing is. */
  lemma {:induction false} ScanItems(acts: seq<Action>, items: seq<Item>, base: nat, k: nat)
    ensures Scan(acts + Actions(items, base), k) == Scan(acts, k + InvertedAll(items))
    decreases items, 1
  {
    hide Actions, InvertedAll, NodeActions, Count, Inverted, Scan;
    if items == [] {
      NoCode(base);
      assert acts + [] == acts;
    } else {
      var n := |items| - 1;
      var front, last := Actions(items[..n], base), NodeActions(items[n].node, base + Count(items[..n]));
      var more := Inverted(items[n].node);
      ItemsEnd(items, base);
      ScanNode(acts + front, items[n].node, base + Count(items[..n]), k);
      ScanItems(acts, items[..n], base, k + more);
      Associate(acts, front, last);
    }
  }

  lemma NoCode(base: nat)
    ensures Actions([], base) == [] && InvertedAll([]) == 0
  {
  }

  lemma ItemsEnd(items: seq<Item>, base: nat)
    requires items != []
    ensures var n := |items| - 1;
            && Actions(items, base) ==
               Actions(items[..n], base) + NodeActions(items[n].node, base + Count(items[..n]))
            && InvertedAll(items) == InvertedAll(items[..n]) + Inverted(items[n].node)
  {
    hide NodeActions, Count, Inverted;
  }

  lemma {:induction false} ScanNode(acts: seq<Action>, node: Node, at: nat, k: nat)
    ensures Scan(acts + NodeActions(node, at), k) == Scan(acts, k + Inverted(node))
    decreases node, 0
  {
    hide Scan, Actions, Count, InvertedAll;
    if node.Section? {
      var open := NodeActions(node, at)[0];
      var inner, close := Actions(node.items, at + 1), Action(CloseBlock, node.block, at);
      assert acts + NodeActions(node, at) == acts + [open] + inner + [close];
      ScanSnoc(acts + [open] + inner, close, k);
      ScanItems(acts + [open], node.items, at + 1, k + 1);
      ScanSnoc(acts, open, k + 1 + InvertedAll(node.items));
    } else {
      ScanSnoc(acts, NodeActions(node, at)[0], k);
    }
  }

  lemma PlacedBehind(acts: seq<Action>, place: Place, node: Node, at: nat)
    requires Placed(acts, place)
    ensures Placed(acts + NodeActions(node, at), Behind(place, node))
  {
    hide Scan, Reaches, NodeActions, Inverted;
    forall k: nat
      ensures Scan(acts + NodeActions(node, at), k) == Reaches(place.scopes, place.ended + Inverted(node) + k)
    {
      ScanNode(acts, node, at, k);
      assert Scan(acts, k + Inverted(node)) == Reaches(place.scopes, place.ended + (k + Inverted(node)));
    }
  }

  lemma PlacedWithin(acts: seq<Action>, place: Place, node: Node, open: Action)
    requires Placed(acts, place) && node.Section? && open.t == if node.inverted then ElseBlock else OpenBlock
    ensures Placed(acts + [open], Within(place, node))
  {
    hide Scan;
    var inner := Within(place, node);
    forall k: nat
      ensures Scan(acts + [open], k) == Reaches(inner.scopes, inner.ended + k)
    {
      ScanSnoc(acts, open, k);
      assert inner.scopes[..|place.scopes|] == place.scopes;
      if !node.inverted && k > 0 {
        assert Scan(acts, k - 1) == Reaches(place.scopes, place.ended + (k - 1));
      }
    }
  }

  /** The code from `at` to `end` is that of the work. */
  ghost predicate Laid(code: Code, at: nat, end: nat, w: Work)
    decreases w.cont, 1
  {
    && Coded(code, at, w.items) && Placed(code.actions[..at], w.place)
    && Ends(code, at + Count(w.items), end, w.tail, w.cont)
  }

  /** The current block ends at `m`, and the blocks around it go on from there. */
  ghost predicate Ends(code: Code, m: nat, end: nat, tail: string, cont: Cont)
    decreases cont, 0
  {
    && m < |code.fragments| && m < |code.actions| && code.fragments[m] == tail
    && if cont.Bottom? then m == end
       else code.actions[m] == cont.close && cont.close.t.CloseBlock? && Laid(code, m + 1, end, After(cont))
  }

  lemma ConcatTwice(a: Option<string>, b: Option<string>, c: Option<string>)
    ensures Concat(Concat(a, b), c) == Concat(a, Concat(b, c))
  {
    if a.Some? && b.Some? && c.Some? {
      assert a.value + b.value + c.value == a.value + (b.value + c.value);
    }
  }

  function Tail(w: Work): Work
    requires w.items != []
  {
    w.(items := w.items[1..], place := Behind(w.place, w.items[0].node))
  }

  /** A stretch that is `a` and then `b`. */
  lemma Split<T>(s: seq<T>, at: nat, end: nat, a: seq<T>, b: seq<T>)
    requires at <= end <= |s| && s[at..end] == a + b
    ensures at + |a| <= end && s[at..at + |a|] == a && s[at + |a|..end] == b
  {
    assert |s[at..end]| == |a| + |b|;
    assert s[at..end][..|a|] == a && s[at..end][|a|..] == b;
    assert s[at..at + |a|] == s[at..end][..|a|];
    assert s[at + |a|..end] == s[at..end][|a|..];
  }

  /** The code of the first item, and the code of what comes after it. */
  lemma CodedFirst(code: Code, at: nat, items: seq<Item>)
    requires Coded(code, at, items) && items != []
    ensures var n := NodeCount(items[0].node);
            && Count(items) == n + Count(items[1..])
            && code.actions[at..at + n] == NodeActions(items[0].node, at)
            && code.fragments[at..at + n] == ItemTexts(items[0])
            && Coded(code, at + n, items[1..])
  {
    hide Actions, Texts, NodeActions, ItemTexts, NodeCount, Count;
    var n, rest := NodeCount(items[0].node), items[1..];
    CodeFirst(items, at);
    var a, b, t, u := NodeActions(items[0].node, at), Actions(rest, at + n), ItemTexts(items[0]), Texts(rest);
    Split(code.actions, at, at + Count(items), a, b);
    Split(code.fragments, at, at + Count(items), t, u);
  }

  lemma LaidFirst(code: Code, at: nat, end: nat, w: Work)
    requires Laid(code, at, end, w) && w.items != []
    ensures at < |code.actions| && at < |code.fragments| && code.fragments[at] == w.items[0].text
    ensures code.actions[at] == NodeActions(w.items[0].node, at)[0]
    ensures Laid(code, at + NodeCount(w.items[0].node), end, Tail(w))
  {
    hide Actions, Texts, NodeActions, ItemTexts, Count, NodeCount, Placed, Coded, Ends, Laid, Behind;
    var n := NodeCount(w.items[0].node);
    LaidCoded(code, at, end, w);
    CodedFirst(code, at, w.items);
    FirstIs(code, at, n, w.items[0]);
    PlacedBehind(code.actions[..at], w.place, w.items[0].node, at);
    assert code.actions[..at] + code.actions[at..at + n] == code.actions[..at + n];
    LaidRest(code, at, n, end, w);
  }

  lemma FirstIs(code: Code, at: nat, n: nat, item: Item)
    requires n > 0 && at + n <= |code.actions| && at + n <= |code.fragments|
    requires code.actions[at..at + n] == NodeActions(item.node, at) && code.fragments[at..at + n] == ItemTexts(item)
    ensures code.actions[at] == NodeActions(item.node, at)[0] && code.fragments[at] == item.text
  {
    assert ItemTexts(item)[0] == item.text;
    hide NodeActions, ItemTexts;
    assert code.actions[at..at + n][0] == code.actions[at];
    assert code.fragments[at..at + n][0] == code.fragments[at];
  }

  lemma LaidRest(code: Code, at: nat, n: nat, end: nat, w: Work)
    requires Laid(code, at, end, w) && w.items != [] && Coded(code, at + n, Tail(w).items)
    requires Count(w.items) == n + Count(w.items[1..]) && Placed(code.actions[..at + n], Tail(w).place)
    ensures Laid(code, at + n, end, Tail(w))
  {
    hide Coded, Placed, Ends, Count;
    assert at + n + Count(w.items[1..]) == at + Count(w.items);
  }

  /** Where a block ends that opens at `at`. */
  function Pos(node: Node, at: nat): nat
    requires node.Section?
  {
    at + 1 + Count(node.items)
  }

  function Inside(w: Work, at: nat): Work
    requires w.items != [] && w.items[0].node.Section?
  {
    var node := w.items[0].node;
    Work(node.items, node.tail, Within(w.place, node),
      Outer(Action(CloseBlock, node.block, at), w.items[1..], w.tail, Behind(w.place, node), w.cont))
  }

  lemma CodedBlock(code: Code, at: nat, items: seq<Item>, node: Node)
    requires Coded(code, at, items) && items != [] && items[0].node == node && node.Section?
    ensures var pos := Pos(node, at);
            && NodeCount(node) == pos + 1 - at
            && pos < |code.actions| && pos < |code.fragments|
            && Coded(code, at + 1, node.items) && code.fragments[pos] == node.tail
            && code.actions[at] == Action(if node.inverted then ElseBlock else OpenBlock, node.block, pos)
            && code.actions[pos] == Action(CloseBlock, node.block, at)
  {
    hide NodeActions, ItemTexts, NodeCount, Actions, Texts, Count;
    CodedFirst(code, at, items);
    SectionCode(items[0], at);
    var pos := Pos(node, at);
    var acts, texts := Actions(node.items, at + 1), Texts(node.items);
    var open := Action(if node.inverted then ElseBlock else OpenBlock, node.block, pos);
    var close := Action(CloseBlock, node.block, at);
    Split(code.actions, at, pos + 1, [open], acts + [close]);
    Split(code.actions, at + 1, pos + 1, acts, [close]);
    Split(code.fragments, at, pos + 1, [items[0].text], texts + [node.tail]);
    Split(code.fragments, at + 1, pos + 1, texts, [node.tail]);
    assert code.actions[at..at + 1][0] == open;
    assert code.actions[pos..pos + 1][0] == close;
    assert code.fragments[pos..pos + 1][0] == node.tail;
  }

  lemma SectionCode(item: Item, at: nat)
    requires item.node.Section?
    ensures var node := item.node;
            && NodeCount(node) == 2 + Count(node.items) && Pos(node, at) == at + 1 + Count(node.items)
            && NodeActions(node, at) ==
              [Action(if node.inverted then ElseBlock else OpenBlock, node.block, Pos(node, at))]
                                        + (Actions(node.items, at + 1) + [Action(CloseBlock, node.block, at)])
            && ItemTexts(item) == [item.text] + (Texts(node.items) + [node.tail])
  {
    hide Actions, Texts, Count;
  }

  /** A block: its opening jumps to its closing, and its body is compiled in between. The
      body can be run on its own, or through its end on to what comes after it. */
  lemma LaidBlock(code: Code, at: nat, end: nat, w: Work, node: Node)
    requires Laid(code, at, end, w) && w.items != [] && w.items[0].node == node && node.Section?
    ensures at < Pos(node, at) < end && end < |code.fragments| && end < |code.actions|
    ensures code.fragments[at] == w.items[0].text
    ensures code.actions[at] == Action(if node.inverted then ElseBlock else OpenBlock, node.block, Pos(node, at))
    ensures Laid(code, at + 1, Pos(node, at), Work(node.items, node.tail, Within(w.place, node), Bottom))
    ensures Laid(code, at + 1, end, Inside(w, at))
    ensures Laid(code, Pos(node, at) + 1, end, Tail(w))
  {
    hide Coded, Count, NodeCount, NodeActions, Actions, Texts, ItemTexts, Laid, Ends, Placed, Within;
    LaidCoded(code, at, end, w);
    var pos := Pos(node, at);
    CodedBlock(code, at, w.items, node);
    assert at + NodeCount(node) == pos + 1;
    LaidFirst(code, at, end, w);
    LaidBound(code, at, end, w);
    LaidBound(code, pos + 1, end, Tail(w));
    PlacedWithin(code.actions[..at], w.place, node, code.actions[at]);
    assert code.actions[..at] + [code.actions[at]] == code.actions[..at + 1];
    LaidInside(code, at, pos, end, node, w);
  }

  lemma LaidCoded(code: Code, at: nat, end: nat, w: Work)
    requires Laid(code, at, end, w)
    ensures at + Count(w.items) < |code.actions| && at + Count(w.items) < |code.fragments|
    ensures Coded(code, at, w.items) && Placed(code.actions[..at], w.place)
  {
    hide Ends, Placed, Actions, Texts, Count;
  }

  lemma LaidInside(code: Code, at: nat, pos: nat, end: nat, node: Node, w: Work)
    requires node.Section? && pos == Pos(node, at) && pos < |code.actions| && pos < |code.fragments|
    requires Coded(code, at + 1, node.items) && code.fragments[pos] == node.tail
    requires code.actions[pos] == Action(CloseBlock, node.block, at)
    requires w.items != [] && w.items[0].node == node && Laid(code, pos + 1, end, Tail(w))
    requires Placed(code.actions[..at + 1], Within(w.place, node))
    ensures Laid(code, at + 1, pos, Work(node.items, node.tail, Within(w.place, node), Bottom))
    ensures Laid(code, at + 1, end, Inside(w, at))
  {
    hide Coded, Count, Placed, Within, Behind;
    assert pos == at + 1 + Count(node.items);
    assert Ends(code, pos, pos, node.tail, Bottom);
    assert Ends(code, pos, end, node.tail, Inside(w, at).cont);
    hide Ends;
  }

  lemma {:induction false} LaidBound(code: Code, at: nat, end: nat, w: Work)
    requires Laid(code, at, end, w)
    ensures at + Count(w.items) <= end < |code.fragments| && end < |code.actions|
    decreases w.cont
  {
    if w.cont.Outer? { LaidBound(code, at + Count(w.items) + 1, end, After(w.cont)); }
  }

  // ---- what running it means ----

  /** The whole output, if `out` is written and `w` is still to run. */
  function Goal(out: string, w: Work, stack: seq<Value>): Option<string>
    requires Depth(w.cont) < |stack|
  {
    Concat(Some(out), Rest(w, stack))
  }

  lemma GoalFirst(out: string, w: Work, stack: seq<Value>)
    requires Depth(w.cont) < |stack| && w.items != []
    ensures Goal(out, w, stack) ==
            Concat(Some(out + w.items[0].text),
              Concat(NodeMeaning(w.items[0].node, stack, w.place), Rest(Tail(w), stack)))
  {
    var node := NodeMeaning(w.items[0].node, stack, w.place);
    var items := Meaning(w.items[1..], stack, Behind(w.place, w.items[0].node));
    var more := if w.cont.Bottom? then Some("") else Rest(After(w.cont), stack[..|stack| - 1]);
    hide NodeMeaning, Behind;
    assert Meaning(w.items, stack, w.place) == Concat(Some(w.items[0].text), Concat(node, items));
    hide Meaning;
    ConcatTwice(Some(w.items[0].text), Concat(node, items), Some(w.tail));
    ConcatTwice(node, items, Some(w.tail));
    ConcatTwice(Some(w.items[0].text), Concat(node, Concat(items, Some(w.tail))), more);
    ConcatTwice(node, Concat(items, Some(w.tail)), more);
    ConcatTwice(Some(out), Some(w.items[0].text), Concat(node, Rest(Tail(w), stack)));
  }

  lemma GoalClose(out: string, w: Work, stack: seq<Value>)
    requires Depth(w.cont) < |stack| && w.items == [] && w.cont.Outer?
    ensures Goal(out, w, stack) == Goal(out + w.tail, After(w.cont), stack[..|stack| - 1])
  {
    assert BodyMeaning(w.items, w.tail, stack, w.place) == Some("" + w.tail);
    assert "" + w.tail == w.tail;
    ConcatTwice(Some(out), Some(w.tail), Rest(After(w.cont), stack[..|stack| - 1]));
  }

  lemma GoalEnd(out: string, w: Work, stack: seq<Value>)
    requires Depth(w.cont) < |stack| && w.items == [] && w.cont.Bottom?
    ensures Goal(out, w, stack) == Some(out + w.tail)
  {
    assert BodyMeaning(w.items, w.tail, stack, w.place) == Some("" + w.tail);
    assert out + ("" + w.tail + "") == out + w.tail;
  }

  /** Running the body of a block through its end, with one more context on the stack. */
  lemma GoalInside(out: string, w: Work, at: nat, x: Value, stack: seq<Value>)
    requires Depth(w.cont) < |stack| && w.items != [] && w.items[0].node.Section?
    requires Entered(Context(w.items[0].node.block, stack, false), w.items[0].node.inverted) == [x]
    ensures Goal(out, w, stack) == Goal(out + w.items[0].text, Inside(w, at), stack + [x])
  {
    var node := w.items[0].node;
    GoalFirst(out, w, stack);
    var body := BodyMeaning(node.items, node.tail, stack + [x], Within(w.place, node));
    hide BodyMeaning, Entered, Context, Within, Behind;
    EachOne(node, x, stack, w.place);
    assert (stack + [x])[..|stack|] == stack;
    assert Rest(Inside(w, at), stack + [x]) == Concat(body, Rest(Tail(w), stack));
  }

  lemma EachOne(node: Node, x: Value, stack: seq<Value>, place: Place)
    requires stack != [] && node.Section?
    ensures Each(node, [x], stack, place) == BodyMeaning(node.items, node.tail, stack + [x], Within(place, node))
  {
    hide BodyMeaning, Within;
    assert [x][..0] == [];
    assert Each(node, [], stack, place) == Some("");
    var b := BodyMeaning(node.items, node.tail, stack + [x], Within(place, node));
    if b.Some? { assert "" + b.value == b.value; }
  }

  /** A block that is rendered for no context is skipped. */
  lemma GoalSkip(out: string, w: Work, text: string, stack: seq<Value>)
    requires Depth(w.cont) < |stack| && w.items != [] && NodeMeaning(w.items[0].node, stack, w.place) == Some(text)
    ensures Goal(out, w, stack) == Goal(out + w.items[0].text + text, Tail(w), stack)
  {
    GoalFirst(out, w, stack);
    ConcatTwice(Some(out + w.items[0].text), Some(text), Rest(Tail(w), stack));
  }

  // ---- looking names up ----

  /** The places of the dots in a name, with its two ends. */
  predicate Cuts(name: string, dots: seq<int>) {
    && |dots| > 1 && dots[0] == -1 && dots[|dots| - 1] == |name|
    && (forall i :: 0 <= i < |dots| - 1 ==> -1 <= dots[i] < |name|)
    && (forall i :: 0 < i < |dots| ==> dots[i] == DotAt(name, dots[i - 1] + 1))
  }

  method FindDots(name: string) returns (dots: seq<int>)
    ensures Cuts(name, dots)
  {
    hide DotAt;
    dots := [-1];
    var dot := DotAt(name, 0);
    while dot < |name|
      invariant dots != [] && dots[0] == -1 && forall i :: 0 <= i < |dots| ==> -1 <= dots[i] < |name|
      invariant dot == DotAt(name, dots[|dots| - 1] + 1)
      invariant forall i :: 0 < i < |dots| ==> dots[i] == DotAt(name, dots[i - 1] + 1)
      decreases |name| - dot
    {
      dots := dots + [dot];
      dot := DotAt(name, dot + 1);
    }
    dots := dots + [dot];
  }

  /** Cuts a name at its dots. */
  method SplitName(name: string) returns (names: seq<string>)
    ensures names == Names(name, 0)
  {
    hide DotAt, Names;
    var dots := FindDots(name);
    names := [];
    for i := 1 to |dots|
      invariant names + NamesAfter(name, dots[i - 1]) == Names(name, 0)
    {
      NamesStep(name, dots[i - 1] + 1);
      Associate(names, [name[dots[i - 1] + 1..dots[i]]], NamesAfter(name, dots[i]));
      names := names + [name[dots[i - 1] + 1..dots[i]]];
    }
  }

  function NamesAfter(name: string, dot: int): seq<string>
    requires -1 <= dot <= |name|
  {
    if dot == |name| then [] else Names(name, dot + 1)
  }

  lemma NamesStep(name: string, i: nat)
    requires i <= |name|
    ensures var d := DotAt(name, i); Names(name, i) == [name[i..d]] + NamesAfter(name, d)
  {
    hide DotAt;
    assert name[i..|name|] == name[i..];
  }

  lemma {:induction false} OneName(name: string, i: nat)
    requires i <= |name|
    ensures '.' !in name ==> DotAt(name, i) == |name|
    ensures '.' in name[i..] ==> DotAt(name, i) < |name|
    decreases |name| - i
  {
    if i < |name| {
      assert name[i] in name && name[i..] == [name[i]] + name[i + 1..];
      OneName(name, i + 1);
    }
  }

  method FindContext(name: string, stack: seq<Value>, narrow: bool) returns (r: Option<Value>)
    requires stack != []
    ensures r == Context(name, stack, narrow)
  {
    hide DotAt, Names, Follow;
    if name == "." { return Some(stack[|stack| - 1]); }
    var i := |stack|;
    assert stack[..|stack|] == stack && name[0..] == name;
    OneName(name, 0);
    NameAlone(name);
    if DotAt(name, 0) == |name| {
      while i > 0
        invariant 0 <= i <= |stack| && Lookup([name], stack[..i], false) == Lookup([name], stack, false)
      {
        i := i - 1;
        assert stack[..i + 1][..i] == stack[..i];
        FollowOne(name, stack[i]);
        if stack[i].Object? && name in stack[i].o { return Some(stack[i].o[name]); }
      }
      return None;
    }
    var names := SplitName(name);
    while i > 0
      invariant 0 <= i <= |stack| && Lookup(names, stack[..i], narrow) == Lookup(names, stack, narrow)
    {
      i := i - 1;
      assert stack[..i + 1][..i] == stack[..i];
      var view := FollowNames(names, stack[i]);
      if view.None? && narrow { return None; }
      if view.Some? { return view; }
    }
    return None;
  }

  lemma NameAlone(name: string)
    ensures DotAt(name, 0) == |name| ==> Names(name, 0) == [name] && '.' !in name
  {
    hide DotAt;
    assert name[0..] == name;
  }

  lemma FollowOne(name: string, v: Value)
    ensures Follow([name], v) == if v.Object? && name in v.o then Some(v.o[name]) else None
  {
    assert [name][1..] == [];
  }

  method FollowNames(names: seq<string>, start: Value) returns (r: Option<Value>)
    ensures r == Follow(names, start)
  {
    var view := start;
    assert names[0..] == names;
    for j := 0 to |names|
      invariant Follow(names[j..], view) == Follow(names, start)
    {
      assert names[j..][1..] == names[j + 1..];
      if view.Object? && names[j] in view.o { view := view.o[names[j]]; } else { return None; }
    }
    return Some(view);
  }

  /** Appends the escaped text. */
  method Escape(s: string, out: string) returns (out': string)
    ensures out' == out + Escaped(s)
  {
    hide EscapeChar;
    out' := out;
    for i := 0 to |s|
      invariant out' == out + Escaped(s[..i])
    {
      assert s[..i + 1][..i] == s[..i];
      out' := out' + EscapeChar(s[i]);
    }
    assert s[..|s|] == s;
  }

  class Renderer {
    var stack: seq<Value>
    var out: string

    constructor (context: Value)
      ensures stack == [context] && out == ""
    {
      stack, out := [context], "";
    }

    /** Scans back over the code for a section that is still open, if an object is on top of the stack. */
    method IsTagInsideObjectBlock(code: Code, current: nat) returns (r: bool)
      requires stack != [] && current <= |code.actions|
      ensures r <==> stack[|stack| - 1].Object? && Scan(code.actions[..current], 0)
    {
      var top := stack[|stack| - 1];
      var openedBlock: int := 0;
      var i: nat := current;
      while i > 0
        invariant i <= current
        invariant top.Object? ==> openedBlock >= 0
        invariant top.Object? ==> Scan(code.actions[..current], 0) == Scan(code.actions[..i], openedBlock)
      {
        assert code.actions[..i][..i - 1] == code.actions[..i - 1];
        var action := code.actions[i - 1];
        if action.t.OpenBlock? {
          if openedBlock == 0 && top.Object? { return true; }
          openedBlock := openedBlock - 1;
        } else if action.t.CloseBlock? {
          openedBlock := openedBlock + 1;
        }
        i := i - 1;
      }
      return false;
    }

    method RenderTag(code: Code, current: nat, ghost place: Place) returns (ok: bool)
      requires stack != [] && current < |code.actions| && Placed(code.actions[..current], place)
      modifies this`out
      ensures var action := code.actions[current];
              match TagText(Context(action.name, stack, Narrow(stack, place)), action.t.UnescapeTag?)
              case Some(text) => ok && out == old(out) + text
              case None => !ok
      ensures var v := Context(code.actions[current].name, stack, Narrow(stack, place));
              v.Some? && v.value.String? ==>
                && ok && old(out) <= out
                && if code.actions[current].t.UnescapeTag? then out == old(out) + v.value.s
                   else AllHarmless(out[|old(out)|..])
    {
      hide Context, Scan, Reaches;
      var action := code.actions[current];
      var narrow := IsTagInsideObjectBlock(code, current);
      assert Scan(code.actions[..current], 0) == Reaches(place.scopes, place.ended + 0);
      var v := FindContext(action.name, stack, narrow);
      match v {
        case None => return true;
        case Some(True) => out := out + "true";
        case Some(False) => out := out + "false";
        case Some(Number(t)) => out := out + t;
        case Some(String(s)) =>
          TagPrints(s);
          if action.t.UnescapeTag? { out := out + s; } else { out := Escape(s, out); }
        case _ => return false;
      }
      return true;
    }

    /** Renders the body of a section once for each value of a list. */
    method RenderList(code: Code, begin: nat, end: nat, l: seq<Value>, ghost node: Node,
        ghost place: Place) returns (ok: bool)
      requires stack != [] && node.Section?
      requires begin <= end && Laid(code, begin, end, Work(node.items, node.tail, Within(place, node), Bottom))
      modifies this
      ensures match Each(node, l, old(stack), place)
              case Some(text) => ok && stack == old(stack) && out == old(out) + text
              case None => !ok
      decreases end - begin, 3
    {
      hide BodyMeaning, Laid, Within;
      ghost var before := stack;
      for i := 0 to |l|
        invariant stack == before
        invariant match Each(node, l[..i], before, place) case Some(text) => out == old(out) + text case None => false
      {
        stack := stack + [l[i]];
        EachSnoc(node, l, i, before, place);
        ok := RenderInternal(code, begin, end, node.items, node.tail, Within(place, node));
        if !ok { return false; }
        stack := stack[..|stack| - 1];
      }
      assert l[..|l|] == l;
      return true;
    }

    /** Opens an inverted block if there is nothing to render a section with, and else jumps
        to its end. */
    method RunElse(code: Code, current: nat, ghost end: nat, ghost w: Work, ghost written: string)
      returns (next: nat, ghost w': Work)
      requires Depth(w.cont) < |stack| && Laid(code, current, end, w)
      requires w.items != [] && w.items[0].node.Section? && w.items[0].node.inverted
      requires current < |code.actions| && out == written + w.items[0].text
      modifies this`stack
      ensures current <= next < end && Laid(code, next + 1, end, w')
      ensures |stack| == |old(stack)| + Depth(w'.cont) - Depth(w.cont) && old(stack) <= stack
      ensures Goal(out, w', stack) == Goal(written, w, old(stack))
    {
      hide Laid, Goal, Each, NodeMeaning, Context;
      ghost var node := w.items[0].node;
      LaidBlock(code, current, end, w, node);
      var action := code.actions[current];
      var v := FindContext(action.name, stack, false);
      if v.None? || v.value.False? || v.value.Null? || (v.value.List? && v.value.l == []) {
        GoalInside(written, w, current, Null, stack);
        stack := stack + [Null];
        return current, Inside(w, current);
      }
      GoalNoContext(written, w, stack);
      return action.pos, Tail(w);
    }

    /** Opens a block, runs it for every element of a list, or jumps to its end. */
    method RunOpen(code: Code, current: nat, ghost end: nat, ghost w: Work, ghost written: string)
      returns (ok: bool, next: nat, ghost w': Work)
      requires Depth(w.cont) < |stack| && Laid(code, current, end, w)
      requires w.items != [] && w.items[0].node.Section? && !w.items[0].node.inverted
      requires current < |code.actions| && out == written + w.items[0].text && current < end
      modifies this
      ensures ok ==> current <= next < end && Laid(code, next + 1, end, w')
      ensures ok ==> |stack| == |old(stack)| + Depth(w'.cont) - Depth(w.cont) && old(stack) <= stack
      ensures ok ==> Depth(w'.cont) < |stack| && Goal(out, w', stack) == Goal(written, w, old(stack))
      ensures !ok ==> Goal(written, w, old(stack)).None?
      decreases end - current, 1
    {
      hide Laid, Goal, Each, NodeMeaning, Context;
      ghost var node := w.items[0].node;
      LaidBlock(code, current, end, w, node);
      var action := code.actions[current];
      var v := FindContext(action.name, stack, false);
      if v.None? || v.value.False? || v.value.Null? {
        GoalNoContext(written, w, stack);
        return true, action.pos, Tail(w);
      } else if v.value.List? {
        GoalList(written, w, v.value.l, stack);
        ok := RenderList(code, current + 1, action.pos, v.value.l, node, w.place);
        return ok, action.pos, Tail(w);
      }
      GoalInside(written, w, current, v.value, stack);
      stack := stack + [v.value];
      return true, current, Inside(w, current);
    }

    /** Runs the code between two positions: the loop advances by one action, or continues
        after the action it jumps to. */
    method RenderInternal(code: Code, begin: nat, end: nat, ghost items: seq<Item>,
        ghost tail: string, ghost place: Place) returns (ok: bool)
      requires stack != [] && begin <= end
      requires Laid(code, begin, end, Work(items, tail, place, Bottom))
      modifies this
      ensures match BodyMeaning(items, tail, old(stack), place)
              case Some(text) => ok && stack == old(stack) && out == old(out) + text
              case None => !ok
      decreases end - begin, 2
    {
      hide BodyMeaning, Laid, Goal, Each, NodeMeaning, TagText, Context, Rest, NodeActions, Placed, Narrow, Behind,
           Reaches, Entered, Count, Inverted;
      ghost var w := Work(items, tail, place, Bottom);
      ghost var before, height, goal := stack, |stack|, Goal(out, w, stack);
      GoalStart(out, w, stack);
      LaidBound(code, begin, end, w);
      var current := begin;
      while current < end
        invariant begin <= current <= end && Laid(code, current, end, w)
        invariant |stack| == height + Depth(w.cont) && stack[..height] == before
        invariant Goal(out, w, stack) == goal
      {
        LaidAction(code, current, end, w);
        ghost var written := out;
        var action := code.actions[current];
        out := out + code.fragments[current];
        match action.t {
          case Ignore =>
            GoalNote(written, w, stack);
            w := Tail(w);
          case TagAction =>
            ok := RenderTag(code, current, w.place);
            GoalTag(written, w, stack);
            if !ok { return false; }
            w := Tail(w);
          case UnescapeTag =>
            ok := RenderTag(code, current, w.place);
            GoalTag(written, w, stack);
            if !ok { return false; }
            w := Tail(w);
          case ElseBlock =>
            current, w := RunElse(code, current, end, w, written);
          case OpenBlock =>
            ok, current, w := RunOpen(code, current, end, w, written);
            if !ok { return false; }
          case CloseBlock =>
            GoalClose(written, w, stack);
            w := After(w.cont);
            stack := stack[..|stack| - 1];
        }
        current := current + 1;
        LaidBound(code, current, end, w);
      }
      LaidDone(code, end, w);
      GoalEnd(out, w, stack);
      out := out + code.fragments[end];
      return true;
    }
  }

  lemma GoalStart(out: string, w: Work, stack: seq<Value>)
    requires stack != [] && w.cont.Bottom?
    ensures Goal(out, w, stack) == Concat(Some(out), BodyMeaning(w.items, w.tail, stack, w.place))
  {
    var b := BodyMeaning(w.items, w.tail, stack, w.place);
    hide BodyMeaning;
    if b.Some? { assert b.value + "" == b.value; }
  }

  lemma LaidDone(code: Code, end: nat, w: Work)
    requires Laid(code, end, end, w)
    ensures w.items == [] && w.cont.Bottom? && end < |code.fragments| && code.fragments[end] == w.tail
  {
    LaidBound(code, end, end, w);
    if w.items != [] { CodeFirst(w.items, end); }
    if w.cont.Outer? { LaidBound(code, end + Count(w.items) + 1, end, After(w.cont)); }
  }

  lemma GoalTag(out: string, w: Work, stack: seq<Value>)
    requires Depth(w.cont) < |stack| && w.items != [] && w.items[0].node.Tag?
    ensures match TagText(Context(w.items[0].node.name, stack, Narrow(stack, w.place)), w.items[0].node.raw)
            case Some(text) => Goal(out, w, stack) == Goal(out + w.items[0].text + text, Tail(w), stack)
            case None => Goal(out, w, stack).None?
  {
    var node := w.items[0].node;
    var text := TagText(Context(node.name, stack, Narrow(stack, w.place)), node.raw);
    assert NodeMeaning(node, stack, w.place) == text;
    hide TagText, Context, Narrow;
    if text.Some? { GoalSkip(out, w, text.value, stack); } else { GoalFirst(out, w, stack); }
  }

  lemma GoalNote(out: string, w: Work, stack: seq<Value>)
    requires Depth(w.cont) < |stack| && w.items != [] && w.items[0].node.Note?
    ensures Goal(out, w, stack) == Goal(out + w.items[0].text, Tail(w), stack)
  {
    GoalSkip(out, w, "", stack);
    assert out + w.items[0].text + "" == out + w.items[0].text;
  }

  lemma GoalNoContext(out: string, w: Work, stack: seq<Value>)
    requires Depth(w.cont) < |stack| && w.items != [] && w.items[0].node.Section?
    requires Entered(Context(w.items[0].node.block, stack, false), w.items[0].node.inverted) == []
    ensures Goal(out, w, stack) == Goal(out + w.items[0].text, Tail(w), stack)
  {
    GoalSkip(out, w, "", stack);
    assert out + w.items[0].text + "" == out + w.items[0].text;
  }

  lemma GoalList(out: string, w: Work, l: seq<Value>, stack: seq<Value>)
    requires Depth(w.cont) < |stack| && w.items != [] && w.items[0].node.Section?
    requires Entered(Context(w.items[0].node.block, stack, false), w.items[0].node.inverted) == l
    ensures match Each(w.items[0].node, l, stack, w.place)
            case Some(text) => Goal(out, w, stack) == Goal(out + w.items[0].text + text, Tail(w), stack)
            case None => Goal(out, w, stack).None?
  {
    var text := Each(w.items[0].node, l, stack, w.place);
    assert NodeMeaning(w.items[0].node, stack, w.place) == text;
    hide Each, Entered;
    if text.Some? { GoalSkip(out, w, text.value, stack); } else { GoalFirst(out, w, stack); }
  }

  /** A section is rendered for its contexts one after the other, in order. */
  lemma {:induction false} EachAppend(node: Node, a: seq<Value>, b: seq<Value>, stack: seq<Value>, place: Place)
    requires stack != [] && node.Section?
    ensures Each(node, a + b, stack, place) == Concat(Each(node, a, stack, place), Each(node, b, stack, place))
    decreases |b|
  {
    hide BodyMeaning, Within;
    if b == [] {
      assert a + b == a;
      var t := Each(node, a, stack, place);
      if t.Some? { assert t.value + "" == t.value; }
    } else {
      var n := |b| - 1;
      assert (a + b)[..|a + b| - 1] == a + b[..n];
      EachAppend(node, a, b[..n], stack, place);
      ConcatTwice(Each(node, a, stack, place), Each(node, b[..n], stack, place),
        BodyMeaning(node.items, node.tail, stack + [b[n]], Within(place, node)));
    }
  }

  lemma EachSnoc(node: Node, l: seq<Value>, i: nat, stack: seq<Value>, place: Place)
    requires stack != [] && node.Section? && i < |l|
    ensures var body := BodyMeaning(node.items, node.tail, stack + [l[i]], Within(place, node));
            && Each(node, l[..i + 1], stack, place) == Concat(Each(node, l[..i], stack, place), body)
            && (body.None? ==> Each(node, l, stack, place).None?)
  {
    hide Within;
    assert l[..i + 1][..i] == l[..i];
    if BodyMeaning(node.items, node.tail, stack + [l[i]], Within(place, node)).None? {
      EachNone(node, l, i, |l|, stack, place);
    }
  }

  lemma {:induction false} EachNone(node: Node, l: seq<Value>, i: nat, n: nat, stack: seq<Value>, place: Place)
    requires stack != [] && node.Section? && i < n <= |l|
    requires BodyMeaning(node.items, node.tail, stack + [l[i]], Within(place, node)).None?
    ensures Each(node, l[..n], stack, place).None?
    ensures n == |l| ==> Each(node, l, stack, place).None?
  {
    hide Within;
    assert l[..n][..n - 1] == l[..n - 1];
    assert l[..|l|] == l;
    if i < n - 1 { EachNone(node, l, i, n - 1, stack, place); }
  }

  /** The action at the front of the work. */
  lemma LaidAction(code: Code, at: nat, end: nat, w: Work)
    requires Laid(code, at, end, w) && at < end
    ensures at < |code.actions| && at < |code.fragments|
    ensures code.fragments[at] == if w.items == [] then w.tail else w.items[0].text
    ensures w.items == [] ==>
            w.cont.Outer? && code.actions[at].t == CloseBlock && Laid(code, at + 1, end, After(w.cont))
    ensures w.items != [] ==> code.actions[at].t == match w.items[0].node
              case Note => Ignore
              case Tag(_, raw) => if raw then UnescapeTag else TagAction
              case Section(_, inverted, _, _) => if inverted then ElseBlock else OpenBlock
    ensures w.items != [] && w.items[0].node.Tag? ==> code.actions[at].name == w.items[0].node.name
    ensures w.items != [] && !w.items[0].node.Section? ==> Laid(code, at + 1, end, Tail(w))
    ensures Placed(code.actions[..at], w.place)
  {
    hide Placed;
    if w.items != [] {
      LaidFirst(code, at, end, w);
    }
  }
}
