/** Tags that stand on a line of their own: after a template is read, such a line is taken out of the
    texts around the tag. */
module MustacheTrim {
  import opened MustacheTemplate

  // ---- the texts around a tag ----

  predicate AllSpaces(s: string) { forall i :: 0 <= i < |s| ==> s[i] == ' ' }

  /** The text up to its last character that is no space. */
  function LastEnd(s: string): (j: nat)
    ensures j <= |s| && AllSpaces(s[j..]) && (j > 0 ==> s[j - 1] != ' ')
  {
    if s == "" || s[|s| - 1] != ' ' then |s|
    else
      var j := LastEnd(s[..|s| - 1]);
      assert forall i :: j <= i < |s| - 1 ==> s[i] == s[..|s| - 1][j..][i - j];
      j
  }

  /** The first character that is no space. */
  function FirstOther(s: string): (k: nat)
    ensures k <= |s| && AllSpaces(s[..k]) && (k < |s| ==> s[k] != ' ')
  {
    if s == "" || s[0] != ' ' then 0
    else
      var k := FirstOther(s[1..]);
      assert forall i :: 1 <= i < k + 1 ==> s[i] == s[1..][..k][i - 1];
      k + 1
  }

  /** The length of the line end at a place, if there is one. */
  function LineEnd(s: string, k: nat): (n: nat)
    ensures k + n <= |s| || n == 0
  {
    if k < |s| && s[k] == '\n' then 1
    else if k + 1 < |s| && s[k] == '\r' && s[k + 1] == '\n' then 2
    else 0
  }

  /** What stands before the tag is the beginning of a line, with spaces. */
  predicate LineBegins(s: string, first: bool) {
    var j := LastEnd(s);
    if j == 0 then first else s[j - 1] == '\n'
  }

  /** What stands after the tag is the end of a line, with spaces. */
  predicate LineEnds(s: string, last: bool) {
    var k := FirstOther(s);
    if k == |s| then last else LineEnd(s, k) > 0
  }

  /** Action `i` stands on a line of its own. Of the first text all of it may be spaces, and of the text
      after the last tag; the last action is none of the text. */
  predicate Stands(code: Code, i: nat)
    requires |code.fragments| == |code.actions|
  {
    && i + 1 < |code.actions| && !code.actions[i].t.TagAction? && !code.actions[i].t.UnescapeTag?
    && LineBegins(code.fragments[i], i == 0) && LineEnds(code.fragments[i + 1], i + 2 == |code.actions|)
  }

  /** Where the text after a standing tag begins; a last text of spaces is kept. */
  function Next(s: string): (n: nat)
    ensures n <= |s|
  {
    var k := FirstOther(s);
    if k < |s| then k + LineEnd(s, k) else 0
  }

  function Low(code: Code, i: nat): nat
    requires |code.fragments| == |code.actions| && i < |code.fragments|
  {
    if i > 0 && Stands(code, i - 1) then Next(code.fragments[i]) else 0
  }

  function High(code: Code, i: nat): (j: nat)
    requires |code.fragments| == |code.actions| && i < |code.fragments|
    ensures j <= |code.fragments[i]|
  {
    if Stands(code, i) then LastEnd(code.fragments[i]) else |code.fragments[i]|
  }

  /** Cutting the end off a text changes nothing about its beginning. */
  lemma CutKeeps(s: string, last: bool)
    requires LastEnd(s) > 0 && s[LastEnd(s) - 1] == '\n'
    ensures var t := s[..LastEnd(s)];
            && LineEnds(t, last) == LineEnds(s, last) && LineEnds(t, last) == LineEnds(s, !last)
            && Next(t) == Next(s)
  {
    var t := s[..LastEnd(s)];
    var k := FirstOther(s);
    assert forall i :: 0 <= i < k ==> s[..k][i] == s[i] == ' ';
    assert k < LastEnd(s);
    assert t == s[..k] + t[k..];
    SpacesFirst(s[..k], t[k..]);
    hide LastEnd, FirstOther;
    assert s[..k] + t[k..] == t;
  }

  lemma {:induction false} SpacesFirst(a: string, b: string)
    requires AllSpaces(a) && (b == "" || b[0] != ' ')
    ensures FirstOther(a + b) == |a|
  {
    if a == "" {
      assert a + b == b;
    } else {
      assert (a + b)[1..] == a[1..] + b;
      SpacesFirst(a[1..], b);
    }
  }

  lemma {:induction false} SpacesLast(a: string, b: string)
    requires AllSpaces(b) && (a == "" || a[|a| - 1] != ' ')
    ensures LastEnd(a + b) == |a|
    decreases |b|
  {
    if b == "" {
      assert a + b == a;
    } else {
      assert (a + b)[..|a + b| - 1] == a + b[..|b| - 1];
      SpacesLast(a, b[..|b| - 1]);
    }
  }

  /** The text is `a` and spaces, and `a` ends a line or is nothing at the beginning of the template. */
  predicate LineBefore(s: string, first: bool, a: string) {
    a <= s && AllSpaces(s[|a|..]) && if a == "" then first else a[|a| - 1] == '\n'
  }

  /** The text is spaces, a line end and `b`, or at the end of the template it is spaces, and these are `b`. */
  ghost predicate LineAfter(s: string, last: bool, b: string) {
    || (AllSpaces(s) && last && b == s)
    || exists sp, e :: EndsLine(s, sp, e, b)
  }

  predicate EndsLine(s: string, sp: string, e: string, b: string) {
    AllSpaces(sp) && (e == "\n" || e == "\r\n") && s == sp + (e + b)
  }

  lemma BeginsIff(s: string, first: bool, a: string)
    ensures LineBefore(s, first, a) <==> LineBegins(s, first) && a == s[..LastEnd(s)]
  {
    hide LastEnd;
    if LineBefore(s, first, a) {
      assert s == a + s[|a|..];
      SpacesLast(a, s[|a|..]);
    }
  }

  lemma EndsIff(s: string, last: bool, b: string)
    ensures LineAfter(s, last, b) <==> LineEnds(s, last) && b == s[Next(s)..]
  {
    hide FirstOther, LineEnd, EndsLine, LineEnds, Next;
    if LineAfter(s, last, b) {
      if AllSpaces(s) && last && b == s {
        OnlySpaces(s);
      } else {
        var sp, e :| EndsLine(s, sp, e, b);
        EndIs(s, sp, e, b);
      }
    }
    if LineEnds(s, last) && b == s[Next(s)..] { EndSeen(s, last); }
  }

  lemma OnlySpaces(s: string)
    requires AllSpaces(s)
    ensures FirstOther(s) == |s| && LineEnds(s, true) && Next(s) == 0
  {
    hide FirstOther;
    assert s + "" == s;
    SpacesFirst(s, "");
  }

  lemma EndIs(s: string, sp: string, e: string, b: string)
    requires EndsLine(s, sp, e, b)
    ensures LineEnds(s, false) && LineEnds(s, true) && b == s[Next(s)..]
  {
    hide FirstOther;
    assert (e + b)[0] == e[0];
    SpacesFirst(sp, e + b);
    assert s[|sp|] == e[0] && (|e| == 2 ==> s[|sp| + 1] == e[1]);
  }

  lemma EndSeen(s: string, last: bool)
    requires LineEnds(s, last)
    ensures LineAfter(s, last, s[Next(s)..])
  {
    hide FirstOther;
    var k := FirstOther(s);
    if k == |s| {
      assert s[..k] == s;
    } else {
      var e, b := s[k..k + LineEnd(s, k)], s[Next(s)..];
      assert s == s[..k] + (e + b);
      assert EndsLine(s, s[..k], e, b);
    }
  }

  /** The tags that are taken to stand are those on a line of their own, and what is left of the texts is
      what is around this line. */
  lemma StandsIffOwnLine(code: Code, i: nat, a: string, b: string)
    requires |code.fragments| == |code.actions| && i + 1 < |code.actions|
    requires !code.actions[i].t.TagAction? && !code.actions[i].t.UnescapeTag?
    ensures var before, after := code.fragments[i], code.fragments[i + 1];
            LineBefore(before, i == 0, a) && LineAfter(after, i + 2 == |code.actions|, b)
            <==> Stands(code, i) && a == before[..High(code, i)] && b == after[Low(code, i + 1)..]
  {
    hide LastEnd, FirstOther, LineEnd, LineBefore, LineAfter;
    BeginsIff(code.fragments[i], i == 0, a);
    EndsIff(code.fragments[i + 1], i + 2 == |code.actions|, b);
  }

  lemma Ordered(code: Code, i: nat)
    requires |code.fragments| == |code.actions| && i < |code.fragments|
    ensures Low(code, i) <= High(code, i) <= |code.fragments[i]|
    ensures i > 0 && High(code, i) < |code.fragments[i]| ==>
              High(code, i) > 0 && code.fragments[i][High(code, i) - 1] == '\n'
  {
    hide LastEnd, FirstOther;
    var s := code.fragments[i];
    if i > 0 && Stands(code, i) {
      CutKeeps(s, true);
    }
  }

  /** The texts without the lines of standing tags. */
  function Trimmed(code: Code): (r: seq<string>)
    requires |code.fragments| == |code.actions|
    ensures |r| == |code.fragments|
  {
    seq(|code.fragments|, i requires 0 <= i < |code.fragments| =>
      Ordered(code, i);
      code.fragments[i][Low(code, i)..High(code, i)])
  }

  method FindLastEnd(s: string) returns (j: nat)
    ensures j == LastEnd(s)
  {
    j := |s|;
    assert s[..j] == s;
    while j > 0
      invariant j <= |s| && LastEnd(s[..j]) == LastEnd(s)
    {
      if s[j - 1] != ' ' { break; }
      assert s[..j][..j - 1] == s[..j - 1];
      j := j - 1;
    }
  }

  method FindFirstOther(s: string) returns (k: nat)
    ensures k == FirstOther(s)
  {
    k := 0;
    while k < |s|
      invariant k <= |s| && k + FirstOther(s[k..]) == FirstOther(s)
    {
      if s[k] != ' ' { break; }
      assert s[k..][1..] == s[k + 1..];
      k := k + 1;
    }
  }

  /** Takes the line of one tag out of the texts around it, if the tag stands on a line of its own. */
  method TakeLine(before: string, after: string, first: bool, last: bool) returns (b: string, a: string)
    ensures var stands := LineBegins(before, first) && LineEnds(after, last);
            && b == (if stands then before[..LastEnd(before)] else before)
            && a == (if stands then after[Next(after)..] else after)
  {
    hide LastEnd, FirstOther;
    b, a := before, after;
    var j := FindLastEnd(before);
    if j == 0 && !first { return; }
    if j > 0 && before[j - 1] != '\n' { return; }
    var k := FindFirstOther(after);
    if k == |after| && !last { return; }
    if k < |after| && LineEnd(after, k) == 0 { return; }
    b := before[..j];
    if k < |after| { a := after[k + LineEnd(after, k)..]; }
  }

  /** Takes out the lines of all standing tags, from the last tag to the first. */
  method RemoveStandalones(code: Code) returns (fragments: seq<string>)
    requires |code.fragments| == |code.actions| > 0
    ensures fragments == Trimmed(code)
  {
    hide LastEnd, FirstOther, LineEnd, Next, LineBegins, LineEnds, Trimmed, Stands, High, Low;
    fragments := code.fragments;
    var n := |code.actions|;
    var i := n - 1;
    LastText(code);
    while i > 0
      invariant 0 <= i < n == |fragments|
      invariant forall m :: 0 <= m < i ==> fragments[m] == code.fragments[m]
      invariant fragments[i] == code.fragments[i][..High(code, i)]
      invariant forall m :: i < m < n ==> fragments[m] == Trimmed(code)[m]
    {
      i := i - 1;
      LineTaken(code, i);
      if !code.actions[i].t.TagAction? && !code.actions[i].t.UnescapeTag? {
        var b, a := TakeLine(fragments[i], fragments[i + 1], i == 0, i + 2 == n);
        fragments := fragments[i := b][i + 1 := a];
      }
    }
    FirstText(code);
  }

  lemma LastText(code: Code)
    requires |code.fragments| == |code.actions| > 0
    ensures var s := code.fragments[|code.fragments| - 1]; s[..High(code, |code.fragments| - 1)] == s
  {
  }

  lemma FirstText(code: Code)
    requires |code.fragments| == |code.actions| > 0
    ensures Trimmed(code)[0] == code.fragments[0][..High(code, 0)]
  {
    hide High;
    Ordered(code, 0);
  }

  /** Whether a tag stands can be seen when the end of the text after it is already cut off. */
  lemma LineTaken(code: Code, i: nat)
    requires |code.fragments| == |code.actions| && i + 1 < |code.actions|
    ensures var after := code.fragments[i + 1][..High(code, i + 1)];
            var last := i + 2 == |code.actions|;
            && (Stands(code, i) <==>
                && !code.actions[i].t.TagAction? && !code.actions[i].t.UnescapeTag?
                && LineBegins(code.fragments[i], i == 0) && LineEnds(after, last))
            && Trimmed(code)[i + 1] == (if Stands(code, i) then after[Next(after)..] else after)
            && code.fragments[i][..High(code, i)] ==
               if Stands(code, i) then code.fragments[i][..LastEnd(code.fragments[i])] else code.fragments[i]
  {
    hide LastEnd, FirstOther, LineEnd, Next, LineEnds, LineBegins;
    var s := code.fragments[i + 1];
    var h := High(code, i + 1);
    Ordered(code, i + 1);
    if Stands(code, i + 1) { CutIsLine(code, i + 1); } else { assert s[..|s|] == s; }
    assert Next(s[..h]) == Next(s);
    assert s[..h][Next(s)..] == s[Next(s)..h];
    assert s[..h] == s[0..h];
  }

  lemma CutIsLine(code: Code, i: nat)
    requires |code.fragments| == |code.actions| && 0 < i && Stands(code, i)
    ensures var s, t := code.fragments[i], code.fragments[i][..High(code, i)];
            LineEnds(t, false) == LineEnds(s, false) && LineEnds(t, true) == LineEnds(s, true) && Next(t) == Next(s)
  {
    hide LastEnd, FirstOther, LineEnd, Next, LineEnds;
    CutKeeps(code.fragments[i], true);
    CutKeeps(code.fragments[i], false);
  }

  // ---- trees with other texts ----

  /** The items with these texts, in the order of the code. */
  function Retext(items: seq<Item>, texts: seq<string>): seq<Item>
    requires |texts| == Count(items)
    decreases items, 1
  {
    if items == [] then []
    else
      var n := |items| - 1;
      var k := Count(items[..n]);
      Retext(items[..n], texts[..k]) + [RetextItem(items[n], texts[k..])]
  }

  function RetextItem(item: Item, texts: seq<string>): Item
    requires |texts| == NodeCount(item.node)
    decreases item, 0
  {
    var n := |texts| - 1;
    Item(texts[0],
      match item.node
      case Section(block, inverted, items, _) => Section(block, inverted, Retext(items, texts[1..n]), texts[n])
      case node => node)
  }

  /** The code has the new texts and the old actions. */
  lemma {:induction false} RetextCode(items: seq<Item>, texts: seq<string>, base: nat)
    requires |texts| == Count(items)
    ensures var r := Retext(items, texts);
            Count(r) == Count(items) && Texts(r) == texts && Actions(r, base) == Actions(items, base)
    decreases items, 1
  {
    hide RetextItem, Retext, NodeActions, ItemTexts, NodeCount, Actions, Texts, Count;
    if items == [] {
      NoItems(texts, base);
    } else {
      var n := |items| - 1;
      RetextSnoc(items, texts);
      var k := Count(items[..n]);
      var front, last := Retext(items[..n], texts[..k]), RetextItem(items[n], texts[k..]);
      RetextCode(items[..n], texts[..k], base);
      RetextItemCode(items[n], texts[k..], base + k);
      assert texts == texts[..k] + texts[k..];
      assert items == items[..n] + [items[n]];
      SnocItem(front, last, base);
      SnocItem(items[..n], items[n], base);
    }
  }

  lemma NoItems(texts: seq<string>, base: nat)
    requires |texts| == Count([])
    ensures Retext([], texts) == [] && texts == Texts([])
  {
  }

  lemma RetextSnoc(items: seq<Item>, texts: seq<string>)
    requires |texts| == Count(items) && items != []
    ensures var n := |items| - 1;
            var k := Count(items[..n]);
            && |texts| == k + NodeCount(items[n].node)
            && Retext(items, texts) == Retext(items[..n], texts[..k]) + [RetextItem(items[n], texts[k..])]
  {
    hide RetextItem, NodeCount;
  }

  lemma {:induction false} RetextItemCode(item: Item, texts: seq<string>, base: nat)
    requires |texts| == NodeCount(item.node)
    ensures var r := RetextItem(item, texts);
            NodeCount(r.node) == NodeCount(item.node) && ItemTexts(r) == texts
            && NodeActions(r.node, base) == NodeActions(item.node, base)
    decreases item, 0
  {
    hide Actions, Count, Texts, Retext;
    if item.node.Section? {
      RetextBlock(item, texts, base);
    } else {
      assert texts == [texts[0]];
    }
  }

  lemma {:induction false} RetextBlock(item: Item, texts: seq<string>, base: nat)
    requires |texts| == NodeCount(item.node) && item.node.Section?
    ensures var r := RetextItem(item, texts);
            NodeCount(r.node) == NodeCount(item.node) && ItemTexts(r) == texts
            && NodeActions(r.node, base) == NodeActions(item.node, base)
    decreases item.node, 0
  {
    hide Actions, Count, Texts, Retext;
    var n := |texts| - 1;
    RetextCode(item.node.items, texts[1..n], base + 1);
    assert texts == [texts[0]] + (texts[1..n] + [texts[n]]);
  }

  /** The tree that is left when the lines of standing tags are taken out of a template. */
  function TrimmedItems(items: seq<Item>, tail: string): seq<Item> {
    Retext(items, Trimmed(Compiled(items, tail))[..Count(items)])
  }

  function TrimmedTail(items: seq<Item>, tail: string): string {
    Trimmed(Compiled(items, tail))[Count(items)]
  }
}
