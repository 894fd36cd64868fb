/** The URL router: a search tree over patterns that is built character by character,
    merged in place, and searched with shared parameter lists. Nodes own their children,
    so a node is a value and a pointer into the tree is a path from its root. */
module RouteTrie {
  import opened Options
  import opened RoutePatterns

  const INVALID_BP: nat := 0xFFFF

  datatype Node = Node(rule: nat, blueprint: nat, key: string, param: Option<ParamType>, children: seq<Node>)

  /** The steps that lead into a node from its parent. */
  function Label(n: Node): seq<Tok> {
    match n.param
    case Some(p) => [Tag(p)]
    case None => Lits(n.key)
  }

  /** The rules of a subtree, in the order in which a search meets them. */
  function Rules(n: Node): seq<Rule>
    decreases n, 0
  {
    (if n.rule == 0 then [] else [Rule([], n.rule)]) + RulesOf(n.children)
  }

  function RulesOf(cs: seq<Node>): seq<Rule>
    decreases cs, 2
  {
    if cs == [] then [] else RulesOf(cs[..|cs| - 1]) + Entry(cs[|cs| - 1])
  }

  /** The rules of a subtree as its parent sees them. */
  function Entry(n: Node): seq<Rule>
    decreases n, 1
  {
    Prepend(Label(n), Rules(n))
  }

  /** Every node below the root is entered by at least one step. */
  predicate Keyed(n: Node) {
    forall c :: c in n.children ==> (c.param.None? ==> c.key != "") && Keyed(c)
  }

  // ---- search ----

  /** The parameter lists that a whole search shares. */
  class RoutingParams {
    var ints: seq<int>
    var uints: seq<nat>
    var doubles: seq<real>
    var strings: seq<string>

    function Get(): Params
      reads this
    {
      Params(ints, uints, doubles, strings)
    }

    constructor ()
      ensures Get() == NO_PARAMS
    {
      ints, uints, doubles, strings := [], [], [], [];
    }

    method PushBack(v: Value)
      modifies this
      ensures Get() == Push(old(Get()), v)
    {
      match v {
        case IntValue(i) => ints := ints + [i];
        case UintValue(u) => uints := uints + [u];
        case DoubleValue(d) => doubles := doubles + [d];
        case StringValue(s) => strings := strings + [s];
      }
    }

    method PopBack(v: Value, ghost before: Params)
      requires Get() == Push(before, v)
      modifies this
      ensures Get() == before
    {
      match v {
        case IntValue(_) => ints := ints[..|ints| - 1];
        case UintValue(_) => uints := uints[..|uints| - 1];
        case DoubleValue(_) => doubles := doubles[..|doubles| - 1];
        case StringValue(_) => strings := strings[..|strings| - 1];
      }
    }
  }

  /** A rule index of 0 means that nothing was found. */
  function Result(index: nat, params: Params): Outcome {
    if index == 0 then NotFound else Found(index, params)
  }

  lemma ScanEmptyRest(fp: FloatParser, cs: seq<Node>, url: string, ps: Params)
    requires forall c :: c in cs ==> (c.param.None? ==> c.key != "")
    ensures Scan(fp, RulesOf(cs), url, |url|, ps) == NotFound
  {
    if cs != [] {
      var n := |cs| - 1;
      ScanEmptyRest(fp, cs[..n], url, ps);
      ScanAppend(fp, RulesOf(cs[..n]), Entry(cs[n]), url, |url|, ps);
      if cs[n].param.None? {
        ScanKey(fp, cs[n].key, Rules(cs[n]), url, |url|, ps);
      } else {
        NoneAtEnd(fp, cs[n].param.value, Rules(cs[n]), url, ps);
      }
    }
  }

  lemma {:induction false} NoneAtEnd(fp: FloatParser, p: ParamType, rules: seq<Rule>, url: string, ps: Params)
    ensures Scan(fp, Prepend([Tag(p)], rules), url, |url|, ps) == NotFound
    decreases |rules|
  {
    if rules != [] {
      var n := |rules| - 1;
      assert Prepend([Tag(p)], rules)[..n] == Prepend([Tag(p)], rules[..n]);
      NoneAtEnd(fp, p, rules[..n], url, ps);
    }
  }

  /** At the end of the URL only the node's own rule counts, elsewhere only its children's. */
  lemma ScanNode(fp: FloatParser, n: Node, url: string, pos: nat, ps: Params)
    requires pos <= |url| && Keyed(n)
    ensures Scan(fp, Rules(n), url, pos, ps) ==
            if pos == |url| then Result(n.rule, ps) else Scan(fp, RulesOf(n.children), url, pos, ps)
  {
    var own := if n.rule == 0 then [] else [Rule([], n.rule)];
    ScanAppend(fp, own, RulesOf(n.children), url, pos, ps);
    if pos == |url| { ScanEmptyRest(fp, n.children, url, ps); }
    assert n.rule != 0 ==> own[..0] == [];
    assert Scan(fp, [], url, pos, ps) == NotFound;
  }

  /** Searches the subtree of `node` for the rest of `url`. The shared parameter lists come
      back as they were, and the result is that of a linear scan over the rules below `node`. */
  method Find(fp: FloatParser, url: string, node: Node, pos: nat, params: RoutingParams) returns (index: nat,
      found: Params)
    requires pos <= |url| && Keyed(node)
    modifies params
    ensures params.Get() == old(params.Get())
    ensures Result(index, found) == Scan(fp, Rules(node), url, pos, old(params.Get()))
    decreases node
  {
    hide Take, Scan, Better;
    ghost var ps := params.Get();
    ScanNode(fp, node, url, pos, ps);
    if pos == |url| {
      return node.rule, params.Get();
    }
    index, found := 0, NO_PARAMS;
    assert RulesOf(node.children[..0]) == [];
    ScanNothing(fp, url, pos, ps);
    for k := 0 to |node.children|
      invariant params.Get() == ps
      invariant Result(index, found) == Scan(fp, RulesOf(node.children[..k]), url, pos, ps)
    {
      var child := node.children[k];
      var i, f := FindChild(fp, url, node, child, pos, params);
      assert node.children[..k + 1][..k] == node.children[..k];
      ScanAppend(fp, RulesOf(node.children[..k]), Entry(child), url, pos, ps);
      index, found := UpdateFound(index, found, i, f);
    }
    assert node.children[..|node.children|] == node.children;
  }

  lemma ScanNothing(fp: FloatParser, url: string, pos: nat, ps: Params)
    requires pos <= |url|
    ensures Scan(fp, [], url, pos, ps) == NotFound
  {
  }

  /** Keeps the smaller index, and of two equal ones the one found first. */
  method UpdateFound(index: nat, found: Params, i: nat, f: Params) returns (index': nat, found': Params)
    ensures Result(index', found') == Better(Result(index, found), Result(i, f))
  {
    index', found' := index, found;
    if i != 0 && (index == 0 || index > i) { index', found' := i, f; }
  }

  /** Goes on in a child if the URL can take the step into it. */
  method FindChild(fp: FloatParser, url: string, ghost node: Node, child: Node, pos: nat, params: RoutingParams)
    returns (index: nat, found: Params)
    requires pos < |url| && Keyed(node) && child in node.children
    modifies params
    ensures params.Get() == old(params.Get())
    ensures Result(index, found) == Scan(fp, Entry(child), url, pos, old(params.Get()))
    decreases node, 0
  {
    hide Take, Scan, Better, Rules;
    ghost var ps := params.Get();
    index, found := 0, NO_PARAMS;
    match child.param {
      case Some(p) =>
        ScanTag(fp, p, Rules(child), url, pos, ps);
        match Take(fp, p, url, pos) {
          case Some((v, e)) =>
            params.PushBack(v);
            index, found := Find(fp, url, child, e, params);
            params.PopBack(v, ps);
          case None =>
        }
      case None =>
        ScanKey(fp, child.key, Rules(child), url, pos, ps);
        if pos + |child.key| <= |url| && url[pos..pos + |child.key|] == child.key {
          index, found := Find(fp, url, child, pos + |child.key|, params);
        }
    }
  }

  // ---- optimisation ----

  /** A node that could be merged with its child: it has no meaning of its own. */
  predicate IsSimple(n: Node) {
    && n.rule == 0 && n.blueprint == INVALID_BP && |n.children| < 2 && n.param.None?
    && forall c :: c in n.children ==> c.param.None?
  }

  /** No node of the subtree can be merged any more. */
  predicate Compact(n: Node) {
    (n.children == [] || !IsSimple(n)) && forall c :: c in n.children ==> Compact(c)
  }

  function Size(n: Node): nat
    decreases n, 0
  {
    1 + SizeOf(n.children)
  }

  function SizeOf(cs: seq<Node>): nat
    decreases cs, 1
  {
    if cs == [] then 0 else SizeOf(cs[..|cs| - 1]) + Size(cs[|cs| - 1])
  }

  lemma {:induction false} SizeAt(cs: seq<Node>, k: nat)
    requires k < |cs|
    ensures Size(cs[k]) <= SizeOf(cs)
    decreases |cs|
  {
    if k < |cs| - 1 { SizeAt(cs[..|cs| - 1], k); }
  }

  function Merged(n: Node, c: Node): Node {
    n.(key := n.key + c.key, rule := c.rule, blueprint := c.blueprint, children := c.children)
  }

  /** Merging a simple node with its child loses no rule and keeps their order. */
  lemma MergeKeeps(n: Node)
    requires IsSimple(n) && |n.children| == 1
    ensures Entry(Merged(n, n.children[0])) == Entry(n)
    ensures Size(Merged(n, n.children[0])) < Size(n)
  {
    var c := n.children[0];
    assert n.children[..0] == [];
    assert RulesOf([]) == [];
    assert Rules(n) == [] + RulesOf(n.children) == Entry(c);
    PrependTwice(Lits(n.key), Lits(c.key), Rules(c));
    assert Lits(n.key) + Lits(c.key) == Lits(n.key + c.key);
    assert Rules(Merged(n, c)) == Rules(c);
    assert Size(Merged(n, c)) == 1 + SizeOf(c.children) == Size(c);
    assert SizeOf(n.children) == SizeOf([]) + Size(c);
  }

  /** Whether a node can be merged depends on its own fields and its children's tags. */
  lemma SimpleByTags(n: Node, m: Node)
    requires m == n.(children := m.children) && |m.children| == |n.children|
    requires forall k :: 0 <= k < |n.children| ==> m.children[k].param == n.children[k].param
    ensures IsSimple(m) ==> IsSimple(n)
  {
    if IsSimple(m) {
      forall c | c in n.children
        ensures c.param.None?
      {
        var k :| 0 <= k < |n.children| && n.children[k] == c;
        assert m.children[k] in m.children;
      }
    }
  }

  /** One more child done: the rules of the children so far stay the same. */
  lemma AllButOne(cs: seq<Node>, ds: seq<Node>, k: nat, m: Node)
    requires k < |cs| && RulesOf(ds) == RulesOf(cs[..k]) && SizeOf(ds) <= SizeOf(cs[..k])
    requires Entry(m) == Entry(cs[k]) && Size(m) <= Size(cs[k])
    ensures RulesOf(ds + [m]) == RulesOf(cs[..k + 1]) && SizeOf(ds + [m]) <= SizeOf(cs[..k + 1])
  {
    hide Entry, Size;
    assert (ds + [m])[..|ds|] == ds;
    assert cs[..k + 1][..k] == cs[..k];
  }

  /** A child of a node that is kept in the tree is entered by a step and has no chains. */
  predicate Done(c: Node) {
    (c.param.None? ==> c.key != "") && Keyed(c) && Compact(c)
  }

  lemma MergeKeyed(n: Node)
    requires IsSimple(n) && |n.children| == 1 && Keyed(n)
    ensures Keyed(Merged(n, n.children[0]))
  {
    assert n.children[0] in n.children;
  }

  /** A node that stays, with its children optimised, keeps its rules and is compact. */
  lemma KeepsNode(n: Node, cs: seq<Node>)
    requires n.children != [] && !IsSimple(n)
    requires |cs| == |n.children| && RulesOf(cs) == RulesOf(n.children) && SizeOf(cs) <= SizeOf(n.children)
    requires forall k :: 0 <= k < |cs| ==> cs[k].param == n.children[k].param
    requires forall c :: c in cs ==> Done(c)
    ensures var m := n.(children := cs);
            Entry(m) == Entry(n) && Keyed(m) && Compact(m) && Size(m) <= Size(n)
  {
    SimpleByTags(n, n.(children := cs));
    hide IsSimple;
    assert Rules(n.(children := cs)) == Rules(n);
  }

  /** Merges all chains of a subtree. Its rules, as its parent sees them, are the same and
      in the same order, and no node is left that could be merged. Every merge removes a node. */
  method OptimizeNode(node: Node) returns (m: Node)
    requires Keyed(node)
    ensures Entry(m) == Entry(node) && Keyed(m) && Compact(m)
    ensures m.param == node.param && |m.key| >= |node.key| && Size(m) <= Size(node)
    decreases Size(node)
  {
    hide Entry, Rules, Keyed, Compact, Size, Done;
    if node.children == [] {
      LeafCompact(node);
      return node;
    }
    if IsSimple(node) {
      MergeKeeps(node);
      MergeKeyed(node);
      m := OptimizeNode(Merged(node, node.children[0]));
    } else {
      var cs := OptimizeAll(node);
      KeepsNode(node, cs);
      m := node.(children := cs);
    }
  }

  lemma LeafCompact(n: Node)
    requires n.children == []
    ensures Compact(n)
  {
  }

  method OptimizeAll(node: Node) returns (cs: seq<Node>)
    requires Keyed(node)
    ensures |cs| == |node.children| && RulesOf(cs) == RulesOf(node.children) && SizeOf(cs) <= SizeOf(node.children)
    ensures forall k :: 0 <= k < |cs| ==> cs[k].param == node.children[k].param
    ensures forall c :: c in cs ==> Done(c)
    decreases Size(node), 0
  {
    hide Entry, Rules, RulesOf, Compact, SizeOf;
    cs := [];
    assert node.children[..0] == [];
    for k := 0 to |node.children|
      invariant |cs| == k && RulesOf(cs) == RulesOf(node.children[..k]) && SizeOf(cs) <= SizeOf(node.children[..k])
      invariant forall j :: 0 <= j < k ==> cs[j].param == node.children[j].param
      invariant forall c :: c in cs ==> Done(c)
    {
      SizeAt(node.children, k);
      var c := OptimizeNode(node.children[k]);
      AllButOne(node.children, cs, k, c);
      assert Done(c);
      cs := cs + [c];
    }
    assert node.children[..|node.children|] == node.children;
  }
}
