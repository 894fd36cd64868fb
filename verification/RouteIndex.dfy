/** The search tree as an index over patterns: whatever patterns were added, in whatever
    order, and whether or not the tree was optimised, a search finds what a linear scan over
    the added patterns would find. */
module RouteIndex {
  import opened Options
  import opened RouteAdd
  import opened RoutePatterns
  import opened RouteTrie

  // ---- answers do not depend on the order of the rules ----

  /** What a search for `url` may answer if `rules` are the rules there are: the smallest
      index of all rules that match, with the parameters of a rule of that index. */
  ghost predicate Answers(fp: FloatParser, rules: seq<Rule>, url: string, o: Outcome) {
    && (o.Found? ==> o.index != 0 && exists r :: r in rules && Try(fp, r, url, 0, NO_PARAMS) == o)
    && (forall r :: r in rules && Try(fp, r, url, 0, NO_PARAMS).Found? ==> o.Found? && o.index <= r.index)
  }

  /** At most one rule has index `i`. */
  ghost predicate Single(rules: seq<Rule>, i: nat) {
    forall r, s :: r in rules && s in rules && r.index == i && s.index == i ==> r == s
  }

  function IndexOf(o: Outcome): nat { if o.Found? then o.index else 0 }

  lemma OneAnswer(fp: FloatParser, rules: seq<Rule>, url: string, o: Outcome, p: Outcome)
    requires Answers(fp, rules, url, o) && Answers(fp, rules, url, p)
    ensures IndexOf(o) == IndexOf(p)
    ensures Single(rules, IndexOf(o)) ==> o == p
  {
    hide Extract;
    if o.Found? {
      var r :| r in rules && Try(fp, r, url, 0, NO_PARAMS) == o;
      assert p.Found?;
      var s :| s in rules && Try(fp, s, url, 0, NO_PARAMS) == p;
    }
  }

  /** Two lists of the same rules in different orders have the same answers. */
  lemma AnyOrder(fp: FloatParser, a: seq<Rule>, b: seq<Rule>, url: string)
    requires multiset(a) == multiset(b)
    ensures Answers(fp, b, url, Scan(fp, a, url, 0, NO_PARAMS))
    ensures var o, p := Scan(fp, a, url, 0, NO_PARAMS), Scan(fp, b, url, 0, NO_PARAMS);
            IndexOf(o) == IndexOf(p) && (Single(b, IndexOf(o)) ==> o == p)
  {
    hide Extract, Scan;
    ScanMeans(fp, a, url, 0, NO_PARAMS);
    ScanMeans(fp, b, url, 0, NO_PARAMS);
    assert forall r :: r in a <==> r in multiset(a);
    assert forall r :: r in b <==> r in multiset(b);
    assert forall r :: r in a <==> r in b;
    OneAnswer(fp, b, url, Scan(fp, a, url, 0, NO_PARAMS), Scan(fp, b, url, 0, NO_PARAMS));
  }

  lemma InsertCounts(old_: seq<Rule>, new_: seq<Rule>, x: Rule, k: nat)
    requires InsertedAt(old_, new_, x, k)
    ensures multiset(new_) == multiset(old_) + multiset{x}
  {
    assert old_ == old_[..k] + old_[k..];
  }

  // ---- the tree ----

  /** The first character of a key; a string ends with the character 0. */
  function KeyHead(n: Node): char { if n.key == "" then '\0' else n.key[0] }

  method FindTag(cs: seq<Node>, p: ParamType) returns (k: nat)
    ensures k <= |cs| && (k < |cs| ==> cs[k].param == Some(p))
    ensures forall j :: 0 <= j < k ==> cs[j].param != Some(p)
  {
    for i := 0 to |cs|
      invariant forall j :: 0 <= j < i ==> cs[j].param != Some(p)
    {
      if cs[i].param == Some(p) { return i; }
    }
    return |cs|;
  }

  method FindChar(cs: seq<Node>, c: char) returns (k: nat)
    ensures k <= |cs| && (k < |cs| ==> KeyHead(cs[k]) == c)
    ensures forall j :: 0 <= j < k ==> KeyHead(cs[j]) != c
  {
    for i := 0 to |cs|
      invariant forall j :: 0 <= j < i ==> KeyHead(cs[j]) != c
    {
      if KeyHead(cs[i]) == c { return i; }
    }
    return |cs|;
  }

  function WithChild(n: Node, fresh_: Node): Node { n.(children := n.children + [fresh_]) }

  /** A new leaf without a rule changes no rule, and the path to it ends with its own step. */
  lemma GrowKeeps(n: Node, path: Path, leaf: Node)
    requires Plain(n) && IsPath(n, path) && OneStep(leaf) && leaf.children == [] && leaf.rule == 0
    requires forall c :: c in At(n, path).children ==> !SameEntrance(c, leaf)
    ensures var m := Replace(n, path, WithChild(At(n, path), leaf));
            var path' := path + [|At(n, path).children|];
            && Plain(m) && Rules(m) == Rules(n)
            && IsPath(m, path') && Steps(m, path') == Steps(n, path) + Label(leaf)
  {
    hide Label, Steps;
    var at := At(n, path);
    var s := WithChild(at, leaf);
    PlainAt(n, path);
    assert Plain(leaf);
    assert Plain(s) by { hide OneStep; }
    assert Rules(s) == Rules(at) by {
      assert s.children[..|at.children|] == at.children;
      assert Rules(leaf) == RulesOf([]) == [];
      assert Entry(leaf) == [];
    }
    hide Plain, Rules;
    ReplaceAt(n, path, s);
    ReplaceKeeps(n, path, s);
    PlainReplace(n, path, s);
    PathSnoc(Replace(n, path, s), path, |at.children|);
  }

  /** The end of a path holds a rule exactly if a rule with these steps was added before. */
  lemma TakenIff(n: Node, path: Path)
    requires Plain(n) && IsPath(n, path)
    ensures At(n, path).rule != 0 <==> exists r :: r in Rules(n) && r.toks == Steps(n, path)
  {
    hide Plain, Rules;
    if At(n, path).rule != 0 { RuleThere(n, path); }
    if r :| r in Rules(n) && r.toks == Steps(n, path) { RuleOnlyThere(n, path, r); }
  }

  class Trie {
    var head: Node
    ghost var added: seq<Rule>

    /** The tree holds exactly the rules that were added, each pattern once. */
    ghost predicate Valid()
      reads this
    {
      && Keyed(head)
      && multiset(Rules(head)) == multiset(added)
      && (forall i, j :: 0 <= i < j < |added| ==> added[i].toks != added[j].toks)
    }

    constructor ()
      ensures Valid() && Plain(head) && added == []
    {
      head := Node(0, INVALID_BP, "", None, []);
      added := [];
      new;
      assert RulesOf([]) == [];
    }

    /** Goes to the child `k`, or to the new node `leaf` if there is no such child. */
    method Enter(path: Path, k: nat, leaf: Node) returns (path': Path)
      requires Plain(head) && IsPath(head, path) && OneStep(leaf) && leaf.children == [] && leaf.rule == 0
      requires k <= |At(head, path).children|
      requires k < |At(head, path).children| ==> SameEntrance(At(head, path).children[k], leaf)
      requires k == |At(head, path).children| ==> forall c :: c in At(head, path).children ==> !SameEntrance(c, leaf)
      modifies this`head
      ensures Plain(head) && Rules(head) == old(Rules(head))
      ensures IsPath(head, path') && Steps(head, path') == old(Steps(head, path)) + Label(leaf)
    {
      hide Plain, Rules, Steps;
      var at := At(head, path);
      if k < |at.children| {
        PathSnoc(head, path, k);
      } else {
        GrowKeeps(head, path, leaf);
        head := Replace(head, path, WithChild(at, leaf));
      }
      path' := path + [k];
    }

    /** Goes down the tree along a pattern and makes the nodes that are missing. */
    method Walk(url: string, bpPrefix: nat, bp: nat) returns (path: Path)
      requires Plain(head) && Parse(url, 0).Some?
      modifies this`head
      ensures Plain(head) && Rules(head) == old(Rules(head))
      ensures IsPath(head, path) && Steps(head, path) == Parse(url, 0).value
    {
      hide Plain, Rules, TagAt, Parse, Steps, IsPath, At;
      var hasBlueprint := bpPrefix != 0 && bp != INVALID_BP;
      path := [];
      var i := 0;
      ghost var rest := Parse(url, 0).value;
      AtRoot(head);
      while i < |url|
        invariant i <= |url| && Plain(head) && Rules(head) == old(Rules(head))
        invariant IsPath(head, path) && Parse(url, i) == Some(rest)
        invariant Steps(head, path) + rest == Parse(url, 0).value
        modifies this`head
      {
        ParseStep(url, i, rest);
        ghost var steps := Steps(head, path);
        assert steps + rest == steps + [rest[0]] + rest[1..];
        var at := At(head, path);
        PlainAt(head, path);
        if url[i] == '<' {
          var (p, n) := TagAt(url, i, 0).value;
          var k := FindTag(at.children, p);
          EntersTag(at, k, p);
          path := Enter(path, k, Node(0, INVALID_BP, "", Some(p), []));
          i := i + n;
        } else {
          var k := FindChar(at.children, url[i]);
          EntersChar(at, k, url[i]);
          var b := if hasBlueprint && i == bpPrefix then bp else INVALID_BP;
          path := Enter(path, k, Node(0, b, [url[i]], None, []));
          i := i + 1;
        }
        rest := rest[1..];
      }
      ParseEnd(url);
    }

    /** Adds a pattern. It fails if the same pattern is there already, and then no rule changes. */
    method Add(url: string, index: nat, bpPrefix: nat, bp: nat) returns (ok: bool)
      requires Valid() && Plain(head) && Parse(url, 0).Some?
      modifies this
      ensures Valid() && Plain(head)
      ensures ok <==> forall r :: r in old(added) ==> r.toks != Parse(url, 0).value
      ensures added == old(added) + if ok && index != 0 then [Rule(Parse(url, 0).value, index)] else []
    {
      hide Plain, Rules, Parse, Keyed, Steps, InsertedAt;
      var path := Walk(url, bpPrefix, bp);
      ghost var toks := Parse(url, 0).value;
      TakenIff(head, path);
      SameMembers(Rules(head), added);
      var at := At(head, path);
      PlainKeyed(head);
      if at.rule != 0 { return false; }
      var m := Replace(head, path, at.(rule := index));
      if index != 0 {
        ghost var k := SetRule(head, path, index);
        InsertCounts(Rules(head), Rules(m), Rule(toks, index), k);
        added := added + [Rule(toks, index)];
      } else {
        ReplaceKeeps(head, path, at);
      }
      SetPlain(head, path, index);
      head := m;
      PlainKeyed(head);
      return true;
    }

    /** Merges chains of nodes; no rule is lost and none is added. */
    method Optimize()
      requires Valid()
      modifies this`head
      ensures Valid() && Rules(head) == old(Rules(head))
      ensures forall c :: c in head.children ==> Compact(c)
    {
      var cs := OptimizeAll(head);
      head := head.(children := cs);
    }

    /** The root must be simple; the tree is then optimised. */
    method Validate() returns (ok: bool)
      requires Valid()
      modifies this`head
      ensures Valid() && Rules(head) == old(Rules(head))
      ensures ok == old(IsSimple(head)) && (!ok ==> head == old(head))
    {
      ok := IsSimple(head);
      if ok { Optimize(); }
    }

    /** A search answers like a linear scan over the patterns in the order they were added:
        the smallest index that matches, and, unless several patterns share it, exactly the
        parameters that its pattern extracts. */
    method Search(fp: FloatParser, url: string) returns (index: nat, found: Params)
      requires Valid()
      ensures Answers(fp, added, url, Result(index, found))
      ensures index == IndexOf(Scan(fp, added, url, 0, NO_PARAMS))
      ensures Single(added, index) ==> Result(index, found) == Scan(fp, added, url, 0, NO_PARAMS)
    {
      hide Scan, Rules;
      var params := new RoutingParams();
      index, found := Find(fp, url, head, 0, params);
      AnyOrder(fp, Rules(head), added, url);
    }
  }

  lemma SameMembers(a: seq<Rule>, b: seq<Rule>)
    requires multiset(a) == multiset(b)
    ensures forall r :: r in a <==> r in b
  {
    assert forall r :: r in a <==> r in multiset(a);
    assert forall r :: r in b <==> r in multiset(b);
  }

  lemma AtRoot(n: Node)
    ensures IsPath(n, []) && At(n, []) == n && Steps(n, []) == []
  {
  }

  lemma ParseEnd(url: string)
    ensures Parse(url, |url|) == Some([])
  {
  }

  /** The first step of what is left of a pattern, and what is left after it. */
  lemma ParseStep(url: string, i: nat, rest: seq<Tok>)
    requires i < |url| && Parse(url, i) == Some(rest)
    ensures rest != []
    ensures url[i] == '<' ==> TagAt(url, i, 0).Some? && rest[0] == Tag(TagAt(url, i, 0).value.0)
    ensures url[i] == '<' ==> Parse(url, i + TagAt(url, i, 0).value.1) == Some(rest[1..])
    ensures url[i] != '<' ==> url[i] != '\0' && rest[0] == Lit(url[i]) && Parse(url, i + 1) == Some(rest[1..])
  {
    hide TagAt;
  }

  lemma EntersTag(at: Node, k: nat, p: ParamType)
    requires Plain(at) && k <= |at.children| && (k < |at.children| ==> at.children[k].param == Some(p))
    requires forall j :: 0 <= j < k ==> at.children[j].param != Some(p)
    ensures var leaf := Node(0, INVALID_BP, "", Some(p), []);
            if k < |at.children| then SameEntrance(at.children[k], leaf)
            else forall c :: c in at.children ==> !SameEntrance(c, leaf)
  {
    if k < |at.children| { assert OneStep(at.children[k]); }
  }

  lemma EntersChar(at: Node, k: nat, ch: char)
    requires Plain(at) && k <= |at.children| && (k < |at.children| ==> KeyHead(at.children[k]) == ch) && ch != '\0'
    requires forall j :: 0 <= j < k ==> KeyHead(at.children[j]) != ch
    ensures if k < |at.children| then at.children[k].key == [ch] && at.children[k].param.None?
            else forall c :: c in at.children ==> c.key != [ch]
  {
    if k < |at.children| { assert OneStep(at.children[k]); }
  }

  lemma SetPlain(n: Node, path: Path, index: nat)
    requires Plain(n) && IsPath(n, path)
    ensures Plain(Replace(n, path, At(n, path).(rule := index)))
  {
    PlainAt(n, path);
    PlainReplace(n, path, At(n, path).(rule := index));
  }
}
