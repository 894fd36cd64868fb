/** Building the search tree: a pattern is added by walking down from the root, making the
    nodes that are missing. A pointer into the tree is the path of child numbers that leads
    to the node. */
module RouteAdd {
  import opened Options
  import opened RoutePatterns
  import opened RouteTrie

  // ---- pattern texts ----

  const TRAITS: seq<(ParamType, string)> :=
    [(INT, "<int>"), (UINT, "<uint>"), (DOUBLE, "<float>"), (DOUBLE, "<double>"),
     (STRING, "<str>"), (STRING, "<string>"), (PATH, "<path>")]

  predicate IsAt(url: string, i: nat, name: string) {
    i + |name| <= |url| && url[i..i + |name|] == name
  }

  /** The first name of the table, from entry `k` on, that stands at position `i`. */
  function TagAt(url: string, i: nat, k: nat): (r: Option<(ParamType, nat)>)
    requires i <= |url| && k <= |TRAITS|
    ensures r.Some? ==> 0 < r.value.1 && i + r.value.1 <= |url|
    decreases |TRAITS| - k
  {
    if k == |TRAITS| then None
    else if IsAt(url, i, TRAITS[k].1) then Some((TRAITS[k].0, |TRAITS[k].1|))
    else TagAt(url, i, k + 1)
  }

  /** The steps of a pattern from position `i` on. A `<` that begins no parameter and the
      character 0 have no meaning in a pattern. */
  function Parse(url: string, i: nat): Option<seq<Tok>>
    requires i <= |url|
    decreases |url| - i
  {
    if i == |url| then Some([])
    else if url[i] == '<' then
      match TagAt(url, i, 0)
      case None => None
      case Some((p, n)) => Cons(Tag(p), Parse(url, i + n))
    else if url[i] == '\0' then None
    else Cons(Lit(url[i]), Parse(url, i + 1))
  }

  function Cons(t: Tok, ts: Option<seq<Tok>>): Option<seq<Tok>> {
    match ts case None => None case Some(s) => Some([t] + s)
  }

  function Name(p: ParamType): string {
    match p
    case INT => "<int>"
    case UINT => "<uint>"
    case DOUBLE => "<double>"
    case STRING => "<string>"
    case PATH => "<path>"
  }

  /** How a pattern is written. */
  function Written(toks: seq<Tok>): string {
    if toks == [] then ""
    else (match toks[0] case Lit(c) => [c] case Tag(p) => Name(p)) + Written(toks[1..])
  }

  /** A name of the table is read as its own type: none of the names is the beginning of another. */
  lemma NameRead(u: string, p: ParamType, rest: string)
    ensures |u| <= |u + Name(p) + rest|
    ensures TagAt(u + Name(p) + rest, |u|, 0) == Some((p, |Name(p)|))
    ensures (u + Name(p) + rest)[|u|] == '<'
  {
    var url := u + Name(p) + rest;
    var i := |u|;
    assert forall j :: 0 <= j < |Name(p)| ==> url[i + j] == Name(p)[j];
    assert url[i..i + |Name(p)|] == Name(p);
    forall k | 0 <= k < |TRAITS| && IsAt(url, i, TRAITS[k].1)
      ensures TRAITS[k].1 == Name(p) && TRAITS[k].0 == p
    {
      SameName(url, i, k, p);
    }
    TagIs(url, i, p, 0, match p case INT => 0 case UINT => 1 case DOUBLE => 3 case STRING => 5 case PATH => 6);
  }

  lemma SameName(url: string, i: nat, k: nat, p: ParamType)
    requires k < |TRAITS| && IsAt(url, i, TRAITS[k].1) && IsAt(url, i, Name(p))
    ensures TRAITS[k].1 == Name(p) && TRAITS[k].0 == p
  {
    var a, b := TRAITS[k].1, Name(p);
    assert forall j :: 0 <= j < |a| ==> url[i..i + |a|][j] == url[i + j] == a[j];
    assert forall j :: 0 <= j < |b| ==> url[i..i + |b|][j] == url[i + j] == b[j];
    assert |a| > 4 && |b| > 4;
    assert a[1] == b[1] && a[2] == b[2] && a[3] == b[3] && a[4] == b[4];
    if |a| > 5 && |b| > 5 { assert a[5] == b[5]; }
  }

  lemma {:induction false} TagIs(url: string, i: nat, p: ParamType, k: nat, at: nat)
    requires i <= |url| && k <= |TRAITS| && IsAt(url, i, Name(p))
    requires forall j :: 0 <= j < |TRAITS| && IsAt(url, i, TRAITS[j].1) ==> TRAITS[j].1 == Name(p) && TRAITS[j].0 == p
    requires k <= at < |TRAITS| && TRAITS[at].1 == Name(p)
    ensures TagAt(url, i, k) == Some((p, |Name(p)|))
    decreases |TRAITS| - k
  {
    if !IsAt(url, i, TRAITS[k].1) { TagIs(url, i, p, k + 1, at); }
  }

  /** Reading a written pattern gives the pattern back. */
  lemma {:induction false} PatternRoundTrip(u: string, toks: seq<Tok>)
    requires forall t :: t in toks && t.Lit? ==> t.c != '<' && t.c != '\0'
    ensures |u| <= |u + Written(toks)|
    ensures Parse(u + Written(toks), |u|) == Some(toks)
    decreases |toks|
  {
    hide TagAt, Name;
    var url := u + Written(toks);
    if toks != [] {
      assert toks == [toks[0]] + toks[1..];
      var rest := Written(toks[1..]);
      match toks[0] {
        case Lit(c) =>
          assert url == u + [c] + rest;
          PatternRoundTrip(u + [c], toks[1..]);
        case Tag(p) =>
          assert url == u + Name(p) + rest;
          NameRead(u, p, rest);
          PatternRoundTrip(u + Name(p), toks[1..]);
      }
    }
  }

  // ---- pointers ----

  type Path = seq<nat>

  predicate IsPath(n: Node, path: Path)
    decreases |path|
  {
    path != [] ==> path[0] < |n.children| && IsPath(n.children[path[0]], path[1..])
  }

  /** The node a path leads to. */
  function At(n: Node, path: Path): Node
    requires IsPath(n, path)
    decreases |path|
  {
    if path == [] then n else At(n.children[path[0]], path[1..])
  }

  /** Writing to the node a path leads to. */
  function Replace(n: Node, path: Path, s: Node): Node
    requires IsPath(n, path)
    decreases |path|
  {
    if path == [] then s
    else n.(children := n.children[path[0] := Replace(n.children[path[0]], path[1..], s)])
  }

  /** The steps along a path. */
  function Steps(n: Node, path: Path): seq<Tok>
    requires IsPath(n, path)
    decreases |path|
  {
    if path == [] then [] else Label(n.children[path[0]]) + Steps(n.children[path[0]], path[1..])
  }

  lemma {:induction false} PathSnoc(n: Node, path: Path, k: nat)
    requires IsPath(n, path) && k < |At(n, path).children|
    ensures IsPath(n, path + [k]) && At(n, path + [k]) == At(n, path).children[k]
    ensures Steps(n, path + [k]) == Steps(n, path) + Label(At(n, path).children[k])
    decreases |path|
  {
    if path == [] {
      assert (path + [k])[1..] == [];
    } else {
      PathSnoc(n.children[path[0]], path[1..], k);
      assert (path + [k])[1..] == path[1..] + [k];
    }
  }

  /** Two nodes that are entered by the same step. */
  predicate SameEntrance(n: Node, m: Node) { n.key == m.key && n.param == m.param }

  lemma {:induction false} ReplaceAt(n: Node, path: Path, s: Node)
    requires IsPath(n, path) && SameEntrance(At(n, path), s)
    ensures SameEntrance(n, Replace(n, path, s))
    ensures IsPath(Replace(n, path, s), path) && At(Replace(n, path, s), path) == s
    ensures Steps(Replace(n, path, s), path) == Steps(n, path)
    decreases |path|
  {
    if path != [] { ReplaceAt(n.children[path[0]], path[1..], s); }
  }

  // ---- what a change of one node does to the rules ----

  lemma {:induction false} RulesSplit(cs: seq<Node>, k: nat)
    requires k < |cs|
    ensures RulesOf(cs) == RulesOf(cs[..k]) + Entry(cs[k]) + RulesOf(cs[k + 1..])
    decreases |cs|
  {
    hide Entry;
    var n := |cs| - 1;
    if k < n {
      RulesSplit(cs[..n], k);
      assert cs[..n][..k] == cs[..k];
      assert cs[k + 1..][..n - k - 1] == cs[..n][k + 1..];
    }
  }

  /** The list `new` is `old` with `x` put in at position `k`. */
  predicate InsertedAt(old_: seq<Rule>, new_: seq<Rule>, x: Rule, k: nat) {
    k <= |old_| && new_ == old_[..k] + [x] + old_[k..]
  }

  /** A change below that leaves the rules there as they are leaves all rules as they are. */
  lemma {:induction false} ReplaceKeeps(n: Node, path: Path, s: Node)
    requires IsPath(n, path) && SameEntrance(At(n, path), s) && Rules(s) == Rules(At(n, path))
    ensures Rules(Replace(n, path, s)) == Rules(n)
    decreases |path|
  {
    if path != [] {
      var k := path[0];
      var m := Replace(n.children[k], path[1..], s);
      ReplaceAt(n.children[k], path[1..], s);
      ReplaceKeeps(n.children[k], path[1..], s);
      UpdateChild(n.children, k, m);
    }
  }

  lemma UpdateChild(cs: seq<Node>, k: nat, m: Node)
    requires k < |cs|
    ensures RulesOf(cs[k := m]) == RulesOf(cs[..k]) + Entry(m) + RulesOf(cs[k + 1..])
    ensures RulesOf(cs) == RulesOf(cs[..k]) + Entry(cs[k]) + RulesOf(cs[k + 1..])
  {
    RulesSplit(cs, k);
    RulesSplit(cs[k := m], k);
    assert cs[k := m][..k] == cs[..k] && cs[k := m][k + 1..] == cs[k + 1..];
  }

  lemma InsertPrepended(toks: seq<Tok>, a: seq<Rule>, b: seq<Rule>, x: Rule, k: nat)
    requires InsertedAt(a, b, x, k)
    ensures InsertedAt(Prepend(toks, a), Prepend(toks, b), Rule(toks + x.toks, x.index), k)
  {
    var p, q := Prepend(toks, a), Prepend(toks, b);
    assert q == p[..k] + [Rule(toks + x.toks, x.index)] + p[k..];
  }

  lemma InsertBetween(before: seq<Rule>, a: seq<Rule>, b: seq<Rule>, after: seq<Rule>, x: Rule, k: nat)
    requires InsertedAt(a, b, x, k)
    ensures InsertedAt(before + a + after, before + b + after, x, |before| + k)
  {
    var old_ := before + a + after;
    assert old_[..|before| + k] == before + a[..k];
    assert old_[|before| + k..] == a[k..] + after;
  }

  /** The rules of a node around those of one child. */
  function Before(n: Node, i: nat): seq<Rule>
    requires i <= |n.children|
  {
    (if n.rule == 0 then [] else [Rule([], n.rule)]) + RulesOf(n.children[..i])
  }

  lemma Around(n: Node, i: nat, m: Node)
    requires i < |n.children|
    ensures Rules(n) == Before(n, i) + Entry(n.children[i]) + RulesOf(n.children[i + 1..])
    ensures Rules(n.(children := n.children[i := m])) == Before(n, i) + Entry(m) + RulesOf(n.children[i + 1..])
  {
    hide Entry, RulesOf;
    UpdateChild(n.children, i, m);
    assert n.children[i := m][..i] == n.children[..i];
    var own := if n.rule == 0 then [] else [Rule([], n.rule)];
    var u, v := RulesOf(n.children[..i]), RulesOf(n.children[i + 1..]);
    assert own + (u + Entry(n.children[i]) + v) == (own + u) + Entry(n.children[i]) + v;
    assert own + (u + Entry(m) + v) == (own + u) + Entry(m) + v;
  }

  /** A rule put in below one child is put in once below the parent, one step longer. */
  lemma InsertBelow(n: Node, i: nat, m: Node, x: Rule, j: nat) returns (k: nat)
    requires i < |n.children| && SameEntrance(n.children[i], m)
    requires InsertedAt(Rules(n.children[i]), Rules(m), x, j)
    ensures InsertedAt(Rules(n), Rules(n.(children := n.children[i := m])), Rule(Label(m) + x.toks, x.index), k)
  {
    var c := n.children[i];
    assert Label(c) == Label(m);
    hide Rules, Label, RulesOf, Prepend, Before, InsertedAt;
    InsertPrepended(Label(c), Rules(c), Rules(m), x, j);
    Around(n, i, m);
    k := |Before(n, i)| + j;
    InsertBetween(Before(n, i), Entry(c), Entry(m), RulesOf(n.children[i + 1..]), Rule(Label(m) + x.toks, x.index), j);
  }

  /** Setting the rule of a node that has none adds exactly one rule, made of the steps to it. */
  lemma {:induction false} SetRule(n: Node, path: Path, index: nat) returns (k: nat)
    requires IsPath(n, path) && At(n, path).rule == 0 && index != 0
    ensures InsertedAt(Rules(n), Rules(Replace(n, path, At(n, path).(rule := index))), Rule(Steps(n, path), index), k)
    decreases |path|
  {
    var s := At(n, path).(rule := index);
    if path == [] {
      k := 0;
    } else {
      hide Rules, InsertedAt;
      var c := n.children[path[0]];
      var m := Replace(c, path[1..], s);
      ReplaceAt(c, path[1..], s);
      var j := SetRule(c, path[1..], index);
      k := InsertBelow(n, path[0], m, Rule(Steps(c, path[1..]), index), j);
    }
  }

  // ---- trees as `Add` builds them ----

  /** A node below the root of a tree that was not optimised: one character or one parameter. */
  predicate OneStep(c: Node) {
    if c.param.Some? then c.key == "" else |c.key| == 1 && c.key[0] != '\0'
  }

  /** Every node is entered by one step, and no two children of a node by the same. */
  predicate Plain(n: Node) {
    && (forall i, j :: 0 <= i < j < |n.children| ==> !SameEntrance(n.children[i], n.children[j]))
    && (forall c :: c in n.children ==> OneStep(c) && Plain(c))
  }

  lemma PlainKeyed(n: Node)
    requires Plain(n)
    ensures Keyed(n)
  {
  }

  lemma {:induction false} PlainAt(n: Node, path: Path)
    requires Plain(n) && IsPath(n, path)
    ensures Plain(At(n, path))
    decreases |path|
  {
    if path != [] { PlainAt(n.children[path[0]], path[1..]); }
  }

  lemma {:induction false} PlainReplace(n: Node, path: Path, s: Node)
    requires Plain(n) && IsPath(n, path) && SameEntrance(At(n, path), s) && Plain(s)
    ensures Plain(Replace(n, path, s))
    decreases |path|
  {
    if path != [] {
      var k := path[0];
      PlainReplace(n.children[k], path[1..], s);
      ReplaceAt(n.children[k], path[1..], s);
    }
  }

  // ---- which rules a tree has ----

  lemma {:induction false} RuleThere(n: Node, path: Path)
    requires IsPath(n, path) && At(n, path).rule != 0
    ensures Rule(Steps(n, path), At(n, path).rule) in Rules(n)
    decreases |path|
  {
    if path != [] {
      var c := n.children[path[0]];
      RuleThere(c, path[1..]);
      var i :| 0 <= i < |Rules(c)| && Rules(c)[i] == Rule(Steps(c, path[1..]), At(c, path[1..]).rule);
      assert Entry(c)[i] in Entry(c);
      RulesSplit(n.children, path[0]);
    }
  }

  /** A rule of a list of siblings is a rule of one of them. */
  lemma {:induction false} Whose(cs: seq<Node>, r: Rule) returns (j: nat)
    requires r in RulesOf(cs)
    ensures j < |cs| && r in Entry(cs[j])
    decreases |cs|
  {
    hide Entry;
    if r in Entry(cs[|cs| - 1]) { j := |cs| - 1; } else { j := Whose(cs[..|cs| - 1], r); }
  }

  /** A rule below a node begins with the step into one of its children. */
  lemma BelowChild(n: Node, r: Rule) returns (j: nat, q: Rule)
    requires Plain(n) && r in RulesOf(n.children)
    ensures j < |n.children| && q in Rules(n.children[j])
    ensures |Label(n.children[j])| == 1 && r.toks == Label(n.children[j]) + q.toks && r.index == q.index
  {
    j := Whose(n.children, r);
    var c := n.children[j];
    assert c in n.children && OneStep(c);
    hide Rules;
    var i :| 0 <= i < |Rules(c)| && Entry(c)[i] == r;
    q := Rules(c)[i];
  }

  /** Children of one node that are entered by the same step are the same child. */
  lemma SameStep(n: Node, i: nat, j: nat)
    requires Plain(n) && i < |n.children| && j < |n.children| && Label(n.children[i]) == Label(n.children[j])
    ensures i == j && |Label(n.children[i])| == 1
  {
    var c, d := n.children[i], n.children[j];
    assert c in n.children && d in n.children && OneStep(c) && OneStep(d);
    assert Label(c)[0] == Label(d)[0];
    assert SameEntrance(c, d);
  }

  /** In a tree that was not optimised only the node at the end of its steps can hold a rule. */
  lemma {:induction false} RuleOnlyThere(n: Node, path: Path, r: Rule)
    requires Plain(n) && IsPath(n, path) && r in Rules(n) && r.toks == Steps(n, path)
    ensures At(n, path).rule == r.index != 0
    decreases |path|
  {
    var own := if n.rule == 0 then [] else [Rule([], n.rule)];
    assert Rules(n) == own + RulesOf(n.children);
    hide Rules, RulesOf, Label;
    if path == [] {
      if r in RulesOf(n.children) {
        var j, q := BelowChild(n, r);
        assert false;
      }
    } else {
      var d := n.children[path[0]];
      SameStep(n, path[0], path[0]);
      assert r in RulesOf(n.children);
      var j, q := BelowChild(n, r);
      var c := n.children[j];
      assert Label(c) == r.toks[..1] == Label(d);
      SameStep(n, j, path[0]);
      assert q.toks == r.toks[1..] == Steps(d, path[1..]);
      assert d in n.children;
      RuleOnlyThere(d, path[1..], q);
    }
  }
}
