/** What the text of a pattern means, with the names of parameters spelled out, and what a search finds
    after a text was added. */
module RouteTexts {
  import opened Options
  import opened RouteAdd
  import opened RouteIndex
  import opened RouteMatches
  import opened RoutePatterns
  import opened RouteTrie

  // ---- names in a pattern text ----

  /** A text of characters that stand for themselves. */
  predicate PlainText(a: string) { forall i :: 0 <= i < |a| ==> a[i] != '<' && a[i] != '\0' }

  /** Steps in front of the steps that are left, if these can be read. */
  function InFront(a: seq<Tok>, rest: Option<seq<Tok>>): Option<seq<Tok>> {
    if rest.None? then None else Some(a + rest.value)
  }

  lemma IsAtShift(u: string, b: string, i: nat, name: string)
    ensures IsAt(u + b, |u| + i, name) <==> IsAt(b, i, name)
  {
    if i + |name| <= |b| { assert (u + b)[|u| + i..|u| + i + |name|] == b[i..i + |name|]; }
  }

  lemma {:induction false} TagAtShift(u: string, b: string, i: nat, k: nat)
    requires i <= |b| && k <= |TRAITS|
    ensures TagAt(u + b, |u| + i, k) == TagAt(b, i, k)
    decreases |TRAITS| - k
  {
    hide IsAt;
    if k < |TRAITS| {
      IsAtShift(u, b, i, TRAITS[k].1);
      TagAtShift(u, b, i, k + 1);
    }
  }

  /** What stands before a place does not change what is read from there. */
  lemma {:induction false} ParseShift(u: string, b: string, i: nat)
    requires i <= |b|
    ensures Parse(u + b, |u| + i) == Parse(b, i)
    decreases |b| - i
  {
    hide TagAt;
    if i < |b| {
      assert (u + b)[|u| + i] == b[i];
      TagAtShift(u, b, i, 0);
      if b[i] == '<' {
        var t := TagAt(b, i, 0);
        if t.Some? { ParseShift(u, b, i + t.value.1); }
      } else if b[i] != '\0' {
        ParseShift(u, b, i + 1);
      }
    }
  }

  lemma {:induction false} PlainRead(a: string, b: string)
    requires PlainText(a)
    ensures Parse(a + b, 0) == InFront(Lits(a), Parse(b, 0))
    decreases |a|
  {
    hide TagAt;
    if a == "" {
      assert a + b == b && Lits(a) == [];
      if Parse(b, 0).Some? { assert [] + Parse(b, 0).value == Parse(b, 0).value; }
    } else {
      var rest := a[1..] + b;
      assert a + b == [a[0]] + rest && (a + b)[0] == a[0];
      ParseShift([a[0]], rest, 0);
      PlainRead(a[1..], b);
      assert Lits(a) == [Lit(a[0])] + Lits(a[1..]);
      if Parse(b, 0).Some? {
        assert [Lit(a[0])] + (Lits(a[1..]) + Parse(b, 0).value) == Lits(a) + Parse(b, 0).value;
      }
    }
  }

  /** None of the names is the beginning of another. */
  lemma OtherName(k: nat, j: nat, b: string)
    requires k < |TRAITS| && j < |TRAITS|
    ensures IsAt(TRAITS[k].1 + b, 0, TRAITS[j].1) <==> j == k
  {
    var n, m := TRAITS[k].1, TRAITS[j].1;
    var url := n + b;
    assert url[0..|n|] == n;
    if IsAt(url, 0, m) {
      assert forall i :: 0 <= i < |m| ==> url[0..|m|][i] == m[i];
      assert n[1] == m[1] && n[2] == m[2] && n[3] == m[3] && n[4] == m[4];
      if |n| > 5 && |m| > 5 { assert n[5] == m[5]; }
    }
  }

  lemma {:induction false} EntryRead(k: nat, b: string, j: nat)
    requires j <= k < |TRAITS|
    ensures TagAt(TRAITS[k].1 + b, 0, j) == Some((TRAITS[k].0, |TRAITS[k].1|))
    decreases k - j
  {
    hide IsAt;
    OtherName(k, j, b);
    if j < k { EntryRead(k, b, j + 1); }
  }

  lemma NameRead(k: nat, a: string, b: string)
    requires k < |TRAITS| && PlainText(a)
    ensures Parse(a + TRAITS[k].1 + b, 0) == InFront(Lits(a) + [Tag(TRAITS[k].0)], Parse(b, 0))
  {
    hide TagAt;
    var n := TRAITS[k].1;
    var text := n + b;
    assert a + n + b == a + text;
    PlainRead(a, text);
    EntryRead(k, b, 0);
    assert text[0] == n[0] == '<';
    ParseShift(n, b, 0);
    if Parse(b, 0).Some? {
      assert Lits(a) + ([Tag(TRAITS[k].0)] + Parse(b, 0).value) == Lits(a) + [Tag(TRAITS[k].0)] + Parse(b, 0).value;
    }
  }

  /** The seven names of parameters, each wherever it stands first in a pattern. */
  lemma NamesRead(a: string, b: string)
    requires PlainText(a)
    ensures Parse(a + "<int>" + b, 0) == InFront(Lits(a) + [Tag(INT)], Parse(b, 0))
    ensures Parse(a + "<uint>" + b, 0) == InFront(Lits(a) + [Tag(UINT)], Parse(b, 0))
    ensures Parse(a + "<float>" + b, 0) == InFront(Lits(a) + [Tag(DOUBLE)], Parse(b, 0))
    ensures Parse(a + "<double>" + b, 0) == InFront(Lits(a) + [Tag(DOUBLE)], Parse(b, 0))
    ensures Parse(a + "<str>" + b, 0) == InFront(Lits(a) + [Tag(STRING)], Parse(b, 0))
    ensures Parse(a + "<string>" + b, 0) == InFront(Lits(a) + [Tag(STRING)], Parse(b, 0))
    ensures Parse(a + "<path>" + b, 0) == InFront(Lits(a) + [Tag(PATH)], Parse(b, 0))
  {
    hide Parse;
    NameRead(0, a, b);
    NameRead(1, a, b);
    NameRead(2, a, b);
    NameRead(3, a, b);
    NameRead(4, a, b);
    NameRead(5, a, b);
    NameRead(6, a, b);
  }

  lemma TextRead(a: string)
    requires PlainText(a)
    ensures Parse(a, 0) == Some(Lits(a))
  {
    PlainRead(a, "");
    assert a + "" == a && Lits(a) + [] == Lits(a);
    assert Parse("", 0) == Some([]);
  }

  // ---- from a pattern text and a URL to the answer ----

  lemma FoundOut(fp: FloatParser, rules: seq<Rule>, rule: Rule, url: string, ps: Params, o: Outcome)
    requires Answers(fp, rules, url, o) && rule in rules && rule.index != 0
    requires Extract(fp, rule.toks, url, 0, NO_PARAMS) == Some(ps)
    ensures o.Found? && 0 < o.index <= rule.index
    ensures o.index == rule.index && Single(rules, rule.index) ==> o.params == ps
  {
    hide Extract;
    assert Try(fp, rule, url, 0, NO_PARAMS) == Found(rule.index, ps);
  }

  lemma TogetherNone(a: Params)
    ensures Together(NO_PARAMS, a) == a
  {
  }

  /** Adds a pattern and searches for a URL that can be cut into pieces that fit its steps. */
  method AddAndSearch(t: Trie, fp: FloatParser, pattern: string, index: nat, url: string, ghost cs: seq<Cut>)
    returns (ok: bool, found: nat, params: Params)
    requires t.Valid() && Plain(t.head) && index != 0
    requires Parse(pattern, 0) == Some(StepsOf(cs)) && AllFit(cs) && url == Joined(cs)
    modifies t
    ensures t.Valid() && Plain(t.head)
    ensures ok <==> forall r :: r in old(t.added) ==> r.toks != StepsOf(cs)
    ensures ok ==> t.added == old(t.added) + [Rule(StepsOf(cs), index)] && 0 < found <= index
    ensures ok && found == index && Single(t.added, index) ==> params == InOrder(cs)
  {
    hide Parse, StepsOf, AllFit, Joined, Plain, Extract, Scan, Answers, Single, InOrder, Given, Together;
    ok := t.Add(pattern, index, 0, 0);
    found, params := t.Search(fp, url);
    if ok {
      assert url[0..] == url;
      CutMatches(fp, cs, url, 0, NO_PARAMS);
      GivenInOrder(cs, NO_PARAMS);
      TogetherNone(InOrder(cs));
      var rule := Rule(StepsOf(cs), index);
      FoundOut(fp, t.added, rule, url, InOrder(cs), Result(found, params));
    }
  }

  // ---- patterns with names of components ----

  /** A text, and a component of the path that follows it. */
  datatype Part = Part(text: string, name: string)

  function PatternOf(ps: seq<Part>, last: string): string {
    if ps == [] then last else ps[0].text + "<string>" + PatternOf(ps[1..], last)
  }

  function UrlOf(ps: seq<Part>, last: string): string {
    if ps == [] then last else ps[0].text + ps[0].name + UrlOf(ps[1..], last)
  }

  function NamesOf(ps: seq<Part>): (r: seq<string>)
    ensures |r| == |ps| && forall i :: 0 <= i < |r| ==> r[i] == ps[i].name
  {
    seq(|ps|, i requires 0 <= i < |ps| => ps[i].name)
  }

  /** After each component the next text begins with a slash, or the URL ends. */
  predicate Separated(ps: seq<Part>, last: string) {
    && PlainText(last) && (last == "" || last[0] == '/')
    && (forall i :: 0 <= i < |ps| ==> PlainText(ps[i].text) && ps[i].name != "" && '/' !in ps[i].name)
    && (forall i :: 0 < i < |ps| ==> ps[i].text != "" && ps[i].text[0] == '/')
  }

  function Chars(a: string): seq<Cut> {
    if a == "" then [] else [Cut(Lit(a[0]), [a[0]], IntValue(0))] + Chars(a[1..])
  }

  lemma {:induction false} CharsFirst(a: string, cs: seq<Cut>)
    ensures StepsOf(Chars(a) + cs) == Lits(a) + StepsOf(cs) && Joined(Chars(a) + cs) == a + Joined(cs)
    ensures AllFit(Chars(a) + cs) <==> AllFit(cs)
    ensures InOrder(Chars(a) + cs) == InOrder(cs)
    decreases |a|
  {
    hide StepsOf, Joined, AllFit, InOrder, Chars;
    CharsAre(a, cs);
    if a != "" {
      var rest := Chars(a[1..]) + cs;
      CharsFirst(a[1..], cs);
      CharFirst(a[0], rest);
      Front(a, Joined(cs));
      Front(Lits(a), StepsOf(cs));
      assert Lits(a)[1..] == Lits(a[1..]);
    }
  }

  lemma CharsAre(a: string, cs: seq<Cut>)
    ensures Chars(a) + cs == if a == "" then cs else [Cut(Lit(a[0]), [a[0]], IntValue(0))] + (Chars(a[1..]) + cs)
    ensures a == "" ==> Lits(a) + StepsOf(cs) == StepsOf(cs) && a + Joined(cs) == Joined(cs)
  {
    hide StepsOf, Joined;
    if a == "" { assert Lits(a) == []; }
  }

  lemma Front<T>(a: seq<T>, b: seq<T>)
    requires a != []
    ensures a + b == [a[0]] + (a[1..] + b)
  {
  }

  lemma CharFirst(c: char, rest: seq<Cut>)
    ensures var cs := [Cut(Lit(c), [c], IntValue(0))] + rest;
            && StepsOf(cs) == [Lit(c)] + StepsOf(rest) && Joined(cs) == [c] + Joined(rest)
            && (AllFit(cs) <==> AllFit(rest)) && InOrder(cs) == InOrder(rest)
  {
    var cs := [Cut(Lit(c), [c], IntValue(0))] + rest;
    assert cs[1..] == rest;
    TogetherNone(InOrder(rest));
  }

  function CutsOf(ps: seq<Part>, last: string): seq<Cut> {
    if ps == [] then Chars(last)
    else
      Chars(ps[0].text) + ([Cut(Tag(STRING), ps[0].name, StringValue(ps[0].name))] + CutsOf(ps[1..], last))
  }

  lemma {:induction false} CutsAre(ps: seq<Part>, last: string)
    requires Separated(ps, last)
    ensures var cs := CutsOf(ps, last);
            && Parse(PatternOf(ps, last), 0) == Some(StepsOf(cs)) && Joined(cs) == UrlOf(ps, last) && AllFit(cs)
            && InOrder(cs) == Params([], [], [], NamesOf(ps))
    decreases |ps|
  {
    hide Parse, PatternOf, UrlOf, Separated, StepsOf, Joined, AllFit, InOrder, Together, CutsOf, PlainText;
    if ps == [] {
      LastCuts(last);
    } else {
      NextText(ps, last);
      CutsAre(ps[1..], last);
      FirstPart(ps, last);
    }
  }

  lemma LastCuts(last: string)
    requires Separated([], last)
    ensures var cs := CutsOf([], last);
            && Parse(PatternOf([], last), 0) == Some(StepsOf(cs)) && Joined(cs) == UrlOf([], last) && AllFit(cs)
            && InOrder(cs) == Params([], [], [], NamesOf([]))
  {
    CharsFirst(last, []);
    assert Chars(last) + [] == Chars(last) && Lits(last) + [] == Lits(last) && last + "" == last;
    TextRead(last);
    hide Parse;
  }

  lemma FirstPart(ps: seq<Part>, last: string)
    requires ps != [] && Separated(ps, last)
    requires var cs := CutsOf(ps[1..], last);
             && Parse(PatternOf(ps[1..], last), 0) == Some(StepsOf(cs)) && Joined(cs) == UrlOf(ps[1..], last)
             && AllFit(cs) && InOrder(cs) == Params([], [], [], NamesOf(ps[1..]))
    ensures var cs := CutsOf(ps, last);
            && Parse(PatternOf(ps, last), 0) == Some(StepsOf(cs)) && Joined(cs) == UrlOf(ps, last)
            && AllFit(cs) && InOrder(cs) == Params([], [], [], NamesOf(ps))
  {
    hide Parse, StepsOf, Joined, AllFit, InOrder, Chars, PlainText;
    var p, rest := ps[0], CutsOf(ps[1..], last);
    NextText(ps, last);
    NamesRead(p.text, PatternOf(ps[1..], last));
    NameFirst(p.name, rest);
    var named := [Cut(Tag(STRING), p.name, StringValue(p.name))] + rest;
    CharsFirst(p.text, named);
    assert CutsOf(ps, last) == Chars(p.text) + named;
    assert NamesOf(ps) == [p.name] + NamesOf(ps[1..]);
    hide CutsOf, Separated;
    assert Lits(p.text) + ([Tag(STRING)] + StepsOf(rest)) == Lits(p.text) + [Tag(STRING)] + StepsOf(rest);
    assert p.text + (p.name + Joined(rest)) == p.text + p.name + Joined(rest);
  }

  lemma NextText(ps: seq<Part>, last: string)
    requires Separated(ps, last) && ps != []
    ensures PlainText(ps[0].text) && ps[0].name != "" && '/' !in ps[0].name
    ensures Separated(ps[1..], last) && (UrlOf(ps[1..], last) == "" || UrlOf(ps[1..], last)[0] == '/')
  {
  }

  lemma NameFirst(name: string, rest: seq<Cut>)
    requires AllFit(rest) && name != "" && '/' !in name && (Joined(rest) == "" || Joined(rest)[0] == '/')
    ensures var cs := [Cut(Tag(STRING), name, StringValue(name))] + rest;
            && StepsOf(cs) == [Tag(STRING)] + StepsOf(rest) && Joined(cs) == name + Joined(rest) && AllFit(cs)
            && InOrder(cs) == Together(Params([], [], [], [name]), InOrder(rest))
  {
    var cs := [Cut(Tag(STRING), name, StringValue(name))] + rest;
    assert cs[1..] == rest;
  }

  /** The route of the broker's listing: the worker and the group are the components of the path. */
  method EventsRoute(t: Trie, fp: FloatParser, index: nat, worker: string, group: string)
    returns (ok: bool, found: nat, params: Params)
    requires t.Valid() && Plain(t.head) && index != 0
    requires worker != "" && '/' !in worker && group != "" && '/' !in group
    modifies t
    ensures t.Valid() && Plain(t.head) && (old(t.added) == [] ==> ok)
    ensures ok ==> 0 < found <= index
    ensures ok && found == index && Single(t.added, index) ==> params == Params([], [], [], [worker, group])
  {
    hide CutsOf, PatternOf, UrlOf, Separated, Parse, AllFit, StepsOf, Joined, InOrder, Plain, Single, PlainText;
    ghost var ps := [Part("/api/get/", worker), Part("/", group)];
    EventsParts(worker, group);
    CutsAre(ps, "/command/event");
    ok, found, params := AddAndSearch(t, fp, "/api/get/<string>/<string>/command/event", index,
      "/api/get/" + worker + "/" + group + "/command/event", CutsOf(ps, "/command/event"));
    assert NamesOf(ps) == [worker, group];
  }

  lemma EventsParts(worker: string, group: string)
    requires worker != "" && '/' !in worker && group != "" && '/' !in group
    ensures var ps := [Part("/api/get/", worker), Part("/", group)];
            && Separated(ps, "/command/event")
            && PatternOf(ps, "/command/event") == "/api/get/<string>/<string>/command/event"
            && UrlOf(ps, "/command/event") == "/api/get/" + worker + "/" + group + "/command/event"
  {
    hide PatternOf, UrlOf;
    TwoParts("/api/get/", worker, "/", group, "/command/event");
    SpelledOut();
  }

  lemma SpelledOut()
    ensures "/api/get/" + "<string>" + "/" + "<string>" + "/command/event" == "/api/get/<string>/<string>/command/event"
  {
    var a, b := "/api/get/" + "<string>", "/" + "<string>";
    assert a == "/api/get/<string>" && b == "/<string>";
    assert a + b == "/api/get/<string>/<string>";
  }

  lemma TwoParts(p: string, w: string, q: string, g: string, r: string)
    ensures var ps := [Part(p, w), Part(q, g)];
            && PatternOf(ps, r) == p + "<string>" + q + "<string>" + r && UrlOf(ps, r) == p + w + q + g + r
            && (Separated(ps, r) <==>
                  && PlainText(p) && PlainText(q) && PlainText(r) && w != "" && '/' !in w && g != "" && '/' !in g
                  && q != "" && q[0] == '/' && (r == "" || r[0] == '/'))
  {
    var ps := [Part(p, w), Part(q, g)];
    var end := [Part(q, g)];
    assert ps[1..] == end && end[1..] == [];
    assert PatternOf([], r) == r && UrlOf([], r) == r;
    assert PatternOf(end, r) == q + "<string>" + r && UrlOf(end, r) == q + g + r;
    assert p + "<string>" + (q + "<string>" + r) == p + "<string>" + q + "<string>" + r;
    assert p + w + (q + g + r) == p + w + q + g + r;
    hide PatternOf, UrlOf, PlainText;
    if Separated(ps, r) { assert ps[0].text == p && ps[1].text == q; }
  }
}
