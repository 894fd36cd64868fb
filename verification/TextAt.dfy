/** Texts that stand at a place in a longer text. */
module TextAt {

  /** The text `s` stands at position `a`. */
  predicate Holds(body: string, a: nat, s: string) {
    a + |s| <= |body| && body[a..a + |s|] == s
  }

  lemma CharAt(body: string, a: nat, s: string, k: nat)
    requires Holds(body, a, s) && k < |s|
    ensures a + k < |body| && body[a + k] == s[k]
  {
    assert body[a..a + |s|][k] == body[a + k];
  }

  lemma HoldsSplit(body: string, a: nat, s: string, t: string)
    requires Holds(body, a, s + t)
    ensures Holds(body, a, s) && Holds(body, a + |s|, t)
  {
    assert body[a..a + |s + t|][..|s|] == body[a..a + |s|];
    assert body[a..a + |s + t|][|s|..] == body[a + |s|..a + |s + t|];
  }

  lemma HoldsThree(body: string, a: nat, s: string, t: string, u: string)
    requires Holds(body, a, s + t + u)
    ensures Holds(body, a, s) && Holds(body, a + |s|, t) && Holds(body, a + |s| + |t|, u) && Holds(body, a + |s|, t + u)
  {
    hide Holds;
    assert s + t + u == s + (t + u);
    HoldsSplit(body, a, s, t + u);
    HoldsSplit(body, a, s + t, u);
    HoldsSplit(body, a, s, t);
  }
}
