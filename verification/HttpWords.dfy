/** Words in header values: a name in any mixture of cases, and perhaps spaces after it. */
module HttpWords {
  import opened Bytes
  import opened HttpHeaders
  import opened HttpSyntax

  /** A byte that may stand in a value on one line. */
  predicate IsValueByte(c: byte) { c == TAB || (c > 31 && c != 127) }

  predicate IsValue(v: seq<byte>) { forall i :: 0 <= i < |v| ==> IsValueByte(v[i]) }

  function InLower(w: seq<byte>): (l: seq<byte>)
    ensures |l| == |w|
  {
    seq(|w|, i requires 0 <= i < |w| => Lower(w[i]))
  }

  predicate AllSpaces(s: seq<byte>) { forall i :: 0 <= i < |s| ==> s[i] == SPACE }

  /** The name, in any mixture of cases, and perhaps spaces after it. */
  predicate IsWord(w: seq<byte>, n: Name) {
    |w| >= Length(n) && Spells(InLower(w[..Length(n)]), n) && AllSpaces(w[Length(n)..])
  }

  /** How one more byte changes what a text begins. */
  lemma Longer(w: seq<byte>, c: byte, n: Name)
    requires w != []
    ensures var l, m := InLower(w), InLower(w + [c]);
            && (Begins(m, n) <==> Begins(l, n) && |w| < Length(n) && Lower(c) == Letter(n, |w|))
            && (Begins(l, n) ==> |w| <= Length(n) && Lower(w[0]) == Letter(n, 0))
  {
    var l := InLower(w);
    assert InLower(w + [c]) == l + [Lower(c)];
    BeginsMore(l, Lower(c), n);
    if Begins(l, n) { assert l[0] == Letter(n, 0) && l[0] == Lower(w[0]); }
    hide Letter, InLower, Lower;
  }

  lemma One(c: byte, n: Name)
    ensures Begins(InLower([c]), n) <==> Lower(c) == Letter(n, 0)
  {
    assert InLower([c]) == [] + [Lower(c)];
    NothingBegins(n);
    BeginsMore([], Lower(c), n);
    hide Begins, InLower, Lower, Letter;
  }

  /** A word is complete with its last letter, and stays so with spaces. */
  lemma WordLonger(w: seq<byte>, c: byte, n: Name)
    requires w != []
    ensures var k := Length(n);
            && (IsWord(w + [c], n) <==>
                  if |w| < k then |w| == k - 1 && Begins(InLower(w + [c]), n) else IsWord(w, n) && c == SPACE)
            && (|w| <= k ==> (IsWord(w, n) <==> |w| == k && Begins(InLower(w), n)))
            && (IsWord(w, n) ==> Lower(w[0]) == Letter(n, 0))
  {
    hide Begins, InLower, Lower, Letter;
    var k := Length(n);
    var m := w + [c];
    if |w| >= k {
      assert m[..k] == w[..k] && m[k..] == w[k..] + [c];
      LastSpace(w[k..], c);
      if IsWord(w, n) {
        assert w[..k][0] == w[0];
        Longer(w[..k], c, n);
      }
      if |w| == k { assert w[..k] == w; }
    } else if |w| == k - 1 {
      assert m[..k] == m;
    }
  }

  lemma LastSpace(s: seq<byte>, c: byte)
    ensures AllSpaces(s + [c]) <==> AllSpaces(s) && c == SPACE
  {
    if AllSpaces(s + [c]) {
      assert (s + [c])[|s|] == c;
      assert forall i :: 0 <= i < |s| ==> (s + [c])[i] == s[i];
    }
  }
}
