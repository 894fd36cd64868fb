/** Which headers the parser recognises: its letter-by-letter matchers against the names as
    a whole, whatever the case of the letters. */
module HttpHeaders {
  import opened Bytes
  import opened HttpSyntax
  import opened HttpStep
  import opened HttpRun

  /** The text begins the name. */
  predicate Begins(l: seq<byte>, n: Name) {
    |l| <= Length(n) && forall i :: 0 <= i < |l| ==> l[i] == Letter(n, i)
  }

  predicate Spells(l: seq<byte>, n: Name) { |l| == Length(n) && Begins(l, n) }

  /** What is known of a header after the letters `l` of its name, in lower case. */
  function Known(l: seq<byte>): HeaderState {
    if Spells(l, ConnectionName) || Spells(l, ProxyConnectionName) then HeaderState.Connection
    else if Spells(l, ContentLengthName) then HeaderState.ContentLength
    else if Spells(l, TransferEncodingName) then HeaderState.TransferEncoding
    else if Spells(l, UpgradeName) then HeaderState.Upgrade
    else if Begins(l, ConnectionName) then
      if |l| == 1 then SeenC else if |l| == 2 then SeenCO else if |l| == 3 then SeenCON else MatchingConnection
    else if Begins(l, ContentLengthName) then MatchingContentLength
    else if Begins(l, ProxyConnectionName) then MatchingProxyConnection
    else if Begins(l, TransferEncodingName) then MatchingTransferEncoding
    else if Begins(l, UpgradeName) then MatchingUpgrade
    else General
  }

  lemma BeginsMore(l: seq<byte>, t: byte, n: Name)
    ensures Begins(l + [t], n) <==> Begins(l, n) && |l| < Length(n) && t == Letter(n, |l|)
  {
    hide Letter;
    var m := l + [t];
    assert m[|l|] == t && forall i :: 0 <= i < |l| ==> m[i] == l[i];
  }

  /** The states in which the index says how far the name was compared. */
  predicate Matching(h: HeaderState) {
    h.SeenC? || h.SeenCO? || h.SeenCON? || h.MatchingConnection? || h.MatchingContentLength?
    || h.MatchingProxyConnection? || h.MatchingTransferEncoding? || h.MatchingUpgrade?
  }

  lemma FirstLetter(l: seq<byte>, n: Name)
    requires l != [] && Begins(l, n)
    ensures l[0] == Letter(n, 0)
  {
    hide Letter;
  }

  /** The letters in which names that begin alike come apart. */
  lemma ThirdAndFourth(l: seq<byte>)
    requires |l| >= 4
    ensures !(Begins(l, ConnectionName) && Begins(l, ContentLengthName))
  {
    if Begins(l, ConnectionName) { assert l[3] == Letter(ConnectionName, 3); }
  }

  lemma SameThree(l: seq<byte>)
    requires |l| <= 3
    ensures Begins(l, ConnectionName) == Begins(l, ContentLengthName)
  {
    assert forall i :: 0 <= i < 3 ==> Letter(ConnectionName, i) == Letter(ContentLengthName, i);
  }

  /** Names that begin with different letters do not begin alike. */
  lemma Exclusive(l: seq<byte>, n: Name)
    requires l != [] && Begins(l, n)
    ensures n.ConnectionName? || n.ContentLengthName? ==>
              !Begins(l, ProxyConnectionName) && !Begins(l, TransferEncodingName) && !Begins(l, UpgradeName)
    ensures n.ProxyConnectionName? ==>
              !Begins(l, ConnectionName) && !Begins(l, ContentLengthName)
              && !Begins(l, TransferEncodingName) && !Begins(l, UpgradeName)
    ensures n.TransferEncodingName? ==>
              !Begins(l, ConnectionName) && !Begins(l, ContentLengthName)
              && !Begins(l, ProxyConnectionName) && !Begins(l, UpgradeName)
    ensures n.UpgradeName? ==>
              !Begins(l, ConnectionName) && !Begins(l, ContentLengthName)
              && !Begins(l, ProxyConnectionName) && !Begins(l, TransferEncodingName)
  {
    hide Begins;
    FirstLetter(l, n);
    if Begins(l, ConnectionName) { FirstLetter(l, ConnectionName); }
    if Begins(l, ContentLengthName) { FirstLetter(l, ContentLengthName); }
    if Begins(l, ProxyConnectionName) { FirstLetter(l, ProxyConnectionName); }
    if Begins(l, TransferEncodingName) { FirstLetter(l, TransferEncodingName); }
    if Begins(l, UpgradeName) { FirstLetter(l, UpgradeName); }
  }

  lemma BeginsAll(l: seq<byte>, t: byte)
    ensures forall n: Name :: Begins(l + [t], n) <==> Begins(l, n) && |l| < Length(n) && t == Letter(n, |l|)
  {
    hide Begins, Letter, Length;
    forall n: Name
      ensures Begins(l + [t], n) <==> Begins(l, n) && |l| < Length(n) && t == Letter(n, |l|)
    {
      BeginsMore(l, t, n);
    }
  }

  /** One more letter: the matcher goes where the whole text says. */
  lemma KnownMore(l: seq<byte>, t: byte, c: byte)
    requires l != [] && c != SPACE
    ensures Known(l + [t]) == FieldState(Known(l), |l|, t, c)
  {
    hide Begins;
    BeginsAll(l, t);
    if Begins(l, ConnectionName) { Exclusive(l, ConnectionName); }
    if Begins(l, ContentLengthName) { Exclusive(l, ContentLengthName); }
    if Begins(l, ProxyConnectionName) { Exclusive(l, ProxyConnectionName); }
    if Begins(l, TransferEncodingName) { Exclusive(l, TransferEncodingName); }
    if Begins(l, UpgradeName) { Exclusive(l, UpgradeName); }
    if |l| <= 3 { SameThree(l); } else { ThirdAndFourth(l); }
  }

  // ---- whole names ----

  function Lowered(name: seq<byte>): (l: seq<byte>)
    ensures |l| == |name|
  {
    seq(|name|, i requires 0 <= i < |name| => Token(name[i]))
  }

  predicate IsTokens(name: seq<byte>) { forall i :: 0 <= i < |name| ==> Token(name[i]) != 0 }

  lemma TokenIs(c: byte)
    requires Token(c) != 0
    ensures c != SPACE && c != CR && c != LF && c != COLON
  {
  }

  lemma StartStep(r: Run, c: byte)
    requires !Stopped(r) && r.f.state == HeaderFieldStart && r.f.nread < MAX_HEADER_SIZE && Token(c) != 0
    ensures var q := ByteStep(r, c);
            && !Stopped(q)
            && q.f == r.f.(state := HeaderField, nread := r.f.nread + 1, index := 0, headerState := Known([Token(c)]))
  {
    TokenIs(c);
    FirstKnown(Token(c));
    hide PushAll, Token, Known, RequestLineByte, HeaderByte, ChunkArm;
  }

  lemma FirstKnown(t: byte)
    ensures Known([t]) == if t == 'c' as int then SeenC
                          else if t == 'p' as int then MatchingProxyConnection
                          else if t == 't' as int then MatchingTransferEncoding
                          else if t == 'u' as int then MatchingUpgrade
                          else General
  {
    hide Begins;
    assert [] + [t] == [t];
    BeginsAll([], t);
    forall n: Name
      ensures Begins([], n)
    {
      NothingBegins(n);
    }
  }

  lemma NothingBegins(n: Name)
    ensures Begins([], n)
  {
  }

  lemma FieldStep(r: Run, c: byte)
    requires !Stopped(r) && r.f.state == HeaderField && r.f.nread < MAX_HEADER_SIZE && Token(c) != 0
    requires ReadsFieldNames(r.f.headerState)
    ensures var q := ByteStep(r, c);
            && !Stopped(q) && q.f == FieldChar(r.f.(nread := r.f.nread + 1), Token(c), c)
  {
    TokenIs(c);
    hide PushAll, Token, FieldState, FieldIndex, RequestLineByte, ChunkArm, Rereading;
  }

  lemma KnownReads(l: seq<byte>)
    ensures ReadsFieldNames(Known(l))
  {
    hide Begins, Spells;
  }

  /** The name starts with `Transfer-Encoding`, in any mixture of cases. */
  predicate StartsTransferEncoding(name: seq<byte>) {
    |name| >= 17 && Spells(Lowered(name[..17]), TransferEncodingName)
  }

  /** The letter that completes the name is the one that sets the flag. */
  lemma Completes(l: seq<byte>, t: byte, c: byte)
    requires l != [] && c != SPACE
    ensures Known(l).MatchingTransferEncoding? && FieldState(Known(l), |l|, t, c).TransferEncoding?
            <==> Spells(l + [t], TransferEncodingName)
  {
    hide Begins, FieldState;
    KnownMore(l, t, c);
    BeginsMore(l, t, TransferEncodingName);
    if Begins(l, TransferEncodingName) { Exclusive(l, TransferEncodingName); }
    if Begins(l + [t], TransferEncodingName) { Exclusive(l + [t], TransferEncodingName); }
  }

  lemma StartsLong(name: seq<byte>)
    ensures StartsTransferEncoding(name) ==> |name| >= 17
  {
  }

  /** Once started, always started. */
  lemma StartsMore(name: seq<byte>)
    requires |name| > 1
    ensures var n := |name| - 1;
            StartsTransferEncoding(name) <==>
            StartsTransferEncoding(name[..n]) || Spells(Lowered(name[..n]) + [Token(name[n])], TransferEncodingName)
  {
    hide Begins, Token;
    var n := |name| - 1;
    if |name| == 17 {
      assert name[..17] == name;
      assert Lowered(name) == Lowered(name[..n]) + [Token(name[n])];
    } else if |name| > 17 {
      assert name[..17] == name[..n][..17];
    }
  }

  /** Exactly the headers that are spelled right are recognised, in any mixture of cases and whatever
      the parser has read before. The flag for transfer codings is set by every name that only starts
      with `Transfer-Encoding`. */
  lemma {:induction false} NameRead(r: Run, name: seq<byte>)
    requires !Stopped(r) && r.f.state == HeaderFieldStart && name != [] && IsTokens(name)
    requires r.f.nread + |name| <= MAX_HEADER_SIZE
    ensures var q := RunBytes(r, name);
            && !Stopped(q)
            && q.f == r.f.(state := HeaderField, nread := r.f.nread + |name|, index := q.f.index,
                           headerState := Known(Lowered(name)),
                           usesTransferEncoding := r.f.usesTransferEncoding || StartsTransferEncoding(name))
            && (Matching(q.f.headerState) ==> q.f.index == |name| - 1)
    decreases |name|
  {
    hide ByteStep, Known, StartsTransferEncoding;
    var n := |name| - 1;
    var c := name[n];
    if n == 0 {
      assert name[..0] == [] && RunBytes(r, []) == r;
      StartStep(r, c);
      assert Lowered(name) == [Token(c)];
      StartsLong(name);
    } else {
      NameRead(r, name[..n]);
      var p := RunBytes(r, name[..n]);
      var l := Lowered(name[..n]);
      assert Lowered(name) == l + [Token(c)];
      KnownReads(l);
      TokenIs(c);
      KnownMore(l, Token(c), c);
      FieldStep(p, c);
      IndexMore(l, p.f.index, Token(c), c);
      Completes(l, Token(c), c);
      StartsMore(name);
    }
  }

  lemma MatchingShort(l: seq<byte>)
    requires Matching(Known(l))
    ensures |l| <= 17
  {
    hide Letter;
  }

  /** The index keeps up with the text as long as it matters. */
  lemma IndexMore(l: seq<byte>, i: nat, t: byte, c: byte)
    requires l != [] && (Matching(Known(l)) ==> i == |l| - 1)
    ensures Matching(Known(l)) ==> |l| < 31 && FieldIndex(Known(l), i) == |l|
    ensures FieldState(Known(l), FieldIndex(Known(l), i), t, c) == FieldState(Known(l), |l|, t, c)
    ensures Matching(Known(l + [t])) && c != SPACE ==> Matching(Known(l))
  {
    if Matching(Known(l)) { MatchingShort(l); }
    hide Begins;
    KnownMore(l, t, if c == SPACE then TAB else c);
  }
}
