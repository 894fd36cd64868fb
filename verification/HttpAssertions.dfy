/** When the one assertion of the parser that can fail does: conditions on the bytes alone. */
module HttpAssertions {
  import opened Bytes
  import Marks = HttpMarks
  import opened HttpProperties
  import opened HttpRun
  import opened HttpStep
  import opened HttpSyntax

  // ---- inputs without the byte 0 ----

  /** The record is not in or after a `Connection` value of which nothing was made out yet. */
  predicate Guarded(f: Fields) {
    f.state.HeaderValue? || f.state.HeaderAlmostDone? || f.state.HeaderValueLws? || f.state.HeaderValueStart? ==>
      f.headerState != HeaderState.Connection
  }

  lemma GuardedStart(f: Fields, c: byte)
    requires c != NUL && (f.headerState.Connection? ==> c != SPACE)
    ensures Guarded(ValueStartByte(f, c).f)
  {
    hide IsNum;
  }

  lemma GuardedHeader(f: Fields, c: byte)
    requires f.errno == OK && InHeader(f.state) && Guarded(f) && c != NUL
    ensures HeaderByte(f, c).f.errno == OK ==> Guarded(HeaderByte(f, c).f)
  {
    hide ReadsFieldNames, FieldState, FieldIndex, Token, ValueStartByte;
    match f.state
    case HeaderValueDiscardWs => if c != SPACE { GuardedStart(f, c); }
    case HeaderValueStart => GuardedStart(f, c);
    case _ =>
  }

  lemma GuardedOnce(f: Fields, c: byte)
    requires f.errno == OK && Rank(f.state) == 1 && Guarded(f) && c != NUL
    ensures Once(f, c).f.errno == OK ==> Guarded(Once(f, c).f)
  {
    hide RequestLineByte, HeaderByte, ChunkArm;
    if InRequestLine(f.state) {
    } else if InHeader(f.state) {
      GuardedHeader(f, c);
    } else if f.state.InChunk? {
      GuardedChunk(f, c);
    }
  }

  lemma GuardedChunk(f: Fields, c: byte)
    requires f.errno == OK && f.state.InChunk?
    ensures Guarded(ChunkArm(f, c).f)
  {
    hide Unhex;
    if f.state.chunk.ChunkSizeStart? || f.state.chunk.ChunkSize? || f.state.chunk.ChunkSizeAlmostDone? {
      SizeStays(f, c);
      hide ChunkSizeStartByte, ChunkSizeByte, ChunkSizeAlmostDoneByte;
    } else {
      DataStays(f, c);
      hide ChunkDataByte, ChunkDataAlmostDoneByte, ChunkDataDoneByte;
    }
  }

  /** The arms of a chunk lead to one another, or to the trailer. */
  lemma SizeStays(f: Fields, c: byte)
    requires f.state.InChunk?
    ensures ChunkSizeStartByte(f, c).f.state.InChunk? && ChunkSizeByte(f, c).f.state.InChunk?
    ensures ChunkSizeAlmostDoneByte(f, c).f.state.InChunk? || ChunkSizeAlmostDoneByte(f, c).f.state.HeaderFieldStart?
  {
    hide Unhex;
  }

  lemma DataStays(f: Fields, c: byte)
    requires f.state.InChunk?
    ensures ChunkDataByte(f, c).f.state.InChunk? && ChunkDataAlmostDoneByte(f, c).f.state.InChunk?
    ensures ChunkDataDoneByte(f, c).f.state.InChunk?
  {
  }

  lemma ValueKeeps(h: HeaderState, i: nat, c: byte)
    requires h != HeaderState.Connection
    ensures ValueState(h, i, Lower(c), c) != HeaderState.Connection
  {
    hide Token, Lower, Letter;
  }

  lemma GuardedReread(f: Fields, c: byte)
    requires f.errno == OK && Rank(f.state) > 1 && Guarded(f)
    ensures match Rereading(f, c)
            case Take(o) => o.f.errno == OK ==> Guarded(o.f)
            case Reread(g, _) => Guarded(g)
  {
    hide ValueState, ValueIndex, ValueError, Token;
    if f.state == HeaderValue { ValueKeeps(f.headerState, ValueIndex(f.headerState, f.index, c), c); }
  }

  lemma {:induction false} GuardedOut(f: Fields, c: byte)
    requires f.errno == OK && Guarded(f) && c != NUL
    ensures Dispatch(f, c).f.errno == OK ==> Guarded(Dispatch(f, c).f)
    decreases Rank(f.state)
  {
    hide Once, Rereading, Guarded;
    if Rank(f.state) == 1 {
      GuardedOnce(f, c);
    } else {
      GuardedReread(f, c);
      match Rereading(f, c)
      case Take(_) =>
      case Reread(g, _) => GuardedOut(g, c);
    }
  }

  lemma GuardedStep(r: Run, c: byte)
    requires !Stopped(r) && Guarded(r.f) && c != NUL
    ensures ByteStep(r, c).f.errno == OK ==> Guarded(ByteStep(r, c).f)
  {
    assert Guarded(Counted(r.f));
    hide Dispatch, PushAll;
    if Counted(r.f).errno == OK { GuardedOut(Counted(r.f), c); }
  }

  /** The assertion needs the byte 0: an input without it never makes any assertion fail. */
  lemma {:induction false} NoZeroNoAssert(r0: Run, data: seq<byte>)
    requires !Stopped(r0) && Sound(r0.f, 0) && Guarded(r0.f) && NUL !in data
    ensures RunBytes(r0, data).f.errno != AssertFailed
    ensures RunBytes(r0, data).f.errno == OK ==> Guarded(RunBytes(r0, data).f)
    decreases |data|
  {
    hide ByteStep, RunBytes, Sound, Guarded;
    if data == [] {
      NothingRun(r0);
    } else {
      var n := |data| - 1;
      NoZeroNoAssert(r0, data[..n]);
      var r := RunBytes(r0, data[..n]);
      RunSound(r0, data[..n]);
      RunLast(r0, data);
      if Stopped(r) {
        StepStopped(r, data[n]);
      } else {
        SoundStep(r, data[n]);
        GuardedStep(r, data[n]);
        Silent(r, data[n]);
      }
    }
  }

  lemma Silent(r: Run, c: byte)
    requires Guarded(r.f)
    ensures !Fires(r, c)
  {
  }

  // ---- one value ----

  predicate IsBlank(c: byte) { c == SPACE || c == TAB }

  predicate OneLine(v: seq<byte>) { CR !in v && LF !in v }

  /** A header has been named, and its value comes next. */
  ghost predicate BeforeValue(r: Run) { !Stopped(r) && r.f.state == HeaderValueDiscardWs }

  ghost predicate BeforeConnection(r: Run) { BeforeValue(r) && r.f.headerState == HeaderState.Connection }

  /** How many spaces and tabs the value begins with. */
  function Blanks(v: seq<byte>): (k: nat)
    ensures k <= |v| && (forall i :: 0 <= i < k ==> IsBlank(v[i])) && (k < |v| ==> !IsBlank(v[k]))
  {
    if v == [] || !IsBlank(v[0]) then 0
    else
      var k := Blanks(v[1..]);
      assert forall i :: 1 <= i <= k && i < |v| ==> v[i] == v[1..][i - 1];
      1 + k
  }

  /** The value begins with the byte 0 and goes on with a byte that a value may hold. */
  predicate Provokes(v: seq<byte>, lenient: bool) {
    var k := Blanks(v);
    k + 1 < |v| && v[k] == NUL && (lenient || IsHeaderChar(v[k + 1]))
  }

  lemma BlankStep(r: Run, c: byte)
    requires BeforeValue(r) && IsBlank(c) && r.f.nread < MAX_HEADER_SIZE
    ensures var q := ByteStep(r, c); !Stopped(q) && q.f == r.f.(nread := r.f.nread + 1)
  {
    hide PushAll, RequestLineByte, ChunkArm, Rereading, ValueStartByte;
  }

  lemma {:induction false} BlanksRead(r: Run, v: seq<byte>)
    requires BeforeValue(r) && (forall i :: 0 <= i < |v| ==> IsBlank(v[i])) && r.f.nread + |v| <= MAX_HEADER_SIZE
    ensures var q := RunBytes(r, v); !Stopped(q) && q.f == r.f.(nread := r.f.nread + |v|)
    decreases |v|
  {
    hide ByteStep, RunBytes, IsBlank;
    if v == [] {
      NothingRun(r);
    } else {
      var n := |v| - 1;
      BlanksRead(r, v[..n]);
      RunLast(r, v);
      BlankStep(RunBytes(r, v[..n]), v[n]);
    }
  }

  lemma FirstOut(f: Fields, c: byte)
    requires f.errno == OK && f.state == HeaderValueDiscardWs && f.headerState == HeaderState.Connection
    requires !IsBlank(c) && c != CR && c != LF
    ensures var h := if Lower(c) == 'k' as int then MatchingKeepAlive else if Lower(c) == 'c' as int then MatchingClose
                     else if c == NUL then HeaderState.Connection else General;
            Dispatch(f, c) == Go(f.(state := HeaderValue, index := 0, headerState := h))
  {
    hide Rereading, RequestLineByte, ChunkArm, FieldByte, HeadersDoneByte;
  }

  /** The first byte that counts: only the byte 0 is passed over. */
  lemma FirstStep(r: Run, c: byte)
    requires BeforeConnection(r) && !IsBlank(c) && c != CR && c != LF && r.f.nread < MAX_HEADER_SIZE
    ensures var q := ByteStep(r, c);
            && !Stopped(q) && q.f.state == HeaderValue && q.f.nread == r.f.nread + 1 && q.f.lenient == r.f.lenient
            && q.f.headerState != TransferEncoding && (q.f.headerState == HeaderState.Connection <==> c == NUL)
  {
    FirstOut(Counted(r.f), c);
    hide PushAll, Dispatch, Lower;
  }

  /** In a value of which something was made out no assertion fails. */
  ghost predicate Inside(q: Run) {
    if Stopped(q) then q.f.errno != AssertFailed
    else q.f.state == HeaderValue && q.f.headerState != HeaderState.Connection && q.f.headerState != TransferEncoding
  }

  lemma InsideStep(q: Run, c: byte)
    requires Inside(q) && c != CR && c != LF
    ensures Inside(ByteStep(q, c))
  {
    if Stopped(q) {
      StepStopped(q, c);
    } else if q.f.nread + 1 > MAX_HEADER_SIZE {
      Marks.Overflow(q, c);
    } else {
      Marks.ValueStep(q, c);
      ValueKeeps(q.f.headerState, ValueIndex(q.f.headerState, q.f.index, c), c);
      hide ByteStep, ValueState, ValueIndex, IsHeaderChar, IsNum;
    }
  }

  lemma {:induction false} InsideStays(q: Run, v: seq<byte>)
    requires Inside(q) && OneLine(v)
    ensures Inside(RunBytes(q, v))
    decreases |v|
  {
    hide ByteStep, RunBytes, Inside;
    if v == [] {
      NothingRun(q);
    } else {
      var n := |v| - 1;
      assert v[n] in v && forall c :: c in v[..n] ==> c in v;
      InsideStays(q, v[..n]);
      RunLast(q, v);
      InsideStep(RunBytes(q, v[..n]), v[n]);
    }
  }

  lemma Second(q: Run, c: byte)
    requires !Stopped(q) && q.f.state == HeaderValue && q.f.headerState == HeaderState.Connection
    requires q.f.nread < MAX_HEADER_SIZE && c != CR && c != LF
    ensures Stopped(ByteStep(q, c))
    ensures ByteStep(q, c).f.errno == AssertFailed <==> q.f.lenient || IsHeaderChar(c)
  {
    Marks.ValueStep(q, c);
    hide ByteStep, IsHeaderChar;
  }

  lemma Cut(r: Run, v: seq<byte>, k: nat)
    requires k < |v|
    ensures RunBytes(r, v) == RunBytes(ByteStep(RunBytes(r, v[..k]), v[k]), v[k + 1..])
  {
    hide ByteStep;
    assert v == v[..k] + ([v[k]] + v[k + 1..]);
    RunSplit(r, v[..k], [v[k]] + v[k + 1..]);
    RunSplit(RunBytes(r, v[..k]), [v[k]], v[k + 1..]);
    RunLast(RunBytes(r, v[..k]), [v[k]]);
    assert [v[k]][..0] == [];
    NothingRun(RunBytes(r, v[..k]));
  }

  /** Over a whole value on one line, the assertion fails exactly if the first byte after the leading
      spaces and tabs is 0 and the next one is a byte that a value may hold. */
  lemma AssertsIffProvoked(r: Run, v: seq<byte>)
    requires BeforeConnection(r) && OneLine(v) && r.f.nread + |v| <= MAX_HEADER_SIZE
    ensures RunBytes(r, v).f.errno == AssertFailed <==> Provokes(v, r.f.lenient)
  {
    hide ByteStep, RunBytes, Inside;
    var k := Blanks(v);
    BlanksRead(r, v[..k]);
    var q := RunBytes(r, v[..k]);
    if k == |v| {
      assert v[..k] == v;
    } else {
      var rest := v[k + 1..];
      assert v[k] in v;
      Cut(r, v, k);
      FirstStep(q, v[k]);
      var p := ByteStep(q, v[k]);
      assert forall c :: c in rest ==> c in v;
      if v[k] != NUL {
        assert Inside(p) by { ShowInside(p); }
        InsideStays(p, rest);
        NotFailed(RunBytes(p, rest));
      } else if rest == [] {
        NothingRun(p);
      } else {
        assert rest[0] == v[k + 1];
        NothingRun(p);
        Cut(p, rest, 0);
        assert rest[..0] == [];
        Second(p, rest[0]);
        StoppedStays(ByteStep(p, rest[0]), rest[1..]);
      }
    }
  }

  lemma ShowInside(q: Run)
    requires !Stopped(q) && q.f.state == HeaderValue
    requires q.f.headerState != HeaderState.Connection && q.f.headerState != TransferEncoding
    ensures Inside(q)
  {
  }

  lemma NotFailed(q: Run)
    requires Inside(q)
    ensures q.f.errno != AssertFailed
  {
  }
}
