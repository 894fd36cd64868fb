/** What the HTTP/1.x request parser promises over whole runs. */
module HttpProperties {
  import opened Bytes
  import opened HttpSyntax
  import opened HttpStep
  import opened HttpRun
  import opened HttpReceive
  import opened HttpMarks
  import opened HttpParser

  // ---- a message completes once, and what follows it in the same buffer is not ignored ----

  function Completions(log: seq<Event>): nat {
    if |log| == 0 then 0 else Completions(log[..|log| - 1]) + if log[|log| - 1] == MessageComplete then 1 else 0
  }

  /** The states in which a message is complete: every further byte is an error or
      completes it again. */
  predicate Final(f: Fields) {
    match f.state
    case MessageDone => true
    case HeadersAlmostDone => f.flags.trailing
    case HeadersDone =>
      !f.upgrade && (f.flags.skipBody
      || (!f.flags.chunked && !f.usesTransferEncoding && (f.contentLength == 0 || f.contentLength == ULLONG_MAX)))
    case _ => false
  }

  lemma FinalOnce(f: Fields, c: byte)
    requires f.errno == OK && Rank(f.state) == 1
    ensures var o := Once(f, c);
            && (f.state != HeadersDone && Final(f) ==> o.events == [MessageComplete] && o.f == f && !o.exit)
            && (f.state == HeadersDone && Final(f) && o.f.errno == OK ==>
                  o.events == [MessageComplete] && Final(o.f) && !o.exit)
            && (MessageComplete in o.events && o.f.errno == OK && !o.exit ==> Final(o.f))
  {
    hide RequestLineByte;
  }

  lemma FinalReread(f: Fields, c: byte)
    requires f.errno == OK && Rank(f.state) > 1
    ensures match Rereading(f, c)
            case Take(o) =>
              && (Final(f) ==> o.f.errno != OK || (o.events == [MessageComplete] && Final(o.f) && !o.exit))
              && (MessageComplete in o.events && o.f.errno == OK && !o.exit ==> Final(o.f))
            case Reread(g, events) => MessageComplete !in events && !Final(f)
  {
  }

  /** A complete message stays complete, and completes again with every byte that is no error. */
  lemma {:induction false} FinalOut(f: Fields, c: byte)
    requires f.errno == OK
    ensures var o := Dispatch(f, c);
            && (Final(f) ==> o.f.errno != OK || (MessageComplete in o.events && Final(o.f) && !o.exit))
            && (MessageComplete in o.events && o.f.errno == OK && !o.exit ==> Final(o.f))
    decreases Rank(f.state)
  {
    hide Final, Once, Rereading;
    if Rank(f.state) == 1 {
      FinalOnce(f, c);
    } else {
      FinalReread(f, c);
      match Rereading(f, c)
      case Take(_) =>
      case Reread(g, events) => FinalOut(g, c);
    }
  }

  lemma CompletionsPush(log: seq<Event>, e: Event)
    ensures Completions(Push(log, e)) == Completions(log) + if e == MessageComplete then 1 else 0
  {
    var n := |log| - 1;
    if e.Data? && |log| > 0 && log[n].Data? && log[n].kind == e.kind {
      assert Push(log, e)[..n] == log[..n];
    } else {
      assert Push(log, e)[..|log|] == log;
    }
  }

  lemma {:induction false} CompletionsPushAll(log: seq<Event>, es: seq<Event>)
    ensures Completions(PushAll(log, es)) >= Completions(log)
    ensures MessageComplete in es ==> Completions(PushAll(log, es)) > Completions(log)
    ensures MessageComplete !in es ==> Completions(PushAll(log, es)) == Completions(log)
    decreases |es|
  {
    hide Push;
    if |es| > 0 {
      var n := |es| - 1;
      CompletionsPushAll(log, es[..n]);
      CompletionsPush(PushAll(log, es[..n]), es[n]);
      assert es == es[..n] + [es[n]];
    }
  }

  lemma {:induction false} ExitCompletes(f: Fields, c: byte)
    requires f.errno == OK
    ensures Dispatch(f, c).exit ==> MessageComplete in Dispatch(f, c).events
    decreases Rank(f.state)
  {
    if Rank(f.state) > 1 {
      match Rereading(f, c)
      case Take(_) =>
      case Reread(g, _) => ExitCompletes(g, c);
    }
  }

  /** One byte and the completions: none is ever taken back, a stop by exit is one, a
      completion without a stop leaves a final state, and a final state goes on completing. */
  lemma StepCompletes(r: Run, c: byte)
    requires !Stopped(r)
    ensures var s := ByteStep(r, c);
            && Completions(s.log) >= Completions(r.log)
            && (s.exit ==> Completions(s.log) > Completions(r.log))
            && (!Stopped(s) && Completions(s.log) > Completions(r.log) ==> Final(s.f))
            && (Final(r.f) && s.f.errno == OK ==> Completions(s.log) > Completions(r.log) && Final(s.f) && !s.exit)
  {
    hide Dispatch, PushAll, Final, Completions;
    var g := Counted(r.f);
    FinalKept(r.f);
    if g.errno == OK {
      var o := Dispatch(g, c);
      FinalOut(g, c);
      ExitCompletes(g, c);
      CompletionsPushAll(r.log, o.events + OwnData(o.f, c));
      assert MessageComplete in o.events + OwnData(o.f, c) <==> MessageComplete in o.events;
    }
  }

  lemma FinalKept(f: Fields)
    ensures Counted(f).errno == OK ==> f.errno == OK && (Final(Counted(f)) <==> Final(f))
  {
  }

  lemma {:induction false} RunCompletes(r0: Run, data: seq<byte>)
    requires !Stopped(r0)
    ensures var r := RunBytes(r0, data);
            && Completions(r.log) >= Completions(r0.log)
            && (r.exit ==> Completions(r.log) > Completions(r0.log))
            && (!Stopped(r) && Completions(r.log) > Completions(r0.log) ==> Final(r.f))
            && (Final(r0.f) && data != [] && r.f.errno == OK ==>
                  Completions(r.log) > Completions(r0.log) && Final(r.f) && !r.exit)
    decreases |data|
  {
    hide ByteStep, Completions, Final;
    if data != [] {
      var n := |data| - 1;
      RunCompletes(r0, data[..n]);
      var r := RunBytes(r0, data[..n]);
      if Stopped(r) { StepStopped(r, data[n]); } else { StepCompletes(r, data[n]); }
    }
  }

  /** What the owner's `feed` makes of two buffers: the second is ignored once the message is complete. */
  function FedInParts(r0: Run, a: seq<byte>, b: seq<byte>): Run {
    var r := RunBytes(r0, a);
    if Completions(r.log) > 0 then r else RunBytes(r, b)
  }

  /** Feeding two buffers is feeding them as one, exactly when the message is not complete
      after the first or the parser has stopped there. */
  lemma SplitExactly(r0: Run, a: seq<byte>, b: seq<byte>)
    requires !Stopped(r0) && Completions(r0.log) == 0 && b != []
    ensures var r := RunBytes(r0, a);
            FedInParts(r0, a, b) == RunBytes(r0, a + b) <==> Completions(r.log) == 0 || Stopped(r)
  {
    hide ByteStep, Completions, Final;
    var r := RunBytes(r0, a);
    RunSplit(r0, a, b);
    RunCompletes(r0, a);
    if Stopped(r) {
      StoppedStays(r, b);
    } else if Completions(r.log) > 0 {
      RunCompletes(r, b);
    }
  }

  lemma {:induction false} CompleteWhenCounted(log: seq<Event>)
    ensures ReceiveAll(NEW_OWNER, log).complete <==> Completions(log) > 0
    ensures Completions(Joined(log)) == Completions(log)
    decreases |log|
  {
    if |log| > 0 {
      var n := |log| - 1;
      CompleteWhenCounted(log[..n]);
      assert log == log[..n] + [log[n]];
      JoinedSnoc(log[..n], log[n]);
      CompletionsPush(Joined(log[..n]), log[n]);
    }
  }

  /** Two parsers that stand at the same place, one fed a message in two buffers and the
      other in one: unless the message was complete after the first buffer, both report an
      error or neither does, and without an error they agree on the whole parser record, on
      the joined callbacks and on everything their owners have collected. */
  method CompareSplit(whole: Parser, parts: Parser, a: seq<byte>, b: seq<byte>) returns (early: bool)
    requires whole != parts && whole.Valid() && parts.Valid()
    requires whole.f == parts.f && Joined(whole.log) == Joined(parts.log)
    requires whole.f.errno == OK && !whole.complete && !parts.complete
    requires a != [] && b != [] && |a| + |b| < 0x8000_0000
    modifies whole, parts
    ensures early ==> parts.complete
    ensures !early ==> (whole.f.errno == OK <==> parts.f.errno == OK)
    ensures !early && whole.f.errno == OK ==>
      whole.f == parts.f && Joined(whole.log) == Joined(parts.log) && whole.Snapshot() == parts.Snapshot()
  {
    hide RunBytes, Completions, Final, Joined, Receive, ReceiveAll, Push, PushAll;
    ghost var r0 := whole.Start();
    CompleteWhenCounted(whole.log);
    RunSplit(r0, a, b);
    var _ := whole.Feed(a + b);
    var _ := parts.Feed(a);
    early := parts.complete;
    ghost var r := RunBytes(r0, a);
    RunCompletes(r0, a);
    CompleteWhenCounted(parts.log);
    if Stopped(r) { StoppedStays(r, b); }
    var _ := parts.Feed(b);
    ReceiveJoined(NEW_OWNER, whole.log);
    ReceiveJoined(NEW_OWNER, parts.log);
  }

  // ---- the assertions of the parser ----

  /** What holds of the parser record between two bytes; `n` bytes count against the header
      limit when a chunk size is about to be read. */
  predicate Sound(f: Fields, n: nat) {
    match f.state
    case HeaderField => ReadsFieldNames(f.headerState)
    case HeaderValue => f.headerState != TransferEncoding
    case InChunk(ChunkSizeStart) => f.flags.chunked && f.nread == n
    case InChunk(ChunkSize) => f.flags.chunked && f.contentLength < ULLONG_MAX
    case InChunk(ChunkParameters) => f.flags.chunked && f.contentLength < ULLONG_MAX
    case InChunk(ChunkSizeAlmostDone) => f.flags.chunked && f.contentLength < ULLONG_MAX
    case InChunk(ChunkData) => f.flags.chunked && 0 < f.contentLength < ULLONG_MAX
    case InChunk(ChunkDataAlmostDone) => f.flags.chunked && f.contentLength == 0
    case InChunk(ChunkDataDone) => f.flags.chunked
    case BodyIdentity => 0 < f.contentLength < ULLONG_MAX
    case _ => true
  }

  /** The one assertion that can fail: text after a `Connection` value of which only bytes that
      pass for white space have been seen. */
  predicate Unguarded(f: Fields, c: byte) {
    f.state == HeaderValue && f.headerState == Connection && c != CR && c != LF && (f.lenient || IsHeaderChar(c))
  }

  lemma SoundValueStart(f: Fields, c: byte)
    requires f.errno == OK
    ensures var o := ValueStartByte(f, c);
            o.f.errno != AssertFailed && o.f.state == HeaderValue && o.f.headerState != TransferEncoding
  {
    if f.headerState.ContentLength? || f.headerState.Connection? || f.headerState.TransferEncoding? {
      SoundKnownStart(f, c);
    } else {
      SoundOtherStart(f, c);
    }
    hide ValueStartByte;
  }

  lemma SoundKnownStart(f: Fields, c: byte)
    requires f.errno == OK
    requires f.headerState.ContentLength? || f.headerState.Connection? || f.headerState.TransferEncoding?
    ensures var o := ValueStartByte(f, c);
            o.f.errno != AssertFailed && o.f.state == HeaderValue && o.f.headerState != TransferEncoding
  {
    hide IsNum, Lower;
  }

  lemma SoundOtherStart(f: Fields, c: byte)
    requires f.errno == OK
    requires !f.headerState.ContentLength? && !f.headerState.Connection? && !f.headerState.TransferEncoding?
    ensures var o := ValueStartByte(f, c);
            o.f.errno != AssertFailed && o.f.state == HeaderValue && o.f.headerState != TransferEncoding
  {
    hide IsNum, Lower;
  }

  lemma SoundField(f: Fields, c: byte)
    requires f.errno == OK && f.state == HeaderField && ReadsFieldNames(f.headerState)
    ensures var o := FieldByte(f, c);
            && o.f.errno != AssertFailed
            && if o.f.state == HeaderField then ReadsFieldNames(o.f.headerState) else o.f.state == HeaderValueDiscardWs
  {
    hide Token, FieldState, FieldIndex;
  }

  lemma SoundHeader(f: Fields, c: byte)
    requires f.errno == OK && InHeader(f.state) && Sound(f, 1)
    ensures HeaderByte(f, c).f.errno != AssertFailed
    ensures HeaderByte(f, c).f.errno == OK ==> Sound(HeaderByte(f, c).f, 0)
  {
    hide ReadsFieldNames, FieldByte, ValueStartByte;
    SoundValueStart(f, c);
    if f.state == HeaderField { SoundField(f, c); }
  }

  lemma SoundChunkSize(f: Fields, c: byte)
    requires f.errno == OK && f.state == InChunk(ChunkSize) && Sound(f, 1)
    ensures var o := ChunkSizeByte(f, c);
            o.f.errno != AssertFailed && (o.f.errno == OK ==> Sound(o.f, 0))
  {
    hide Unhex;
  }

  lemma SoundChunk(f: Fields, c: byte)
    requires f.errno == OK && f.state.InChunk? && Sound(f, 1)
    ensures ChunkArm(f, c).f.errno != AssertFailed
    ensures ChunkArm(f, c).f.errno == OK ==> Sound(ChunkArm(f, c).f, 0)
  {
    hide Unhex, ChunkSizeByte;
    match f.state.chunk
    case ChunkSizeStart =>
    case ChunkSize => SoundChunkSize(f, c);
    case ChunkParameters =>
    case ChunkSizeAlmostDone =>
    case ChunkData =>
    case ChunkDataAlmostDone =>
    case ChunkDataDone =>
  }

  lemma SoundValue(f: Fields, c: byte)
    requires f.errno == OK && f.state == HeaderValue && f.headerState != TransferEncoding
    ensures match ValueByte(f, c)
            case Take(o) =>
              && (o.f.errno == AssertFailed <==> Unguarded(f, c))
              && ((o.f.state == HeaderValue && o.f.headerState != TransferEncoding) || o.f.state == HeaderAlmostDone)
            case Reread(g, _) => g.state == HeaderAlmostDone && !Unguarded(f, c)
  {
    hide ValueState, ValueIndex, Token, Lower, IsNum;
  }

  lemma SoundReread(f: Fields, c: byte)
    requires f.errno == OK && Rank(f.state) > 1 && Sound(f, 1)
    ensures match Rereading(f, c)
            case Take(o) => (o.f.errno == AssertFailed <==> Unguarded(f, c)) && (o.f.errno == OK ==> Sound(o.f, 0))
            case Reread(g, _) => Sound(g, 1) && g.state != HeaderValue && !Unguarded(f, c)
  {
    hide ValueByte, Token;
    if f.state == HeaderValue { SoundValue(f, c); }
  }

  lemma {:induction false} SoundOut(f: Fields, c: byte)
    requires f.errno == OK && Sound(f, 1)
    ensures var g := Dispatch(f, c).f;
            (g.errno == AssertFailed <==> Unguarded(f, c)) && (g.errno == OK ==> Sound(g, 0))
    decreases Rank(f.state)
  {
    hide RequestLineByte, HeaderByte, ChunkArm, Rereading;
    if Rank(f.state) > 1 {
      SoundReread(f, c);
      match Rereading(f, c)
      case Take(_) =>
      case Reread(g, _) => SoundOut(g, c);
    } else if InRequestLine(f.state) {
    } else if InHeader(f.state) {
      SoundHeader(f, c);
    } else if f.state.InChunk? {
      SoundChunk(f, c);
    }
  }

  /** The byte makes that assertion fail; at the header limit it is not looked at any more. */
  predicate Fires(r: Run, c: byte) {
    !Stopped(r) && r.f.nread < MAX_HEADER_SIZE && Unguarded(r.f, c)
  }

  /** From a fresh start the parser record stays sound between bytes, so the assertions about
      chunks, bodies and header names never fail; the one that can fail does so exactly at a byte
      that makes it. */
  lemma {:induction false} RunSound(r0: Run, data: seq<byte>)
    requires !Stopped(r0) && Sound(r0.f, 0)
    ensures var r := RunBytes(r0, data);
            && (r.f.errno == OK && !r.exit ==> Sound(r.f, 0))
            && (r.f.errno == AssertFailed <==>
                  exists i :: 0 <= i < |data| && Fires(RunBytes(r0, data[..i]), data[i]))
    decreases |data|
  {
    hide ByteStep, RunBytes, Sound, Fires;
    if data == [] {
      NothingRun(r0);
    } else {
      var n := |data| - 1;
      RunSound(r0, data[..n]);
      var r := RunBytes(r0, data[..n]);
      FiresBefore(r0, data, n);
      RunLast(r0, data);
      if Stopped(r) {
        StepStopped(r, data[n]);
        StoppedSilent(r, data[n]);
      } else {
        SoundStep(r, data[n]);
      }
    }
  }

  lemma NothingRun(r: Run)
    ensures RunBytes(r, []) == r
  {
  }

  lemma RunLast(r: Run, data: seq<byte>)
    requires data != []
    ensures RunBytes(r, data) == ByteStep(RunBytes(r, data[..|data| - 1]), data[|data| - 1])
  {
    hide ByteStep;
  }

  lemma StoppedSilent(r: Run, c: byte)
    requires Stopped(r)
    ensures !Fires(r, c)
  {
  }

  /** The bytes before the last one are the same for the shorter input. */
  lemma FiresBefore(r0: Run, data: seq<byte>, n: nat)
    requires n <= |data|
    ensures (exists i :: 0 <= i < n && Fires(RunBytes(r0, data[..n][..i]), data[..n][i]))
            <==> exists i :: 0 <= i < n && Fires(RunBytes(r0, data[..i]), data[i])
  {
    hide RunBytes, Fires;
    forall i | 0 <= i < n
      ensures data[..n][..i] == data[..i] && data[..n][i] == data[i]
    {
    }
    if i :| 0 <= i < n && Fires(RunBytes(r0, data[..n][..i]), data[..n][i]) {
      assert Fires(RunBytes(r0, data[..i]), data[i]);
    }
    if i :| 0 <= i < n && Fires(RunBytes(r0, data[..i]), data[i]) {
      assert data[..n][..i] == data[..i];
      assert Fires(RunBytes(r0, data[..n][..i]), data[..n][i]);
    }
  }

  /** That assertion is reached: a `Connection` value that begins with the byte 0, whose lower case is a
      space, and goes on with any character that a value may hold. */
  lemma ZeroByteAsserts(r: Run, c: byte)
    requires !Stopped(r) && r.f.state == HeaderValueDiscardWs && r.f.headerState == HeaderState.Connection
    requires r.f.nread + 2 <= MAX_HEADER_SIZE && IsHeaderChar(c) && c != CR && c != LF
    ensures RunBytes(r, [NUL, c]).f.errno == AssertFailed
  {
    assert [NUL, c][..1] == [NUL] && [NUL][..0] == [];
    assert RunBytes(r, []) == r;
    var q := ByteStep(r, NUL);
    ZeroByteSkipped(r);
    assert RunBytes(r, [NUL]) == q;
    hide ByteStep;
    AssertStep(q, c);
  }

  lemma ZeroByteSkipped(r: Run)
    requires !Stopped(r) && r.f.state == HeaderValueDiscardWs && r.f.headerState == HeaderState.Connection
    requires r.f.nread < MAX_HEADER_SIZE
    ensures var q := ByteStep(r, NUL);
            !Stopped(q) && q.f == r.f.(state := HeaderValue, index := 0, nread := r.f.nread + 1)
  {
    hide PushAll, RequestLineByte, ChunkArm;
  }

  lemma AssertStep(r: Run, c: byte)
    requires !Stopped(r) && r.f.nread < MAX_HEADER_SIZE && Unguarded(r.f, c)
    ensures ByteStep(r, c).f.errno == AssertFailed
  {
    ValueStep(r, c);
    hide ByteStep;
  }

  lemma SoundStep(r: Run, c: byte)
    requires !Stopped(r) && Sound(r.f, 0)
    ensures var s := ByteStep(r, c);
            && (s.f.errno == OK ==> Sound(s.f, 0))
            && (s.f.errno == AssertFailed <==> Fires(r, c))
  {
    hide Dispatch, PushAll;
    if Counted(r.f).errno == OK { SoundOut(Counted(r.f), c); }
  }
}
