/** What the buffer-at-a-time HTTP/1.x parser owes its owner in the middle of a buffer, and
    how its inner loops follow the byte-at-a-time run. */
module HttpMarks {
  import opened Bytes
  import opened HttpSyntax
  import opened HttpStep
  import opened HttpRun

  /** Where the text in progress began in the current buffer, -1 for each stream that has none. */
  datatype Marks = Marks(url: int, field: int, value: int, body: int)

  const NO_MARKS := Marks(-1, -1, -1, -1)

  /** The data callback that is still owed for the bytes before `i`. */
  ghost function Pending(m: Marks, data: seq<byte>, i: nat): seq<Event>
    requires i <= |data|
  {
    if 0 <= m.url < i then [Data(Url, data[m.url..i])]
    else if 0 <= m.field < i then [Data(Field, data[m.field..i])]
    else if 0 <= m.value < i then [Data(Value, data[m.value..i])]
    else if 0 <= m.body < i then [Data(Body, data[m.body..i])]
    else []
  }

  /** At most one mark is set, and which one follows from the state. */
  ghost predicate MarksOk(m: Marks, s: State, i: nat, n: nat) {
    && (if s.InUrl? then 0 <= m.url && (m.url < i || i == 0 == m.url) else m.url == -1)
    && (if s.HeaderField? then 0 <= m.field && (m.field < i || i == 0 == m.field) else m.field == -1)
    && (if s.HeaderValue? then 0 <= m.value && (m.value < i || i == 0 == m.value) else m.value == -1)
    && (if s == InChunk(ChunkDataAlmostDone)
           || (i == n && (s.BodyIdentity? || s == InChunk(ChunkData) || s.BodyIdentityEof?))
        then m.body == -1 || 0 <= m.body < i
        else m.body == -1)
  }

  /** The run over the first `i` bytes has reached `f`, with the owed callback counted in. */
  ghost predicate At(r0: Run, data: seq<byte>, i: nat, f: Fields, log: seq<Event>, m: Marks)
    requires i <= |data|
  {
    RunBytes(r0, data[..i]) == Run(f, PushAll(Joined(log), Pending(m, data, i)), false)
  }

  /** The same while bytes `start+1..p` have not been counted against the header limit yet. */
  ghost predicate Lag(r0: Run, data: seq<byte>, start: nat, p: nat, f: Fields, log: seq<Event>, m: Marks)
    requires start <= p <= |data|
  {
    var n := f.nread - 1 + (p - start);
    && 1 <= f.nread <= MAX_HEADER_SIZE
    && if n <= MAX_HEADER_SIZE then At(r0, data, p, f.(nread := n), log, m)
       else RunBytes(r0, data[..p]).f.errno != OK
  }

  /** What a run has to be once the parser has stopped with or without an error. */
  ghost predicate Ended(r0: Run, data: seq<byte>, i: nat, f: Fields, log: seq<Event>, m: Marks, exit: bool)
  {
    if f.errno != OK then RunBytes(r0, data).f.errno != OK
    else
      && i <= |data|
      && MarksOk(m, f.state, i, |data|)
      && if exit then m == NO_MARKS && RunBytes(r0, data[..i]) == Run(f, Joined(log), true)
         else At(r0, data, i, f, log, m)
  }

  lemma SliceGrows<T>(s: seq<T>, i: nat, j: nat)
    requires i <= j < |s|
    ensures s[i..j + 1] == s[i..j] + [s[j]]
  {
  }

  /** The callback that is owed for some text. */
  function Owed(k: Kind, text: seq<byte>): seq<Event> {
    if text == [] then [] else [Data(k, text)]
  }

  /** What is owed while the mark of stream `k` is the only one set. */
  lemma OwedIs(k: Kind, mark: nat, data: seq<byte>, i: nat)
    requires mark <= i <= |data|
    ensures Pending(Only(k, mark), data, i) == Owed(k, data[mark..i])
  {
  }

  /** One more byte of text in progress. */
  lemma OwedGrows(k: Kind, text: seq<byte>, c: byte, log: seq<Event>)
    ensures PushAll(PushAll(log, Owed(k, text)), [Data(k, [c])]) == PushAll(log, Owed(k, text + [c]))
  {
    PushOne(log, Data(k, text + [c]));
    PushOne(PushAll(log, Owed(k, text)), Data(k, [c]));
    if text == [] {
      assert text + [c] == [c];
    } else {
      PushOne(log, Data(k, text));
      PushTwice(log, k, text, [c]);
    }
  }

  function Only(k: Kind, mark: int): Marks {
    match k
    case Url => NO_MARKS.(url := mark)
    case Field => NO_MARKS.(field := mark)
    case Value => NO_MARKS.(value := mark)
    case Body => NO_MARKS.(body := mark)
  }

  /** A mark set at byte `i` owes just that byte. */
  lemma OwnPending(f: Fields, data: seq<byte>, i: nat)
    requires i < |data| && f.errno == OK && HasKind(f.state)
    ensures Pending(Only(KindOf(f.state), i), data, i + 1) == OwnData(f, data[i])
  {
    assert data[i..i + 1] == [data[i]];
  }

  lemma NoneBefore(es: seq<Event>)
    ensures [] + es == es
  {
  }

  lemma FieldOut(f: Fields, c: byte)
    requires f.errno == OK && f.state == HeaderField && Token(c) != 0
    ensures Dispatch(f, c) == Go(FieldChar(f, Token(c), c))
  {
    hide FieldChar, Token, RequestLineByte;
  }

  lemma FieldStep(r: Run, c: byte)
    requires !Stopped(r) && r.f.state == HeaderField && Token(c) != 0 && r.f.nread + 1 <= MAX_HEADER_SIZE
    ensures var g := FieldChar(r.f.(nread := r.f.nread + 1), Token(c), c);
            ByteStep(r, c) == Run(g, if g.errno == OK then PushAll(r.log, [Data(Field, [c])]) else r.log, false)
  {
    hide FieldState, FieldIndex, Dispatch, PushAll, Token;
    FieldOut(r.f.(nread := r.f.nread + 1), c);
    NoEvents(r.log);
    NoneBefore(OwnData(FieldChar(r.f.(nread := r.f.nread + 1), Token(c), c), c));
  }

  lemma ValueOut(f: Fields, c: byte)
    requires f.errno == OK && f.state == HeaderValue && c != CR && c != LF
    ensures Dispatch(f, c) == Go(ValueChar(f, c))
  {
    hide ValueChar, RequestLineByte;
  }

  lemma ValueStep(r: Run, c: byte)
    requires !Stopped(r) && r.f.state == HeaderValue && c != CR && c != LF && r.f.nread + 1 <= MAX_HEADER_SIZE
    ensures var g := ValueChar(r.f.(nread := r.f.nread + 1), c);
            ByteStep(r, c) == Run(g, if g.errno == OK then PushAll(r.log, [Data(Value, [c])]) else r.log, false)
  {
    hide ValueState, ValueIndex, ValueError, Dispatch, PushAll;
    ValueOut(r.f.(nread := r.f.nread + 1), c);
    NoEvents(r.log);
    NoneBefore(OwnData(ValueChar(r.f.(nread := r.f.nread + 1), c), c));
  }

  lemma Overflow(r: Run, c: byte)
    requires !Stopped(r) && ParsingHeader(r.f.state) && r.f.nread + 1 > MAX_HEADER_SIZE
    ensures ByteStep(r, c).f.errno == HeaderOverflow
  {
  }

  /** One more character of a header name. */
  lemma LagField(r0: Run, data: seq<byte>, start: nat, p: nat, f: Fields, log: seq<Event>, mark: nat)
    requires start <= p < |data| && Lag(r0, data, start, p, f, log, Only(Field, mark))
    requires f.errno == OK && f.state == HeaderField && mark <= p
    requires Token(data[p]) != 0
    ensures var g := FieldChar(f, Token(data[p]), data[p]);
            if g.errno == OK then Lag(r0, data, start, p + 1, g, log, Only(Field, mark))
            else RunBytes(r0, data[..p + 1]).f.errno != OK
  {
    hide ByteStep, FieldState, FieldIndex, PushAll, Pending, Owed, Joined, RunBytes;
    RunNext(r0, data, p);
    var r := RunBytes(r0, data[..p]);
    if !Stopped(r) {
      if r.f.nread + 1 <= MAX_HEADER_SIZE {
        FieldStep(r, data[p]);
        OwedIs(Field, mark, data, p);
        OwedIs(Field, mark, data, p + 1);
        SliceGrows(data, mark, p);
        OwedGrows(Field, data[mark..p], data[p], Joined(log));
      } else {
        Overflow(r, data[p]);
      }
    } else {
      StepStopped(r, data[p]);
    }
  }

  /** One more character of a header value. */
  lemma LagValue(r0: Run, data: seq<byte>, start: nat, p: nat, f: Fields, log: seq<Event>, mark: nat)
    requires start <= p < |data| && Lag(r0, data, start, p, f, log, Only(Value, mark))
    requires f.errno == OK && f.state == HeaderValue && mark <= p
    requires data[p] != CR && data[p] != LF
    ensures var g := ValueChar(f, data[p]);
            if g.errno == OK then Lag(r0, data, start, p + 1, g, log, Only(Value, mark))
            else RunBytes(r0, data[..p + 1]).f.errno != OK
  {
    hide ByteStep, ValueState, ValueIndex, ValueError, PushAll, Pending, Owed, Joined, RunBytes;
    RunNext(r0, data, p);
    var r := RunBytes(r0, data[..p]);
    if !Stopped(r) {
      if r.f.nread + 1 <= MAX_HEADER_SIZE {
        ValueStep(r, data[p]);
        OwedIs(Value, mark, data, p);
        OwedIs(Value, mark, data, p + 1);
        SliceGrows(data, mark, p);
        OwedGrows(Value, data[mark..p], data[p], Joined(log));
      } else {
        Overflow(r, data[p]);
      }
    } else {
      StepStopped(r, data[p]);
    }
  }

  lemma StepIs(r: Run, c: byte, f: Fields, events: seq<Event>)
    requires !Stopped(r) && Counted(r.f).errno == OK && Dispatch(Counted(r.f), c) == Out(f, events, false)
    requires f.errno != OK || !HasKind(f.state)
    ensures ByteStep(r, c) == Run(f, PushAll(r.log, events), false)
  {
    hide Dispatch, Counted, PushAll;
    assert events + [] == events;
  }

  lemma IdentityOut(f: Fields, c: byte)
    requires f.errno == OK && f.state == BodyIdentity
    ensures Dispatch(f, c) ==
            if f.contentLength == 0 || f.contentLength == ULLONG_MAX then Fail(f, AssertFailed)
            else if f.contentLength == 1 then
              Out(f.(contentLength := 0, state := MessageDone), [Data(Body, [c]), MessageComplete], false)
            else Notify(f.(contentLength := f.contentLength - 1), Data(Body, [c]))
  {
    if f.contentLength == 1 {
      var g := f.(contentLength := 0, state := MessageDone);
      assert Dispatch(g, c) == Notify(g, MessageComplete);
      assert [Data(Body, [c])] + [MessageComplete] == [Data(Body, [c]), MessageComplete];
    }
  }

  lemma IdentityStep(r: Run, c: byte)
    requires !Stopped(r) && r.f.state == BodyIdentity
    ensures if r.f.contentLength == 0 || r.f.contentLength == ULLONG_MAX then ByteStep(r, c).f.errno != OK
            else if r.f.contentLength == 1 then
              ByteStep(r, c) == Run(r.f.(contentLength := 0, state := MessageDone),
                                    Push(Push(r.log, Data(Body, [c])), MessageComplete), false)
            else
              ByteStep(r, c) == Run(r.f.(contentLength := r.f.contentLength - 1), Push(r.log, Data(Body, [c])), false)
  {
    hide Push, PushAll, ByteStep, Dispatch, Counted;
    IdentityOut(r.f, c);
    CountedIs(r.f);
    PushOne(r.log, Data(Body, [c]));
    var one := [Data(Body, [c])];
    if r.f.contentLength == 0 || r.f.contentLength == ULLONG_MAX {
      StepIs(r, c, r.f.(errno := AssertFailed), []);
    } else if r.f.contentLength == 1 {
      assert one + [MessageComplete] == [Data(Body, [c]), MessageComplete];
      StepIs(r, c, r.f.(contentLength := 0, state := MessageDone), one + [MessageComplete]);
      PushAllSplit(r.log, one, [MessageComplete]);
      PushOne(Push(r.log, Data(Body, [c])), MessageComplete);
    } else {
      StepIs(r, c, r.f.(contentLength := r.f.contentLength - 1), one);
    }
  }

  lemma ChunkStep(r: Run, c: byte)
    requires !Stopped(r) && r.f.state == InChunk(ChunkData)
    ensures if !r.f.flags.chunked || r.f.contentLength == 0 || r.f.contentLength == ULLONG_MAX then
              ByteStep(r, c).f.errno != OK
            else
              ByteStep(r, c) == Run(r.f.(contentLength := r.f.contentLength - 1,
                                         state := if r.f.contentLength == 1 then InChunk(ChunkDataAlmostDone)
                                           else InChunk(ChunkData)),
                                    Push(r.log, Data(Body, [c])), false)
  {
    hide Push, ByteStep;
    PushOne(r.log, Data(Body, [c]));
    if !r.f.flags.chunked || r.f.contentLength == 0 || r.f.contentLength == ULLONG_MAX {
      StepIs(r, c, r.f.(errno := AssertFailed), []);
    } else {
      StepIs(r, c, r.f.(contentLength := r.f.contentLength - 1,
                        state := if r.f.contentLength == 1 then InChunk(ChunkDataAlmostDone) else InChunk(ChunkData)),
                          [Data(Body, [c])]);
    }
  }

  lemma EofStep(r: Run, c: byte)
    requires !Stopped(r) && r.f.state == BodyIdentityEof
    ensures ByteStep(r, c) == Run(r.f, Push(r.log, Data(Body, [c])), false)
  {
    PushOne(r.log, Data(Body, [c]));
    assert [Data(Body, [c])] + [] == [Data(Body, [c])];
  }

  lemma BodyGrows(log: seq<Event>, data: seq<byte>, i: nat, j: nat)
    requires i < j < |data|
    ensures Push(Push(log, Data(Body, data[i..j])), Data(Body, [data[j]])) == Push(log, Data(Body, data[i..j + 1]))
  {
    SliceGrows(data, i, j);
    PushTwice(log, Body, data[i..j], [data[j]]);
  }

  /** `n` bytes of a body of known length, read in one go. */
  lemma {:induction false} IdentityRun(r0: Run, data: seq<byte>, i: nat, n: nat)
    requires 1 <= n && i + n <= |data|
    requires var r := RunBytes(r0, data[..i]);
             !Stopped(r) && r.f.state == BodyIdentity && n <= r.f.contentLength < ULLONG_MAX
    ensures var r := RunBytes(r0, data[..i]);
            var log := Push(r.log, Data(Body, data[i..i + n]));
            RunBytes(r0, data[..i + n]) ==
            if n == r.f.contentLength then
              Run(r.f.(contentLength := 0, state := MessageDone), Push(log, MessageComplete), false)
            else Run(r.f.(contentLength := r.f.contentLength - n), log, false)
    decreases n
  {
    hide ByteStep, Push;
    RunNext(r0, data, i + n - 1);
    if n == 1 {
      assert data[i..i + 1] == [data[i]];
      IdentityStep(RunBytes(r0, data[..i]), data[i]);
    } else {
      IdentityRun(r0, data, i, n - 1);
      IdentityStep(RunBytes(r0, data[..i + n - 1]), data[i + n - 1]);
      BodyGrows(RunBytes(r0, data[..i]).log, data, i, i + n - 1);
    }
  }

  /** `n` bytes of a chunk, read in one go. */
  lemma {:induction false} ChunkRun(r0: Run, data: seq<byte>, i: nat, n: nat)
    requires 1 <= n && i + n <= |data|
    requires var r := RunBytes(r0, data[..i]);
             !Stopped(r) && r.f.state == InChunk(ChunkData) && r.f.flags.chunked && n <= r.f.contentLength < ULLONG_MAX
    ensures var r := RunBytes(r0, data[..i]);
            RunBytes(r0, data[..i + n]) ==
            Run(r.f.(contentLength := r.f.contentLength - n,
                     state := if n == r.f.contentLength then InChunk(ChunkDataAlmostDone) else InChunk(ChunkData)),
                Push(r.log, Data(Body, data[i..i + n])), false)
    decreases n
  {
    hide ByteStep, Push;
    RunNext(r0, data, i + n - 1);
    if n == 1 {
      assert data[i..i + 1] == [data[i]];
      ChunkStep(RunBytes(r0, data[..i]), data[i]);
    } else {
      ChunkRun(r0, data, i, n - 1);
      ChunkStep(RunBytes(r0, data[..i + n - 1]), data[i + n - 1]);
      BodyGrows(RunBytes(r0, data[..i]).log, data, i, i + n - 1);
    }
  }

  lemma {:induction false} EofRun(r0: Run, data: seq<byte>, i: nat, n: nat)
    requires 1 <= n && i + n <= |data|
    requires !Stopped(RunBytes(r0, data[..i])) && RunBytes(r0, data[..i]).f.state == BodyIdentityEof
    ensures var r := RunBytes(r0, data[..i]);
            RunBytes(r0, data[..i + n]) == Run(r.f, Push(r.log, Data(Body, data[i..i + n])), false)
    decreases n
  {
    hide ByteStep, Push;
    RunNext(r0, data, i + n - 1);
    if n == 1 {
      assert data[i..i + 1] == [data[i]];
      EofStep(RunBytes(r0, data[..i]), data[i]);
    } else {
      EofRun(r0, data, i, n - 1);
      EofStep(RunBytes(r0, data[..i + n - 1]), data[i + n - 1]);
      BodyGrows(RunBytes(r0, data[..i]).log, data, i, i + n - 1);
    }
  }

  /** A byte of a URL either goes on with it or ends it. */
  lemma UrlShape(f: Fields, c: byte)
    requires f.state.InUrl? && f.errno == OK
    ensures var o := Dispatch(f, c);
            && !o.exit
            && if o.events == [] then o.f.errno != OK || o.f.state.InUrl?
               else o.events == [Data(Url, [])] && o.f.errno == OK && !HasKind(o.f.state)
  {
    hide NextGuess, FirstGuess, MethodChar, IsAlpha, IsUpper, Unhex, IsUrlChar, IsUserinfoChar;
  }

  /** The states whose arms read a body, or mark the end of a piece of one. */
  predicate ReadsBody(s: State) {
    s.BodyIdentity? || s.BodyIdentityEof? || s == InChunk(ChunkData) || s == InChunk(ChunkDataAlmostDone)
  }

  /** A byte that ends the use of this connection by HTTP leaves no text behind. */
  lemma {:induction false} ExitShape(f: Fields, c: byte)
    requires f.errno == OK
    ensures Dispatch(f, c).exit ==> Dispatch(f, c).f.errno == OK && !HasKind(Dispatch(f, c).f.state)
    decreases Rank(f.state)
  {
    if Rank(f.state) > 1 {
      match Rereading(f, c)
      case Take(_) =>
      case Reread(g, _) => ExitShape(g, c);
    }
  }

  /** The mark set while reading byte `i`. */
  function MarkAfter(f: Fields, i: nat): Marks {
    if f.errno == OK && HasKind(f.state) then Only(KindOf(f.state), i) else NO_MARKS
  }

  /** A byte read when no text is in progress. */
  lemma PlainRun(r0: Run, data: seq<byte>, i: nat, g: Fields, log: seq<Event>)
    requires i < |data| && g.errno == OK && Counted(g).errno == OK && !HasKind(g.state)
    requires RunBytes(r0, data[..i]) == Run(g, log, false)
    ensures var o := Dispatch(Counted(g), data[i]);
            var m := MarkAfter(o.f, i);
            if o.f.errno != OK then RunBytes(r0, data).f.errno != OK
            else
              && MarksOk(m, o.f.state, i + 1, |data|)
              && (o.exit ==> m == NO_MARKS)
              && RunBytes(r0, data[..i + 1]) ==
                Run(o.f, PushAll(PushAll(log, o.events), Pending(m, data, i + 1)), o.exit)
  {
    hide Dispatch, Counted, Push;
    var o := Dispatch(Counted(g), data[i]);
    RunNext(r0, data, i);
    ExitShape(Counted(g), data[i]);
    if o.f.errno != OK {
      StoppedAt(r0, data, i + 1);
    } else {
      PushAllSplit(log, o.events, OwnData(o.f, data[i]));
      if HasKind(o.f.state) {
        OwnPending(o.f, data, i);
      } else {
        assert o.events + [] == o.events;
      }
    }
  }

  /** A byte read in the middle of a URL. */
  lemma UrlRun(r0: Run, data: seq<byte>, i: nat, g: Fields, log: seq<Event>, m: Marks)
    requires i < |data| && g.errno == OK && Counted(g).errno == OK
    requires g.state.InUrl? && 0 <= m.url <= i && m == Only(Url, m.url)
    requires RunBytes(r0, data[..i]) == Run(g, PushAll(log, Pending(m, data, i)), false)
    ensures var o := Dispatch(Counted(g), data[i]);
            && (o.f.errno != OK ==> RunBytes(r0, data).f.errno != OK)
            && (o.f.errno == OK ==>
                  RunBytes(r0, data[..i + 1]) ==
                  Run(o.f, if o.events == [] then PushAll(log, Pending(m, data, i + 1))
                           else Push(log, Data(Url, data[m.url..i])), false))
  {
    hide Dispatch, Push, PushAll;
    var o := Dispatch(Counted(g), data[i]);
    RunNext(r0, data, i);
    UrlShape(Counted(g), data[i]);
    if o.f.errno != OK {
      StoppedAt(r0, data, i + 1);
    } else if o.events == [] {
      OwedIs(Url, m.url, data, i);
      OwedIs(Url, m.url, data, i + 1);
      SliceGrows(data, m.url, i);
      OwedGrows(Url, data[m.url..i], data[i], log);
      assert o.events + OwnData(o.f, data[i]) == [Data(Url, [data[i]])];
    } else {
      assert o.events + OwnData(o.f, data[i]) == [Data(Url, [])];
      FlushPending(Url, m.url, data, i, log);
    }
  }

  /** The callback that ends a text carries what the log is still owed. */
  lemma FlushPending(k: Kind, mark: nat, data: seq<byte>, i: nat, log: seq<Event>)
    requires mark <= i <= |data|
    ensures PushAll(PushAll(log, Pending(Only(k, mark), data, i)), [Data(k, [])]) == Push(log, Data(k, data[mark..i]))
  {
    PushOne(PushAll(log, Pending(Only(k, mark), data, i)), Data(k, []));
    if mark < i {
      PushOne(log, Data(k, data[mark..i]));
      PushTwice(log, k, data[mark..i], []);
      assert data[mark..i] + [] == data[mark..i];
    } else {
      assert data[mark..i] == [];
    }
  }

  lemma FieldEndStep(r: Run, c: byte)
    requires !Stopped(r) && r.f.state == HeaderField && Token(c) == 0 && r.f.nread + 1 <= MAX_HEADER_SIZE
    ensures if c == COLON then
              ByteStep(r, c) == Run(r.f.(nread := r.f.nread + 1, state := HeaderValueDiscardWs),
                                    PushAll(r.log, [Data(Field, [])]), false)
            else ByteStep(r, c).f.errno != OK
  {
    hide ByteStep, PushAll, Token;
    var g := r.f.(nread := r.f.nread + 1);
    assert Counted(r.f) == g;
    if c == COLON {
      StepIs(r, c, g.(state := HeaderValueDiscardWs), [Data(Field, [])]);
    } else {
      StepIs(r, c, g.(errno := InvalidHeaderToken), []);
    }
  }

  lemma ValueEndOut(f: Fields, c: byte)
    requires f.errno == OK && f.state == HeaderValue && (c == CR || c == LF)
    ensures Dispatch(f, c) ==
            Out(f.(state := if c == CR then HeaderAlmostDone else HeaderValueLws), [Data(Value, [])], false)
  {
    hide ValueChar, RequestLineByte;
    if c == LF {
      AlmostDoneLf(f.(state := HeaderAlmostDone));
      assert [Data(Value, [])] + [] == [Data(Value, [])];
    }
  }

  lemma ValueEndStep(r: Run, c: byte)
    requires !Stopped(r) && r.f.state == HeaderValue && (c == CR || c == LF) && r.f.nread + 1 <= MAX_HEADER_SIZE
    ensures ByteStep(r, c) ==
            Run(r.f.(nread := r.f.nread + 1, state := if c == CR then HeaderAlmostDone else HeaderValueLws),
                                  PushAll(r.log, [Data(Value, [])]), false)
  {
    hide ByteStep, PushAll, Dispatch;
    var g := r.f.(nread := r.f.nread + 1);
    assert Counted(r.f) == g;
    ValueEndOut(g, c);
    StepIs(r, c, g.(state := if c == CR then HeaderAlmostDone else HeaderValueLws), [Data(Value, [])]);
  }

  /** The byte that ends a header name. */
  lemma FieldEnd(r0: Run, data: seq<byte>, start: nat, p: nat, f: Fields, log: seq<Event>, mark: nat)
    requires start <= p < |data| && Lag(r0, data, start, p, f, log, Only(Field, mark))
    requires f.errno == OK && f.state == HeaderField && mark <= p
    requires Token(data[p]) == 0
    ensures var g := Count(f, p - start);
            if g.errno != OK || data[p] != COLON then RunBytes(r0, data).f.errno != OK
            else RunBytes(r0, data[..p + 1]) ==
                 Run(g.(state := HeaderValueDiscardWs), Push(Joined(log), Data(Field, data[mark..p])), false)
  {
    hide ByteStep, Push, PushAll, Joined;
    RunNext(r0, data, p);
    var r := RunBytes(r0, data[..p]);
    if !Stopped(r) {
      if r.f.nread + 1 <= MAX_HEADER_SIZE {
        FieldEndStep(r, data[p]);
        FlushPending(Field, mark, data, p, Joined(log));
      } else {
        Overflow(r, data[p]);
      }
    } else {
      StepStopped(r, data[p]);
    }
    if Stopped(RunBytes(r0, data[..p + 1])) { StoppedAt(r0, data, p + 1); }
  }

  /** The CR or LF that ends a header value. */
  lemma ValueEnd(r0: Run, data: seq<byte>, start: nat, p: nat, f: Fields, log: seq<Event>, mark: nat)
    requires start <= p < |data| && Lag(r0, data, start, p, f, log, Only(Value, mark))
    requires f.errno == OK && f.state == HeaderValue && mark <= p
    requires data[p] == CR || data[p] == LF
    ensures var g := Count(f.(state := HeaderAlmostDone), p - start);
            && g.state == HeaderAlmostDone
            && (g.errno != OK ==> RunBytes(r0, data).f.errno != OK)
            && (g.errno == OK ==>
                  RunBytes(r0, data[..p + 1]) ==
                  Run(if data[p] == CR then g else g.(state := HeaderValueLws),
                      Push(Joined(log), Data(Value, data[mark..p])), false))
  {
    hide ByteStep, Push, PushAll, Joined;
    RunNext(r0, data, p);
    var r := RunBytes(r0, data[..p]);
    if !Stopped(r) {
      if r.f.nread + 1 <= MAX_HEADER_SIZE {
        ValueEndStep(r, data[p]);
        FlushPending(Value, mark, data, p, Joined(log));
      } else {
        Overflow(r, data[p]);
      }
    } else {
      StepStopped(r, data[p]);
    }
    if Stopped(RunBytes(r0, data[..p + 1])) { StoppedAt(r0, data, p + 1); }
  }

  /** Header text that goes past the end of the buffer. */
  lemma LagOut(r0: Run, data: seq<byte>, start: nat, f: Fields, log: seq<Event>, m: Marks)
    requires start < |data| && Lag(r0, data, start, |data|, f, log, m) && f.errno == OK
    ensures var g := Count(f, |data| - 1 - start);
            if g.errno != OK then RunBytes(r0, data).f.errno != OK else At(r0, data, |data|, g, log, m)
  {
    assert data[..|data|] == data;
  }

  /** Past the header size limit the bytes no longer matter. */
  lemma LagSkip(r0: Run, data: seq<byte>, start: nat, p: nat, f: Fields, log: seq<Event>, m: Marks)
    requires start <= p < |data| && Lag(r0, data, start, p, f, log, m)
    requires f.nread + (p - start) > MAX_HEADER_SIZE && ParsingHeader(f.state)
    ensures Lag(r0, data, start, p + 1, f, log, m)
  {
    hide ByteStep;
    RunNext(r0, data, p);
    var r := RunBytes(r0, data[..p]);
    if !Stopped(r) { Overflow(r, data[p]); } else { StepStopped(r, data[p]); }
  }

  /** Header names that are not recognised are skipped over. */
  lemma LagGeneral(r0: Run, data: seq<byte>, start: nat, p: nat, f: Fields, log: seq<Event>, m: Marks)
    requires start <= p < |data| && Lag(r0, data, start, p, f, log, m)
    requires f.errno == OK && f.state == HeaderField && 0 <= m.field <= p && m == Only(Field, m.field)
    requires Token(data[p]) != 0 && f.headerState == General
    ensures Lag(r0, data, start, p + 1, f, log, m)
  {
    hide ByteStep, RunBytes, PushAll, Token;
    LagField(r0, data, start, p, f, log, m.field);
    assert FieldChar(f, Token(data[p]), data[p]) == f;
  }

  lemma NoneOwed(r0: Run, data: seq<byte>, i: nat, f: Fields, log: seq<Event>)
    requires i <= |data| && f.errno == OK && !HasKind(f.state)
    requires RunBytes(r0, data[..i]) == Run(f, Joined(log), false)
    ensures Ended(r0, data, i, f, log, NO_MARKS, false)
  {
  }

  lemma NoPending(log: seq<Event>, data: seq<byte>, i: nat)
    requires i <= |data|
    ensures PushAll(log, Pending(NO_MARKS, data, i)) == log
  {
  }

  lemma BodyOwed(r0: Run, data: seq<byte>, i: nat, j: nat, f: Fields, log: seq<Event>)
    requires i < j <= |data| && f.errno == OK
    requires f.state == InChunk(ChunkDataAlmostDone) || 
             (j == |data| && (f.state.BodyIdentity? || f.state == InChunk(ChunkData) || f.state.BodyIdentityEof?))
    requires RunBytes(r0, data[..j]) == Run(f, Push(Joined(log), Data(Body, data[i..j])), false)
    ensures Ended(r0, data, j, f, log, Only(Body, i), false)
  {
    hide Push, RunBytes;
    PushOne(Joined(log), Data(Body, data[i..j]));
  }

  lemma PendingBody(m: Marks, data: seq<byte>, i: nat, log: seq<Event>)
    requires i <= |data| && (m == NO_MARKS || (0 <= m.body < i && m == Only(Body, m.body)))
    ensures PushAll(log, Pending(m, data, i)) == if m.body >= 0 then Push(log, Data(Body, data[m.body..i])) else log
  {
    if m.body >= 0 { PushOne(log, Data(Body, data[m.body..i])); }
  }

  lemma BadIdentity(r0: Run, data: seq<byte>, i: nat)
    requires i < |data| && !Stopped(RunBytes(r0, data[..i]))
    requires var f := RunBytes(r0, data[..i]).f;
             f.state == BodyIdentity && (f.contentLength == 0 || f.contentLength == ULLONG_MAX)
    ensures RunBytes(r0, data).f.errno != OK
  {
    hide ByteStep;
    RunNext(r0, data, i);
    IdentityStep(RunBytes(r0, data[..i]), data[i]);
    StoppedAt(r0, data, i + 1);
  }

  lemma BadChunk(r0: Run, data: seq<byte>, i: nat)
    requires i < |data| && !Stopped(RunBytes(r0, data[..i]))
    requires var f := RunBytes(r0, data[..i]).f;
             f.state == InChunk(ChunkData)
               && (!f.flags.chunked || f.contentLength == 0 || f.contentLength == ULLONG_MAX)
    ensures RunBytes(r0, data).f.errno != OK
  {
    hide ByteStep;
    RunNext(r0, data, i);
    ChunkStep(RunBytes(r0, data[..i]), data[i]);
    StoppedAt(r0, data, i + 1);
  }

  lemma ChunkEndRun(r0: Run, data: seq<byte>, i: nat)
    requires i < |data| && !Stopped(RunBytes(r0, data[..i]))
             && RunBytes(r0, data[..i]).f.state == InChunk(ChunkDataAlmostDone)
    ensures var r := RunBytes(r0, data[..i]);
            var f := ChunkDataAlmostDoneByte(r.f, data[i]).f;
            if f.errno != OK then RunBytes(r0, data).f.errno != OK
            else RunBytes(r0, data[..i + 1]) == Run(f, r.log, false) && f.state == InChunk(ChunkDataDone)
  {
    hide ByteStep;
    RunNext(r0, data, i);
    ChunkEndStep(RunBytes(r0, data[..i]), data[i]);
    if RunBytes(r0, data[..i + 1]).f.errno != OK { StoppedAt(r0, data, i + 1); }
  }

  lemma ChunkEndStep(r: Run, c: byte)
    requires !Stopped(r) && r.f.state == InChunk(ChunkDataAlmostDone)
    ensures ByteStep(r, c) == Run(ChunkDataAlmostDoneByte(r.f, c).f, r.log, false)
  {
    hide PushAll, ByteStep, RequestLineByte;
    NoEvents(r.log);
    StepIs(r, c, ChunkDataAlmostDoneByte(r.f, c).f, []);
  }

  lemma NoEvents(log: seq<Event>)
    ensures PushAll(log, []) == log
  {
  }

  lemma AlmostDoneLf(f: Fields)
    requires f.errno == OK && f.state == HeaderAlmostDone
    ensures Dispatch(f, LF) == Goto(f, HeaderValueLws)
  {
    hide RequestLineByte;
  }

  lemma LagStart(r0: Run, data: seq<byte>, i: nat, g: Fields, log: seq<Event>, m: Marks)
    requires i <= |data| && g.errno == OK && ParsingHeader(g.state) && Counted(g).errno == OK
    requires At(r0, data, i, g, log, m)
    ensures Lag(r0, data, i, i, Counted(g), log, m)
  {
    assert Counted(g).(nread := g.nread) == g;
  }

  lemma StartAt(r0: Run, data: seq<byte>, f: Fields, log: seq<Event>, m: Marks)
    requires r0 == Run(f, Joined(log), false)
    requires m == if HasKind(f.state) then Only(KindOf(f.state), 0) else NO_MARKS
    ensures At(r0, data, 0, f, log, m)
  {
    assert data[..0] == [];
  }

  lemma CountedIs(f: Fields)
    ensures Counted(f) == if ParsingHeader(f.state) then Count(f, 1) else f
  {
  }

  lemma CountStep(r0: Run, data: seq<byte>, i: nat, g: Fields, log: seq<Event>, m: Marks)
    requires i < |data| && g.errno == OK && At(r0, data, i, g, log, m) && ParsingHeader(g.state)
    ensures Count(g, 1).errno != OK ==> RunBytes(r0, data).f.errno != OK
  {
    hide ByteStep;
    if g.nread + 1 > MAX_HEADER_SIZE {
      RunNext(r0, data, i);
      Overflow(RunBytes(r0, data[..i]), data[i]);
      StoppedAt(r0, data, i + 1);
    }
  }
}
