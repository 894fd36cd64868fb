/** The HTTP/1.x request parser as it runs: whole buffers, marks into the buffer, inner
    loops over header text and bodies, and an owner that collects the request. */
module HttpParser {
  import opened Bytes
  import opened HttpSyntax
  import opened HttpStep
  import opened HttpRun
  import opened HttpReceive
  import opened HttpMarks

  class Parser {
    var f: Fields
    var req: Request
    var naming: bool
    var headerField: seq<byte>
    var headerValue: seq<byte>
    var complete: bool

    /** The callbacks made since the last `Clear`. */
    ghost var log: seq<Event>

    function Snapshot(): Owner
      reads this
    {
      Owner(req, naming, headerField, headerValue, complete)
    }

    ghost predicate Valid()
      reads this
    {
      Snapshot() == ReceiveAll(NEW_OWNER, log)
    }

    /** The run this parser stands at. */
    ghost function Start(): Run
      reads this
    {
      Run(f, Joined(log), false)
    }

    constructor ()
      ensures Valid() && log == []
      ensures f == Fields(StartReq, General, NO_FLAGS, 0, false, 0, 0, 0, 0, 0, OK, false, false, false)
    {
      hide Receive;
      f := Fields(StartReq, General, NO_FLAGS, 0, false, 0, 0, 0, 0, 0, OK, false, false, false);
      req, naming, headerField, headerValue, complete := NO_REQUEST, false, [], [], false;
      log := [];
    }

    /** Gets ready for the next message on the same connection. */
    method Clear()
      modifies this
      ensures Valid() && log == [] && f == old(f).(state := StartReq)
    {
      hide ReceiveAll, Receive, Joined;
      ReceiveNone(NEW_OWNER);
      f := f.(state := StartReq);
      req, naming, headerField, headerValue, complete := NO_REQUEST, false, [], [], false;
      log := [];
    }

    method OnHeaderField(b: seq<byte>)
      modifies this`req, this`naming, this`headerField, this`headerValue
      ensures Snapshot() == Receive(old(Snapshot()), Data(Field, b))
    {
      if naming {
        headerField := headerField + b;
      } else {
        if headerValue != [] {
          req := AddHeader(req, headerField, headerValue);
          headerField, headerValue := [], [];
        }
        headerField := b;
        naming := true;
      }
    }

    method OnHeaderValue(b: seq<byte>)
      modifies this`naming, this`headerValue
      ensures Snapshot() == Receive(old(Snapshot()), Data(Value, b))
    {
      if naming {
        naming := false;
        headerValue := b;
      } else {
        headerValue := headerValue + b;
      }
    }

    method OnHeadersComplete(major: nat, minor: nat, keep: bool, close: bool, up: bool)
      modifies this`req, this`headerField, this`headerValue
      ensures Snapshot() == Receive(old(Snapshot()), HeadersComplete(major, minor, keep, close, up))
    {
      if headerField != [] {
        req := AddHeader(req, headerField, headerValue);
        headerField, headerValue := [], [];
      }
      req := SetConnection(req, major, minor, keep, close, up);
    }

    /** One callback. */
    method Fire(e: Event)
      requires Valid()
      modifies this
      ensures Valid() && f == old(f) && log == old(log) + [e] && Joined(log) == Push(old(Joined(log)), e)
    {
      hide ReceiveAll, Push, Joined;
      ReceiveSnoc(NEW_OWNER, log, e);
      JoinedSnoc(log, e);
      match e {
        case Data(Url, b) => req := req.(rawUrl := req.rawUrl + b);
        case Data(Field, b) => OnHeaderField(b);
        case Data(Value, b) => OnHeaderValue(b);
        case Data(Body, b) => req := req.(body := req.body + b);
        case MessageBegin =>
        case OnMethod(m) => req := req.(verb := m);
        case HeadersComplete(a, b, k, c, u) => OnHeadersComplete(a, b, k, c, u);
        case MessageComplete => complete := true;
      }
      log := log + [e];
    }

    method FireAll(es: seq<Event>)
      requires Valid()
      modifies this
      ensures Valid() && f == old(f) && log == old(log) + es && Joined(log) == PushAll(old(Joined(log)), es)
    {
      for k := 0 to |es|
        invariant Valid() && f == old(f) && log == old(log) + es[..k]
        invariant Joined(log) == PushAll(old(Joined(log)), es[..k])
      {
        assert es[..k + 1][..k] == es[..k];
        Fire(es[k]);
      }
      assert es[..|es|] == es;
    }

    /** A byte that is neither header text, URL text nor body: the arms of the switch that
        leave no mark behind but may set one. */
    method PlainByte(data: seq<byte>, i: nat, ghost r0: Run, ghost g: Fields) returns (m: Marks, exit: bool)
      requires Valid() && i < |data| && f.errno == OK && f == Counted(g) && g.errno == OK
      requires !HasKind(f.state) && !ReadsBody(f.state)
      requires RunBytes(r0, data[..i]) == Run(g, Joined(log), false)
      modifies this
      ensures Valid() && Ended(r0, data, i + 1, f, log, m, exit)
    {
      hide Dispatch, Push, ByteStep, RunBytes, ReceiveAll;
      PlainRun(r0, data, i, g, Joined(log));
      var o := Dispatch(f, data[i]);
      f := o.f;
      FireAll(o.events);
      m, exit := MarkAfter(f, i), o.exit;
    }

    /** A byte read in the middle of a URL. */
    method UrlByte(data: seq<byte>, i: nat, m: Marks, ghost r0: Run, ghost g: Fields) returns (m': Marks)
      requires Valid() && i < |data| && f.errno == OK && f == Counted(g) && g.errno == OK
      requires f.state.InUrl? && MarksOk(m, f.state, i, |data|) && At(r0, data, i, g, log, m)
      modifies this
      ensures Valid() && Ended(r0, data, i + 1, f, log, m', false)
    {
      hide Dispatch, Push, ByteStep, RunBytes, ReceiveAll;
      UrlRun(r0, data, i, g, Joined(log), m);
      UrlShape(f, data[i]);
      var o := Dispatch(f, data[i]);
      f := o.f;
      m' := m;
      if o.events != [] {
        Fire(Data(Url, data[m.url..i]));
        m' := NO_MARKS;
      }
    }

    /** The inner loop over the token characters of a header name. `f` counts byte `i` already. */
    method FieldText(data: seq<byte>, i: nat, m: Marks, ghost r0: Run) returns (p: nat)
      requires i < |data| && f.errno == OK && f.state == HeaderField
      requires MarksOk(m, f.state, i, |data|) && Lag(r0, data, i, i, f, log, m)
      modifies this`f
      ensures f.errno != OK ==> RunBytes(r0, data).f.errno != OK
      ensures f.errno == OK ==>
        && f.state == HeaderField && i <= p <= |data| && (p < |data| ==> Token(data[p]) == 0)
        && Lag(r0, data, i, p, f, log, m)
    {
      hide Push, PushAll, ByteStep, RunBytes, FieldState, FieldIndex, Token;
      p := i;
      while p < |data| && Token(data[p]) != 0
        invariant i <= p <= |data|
        invariant f.errno == OK && f.state == HeaderField && Lag(r0, data, i, p, f, log, m)
        decreases |data| - p
      {
        if f.headerState == General {
          // an unrecognised name is skipped over
          var left := |data| - p;
          var pe := p + if left < MAX_HEADER_SIZE then left else MAX_HEADER_SIZE;
          LagGeneral(r0, data, i, p, f, log, m);
          while p + 1 < pe && Token(data[p + 1]) != 0
            invariant i <= p < pe <= |data| && Lag(r0, data, i, p + 1, f, log, m)
            modifies {}
          {
            p := p + 1;
            LagGeneral(r0, data, i, p, f, log, m);
          }
        } else {
          LagField(r0, data, i, p, f, log, m.field);
          f := FieldChar(f, Token(data[p]), data[p]);
          if f.errno != OK {
            StoppedAt(r0, data, p + 1);
            return;
          }
        }
        p := p + 1;
      }
    }

    /** Reads a header name up to its colon or the end of the buffer. */
    method ScanField(data: seq<byte>, i: nat, m: Marks, ghost r0: Run) returns (next: nat, m': Marks)
      requires Valid() && i < |data| && f.errno == OK && f.state == HeaderField
      requires MarksOk(m, f.state, i, |data|) && Lag(r0, data, i, i, f, log, m)
      modifies this
      ensures Valid() && Ended(r0, data, next, f, log, m', false) && (f.errno == OK ==> i < next)
    {
      hide Push, PushAll, ByteStep, RunBytes, ReceiveAll, Receive, Token, Lag, At, Joined;
      var p := FieldText(data, i, m, r0);
      next, m' := p, m;
      if f.errno != OK { return; }
      if p == |data| {
        LagOut(r0, data, i, f, log, m);
        f := Count(f, p - 1 - i);
        return;
      }
      FieldEnd(r0, data, i, p, f, log, m.field);
      f := Count(f, p - i);
      if f.errno != OK { return; }
      if data[p] == COLON {
        f := f.(state := HeaderValueDiscardWs);
        Fire(Data(Field, data[m.field..p]));
        next, m' := p + 1, NO_MARKS;
        NoneOwed(r0, data, p + 1, f, log);
      } else {
        f := f.(errno := InvalidHeaderToken);
      }
    }

    /** The inner loop over a header value, up to a CR or LF. */
    method ValueText(data: seq<byte>, i: nat, m: Marks, ghost r0: Run) returns (p: nat)
      requires i < |data| && f.errno == OK && f.state == HeaderValue
      requires MarksOk(m, f.state, i, |data|) && Lag(r0, data, i, i, f, log, m)
      modifies this`f
      ensures f.errno != OK ==> RunBytes(r0, data).f.errno != OK
      ensures f.errno == OK ==>
        && f.state == HeaderValue && i <= p <= |data| && (p < |data| ==> data[p] == CR || data[p] == LF)
        && Lag(r0, data, i, p, f, log, m)
    {
      hide Push, PushAll, ByteStep, RunBytes, ValueState, ValueIndex, ValueError;
      p := i;
      while p < |data| && data[p] != CR && data[p] != LF
        invariant i <= p <= |data|
        invariant f.errno == OK && f.state == HeaderValue && Lag(r0, data, i, p, f, log, m)
        decreases |data| - p
      {
        LagValue(r0, data, i, p, f, log, m.value);
        var g := ValueChar(f, data[p]);
        if g.errno != OK {
          f := g;
          StoppedAt(r0, data, p + 1);
          return;
        }
        if f.headerState == General {
          p := SkipValue(data, i, p, m, r0);
          if f.errno != OK { return; }
        } else {
          f := g;
          p := p + 1;
        }
      }
    }

    /** An unrecognised value is skipped over. The scan looks at no more bytes than the header
        size limit; when it gets that far it also passes over the byte it stopped at. */
    method SkipValue(data: seq<byte>, i: nat, from: nat, m: Marks, ghost r0: Run) returns (p: nat)
      requires i <= from < |data| && f.errno == OK && f.state == HeaderValue && f.headerState == General
      requires data[from] != CR && data[from] != LF && ValueChar(f, data[from]).errno == OK
      requires MarksOk(m, f.state, from, |data|) && Lag(r0, data, i, from, f, log, m)
      modifies this`f
      ensures f.errno != OK ==> RunBytes(r0, data).f.errno != OK
      ensures f.errno == OK ==> f == old(f) && from < p <= |data| && Lag(r0, data, i, p, f, log, m)
    {
      hide Push, PushAll, ByteStep, RunBytes;
      var left := |data| - from;
      var pe := from + if left < MAX_HEADER_SIZE then left else MAX_HEADER_SIZE;
      p := from;
      while p != pe && data[p] != CR && data[p] != LF
        invariant from <= p <= pe <= |data| && f == old(f) && Lag(r0, data, i, p, f, log, m)
        invariant p == from ==> data[p] != CR && data[p] != LF
        modifies this`f
        decreases pe - p
      {
        LagValue(r0, data, i, p, f, log, m.value);
        if !f.lenient && !IsHeaderChar(data[p]) {
          f := f.(errno := InvalidHeaderToken);
          StoppedAt(r0, data, p + 1);
          return;
        }
        assert ValueChar(f, data[p]) == f;
        p := p + 1;
      }
      if p == pe && p != |data| {
        LagSkip(r0, data, i, p, f, log, m);
        p := p + 1;
      }
    }

    /** The CR or LF at `p` that ends a header value begun before or in this buffer. */
    method EndValue(data: seq<byte>, i: nat, p: nat, m: Marks, ghost r0: Run)
      requires Valid() && i <= p < |data| && f.errno == OK && f.state == HeaderValue
      requires MarksOk(m, f.state, p, |data|) && Lag(r0, data, i, p, f, log, m) && (data[p] == CR || data[p] == LF)
      modifies this
      ensures Valid() && Ended(r0, data, p + 1, f, log, NO_MARKS, false)
    {
      hide Dispatch, Push, PushAll, ByteStep, RunBytes, ReceiveAll, Receive, Lag, At, Joined, Count;
      ValueEnd(r0, data, i, p, f, log, m.value);
      var counted := Count(f.(state := HeaderAlmostDone), p - i);
      if data[p] == CR {
        f := f.(state := HeaderAlmostDone);
        Fire(Data(Value, data[m.value..p]));
        f := counted;
        if f.errno != OK { return; }
      } else {
        f := counted;
        if f.errno != OK { return; }
        Fire(Data(Value, data[m.value..p]));
        AlmostDoneLf(f);
        f := Dispatch(f, LF).f;  // the LF is read again
      }
      NoneOwed(r0, data, p + 1, f, log);
    }

    /** Reads a header value up to the end of its line or the end of the buffer. */
    method ScanValue(data: seq<byte>, i: nat, m: Marks, ghost r0: Run) returns (next: nat, m': Marks)
      requires Valid() && i < |data| && f.errno == OK && f.state == HeaderValue
      requires MarksOk(m, f.state, i, |data|) && Lag(r0, data, i, i, f, log, m)
      modifies this
      ensures Valid() && Ended(r0, data, next, f, log, m', false) && (f.errno == OK ==> i < next)
    {
      hide Push, PushAll, ByteStep, RunBytes, ReceiveAll, Receive, Lag, At, Joined;
      var p := ValueText(data, i, m, r0);
      next, m' := p, m;
      if f.errno != OK { return; }
      if p == |data| {
        LagOut(r0, data, i, f, log, m);
        f := Count(f, p - 1 - i);
      } else {
        EndValue(data, i, p, m, r0);
        next, m' := p + 1, NO_MARKS;
      }
    }

    /** Reads as much as there is of a body whose length is known. */
    method ReadIdentity(data: seq<byte>, i: nat, ghost r0: Run) returns (next: nat, m': Marks)
      requires Valid() && i < |data| && f.errno == OK && f.state == BodyIdentity
      requires At(r0, data, i, f, log, NO_MARKS)
      modifies this
      ensures Valid() && Ended(r0, data, next, f, log, m', false) && (f.errno == OK ==> i < next)
    {
      hide Push, PushAll, ByteStep, RunBytes, ReceiveAll, Receive;
      next, m' := i, NO_MARKS;
      NoPending(Joined(log), data, i);
      if f.contentLength == 0 || f.contentLength == ULLONG_MAX {
        BadIdentity(r0, data, i);
        f := f.(errno := AssertFailed);
        return;
      }
      var toRead := if f.contentLength < |data| - i then f.contentLength else |data| - i;
      IdentityRun(r0, data, i, toRead);
      f := f.(contentLength := f.contentLength - toRead);
      next := i + toRead;
      if f.contentLength == 0 {
        f := f.(state := MessageDone);
        Fire(Data(Body, data[i..next]));
        Fire(MessageComplete);
        NoneOwed(r0, data, next, f, log);
      } else {
        m' := Only(Body, i);
        BodyOwed(r0, data, i, next, f, log);
      }
    }

    /** Reads as much as there is of a chunk. */
    method ReadChunk(data: seq<byte>, i: nat, ghost r0: Run) returns (next: nat, m': Marks)
      requires Valid() && i < |data| && f.errno == OK && f.state == InChunk(ChunkData)
      requires At(r0, data, i, f, log, NO_MARKS)
      modifies this
      ensures Valid() && Ended(r0, data, next, f, log, m', false) && (f.errno == OK ==> i < next)
    {
      hide Push, PushAll, ByteStep, RunBytes, ReceiveAll, Receive;
      next, m' := i, NO_MARKS;
      NoPending(Joined(log), data, i);
      if !f.flags.chunked || f.contentLength == 0 || f.contentLength == ULLONG_MAX {
        BadChunk(r0, data, i);
        f := f.(errno := AssertFailed);
        return;
      }
      var toRead := if f.contentLength < |data| - i then f.contentLength else |data| - i;
      ChunkRun(r0, data, i, toRead);
      f := f.(contentLength := f.contentLength - toRead);
      if f.contentLength == 0 { f := f.(state := InChunk(ChunkDataAlmostDone)); }
      next := i + toRead;
      m' := Only(Body, i);
      BodyOwed(r0, data, i, next, f, log);
    }

    /** The CR after a chunk, where the part of the chunk in this buffer is handed over. */
    method ChunkEnd(data: seq<byte>, i: nat, m: Marks, ghost r0: Run) returns (m': Marks)
      requires Valid() && i < |data| && f.errno == OK && f.state == InChunk(ChunkDataAlmostDone)
      requires MarksOk(m, f.state, i, |data|) && At(r0, data, i, f, log, m)
      modifies this
      ensures Valid() && Ended(r0, data, i + 1, f, log, m', false)
    {
      hide Push, PushAll, ByteStep, RunBytes, ReceiveAll, Receive;
      ChunkEndRun(r0, data, i);
      PendingBody(m, data, i, Joined(log));
      m' := NO_MARKS;
      f := ChunkDataAlmostDoneByte(f, data[i]).f;
      if f.errno != OK { return; }
      if m.body >= 0 { Fire(Data(Body, data[m.body..i])); }
      NoneOwed(r0, data, i + 1, f, log);
    }

    /** Everything that is left belongs to a body that ends with the connection. */
    method ReadToEnd(data: seq<byte>, i: nat, ghost r0: Run) returns (m': Marks)
      requires Valid() && i < |data| && f.errno == OK && f.state == BodyIdentityEof
      requires At(r0, data, i, f, log, NO_MARKS)
      modifies this
      ensures Valid() && Ended(r0, data, |data|, f, log, m', false)
    {
      hide Push, PushAll, ByteStep, RunBytes, ReceiveAll, Receive;
      NoPending(Joined(log), data, i);
      EofRun(r0, data, i, |data| - i);
      m' := Only(Body, i);
      BodyOwed(r0, data, i, |data|, f, log);
    }

    /** The switch over the state for byte `i`, which may read any number of bytes after it. */
    method Switch(data: seq<byte>, i: nat, m: Marks, ghost r0: Run, ghost g: Fields) returns (next: nat, m': Marks,
        exit: bool)
      requires Valid() && i < |data| && f.errno == OK && f == Counted(g) && g.errno == OK
      requires MarksOk(m, f.state, i, |data|) && At(r0, data, i, g, log, m)
      modifies this
      ensures Valid() && Ended(r0, data, next, f, log, m', exit) && (f.errno == OK ==> i < next)
    {
      hide Dispatch, Push, PushAll, ByteStep, RunBytes, ReceiveAll, Receive, Pending;
      next, m', exit := i + 1, m, false;
      NoPending(Joined(log), data, i);
      if f.state == HeaderField {
        LagStart(r0, data, i, g, log, m);
        next, m' := ScanField(data, i, m, r0);
      } else if f.state == HeaderValue {
        LagStart(r0, data, i, g, log, m);
        next, m' := ScanValue(data, i, m, r0);
      } else if f.state == BodyIdentity {
        next, m' := ReadIdentity(data, i, r0);
      } else if f.state == BodyIdentityEof {
        m' := ReadToEnd(data, i, r0);
        next := |data|;
      } else if f.state == InChunk(ChunkData) {
        next, m' := ReadChunk(data, i, r0);
      } else if f.state == InChunk(ChunkDataAlmostDone) {
        m' := ChunkEnd(data, i, m, r0);
      } else if f.state.InUrl? {
        m' := UrlByte(data, i, m, r0, g);
      } else {
        m', exit := PlainByte(data, i, r0, g);
      }
    }

    /** Hands over the text that the end of the buffer has cut off; there is at most one. */
    method FireOwed(data: seq<byte>, m: Marks, ghost s: State)
      requires Valid() && data != [] && MarksOk(m, s, |data|, |data|)
      modifies this
      ensures Valid() && f == old(f) && log == old(log) + Pending(m, data, |data|)
      ensures Joined(log) == PushAll(old(Joined(log)), Pending(m, data, |data|))
    {
      hide Push, PushAll, Joined, Receive, ReceiveAll;
      var n := |data|;
      NoEvents(Joined(log));
      if m.field >= 0 { FireText(Field, data, m.field); }
      if m.value >= 0 { FireText(Value, data, m.value); }
      if m.url >= 0 { FireText(Url, data, m.url); }
      if m.body >= 0 { FireText(Body, data, m.body); }
    }

    method FireText(k: Kind, data: seq<byte>, from: nat)
      requires Valid() && from <= |data|
      modifies this
      ensures Valid() && f == old(f) && log == old(log) + [Data(k, data[from..|data|])]
      ensures Joined(log) == PushAll(old(Joined(log)), [Data(k, data[from..|data|])])
    {
      hide Push, PushAll, Joined, Receive, ReceiveAll;
      assert data[from..] == data[from..|data|];
      PushOne(Joined(log), Data(k, data[from..]));
      Fire(Data(k, data[from..]));
    }

    /** Parses one buffer. An empty one tells the parser that the connection has ended.
        Without an error the parser ends up where the byte-at-a-time run does, and it
        reports an error exactly when that run does. */
    method Execute(data: seq<byte>) returns (parsed: nat)
      requires Valid() && |data| < 0x8000_0000
      modifies this
      ensures Valid()
      ensures old(f.errno) != OK ==> parsed == 0 && f == old(f) && log == old(log)
      ensures old(f.errno) == OK && data == [] ==>
        if old(f.state) == BodyIdentityEof then f == old(f) && log == old(log) + [MessageComplete] && parsed == 0
        else log == old(log) && if old(f.state) == Dead || old(f.state) == StartReq then f == old(f) && parsed == 0
                                else f == old(f).(errno := InvalidEofState) && parsed == 1
      ensures old(f.errno) == OK && data != [] ==> ParsedAs(old(Start()), data, parsed)
    {
      hide Counted, Dispatch, Push, PushAll, ByteStep, RunBytes, ReceiveAll, Receive, Pending;
      if f.errno != OK { return 0; }
      if data == [] {
        match f.state {
          case BodyIdentityEof => Fire(MessageComplete); return 0;
          case Dead => return 0;
          case StartReq => return 0;
          case _ => f := f.(errno := InvalidEofState); return 1;
        }
      }
      ghost var r0 := Start();
      var i := 0;
      var m := if HasKind(f.state) then Only(KindOf(f.state), 0) else NO_MARKS;
      StartAt(r0, data, f, log, m);
      while i < |data|
        invariant Valid() && i <= |data| && f.errno == OK && MarksOk(m, f.state, i, |data|)
        invariant At(r0, data, i, f, log, m)
      {
        ghost var g := f;
        if ParsingHeader(f.state) {
          f := Count(f, 1);
          CountStep(r0, data, i, g, log, m);
          if f.errno != OK { return i; }
        }
        CountedIs(g);
        var exit;
        i, m, exit := Switch(data, i, m, r0, g);
        if f.errno != OK { return i; }
        if exit {
          StoppedAt(r0, data, i);
          return i;
        }
      }
      FireOwed(data, m, f.state);
      assert data[..|data|] == data;
      return |data|;
    }

    /** `Execute` seen from the outside: the run `r0` over `data` ended in this parser. */
    ghost predicate ParsedAs(r0: Run, data: seq<byte>, parsed: nat)
      reads this
    {
      var r := RunBytes(r0, data);
      if f.errno != OK then r.f.errno != OK
      else
        && r.f == f && r.log == Joined(log)
        && (if r.exit then parsed <= |data| && RunBytes(r0, data[..parsed]) == r else parsed == |data|)
    }

    /** Feeds a buffer that came from the connection; once the message is complete, the rest is ignored. */
    method Feed(buffer: seq<byte>) returns (ok: bool)
      requires Valid() && |buffer| < 0x8000_0000
      modifies this
      ensures Valid()
      ensures old(complete) ==> ok && f == old(f) && log == old(log)
      ensures !old(complete) && old(f.errno) != OK ==> ok == false && f == old(f) && log == old(log)
      ensures !old(complete) && old(f.errno) == OK && buffer != [] ==>
        exists parsed :: ParsedAs(old(Start()), buffer, parsed) && ok == (f.errno == OK && parsed == |buffer|)
    {
      if complete { return true; }
      var parsed := Execute(buffer);
      ok := f.errno == OK && parsed == |buffer|;
    }
  }
}
