/** Bodies of HTTP/1.x requests: chunked ones (section 4.1 of RFC 7230) and ones with a length. */
module HttpBodies {
  import opened Bytes
  import opened HttpSyntax
  import opened HttpStep
  import opened HttpRun
  import opened HttpMarks

  const CRLF: seq<byte> := [CR, LF]

  // ---- chunk sizes ----

  ghost predicate IsHex(ds: seq<byte>) {
    forall i :: 0 <= i < |ds| ==> Unhex(ds[i]) >= 0
  }

  /** The number that hexadecimal digits denote. */
  ghost function HexValue(ds: seq<byte>): nat
    requires IsHex(ds)
  {
    if ds == [] then 0 else HexValue(ds[..|ds| - 1]) * 16 + Unhex(ds[|ds| - 1])
  }

  /** The largest chunk size that is accepted. */
  const MAX_CHUNK: nat := (ULLONG_MAX - 16) / 16 * 16 + 15

  lemma SizeStartStep(r: Run, c: byte)
    requires !Stopped(r) && r.f.state == InChunk(ChunkSizeStart) && r.f.flags.chunked && r.f.nread == 0
    requires Unhex(c) >= 0
    ensures ByteStep(r, c) ==
            Run(r.f.(state := InChunk(ChunkSize), contentLength := Unhex(c), nread := 1), r.log, false)
  {
    hide Unhex, PushAll, ByteStep, RequestLineByte, HeaderByte;
    NoEvents(r.log);
    StepIs(r, c, r.f.(state := InChunk(ChunkSize), contentLength := Unhex(c), nread := 1), []);
  }

  lemma SizeStep(r: Run, c: byte)
    requires !Stopped(r) && r.f.state == InChunk(ChunkSize) && r.f.flags.chunked && r.f.nread < MAX_HEADER_SIZE
    requires Unhex(c) >= 0
    ensures if r.f.contentLength > (ULLONG_MAX - 16) / 16 then ByteStep(r, c).f.errno != OK
            else ByteStep(r, c) ==
                 Run(r.f.(contentLength := r.f.contentLength * 16 + Unhex(c), nread := r.f.nread + 1), r.log, false)
  {
    hide PushAll, ByteStep, RequestLineByte, HeaderByte;
    NoEvents(r.log);
    assert c != CR;
    var g := r.f.(nread := r.f.nread + 1);
    StepIs(r, c, ChunkSizeByte(g, c).f, []);
  }

  /** A chunk size is read as the number its digits denote, with no wrap-around; it is
      refused exactly when that number is over the limit. */
  lemma {:induction false} SizeDigits(r: Run, ds: seq<byte>)
    requires !Stopped(r) && r.f.state == InChunk(ChunkSizeStart) && r.f.flags.chunked && r.f.nread == 0
    requires ds != [] && IsHex(ds) && |ds| <= MAX_HEADER_SIZE
    ensures if HexValue(ds) > MAX_CHUNK then RunBytes(r, ds).f.errno != OK
            else RunBytes(r, ds) ==
                 Run(r.f.(state := InChunk(ChunkSize), contentLength := HexValue(ds), nread := |ds|), r.log, false)
    decreases |ds|
  {
    hide ByteStep, Unhex;
    var n := |ds| - 1;
    var init := ds[..n];
    if n == 0 {
      SizeStartStep(r, ds[0]);
    } else {
      SizeDigits(r, init);
      var s := RunBytes(r, init);
      if HexValue(init) <= MAX_CHUNK {
        SizeStep(s, ds[n]);
      } else {
        StepStopped(s, ds[n]);
      }
    }
  }

  lemma SizeCr(r: Run)
    requires !Stopped(r) && r.f.state == InChunk(ChunkSize) && r.f.flags.chunked && r.f.nread < MAX_HEADER_SIZE
    ensures ByteStep(r, CR) == Run(r.f.(state := InChunk(ChunkSizeAlmostDone), nread := r.f.nread + 1), r.log, false)
  {
    hide PushAll, ByteStep, RequestLineByte, HeaderByte;
    NoEvents(r.log);
    StepIs(r, CR, r.f.(state := InChunk(ChunkSizeAlmostDone), nread := r.f.nread + 1), []);
  }

  lemma SizeLf(r: Run)
    requires !Stopped(r) && r.f.state == InChunk(ChunkSizeAlmostDone) && r.f.flags.chunked
             && r.f.nread < MAX_HEADER_SIZE
    ensures ByteStep(r, LF) ==
            Run(if r.f.contentLength == 0 then
              r.f.(nread := 0, flags := r.f.flags.(trailing := true), state := HeaderFieldStart)
                else r.f.(nread := 0, state := InChunk(ChunkData)), r.log, false)
  {
    hide PushAll, ByteStep, RequestLineByte, HeaderByte;
    NoEvents(r.log);
    StepIs(r, LF, ChunkSizeAlmostDoneByte(r.f, LF).f, []);
  }

  lemma SizeEnd(r: Run)
    requires !Stopped(r) && r.f.state == InChunk(ChunkSize) && r.f.flags.chunked && r.f.nread + 2 <= MAX_HEADER_SIZE
    ensures RunBytes(r, CRLF) ==
            Run(if r.f.contentLength == 0 then
              r.f.(nread := 0, flags := r.f.flags.(trailing := true), state := HeaderFieldStart)
                else r.f.(nread := 0, state := InChunk(ChunkData)), r.log, false)
  {
    hide ByteStep, RunBytes;
    SizeCr(r);
    SizeLf(ByteStep(r, CR));
    Two(r, CR, LF);
  }

  lemma Two(r: Run, a: byte, b: byte)
    ensures RunBytes(r, [a, b]) == ByteStep(ByteStep(r, a), b)
    ensures RunBytes(r, [a]) == ByteStep(r, a)
  {
    hide ByteStep;
    assert [a, b][..1] == [a];
    assert [a][..0] == [];
    assert RunBytes(r, []) == r;
    assert RunBytes(r, [a]) == ByteStep(r, a);
  }

  lemma ChunkClose(r: Run)
    requires !Stopped(r) && r.f.state == InChunk(ChunkDataAlmostDone) && r.f.flags.chunked && r.f.contentLength == 0
    ensures RunBytes(r, CRLF) == Run(r.f.(nread := 0, state := InChunk(ChunkSizeStart)), r.log, false)
  {
    hide PushAll, ByteStep, RequestLineByte, HeaderByte;
    NoEvents(r.log);
    var f := r.f.(state := InChunk(ChunkDataDone));
    StepIs(r, CR, f, []);
    StepIs(Run(f, r.log, false), LF, f.(nread := 0, state := InChunk(ChunkSizeStart)), []);
    Two(r, CR, LF);
  }

  // ---- whole chunks ----

  /** A chunk and the digits that announce it. */
  datatype Chunk = Chunk(size: seq<byte>, data: seq<byte>)

  ghost predicate IsChunk(c: Chunk) {
    && c.data != [] && |c.data| <= MAX_CHUNK
    && c.size != [] && |c.size| + 2 <= MAX_HEADER_SIZE && IsHex(c.size) && HexValue(c.size) == |c.data|
  }

  ghost function Encoded(c: Chunk): seq<byte> { c.size + CRLF + c.data + CRLF }

  ghost function EncodedAll(cs: seq<Chunk>): seq<byte> {
    if cs == [] then [] else EncodedAll(cs[..|cs| - 1]) + Encoded(cs[|cs| - 1])
  }

  ghost function Content(cs: seq<Chunk>): seq<byte> {
    if cs == [] then [] else Content(cs[..|cs| - 1]) + cs[|cs| - 1].data
  }

  /** The parser is about to read a chunk size. */
  ghost predicate BeforeChunk(r: Run) {
    !Stopped(r) && r.f.state == InChunk(ChunkSizeStart) && r.f.flags.chunked && r.f.nread == 0
  }

  lemma OneChunk(r: Run, c: Chunk)
    requires BeforeChunk(r) && IsChunk(c)
    ensures RunBytes(r, Encoded(c)) == Run(r.f.(contentLength := 0), Push(r.log, Data(Body, c.data)), false)
  {
    hide ByteStep, Push, HexValue, IsHex;
    SizeDigits(r, c.size);
    var s := RunBytes(r, c.size);
    SizeEnd(s);
    RunSplit(r, c.size, CRLF);
    var t := RunBytes(s, CRLF);
    assert c.data[..|c.data|] == c.data;
    assert RunBytes(t, c.data[..0]) == t;
    ChunkRun(t, c.data, 0, |c.data|);
    RunSplit(r, c.size + CRLF, c.data);
    ChunkClose(RunBytes(t, c.data));
    RunSplit(r, c.size + CRLF + c.data, CRLF);
  }

  /** Any list of chunks delivers the concatenation of their data. */
  lemma {:induction false} AllChunks(r: Run, cs: seq<Chunk>)
    requires BeforeChunk(r) && cs != [] && forall i :: 0 <= i < |cs| ==> IsChunk(cs[i])
    ensures RunBytes(r, EncodedAll(cs)) == Run(r.f.(contentLength := 0), Push(r.log, Data(Body, Content(cs))), false)
    decreases |cs|
  {
    hide ByteStep, Push, IsChunk, Encoded, RunBytes;
    var n := |cs| - 1;
    if n == 0 {
      assert EncodedAll(cs) == [] + Encoded(cs[0]) == Encoded(cs[0]);
      assert Content(cs) == cs[0].data;
      OneChunk(r, cs[0]);
    } else {
      AllChunks(r, cs[..n]);
      RunSplit(r, EncodedAll(cs[..n]), Encoded(cs[n]));
      OneChunk(RunBytes(r, EncodedAll(cs[..n])), cs[n]);
      PushTwice(r.log, Body, Content(cs[..n]), cs[n].data);
    }
  }

  /** The last chunk, of size zero, and the empty trailer. */
  lemma LastChunk(r: Run, zeros: seq<byte>)
    requires BeforeChunk(r) && zeros != [] && IsHex(zeros) && HexValue(zeros) == 0 && |zeros| + 2 <= MAX_HEADER_SIZE
    ensures RunBytes(r, zeros + CRLF + CRLF) ==
            Run(r.f.(contentLength := 0, nread := 2, flags := r.f.flags.(trailing := true), state := HeadersAlmostDone),
                r.log + [MessageComplete], false)
  {
    hide ByteStep, PushAll, HexValue, IsHex, RunBytes;
    SizeDigits(r, zeros);
    var s := RunBytes(r, zeros);
    SizeEnd(s);
    RunSplit(r, zeros, CRLF);
    TrailerEnd(RunBytes(s, CRLF));
    RunSplit(r, zeros + CRLF, CRLF);
  }

  lemma TrailerEnd(r: Run)
    requires !Stopped(r) && r.f.state == HeaderFieldStart && r.f.flags.trailing && r.f.nread == 0
    ensures RunBytes(r, CRLF) == Run(r.f.(nread := 2, state := HeadersAlmostDone), r.log + [MessageComplete], false)
  {
    hide PushAll, ByteStep, RequestLineByte, HeaderByte;
    NoEvents(r.log);
    PushOne(r.log, MessageComplete);
    var f := r.f.(nread := 1, state := HeadersAlmostDone);
    StepIs(r, CR, f, []);
    StepIs(Run(f, r.log, false), LF, f.(nread := 2), [MessageComplete]);
    Two(r, CR, LF);
  }

  /** A chunked body delivers the concatenation of its chunks and then completes the
      message, once. */
  lemma ChunkedBody(r: Run, cs: seq<Chunk>, zeros: seq<byte>)
    requires BeforeChunk(r) && forall i :: 0 <= i < |cs| ==> IsChunk(cs[i])
    requires zeros != [] && IsHex(zeros) && HexValue(zeros) == 0 && |zeros| + 2 <= MAX_HEADER_SIZE
    ensures var s := RunBytes(r, EncodedAll(cs) + (zeros + CRLF + CRLF));
            && s.f.errno == OK && !s.exit
            && s.log == (if cs == [] then r.log else Push(r.log, Data(Body, Content(cs)))) + [MessageComplete]
  {
    hide ByteStep, Push, HexValue, IsHex, IsChunk;
    RunSplit(r, EncodedAll(cs), zeros + CRLF + CRLF);
    if cs != [] { AllChunks(r, cs); }
    LastChunk(RunBytes(r, EncodedAll(cs)), zeros);
  }

  // ---- content lengths ----

  ghost predicate IsDecimal(ds: seq<byte>) {
    forall i :: 0 <= i < |ds| ==> IsNum(ds[i])
  }

  /** The number that decimal digits denote. */
  ghost function DecimalValue(ds: seq<byte>): nat
    requires IsDecimal(ds)
  {
    if ds == [] then 0 else DecimalValue(ds[..|ds| - 1]) * 10 + (ds[|ds| - 1] - ZERO)
  }

  /** The largest content length that is accepted; it is below the value that stands for none. */
  const MAX_LENGTH: nat := (ULLONG_MAX - 10) / 10 * 10 + 9

  /** The parser is about to read the value of the first `Content-Length` header. */
  ghost predicate BeforeLength(r: Run) {
    !Stopped(r) && r.f.state == HeaderValueDiscardWs && r.f.headerState == ContentLength && !r.f.flags.contentLength
  }

  ghost function LengthRead(f: Fields, length: uint64, n: nat): Fields {
    f.(state := HeaderValue, headerState := ContentLengthNum, index := 0, flags := f.flags.(contentLength := true),
       contentLength := length, nread := f.nread + n)
  }

  lemma LengthStart(r: Run, c: byte)
    requires BeforeLength(r) && IsNum(c) && r.f.nread < MAX_HEADER_SIZE
    ensures ByteStep(r, c) == Run(LengthRead(r.f, c - ZERO, 1), Push(r.log, Data(Value, [c])), false)
  {
    hide PushAll, Push, RequestLineByte;
    var f := LengthRead(r.f, c - ZERO, 1);
    assert Dispatch(Counted(r.f), c) == Go(f);
    NoneBefore(OwnData(f, c));
    PushOne(r.log, Data(Value, [c]));
  }

  lemma LengthStep(r: Run, c: byte)
    requires !Stopped(r) && r.f.state == HeaderValue && r.f.headerState == ContentLengthNum
    requires IsNum(c) && r.f.nread < MAX_HEADER_SIZE
    ensures if r.f.contentLength > (ULLONG_MAX - 10) / 10 then ByteStep(r, c).f.errno != OK
            else ByteStep(r, c) ==
                 Run(r.f.(contentLength := r.f.contentLength * 10 + (c - ZERO), nread := r.f.nread + 1),
                     Push(r.log, Data(Value, [c])), false)
  {
    hide PushAll, Push, ByteStep;
    DigitBounds(c);
    ValueStep(r, c);
    PushOne(r.log, Data(Value, [c]));
  }

  lemma DigitBounds(c: byte)
    requires IsNum(c)
    ensures 0 <= c - ZERO <= 9
  {
  }

  /** A content length is read as the number its digits denote, with no wrap-around; it is
      refused exactly when that number is over the limit. */
  lemma {:induction false} LengthDigits(r: Run, ds: seq<byte>)
    requires BeforeLength(r) && ds != [] && IsDecimal(ds) && r.f.nread + |ds| <= MAX_HEADER_SIZE
    ensures if DecimalValue(ds) > MAX_LENGTH then RunBytes(r, ds).f.errno != OK
            else RunBytes(r, ds) ==
                 Run(LengthRead(r.f, DecimalValue(ds), |ds|), Push(r.log, Data(Value, ds)), false)
    decreases |ds|
  {
    hide ByteStep, Push, IsNum;
    var n := |ds| - 1;
    var init := ds[..n];
    DigitBounds(ds[n]);
    assert ds == init + [ds[n]];
    if n == 0 {
      assert DecimalValue(init) == 0;
      assert ds == [ds[0]];
      LengthStart(r, ds[0]);
    } else {
      LengthDigits(r, init);
      LengthNext(r, RunBytes(r, init), init, ds[n]);
    }
  }

  lemma LengthNext(r: Run, s: Run, init: seq<byte>, c: byte)
    requires !Stopped(r) && IsDecimal(init) && IsNum(c) && r.f.nread + |init| < MAX_HEADER_SIZE
    requires if DecimalValue(init) > MAX_LENGTH then s.f.errno != OK
             else s == Run(LengthRead(r.f, DecimalValue(init), |init|), Push(r.log, Data(Value, init)), false)
    ensures var v := DecimalValue(init) * 10 + (c - ZERO);
            if v > MAX_LENGTH then ByteStep(s, c).f.errno != OK
            else ByteStep(s, c) ==
                 Run(LengthRead(r.f, v, |init| + 1), Push(r.log, Data(Value, init + [c])), false)
  {
    hide ByteStep, Push, PushAll, DecimalValue, IsDecimal;
    if DecimalValue(init) <= MAX_LENGTH {
      LengthGrows(r.f, DecimalValue(init), |init|, c);
      LengthStep(s, c);
      PushTwice(r.log, Value, init, [c]);
    } else {
      StepStopped(s, c);
    }
  }

  lemma LengthGrows(f: Fields, v: uint64, k: nat, c: byte)
    requires IsNum(c) && v <= MAX_LENGTH
    ensures v > (ULLONG_MAX - 10) / 10 <==> v * 10 + (c - ZERO) > MAX_LENGTH
    ensures v <= (ULLONG_MAX - 10) / 10 ==>
              var g := LengthRead(f, v, k);
              g.(contentLength := v * 10 + (c - ZERO), nread := g.nread + 1) ==
                LengthRead(f, v * 10 + (c - ZERO), k + 1)
  {
    DigitBounds(c);
    hide IsNum;
  }

  /** A body whose length is known is delivered whole, and then the message completes, once. */
  lemma IdentityBody(r: Run, data: seq<byte>)
    requires !Stopped(r) && r.f.state == BodyIdentity && data != [] && r.f.contentLength == |data| < ULLONG_MAX
    ensures RunBytes(r, data) ==
            Run(r.f.(contentLength := 0, state := MessageDone), Push(r.log, Data(Body, data)) + [MessageComplete],
              false)
  {
    hide ByteStep;
    assert data[..|data|] == data && data[0..|data|] == data;
    assert RunBytes(r, data[..0]) == r;
    IdentityRun(r, data, 0, |data|);
  }
}
