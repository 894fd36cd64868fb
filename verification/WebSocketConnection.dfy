/** The receiving side of a WebSocket: a state machine that reads headers whole and payloads in
    pieces of any size, and puts fragments together; and both sides together. */
module WebSocketConnection {
  import opened Bytes
  import opened Options
  import opened WebSocketFrames

  datatype ReadState = MiniHeader | Len16 | Len64 | ReadMask | Payload

  /** The size of the buffer that payloads are read into. */
  const BUFFER := 4096

  // ---- the two bytes at the front of a frame, as one number ----

  function Mini(a: byte, b: byte): nat { 256 * (a as int) + b as int }

  function First(mini: nat): nat { mini / 256 }

  function Second(mini: nat): nat { mini % 256 }

  predicate IsFin(mini: nat) { First(mini) >= 128 }

  function Opcode(mini: nat): nat { First(mini) % 16 }

  lemma MiniIs(a: byte, b: byte)
    ensures First(Mini(a, b)) == a && Second(Mini(a, b)) == b
  {
  }

  // ---- what is left to read of a frame ----

  predicate HeaderOf(mini: nat, hasMask: bool, f: Frame) {
    && IsFin(mini) == f.fin && Opcode(mini) == f.opcode && hasMask == f.mask.Some?
  }

  predicate Readable(f: Frame, max: nat) {
    ValidFrame(f) && f.opcode != CLOSE && |f.payload| <= max
  }

  /** The first two bytes of a frame, and what follows them. */
  lemma MiniRead(f: Frame, rest: seq<byte>)
    requires ValidFrame(f)
    ensures var w := Encode(f) + rest;
            && |w| >= 2
            && HeaderOf(Mini(w[0], w[1]), w[1] >= 128, f) && w[1] % 128 == ShortSize(|f.payload|)
            && w[2..] == SizeBytes(|f.payload|) + (MaskBytes(f) + Body(f) + rest)
  {
    hide MaskBytes, Body, SizeBytes;
    var w := Encode(f) + rest;
    MiniIs(w[0], w[1]);
    var h := Header(f.fin, f.opcode, |f.payload|, f.mask.Some?);
    assert h == h[..2] + SizeBytes(|f.payload|);
    assert w == h[..2] + (SizeBytes(|f.payload|) + (MaskBytes(f) + Body(f) + rest));
  }

  /** A length that was written is read back. */
  lemma SizeRead(n: nat, k: nat, rest: seq<byte>)
    requires n < Pow256(k)
    ensures var w := ToBytes(n, k) + rest; |w| >= k && BigEndian(w[..k]) == n && w[k..] == rest
  {
    var w := ToBytes(n, k) + rest;
    assert w[..k] == ToBytes(n, k);
    BytesRoundTrip(n, k);
  }

  lemma Powers()
    ensures Pow256(2) == 0x10000 && Pow256(8) == 0x1_0000_0000_0000_0000
  {
    assert Pow256(4) == 256 * Pow256(3) == 256 * 256 * Pow256(2);
    assert Pow256(6) == 256 * Pow256(5) == 256 * 256 * Pow256(4);
    assert Pow256(8) == 256 * Pow256(7) == 256 * 256 * Pow256(6);
  }

  /** The four bytes of the mask come off the front. */
  lemma MaskRead(f: Frame, rest: seq<byte>)
    requires f.mask.Some?
    ensures var w := MaskBytes(f) + Body(f) + rest; |w| >= 4 && w[..4] == f.mask.value && w[4..] == Body(f) + rest
  {
    hide Body;
    var w := MaskBytes(f) + Body(f) + rest;
    assert w == f.mask.value + (Body(f) + rest);
  }

  /** Some bytes of the payload go from the input to the fragment. */
  lemma BodyRead(body: seq<byte>, rest: seq<byte>, done: nat, got: nat)
    requires done + got <= |body|
    ensures var left := body[done..] + rest;
            && got <= |left| && body[..done] + left[..got] == body[..done + got]
            && left[got..] == body[done + got..] + rest
  {
    var left := body[done..] + rest;
    assert left[..got] == body[done..done + got];
  }

  class Connection {
    var state: ReadState
    var miniHeader: nat
    var hasMask: bool
    var remaining: nat
    var mask: Mask
    var fragment: seq<byte>
    var message: seq<byte>
    var isBinary: bool
    var pongReceived: bool
    var closed: bool
    var maxPayload: nat

    /** The calls of the message handler, and the pongs that were sent. */
    ghost var delivered: seq<Message>
    ghost var pongs: seq<seq<byte>>

    ghost function Box(): Inbox
      reads this
    {
      Inbox(message, isBinary, delivered, pongs, pongReceived)
    }

    ghost predicate Idle()
      reads this
    {
      state == MiniHeader && fragment == [] && !closed
    }

    constructor (max: nat)
      ensures Idle() && maxPayload == max && Box() == Inbox([], false, [], [], false)
    {
      state, miniHeader, hasMask, remaining, mask := MiniHeader, 0, false, 0, [0, 0, 0, 0];
      fragment, message, isBinary, pongReceived, closed, maxPayload := [], [], false, false, false, max;
      delivered, pongs := [], [];
    }

    /** The connection is somewhere in frame `f`, and `left` is what it has not read of it, with the
        bytes `rest` that follow. */
    ghost predicate Inside(f: Frame, left: seq<byte>, rest: seq<byte>)
      reads this
    {
      && !closed && Readable(f, maxPayload)
      && match state
         case MiniHeader => fragment == [] && left == Encode(f) + rest
         case Len16 => && fragment == [] && HeaderOf(miniHeader, hasMask, f)
                       && |f.payload| < 0x10000 && left == ToBytes(|f.payload|, 2) + (MaskBytes(f) + Body(f) + rest)
         case Len64 => && fragment == [] && HeaderOf(miniHeader, hasMask, f)
                       && left == ToBytes(|f.payload|, 8) + (MaskBytes(f) + Body(f) + rest)
         case ReadMask => && fragment == [] && HeaderOf(miniHeader, hasMask, f)
                          && remaining == |f.payload| && left == MaskBytes(f) + Body(f) + rest
         case Payload => && HeaderOf(miniHeader, hasMask, f) && (hasMask ==> mask == f.mask.value)
                         && remaining + |fragment| == |f.payload|
                         && fragment == Body(f)[..|fragment|] && left == Body(f)[|fragment|..] + rest
    }

    /** Undoes the mask of the fragment. */
    method Unmask()
      requires |mask| == 4
      modifies this`fragment
      ensures fragment == Masked(old(fragment), mask)
    {
      ghost var was := fragment;
      for i := 0 to |fragment|
        invariant |fragment| == |was|
        invariant forall j :: 0 <= j < i ==> fragment[j] == Xor(was[j], mask[j % 4])
        invariant forall j :: i <= j < |was| ==> fragment[j] == was[j]
      {
        fragment := fragment[i := Xor(fragment[i], mask[i % 4])];
      }
    }

    method HandleMessage()
      modifies this`message, this`delivered
      ensures Box() == Append(old(Box()), IsFin(miniHeader), isBinary, fragment)
    {
      message := message + fragment;
      if IsFin(miniHeader) {
        delivered := delivered + [Message(message, isBinary)];
        message := [];
      }
    }

    /** Processes a fragment that is complete. A close frame ends the reading. */
    method HandleFragment() returns (goOn: bool)
      modifies this
      ensures goOn == (Opcode(miniHeader) != CLOSE) && unchanged(`miniHeader) && maxPayload == old(maxPayload)
      ensures !goOn ==> closed
      ensures goOn ==> fragment == [] && state == old(state) && closed == old(closed)
      ensures goOn ==> Box() == Deliver(old(Box()), IsFin(miniHeader), Opcode(miniHeader),
                                        if old(hasMask) then Masked(old(fragment), old(mask)) else old(fragment))
    {
      if hasMask { Unmask(); }
      var op := Opcode(miniHeader);
      if op == CONTINUATION {
        HandleMessage();
      } else if op == TEXT {
        isBinary := false;
        HandleMessage();
      } else if op == BINARY {
        isBinary := true;
        HandleMessage();
      } else if op == CLOSE {
        closed := true;
        return false;
      } else if op == PING {
        pongs := pongs + [fragment];
      } else if op == PONG {
        pongReceived := true;
      }
      fragment := [];
      return true;
    }

    /** One read of a header; it does not complete before two bytes are there. */
    method ReadMini(input: seq<byte>, ghost f: Frame, ghost rest: seq<byte>) returns (ok: bool, taken: nat)
      requires state == MiniHeader
      modifies this
      ensures taken <= |input| && (ok ==> taken == 2 && state != MiniHeader)
      ensures closed == old(closed) && maxPayload == old(maxPayload)
      ensures old(Inside(f, input, rest)) ==> ok && Inside(f, input[taken..], rest) && Box() == old(Box())
      ensures |input| < 2 ==> !ok && Box() == old(Box()) && Idle() == old(Idle())
    {
      hide Encode, HeaderOf, MaskBytes, Body, Second;
      ghost var known := Inside(f, input, rest);
      if known { MiniRead(f, rest); }
      if |input| < 2 { return false, 0; }
      MiniIs(input[0], input[1]);
      miniHeader := Mini(input[0], input[1]);
      hasMask := Second(miniHeader) >= 128;
      var short := Second(miniHeader) % 128;
      if short == 127 {
        state := Len64;
      } else if short == 126 {
        state := Len16;
      } else {
        remaining := short;
        state := ReadMask;
        if known { assert SizeBytes(|f.payload|) + (MaskBytes(f) + Body(f) + rest) == MaskBytes(f) + Body(f) + rest; }
      }
      return true, 2;
    }

    method ReadLength(input: seq<byte>, ghost f: Frame, ghost rest: seq<byte>) returns (ok: bool, taken: nat)
      requires state == Len16 || state == Len64
      modifies this
      ensures taken <= |input| && (ok ==> taken > 0 && state != MiniHeader)
      ensures closed == old(closed) && maxPayload == old(maxPayload)
      ensures old(Inside(f, input, rest)) ==> ok && Inside(f, input[taken..], rest) && Box() == old(Box())
    {
      hide HeaderOf, MaskBytes, Body, BigEndian, ToBytes, Pow256;
      var k := if state == Len16 then 2 else 8;
      if Inside(f, input, rest) {
        Powers();
        SizeRead(|f.payload|, k, MaskBytes(f) + Body(f) + rest);
      }
      if |input| < k { return false, 0; }
      remaining := BigEndian(input[..k]);
      state := ReadMask;
      return true, k;
    }

    /** Reads the mask if there is one; a payload that is too long closes the connection. */
    method ReadMaskBytes(input: seq<byte>, ghost f: Frame, ghost rest: seq<byte>) returns (ok: bool, taken: nat)
      requires state == ReadMask
      modifies this
      ensures taken <= |input| && maxPayload == old(maxPayload)
      ensures state != MiniHeader && (ok && !closed ==> state == Payload)
      ensures old(Inside(f, input, rest)) ==> ok && Inside(f, input[taken..], rest) && Box() == old(Box())
    {
      hide HeaderOf, Body;
      ghost var known := Inside(f, input, rest);
      if remaining > maxPayload {
        closed := true;
        return true, 0;
      }
      if known { assert Body(f)[..0] == [] && Body(f)[0..] == Body(f); }
      if hasMask {
        if known { assert f.mask.Some? by { MaskKnown(miniHeader, hasMask, f); } MaskRead(f, rest); }
        if |input| < 4 { return false, 0; }
        mask := input[..4];
        state := Payload;
        return true, 4;
      }
      if known { MaskKnown(miniHeader, hasMask, f); assert MaskBytes(f) + Body(f) + rest == Body(f) + rest; }
      state := Payload;
      return true, 0;
    }

    /** One read of a part of the payload, of any length up to that of the buffer. */
    method ReadPayload(input: seq<byte>, ghost f: Frame, ghost rest: seq<byte>) returns (ok: bool, taken: nat)
      requires state == Payload
      modifies this
      ensures taken <= |input| && maxPayload == old(maxPayload)
      ensures ok && !closed ==> taken > 0 || state == MiniHeader
      ensures old(Inside(f, input, rest)) ==>
                && ok && !closed
                && (if state == MiniHeader then
                      Idle() && input[taken..] == rest && Box() == Deliver(old(Box()), f.fin, f.opcode, f.payload)
                    else Inside(f, input[taken..], rest) && Box() == old(Box()))
    {
      hide HeaderOf, Body, Masked;
      ghost var known := Inside(f, input, rest);
      var toRead := if remaining < BUFFER then remaining else BUFFER;
      if known { BodyRead(Body(f), rest, |fragment|, 0); assert toRead > 0 ==> input != []; }
      if toRead > 0 && input == [] { return false, 0; }
      var most := if |input| < toRead then |input| else toRead;
      var got: nat :| got <= most && (most > 0 ==> got > 0);
      if known { BodyRead(Body(f), rest, |fragment|, got); }
      fragment := fragment + input[..got];
      remaining := remaining - got;
      if remaining == 0 {
        if known { FrameRead(miniHeader, hasMask, f, fragment, mask); }
        hide Deliver;
        var goOn := HandleFragment();
        if goOn { state := MiniHeader; }
      }
      return true, got;
    }

    /** One read, whatever is due. */
    method DoRead(input: seq<byte>, ghost f: Frame, ghost rest: seq<byte>) returns (ok: bool, taken: nat)
      requires !closed
      modifies this
      ensures taken <= |input| && maxPayload == old(maxPayload)
      ensures ok && !closed ==> taken > 0 || Rank(state) < Rank(old(state))
      ensures old(state) == MiniHeader && |input| < 2 ==> !ok && Idle() == old(Idle()) && Box() == old(Box())
      ensures old(Inside(f, input, rest)) ==>
                && ok && !closed
                && (if state == MiniHeader then
                      Idle() && input[taken..] == rest && Box() == Deliver(old(Box()), f.fin, f.opcode, f.payload)
                    else Inside(f, input[taken..], rest) && Box() == old(Box()))
    {
      hide HeaderOf, Body, MaskBytes, Encode, Deliver, Readable;
      match state {
        case MiniHeader => ok, taken := ReadMini(input, f, rest);
        case Len16 => ok, taken := ReadLength(input, f, rest);
        case Len64 => ok, taken := ReadLength(input, f, rest);
        case ReadMask => ok, taken := ReadMaskBytes(input, f, rest);
        case Payload => ok, taken := ReadPayload(input, f, rest);
      }
    }

    /** Where a reader of a sequence of frames is: the first `k` are done, and `left` is unread. */
    ghost predicate Among(frames: seq<Frame>, k: nat, left: seq<byte>)
      reads this
      requires AllReadable(frames, maxPayload)
    {
      && k <= |frames| && !closed
      && if k == |frames| then Idle() && left == [] else Inside(frames[k], left, EncodeAll(frames[k + 1..]))
    }

    /** Reads all that there is to read. Reads of payloads are of any sizes, reads of headers are
        complete. From the encoding of frames it takes exactly these frames. */
    method Serve(input: seq<byte>, ghost frames: seq<Frame>) returns (pos: nat)
      requires AllReadable(frames, maxPayload)
      modifies this
      ensures pos <= |input| && maxPayload == old(maxPayload)
      ensures old(Idle()) && input == EncodeAll(frames) ==>
                pos == |input| && Idle() && Box() == DeliverAll(old(Box()), frames)
    {
      hide Deliver, Inside, EncodeAll, Encode;
      ghost var known := Idle() && input == EncodeAll(frames);
      ghost var box := DeliverAll(Box(), frames);
      ghost var k := 0;
      pos := 0;
      if known { StartsAmong(frames, input); }
      assert frames[0..] == frames && input[0..] == input;
      while !closed
        invariant pos <= |input| && maxPayload == old(maxPayload) && k <= |frames|
        invariant known ==> Among(frames, k, input[pos..]) && DeliverAll(Box(), frames[k..]) == box
        decreases |input| - pos, if closed then 0 else 1 + Rank(state)
      {
        ghost var f := if k < |frames| then frames[k] else Frame(true, 0, None, []);
        ghost var rest := if k < |frames| then EncodeAll(frames[k + 1..]) else [];
        var ok, taken := DoRead(input[pos..], f, rest);
        if !ok { break; }
        assert input[pos..][taken..] == input[pos + taken..];
        pos := pos + taken;
        if known && state == MiniHeader {
          assert frames[k..][1..] == frames[k + 1..];
          NextAmong(frames, k + 1, input[pos..]);
          k := k + 1;
        }
      }
    }

    lemma StartsAmong(frames: seq<Frame>, input: seq<byte>)
      requires Idle() && AllReadable(frames, maxPayload) && input == EncodeAll(frames)
      ensures Among(frames, 0, input)
    {
      NextAmong(frames, 0, input);
    }

    lemma NextAmong(frames: seq<Frame>, k: nat, left: seq<byte>)
      requires Idle() && AllReadable(frames, maxPayload) && k <= |frames| && left == EncodeAll(frames[k..])
      ensures Among(frames, k, left)
    {
      hide Encode;
      if k < |frames| {
        assert frames[k..][0] == frames[k] && frames[k..][1..] == frames[k + 1..];
      }
    }
  }

  function Rank(state: ReadState): nat {
    match state
    case MiniHeader => 0
    case Payload => 1
    case ReadMask => 2
    case Len16 => 3
    case Len64 => 3
  }

  predicate AllReadable(frames: seq<Frame>, max: nat) {
    forall i :: 0 <= i < |frames| ==> Readable(frames[i], max)
  }

  lemma MaskKnown(mini: nat, hasMask: bool, f: Frame)
    requires HeaderOf(mini, hasMask, f)
    ensures hasMask == f.mask.Some?
  {
  }

  /** A fragment that is the whole body of a frame is unmasked to its payload. */
  lemma FrameRead(mini: nat, hasMask: bool, f: Frame, fragment: seq<byte>, mask: Mask)
    requires HeaderOf(mini, hasMask, f) && (hasMask ==> mask == f.mask.value) && fragment == Body(f)[..|f.payload|]
    ensures (if hasMask then Masked(fragment, mask) else fragment) == f.payload
    ensures IsFin(mini) == f.fin && Opcode(mini) == f.opcode
  {
    assert fragment == Body(f);
    if hasMask { MaskedTwice(f.payload, mask); }
  }

  /** What one side sends in frames with any masks the other side hands on as exactly the messages that
      were sent. Reads of payloads are of any sizes, reads of headers are complete. */
  method Exchange(c: Connection, input: seq<byte>, ghost sent: seq<Sent>)
    requires c.Idle() && c.message == [] && Proper(sent) && AllReadable(Frames(sent), c.maxPayload)
    requires input == EncodeAll(Frames(sent))
    modifies c
    ensures c.Idle() && c.message == [] && c.maxPayload == old(c.maxPayload)
    ensures c.delivered == old(c.delivered) + Messages(sent)
    ensures c.pongs == old(c.pongs) + AllPings(sent)
  {
    hide AllReadable, Frames, DeliverAll, Messages, AllPings;
    AllDelivered(c.Box(), sent);
    var pos := c.Serve(input, Frames(sent));
  }

  // ---- both sides ----

  /** What is written for a message: its header and the payload as it is. */
  method SendData(opcode: nat, payload: seq<byte>) returns (wire: seq<byte>)
    requires opcode < 16 && |payload| < 0x1_0000_0000_0000_0000
    ensures wire == Encode(Frame(true, opcode, None, payload))
  {
    var header := BuildHeader(opcode, |payload|);
    wire := header + payload;
    hide Header;
    assert header + [] + payload == header + payload;
  }

  /** A message in one piece and without a mask. */
  function Single(m: Message): Sent { Whole(m.binary, [Piece([], m.text, None)]) }

  lemma SingleIs(m: Message)
    ensures var f := Frame(true, if m.binary then BINARY else TEXT, None, m.text);
            Frames([Single(m)]) == [f] && (ValidFrame(f) ==> EncodeAll([f]) == Encode(f))
    ensures Messages([Single(m)]) == [m] && AllPings([Single(m)]) == [] && Proper([Single(m)])
  {
    hide Encode;
    var pieces := Single(m).pieces;
    assert pieces[..0] == [] && PieceFrames(m.binary, pieces, 1) == [] && PiecePings(pieces, 1) == [];
    assert Joined(pieces) == [] + m.text == m.text;
  }

  /** Messages that one side sends one after the other, as texts or as binary data, are handed on by the
      other side in order. */
  method Talk(c: Connection, messages: seq<Message>)
    requires c.Idle() && c.message == []
    requires forall i :: 0 <= i < |messages| ==>
             |messages[i].text| <= c.maxPayload && |messages[i].text| < 0x1_0000_0000_0000_0000
    modifies c
    ensures c.Idle() && c.message == []
    ensures c.delivered == old(c.delivered) + messages && c.pongs == old(c.pongs)
  {
    hide Encode, EncodeAll, Frames, Messages, AllPings, Proper, Single;
    for i := 0 to |messages|
      invariant c.Idle() && c.message == [] && c.maxPayload == old(c.maxPayload)
      invariant c.delivered == old(c.delivered) + messages[..i] && c.pongs == old(c.pongs)
    {
      SingleIs(messages[i]);
      var wire := SendData(if messages[i].binary then BINARY else TEXT, messages[i].text);
      Exchange(c, wire, [Single(messages[i])]);
      assert messages[..i + 1] == messages[..i] + [messages[i]];
    }
    assert messages[..|messages|] == messages;
  }
}
