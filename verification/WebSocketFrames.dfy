/** WebSocket frames (sections 5.2 to 5.4 of RFC 6455): how they are written, and what a
    receiver makes of a sequence of them. */
module WebSocketFrames {
  import opened Bytes
  import opened Options
  import opened Sequences

  type Mask = m: seq<byte> | |m| == 4 witness [0, 0, 0, 0]

  const CONTINUATION := 0
  const TEXT := 1
  const BINARY := 2
  const CLOSE := 8
  const PING := 9
  const PONG := 10

  datatype Frame = Frame(fin: bool, opcode: nat, mask: Option<Mask>, payload: seq<byte>)

  function Masked(payload: seq<byte>, mask: Mask): (r: seq<byte>)
    ensures |r| == |payload|
    ensures forall i :: 0 <= i < |r| ==> r[i] == Xor(payload[i], mask[i % 4])
  {
    seq(|payload|, i requires 0 <= i < |payload| => Xor(payload[i], mask[i % 4]))
  }

  lemma MaskedTwice(payload: seq<byte>, mask: Mask)
    ensures Masked(Masked(payload, mask), mask) == payload
  {
    forall i | 0 <= i < |payload|
      ensures Masked(Masked(payload, mask), mask)[i] == payload[i]
    {
      XorTwice(payload[i], mask[i % 4]);
    }
  }

  /** A bit of a masked payload is set exactly if it differs from the bit of the mask. */
  lemma MaskedBits(payload: seq<byte>, mask: Mask, i: nat, k: nat)
    requires i < |payload| && k < 8
    ensures Masked(payload, mask)[i] / Pow2(k) % 2 == 1 <==>
            payload[i] / Pow2(k) % 2 != mask[i % 4] / Pow2(k) % 2
  {
    XorBit(payload[i], mask[i % 4], k);
  }

  // ---- headers ----

  function SizeBytes(size: nat): seq<byte> {
    if size < 126 then [] else if size < 0x10000 then ToBytes(size, 2) else ToBytes(size, 8)
  }

  /** The length that the second byte shows, or the mark of a longer one. */
  function ShortSize(size: nat): nat {
    if size < 126 then size else if size < 0x10000 then 126 else 127
  }

  function Header(fin: bool, opcode: nat, size: nat, masked: bool): seq<byte>
    requires opcode < 16
  {
    [(if fin then 128 else 0) + opcode, (if masked then 128 else 0) + ShortSize(size)] + SizeBytes(size)
  }

  predicate ValidFrame(f: Frame) { f.opcode < 16 && |f.payload| < 0x1_0000_0000_0000_0000 }

  function MaskBytes(f: Frame): seq<byte> { if f.mask.Some? then f.mask.value else [] }

  /** The payload as it is on the wire. */
  function Body(f: Frame): (r: seq<byte>)
    ensures |r| == |f.payload|
  {
    if f.mask.Some? then Masked(f.payload, f.mask.value) else f.payload
  }

  function Encode(f: Frame): seq<byte>
    requires ValidFrame(f)
  {
    Header(f.fin, f.opcode, |f.payload|, f.mask.Some?) + MaskBytes(f) + Body(f)
  }

  function EncodeAll(frames: seq<Frame>): seq<byte>
    requires forall i :: 0 <= i < |frames| ==> ValidFrame(frames[i])
  {
    if frames == [] then [] else Encode(frames[0]) + EncodeAll(frames[1..])
  }

  /** The frames byte by byte, for payloads of every length (section 5.2 of RFC 6455). */
  lemma OnTheWire(fin: bool, opcode: nat, mask: Option<Mask>, p: seq<byte>)
    requires opcode < 16 && |p| < 0x1_0000_0000_0000_0000
    ensures var n := |p|;
            Encode(Frame(fin, opcode, mask, p)) ==
            [opcode + (if fin then 128 else 0),
             (if mask.Some? then 128 else 0) + if n < 126 then n else if n < 65536 then 126 else 127]
            + LongSize(n) + (if mask.Some? then mask.value + Masked(p, mask.value) else p)
  {
    hide Masked;
    if 126 <= |p| < 65536 { TwoBytes(|p|); }
    hide ToBytes;
    SizeIs(|p|);
    hide LongSize, SizeBytes;
  }

  lemma SizeIs(n: nat)
    requires n < 0x1_0000_0000_0000_0000
    ensures SizeBytes(n) == LongSize(n)
  {
    if 126 <= n < 65536 { TwoBytes(n); }
    if 65536 <= n {
      hide ToBytes;
      forall j | 0 <= j < 8
        ensures ToBytes(n, 8)[j] == n / Pow256(7 - j) % 256
      {
        ByteAt(n, 8, j);
      }
    }
  }

  lemma TwoBytes(n: nat)
    requires n < 65536
    ensures ToBytes(n, 2) == [n / 256, n % 256]
  {
    assert ToBytes(n / 256, 1) == ToBytes(n / 256 / 256, 0) + [n / 256 % 256];
  }

  /** The bytes of a longer length, the most significant one first. */
  function LongSize(n: nat): seq<byte>
    requires n < 0x1_0000_0000_0000_0000
  {
    if n < 126 then [] else if n < 65536 then [n / 256, n % 256]
    else seq(8, j requires 0 <= j < 8 => n / Pow256(7 - j) % 256)
  }

  /** The header of a message that is sent: one final frame without a mask. */
  method BuildHeader(opcode: nat, size: nat) returns (header: seq<byte>)
    requires opcode < 16 && size < 0x1_0000_0000_0000_0000
    ensures header == Header(true, opcode, size, false)
  {
    var buf := new byte[10](i => 0);
    buf[0] := 0x80 + opcode;
    if size < 126 {
      buf[1] := size;
      return buf[..2];
    } else if size < 0x10000 {
      buf[1] := 126;
      buf[2], buf[3] := size / 256, size % 256;
      assert ToBytes(size, 2) == ToBytes(size / 256, 1) + [size % 256];
      assert ToBytes(size / 256, 1) == [] + [size / 256 % 256];
      return buf[..4];
    }
    buf[1] := 127;
    var rest, k := size, 8;
    while k > 0
      invariant 0 <= k <= 8 && buf[0] == 0x80 + opcode && buf[1] == 127
      invariant ToBytes(rest, k) + buf[2 + k..] == ToBytes(size, 8)
    {
      k := k - 1;
      buf[2 + k] := rest % 256;
      rest := rest / 256;
      assert buf[2 + k..] == [buf[2 + k]] + buf[2 + k + 1..];
    }
    return buf[..];
  }

  // ---- receiving ----

  datatype Message = Message(text: seq<byte>, binary: bool)

  /** What a receiver has seen: the message that is not complete, and what was handed on. */
  datatype Inbox = Inbox(message: seq<byte>, binary: bool, delivered: seq<Message>, pongs: seq<seq<byte>>, ponged: bool)

  /** Adds a fragment to the message and hands the message on if it is the last. */
  function Append(box: Inbox, fin: bool, binary: bool, payload: seq<byte>): Inbox {
    var message := box.message + payload;
    if fin then box.(message := [], binary := binary, delivered := box.delivered + [Message(message, binary)])
    else box.(message := message, binary := binary)
  }

  function Deliver(box: Inbox, fin: bool, opcode: nat, payload: seq<byte>): Inbox {
    if opcode == CONTINUATION then Append(box, fin, box.binary, payload)
    else if opcode == TEXT then Append(box, fin, false, payload)
    else if opcode == BINARY then Append(box, fin, true, payload)
    else if opcode == PING then box.(pongs := box.pongs + [payload])
    else if opcode == PONG then box.(ponged := true)
    else box
  }

  function DeliverAll(box: Inbox, frames: seq<Frame>): Inbox
    decreases |frames|
  {
    if frames == [] then box
    else DeliverAll(Deliver(box, frames[0].fin, frames[0].opcode, frames[0].payload), frames[1..])
  }

  lemma {:induction false} DeliverSplit(box: Inbox, a: seq<Frame>, b: seq<Frame>)
    ensures DeliverAll(box, a + b) == DeliverAll(DeliverAll(box, a), b)
    decreases |a|
  {
    if a == [] {
      assert a + b == b;
    } else {
      assert (a + b)[1..] == a[1..] + b;
      DeliverSplit(Deliver(box, a[0].fin, a[0].opcode, a[0].payload), a[1..], b);
    }
  }

  // ---- what a sender sends ----

  /** A ping or pong, or a message in one or more pieces; each piece may follow some pings and pongs. */
  datatype Sent = Control(control: Signal) | Whole(binary: bool, pieces: seq<Piece>)

  datatype Signal = Signal(ping: bool, payload: seq<byte>, mask: Option<Mask>)

  datatype Piece = Piece(before: seq<Signal>, text: seq<byte>, mask: Option<Mask>)

  function SignalFrame(s: Signal): Frame { Frame(true, if s.ping then PING else PONG, s.mask, s.payload) }

  function SignalFrames(ss: seq<Signal>): seq<Frame> {
    if ss == [] then [] else [SignalFrame(ss[0])] + SignalFrames(ss[1..])
  }

  /** Only the first piece has the opcode of the message, and only the last ends it. */
  function PieceFrame(binary: bool, pieces: seq<Piece>, k: nat): Frame
    requires k < |pieces|
  {
    Frame(k == |pieces| - 1, if k > 0 then CONTINUATION else if binary then BINARY
      else TEXT, pieces[k].mask, pieces[k].text)
  }

  /** The frames of the pieces from piece `k` on. */
  function PieceFrames(binary: bool, pieces: seq<Piece>, k: nat): seq<Frame>
    requires k <= |pieces|
    decreases |pieces| - k
  {
    if k == |pieces| then []
    else SignalFrames(pieces[k].before) + [PieceFrame(binary, pieces, k)] + PieceFrames(binary, pieces, k + 1)
  }

  /** Which frames are sent for a message, a ping and a pong. */
  lemma FirstByte(binary: bool, pieces: seq<Piece>, k: nat, s: Signal)
    requires k < |pieces| && ValidFrame(PieceFrame(binary, pieces, k)) && ValidFrame(SignalFrame(s))
    ensures Encode(PieceFrame(binary, pieces, k))[0] ==
            (if k > 0 then 0x0 else if binary then 0x2 else 0x1) + if k == |pieces| - 1 then 0x80 else 0x0
    ensures Encode(SignalFrame(s))[0] == if s.ping then 0x89 else 0x8a
  {
    hide Masked, SizeBytes;
  }

  function Joined(pieces: seq<Piece>): seq<byte> {
    if pieces == [] then [] else Joined(pieces[..|pieces| - 1]) + pieces[|pieces| - 1].text
  }

  function Pings(ss: seq<Signal>): seq<seq<byte>> {
    if ss == [] then [] else (if ss[0].ping then [ss[0].payload] else []) + Pings(ss[1..])
  }

  function PiecePings(pieces: seq<Piece>, k: nat): seq<seq<byte>>
    requires k <= |pieces|
    decreases |pieces| - k
  {
    if k == |pieces| then [] else Pings(pieces[k].before) + PiecePings(pieces, k + 1)
  }

  function SentFrames(s: Sent): seq<Frame> {
    match s
    case Control(c) => [SignalFrame(c)]
    case Whole(binary, pieces) => PieceFrames(binary, pieces, 0)
  }

  function SentMessages(s: Sent): seq<Message> {
    if s.Whole? then [Message(Joined(s.pieces), s.binary)] else []
  }

  function SentPings(s: Sent): seq<seq<byte>> {
    match s
    case Control(c) => if c.ping then [c.payload] else []
    case Whole(_, pieces) => PiecePings(pieces, 0)
  }

  function Frames(sent: seq<Sent>): seq<Frame> {
    if sent == [] then [] else SentFrames(sent[0]) + Frames(sent[1..])
  }

  /** The messages among what was sent. */
  function Messages(sent: seq<Sent>): seq<Message> {
    if sent == [] then [] else SentMessages(sent[0]) + Messages(sent[1..])
  }

  /** The payloads of all pings, in order. */
  function AllPings(sent: seq<Sent>): seq<seq<byte>> {
    if sent == [] then [] else SentPings(sent[0]) + AllPings(sent[1..])
  }

  predicate Proper(sent: seq<Sent>) {
    forall i :: 0 <= i < |sent| && sent[i].Whole? ==> sent[i].pieces != []
  }

  /** Two states of a receiver that differ in what they say about pongs only. */
  predicate Same(a: Inbox, b: Inbox) {
    a.message == b.message && a.binary == b.binary && a.delivered == b.delivered && a.pongs == b.pongs
  }

  lemma {:induction false} SignalsDelivered(box: Inbox, ss: seq<Signal>)
    ensures Same(DeliverAll(box, SignalFrames(ss)), box.(pongs := box.pongs + Pings(ss)))
    decreases |ss|
  {
    if ss != [] {
      var f := SignalFrame(ss[0]);
      var all := SignalFrames(ss);
      assert all[0] == f && all[1..] == SignalFrames(ss[1..]);
      SignalsDelivered(Deliver(box, f.fin, f.opcode, f.payload), ss[1..]);
    }
  }

  lemma DeliverMiddle(box: Inbox, signals: seq<Frame>, f: Frame, rest: seq<Frame>)
    ensures DeliverAll(box, signals + [f] + rest) ==
            DeliverAll(Deliver(DeliverAll(box, signals), f.fin, f.opcode, f.payload), rest)
  {
    DeliverSplit(box, signals, [f] + rest);
    assert signals + [f] + rest == signals + ([f] + rest);
    assert ([f] + rest)[1..] == rest;
    hide Deliver;
  }

  /** One piece with the signals before it. */
  lemma PieceDelivered(box: Inbox, binary: bool, pieces: seq<Piece>, k: nat)
    requires k < |pieces| && box.message == Joined(pieces[..k]) && (k > 0 ==> box.binary == binary)
    ensures var f := PieceFrame(binary, pieces, k);
            var box' := Deliver(DeliverAll(box, SignalFrames(pieces[k].before)), f.fin, f.opcode, f.payload);
            && box'.pongs == box.pongs + Pings(pieces[k].before)
            && (k + 1 < |pieces| ==>
                  box'.message == Joined(pieces[..k + 1]) && box'.binary == binary && box'.delivered == box.delivered)
            && (k + 1 == |pieces| ==>
                  box'.message == [] && box'.delivered == box.delivered + [Message(Joined(pieces), binary)])
  {
    SignalsDelivered(box, pieces[k].before);
    hide DeliverAll, SignalFrames, Pings;
    assert pieces[..k + 1][..k] == pieces[..k];
    assert Joined(pieces[..k + 1]) == Joined(pieces[..k]) + pieces[k].text;
    assert k + 1 == |pieces| ==> pieces[..k + 1] == pieces;
  }

  /** In the middle of a message: the pieces so far are in the box, and the rest completes it. */
  lemma {:induction false} PiecesDelivered(box: Inbox, binary: bool, pieces: seq<Piece>, k: nat)
    requires k < |pieces| && box.message == Joined(pieces[..k]) && (k > 0 ==> box.binary == binary)
    ensures var box' := DeliverAll(box, PieceFrames(binary, pieces, k));
            && box'.message == [] && box'.delivered == box.delivered + [Message(Joined(pieces), binary)]
            && box'.pongs == box.pongs + PiecePings(pieces, k)
    decreases |pieces| - k
  {
    var signals, f, rest := SignalFrames(pieces[k].before), PieceFrame(binary, pieces, k),
        PieceFrames(binary, pieces, k + 1);
    DeliverMiddle(box, signals, f, rest);
    PieceDelivered(box, binary, pieces, k);
    var box2 := Deliver(DeliverAll(box, signals), f.fin, f.opcode, f.payload);
    var pings := Pings(pieces[k].before);
    hide SignalFrames, Pings, Deliver, Joined;
    if k + 1 < |pieces| {
      hide DeliverAll;
      PiecesDelivered(box2, binary, pieces, k + 1);
      assert (box.pongs + pings) + PiecePings(pieces, k + 1) == box.pongs + (pings + PiecePings(pieces, k + 1));
    }
  }

  lemma OneDelivered(box: Inbox, s: Sent)
    requires box.message == [] && (s.Whole? ==> s.pieces != [])
    ensures var box' := DeliverAll(box, SentFrames(s));
            && box'.message == [] && box'.delivered == box.delivered + SentMessages(s)
            && box'.pongs == box.pongs + SentPings(s)
  {
    match s {
      case Control(c) =>
        assert SentFrames(s)[1..] == [];
      case Whole(binary, pieces) =>
        PiecesDelivered(box, binary, pieces, 0);
        hide DeliverAll, PieceFrames, PiecePings;
    }
  }

  /** Whatever is sent in whatever pieces, with pings and pongs in between: the receiver hands on exactly
      the messages, whole and in order, each with its kind, and answers exactly the pings. */
  lemma {:induction false} AllDelivered(box: Inbox, sent: seq<Sent>)
    requires Proper(sent) && box.message == []
    ensures var box' := DeliverAll(box, Frames(sent));
            && box'.message == []
            && box'.delivered == box.delivered + Messages(sent)
            && box'.pongs == box.pongs + AllPings(sent)
    decreases |sent|
  {
    if sent == [] {
      assert DeliverAll(box, []) == box;
    } else {
      hide DeliverAll, SentFrames, SentMessages, SentPings;
      var first, rest := sent[0], sent[1..];
      DeliverSplit(box, SentFrames(first), Frames(rest));
      OneDelivered(box, first);
      var box1 := DeliverAll(box, SentFrames(first));
      AllDelivered(box1, rest);
      hide Frames, Messages, AllPings;
      Associate(box.delivered, SentMessages(first), Messages(rest));
      Associate(box.pongs, SentPings(first), AllPings(rest));
      FramesFirst(sent);
    }
  }

  lemma FramesFirst(sent: seq<Sent>)
    requires sent != []
    ensures Frames(sent) == SentFrames(sent[0]) + Frames(sent[1..])
    ensures Messages(sent) == SentMessages(sent[0]) + Messages(sent[1..])
    ensures AllPings(sent) == SentPings(sent[0]) + AllPings(sent[1..])
  {
  }
}
