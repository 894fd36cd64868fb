/** The reference meaning of the HTTP/1.x request parser: a fold over single bytes whose
    callback log joins neighbouring pieces of the same text. */
module HttpRun {
  import opened Bytes
  import opened HttpSyntax
  import opened HttpStep

  /** Appends a callback, joining data callbacks of the same stream. */
  function Push(log: seq<Event>, e: Event): seq<Event> {
    if e.Data? && |log| > 0 && log[|log| - 1].Data? && log[|log| - 1].kind == e.kind then
      log[..|log| - 1] + [Data(e.kind, log[|log| - 1].bytes + e.bytes)]
    else log + [e]
  }

  function PushAll(log: seq<Event>, es: seq<Event>): seq<Event> {
    if |es| == 0 then log else Push(PushAll(log, es[..|es| - 1]), es[|es| - 1])
  }

  /** A callback log with neighbouring data callbacks of the same stream joined. */
  function Joined(log: seq<Event>): seq<Event> { PushAll([], log) }

  datatype Run = Run(f: Fields, log: seq<Event>, exit: bool)

  predicate Stopped(r: Run) { r.f.errno != OK || r.exit }

  /** The data event of byte `c` when reading it has led to `f`. */
  function OwnData(f: Fields, c: byte): seq<Event> {
    if f.errno == OK && HasKind(f.state) then [Data(KindOf(f.state), [c])] else []
  }

  function Counted(f: Fields): Fields {
    if ParsingHeader(f.state) then Count(f, 1) else f
  }

  function ByteStep(r: Run, c: byte): Run {
    if Stopped(r) then r
    else
      var g := Counted(r.f);
      if g.errno != OK then Run(g, r.log, false)
      else
        var o := Dispatch(g, c);
        Run(o.f, PushAll(r.log, o.events + OwnData(o.f, c)), o.exit)
  }

  /** The run over a whole buffer, one byte at a time; a stopped run stays as it is. */
  function RunBytes(r: Run, data: seq<byte>): Run {
    if |data| == 0 then r else ByteStep(RunBytes(r, data[..|data| - 1]), data[|data| - 1])
  }

  /** Cutting the input anywhere does not change the run. */
  lemma {:induction false} RunSplit(r: Run, a: seq<byte>, b: seq<byte>)
    ensures RunBytes(r, a + b) == RunBytes(RunBytes(r, a), b)
    decreases |b|
  {
    hide ByteStep;
    if b == [] {
      assert a + b == a;
    } else {
      var n := |b| - 1;
      assert (a + b)[..|a + b| - 1] == a + b[..n];
      assert (a + b)[|a + b| - 1] == b[n];
      RunSplit(r, a, b[..n]);
    }
  }

  lemma RunNext(r: Run, data: seq<byte>, i: nat)
    requires i < |data|
    ensures RunBytes(r, data[..i + 1]) == ByteStep(RunBytes(r, data[..i]), data[i])
  {
    hide ByteStep;
    assert data[..i + 1][..i] == data[..i];
  }

  lemma StepStopped(r: Run, c: byte)
    requires Stopped(r)
    ensures ByteStep(r, c) == r
  {
  }

  lemma {:induction false} StoppedStays(r: Run, data: seq<byte>)
    requires Stopped(r)
    ensures RunBytes(r, data) == r
    decreases |data|
  {
    if |data| > 0 { StoppedStays(r, data[..|data| - 1]); }
  }

  lemma StoppedAt(r: Run, data: seq<byte>, i: nat)
    requires i <= |data| && Stopped(RunBytes(r, data[..i]))
    ensures RunBytes(r, data) == RunBytes(r, data[..i])
  {
    hide ByteStep;
    assert data == data[..i] + data[i..];
    RunSplit(r, data[..i], data[i..]);
    StoppedStays(RunBytes(r, data[..i]), data[i..]);
  }

  lemma {:induction false} PushAllSplit(log: seq<Event>, a: seq<Event>, b: seq<Event>)
    ensures PushAll(log, a + b) == PushAll(PushAll(log, a), b)
    decreases |b|
  {
    if b == [] {
      assert a + b == a;
    } else {
      var n := |b| - 1;
      assert (a + b)[..|a + b| - 1] == a + b[..n];
      PushAllSplit(log, a, b[..n]);
    }
  }

  lemma PushOne(log: seq<Event>, e: Event)
    ensures PushAll(log, [e]) == Push(log, e)
  {
    assert [e][..0] == [];
    assert PushAll(log, []) == log;
  }

  /** Two data callbacks in a row amount to one with the text of both. */
  lemma PushTwice(log: seq<Event>, k: Kind, x: seq<byte>, y: seq<byte>)
    ensures Push(Push(log, Data(k, x)), Data(k, y)) == Push(log, Data(k, x + y))
  {
    var once := Push(log, Data(k, x));
    var n := |once| - 1;
    assert once[n].Data? && once[n].kind == k;
    if |log| > 0 && log[|log| - 1].Data? && log[|log| - 1].kind == k {
      assert once[..n] == log[..|log| - 1];
      assert log[|log| - 1].bytes + x + y == log[|log| - 1].bytes + (x + y);
    } else {
      assert once[..n] == log;
    }
  }

  /** A log that ends in joined form can be extended in place of being rebuilt. */
  lemma JoinedSnoc(log: seq<Event>, e: Event)
    ensures Joined(log + [e]) == Push(Joined(log), e)
  {
    assert (log + [e])[..|log|] == log;
  }
}
