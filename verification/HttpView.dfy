/** The parser as its owner sees it: the record, and the request that the callbacks so far have made. */
module HttpView {
  import opened Bytes
  import opened HttpReceive
  import opened HttpRun
  import opened HttpStep
  import opened HttpSyntax

  datatype View = View(f: Fields, q: Owner, exit: bool)

  predicate Halted(v: View) { v.f.errno != OK || v.exit }

  /** What is seen of a run by an owner that was `q0` when the run began. */
  function ViewOf(q0: Owner, r: Run): View { View(r.f, ReceiveAll(q0, r.log), r.exit) }

  /** One byte, with its callbacks received at once. */
  function Look(v: View, c: byte): View {
    if Halted(v) then v
    else
      var g := Counted(v.f);
      if g.errno != OK then View(g, v.q, false)
      else
        var o := Dispatch(g, c);
        View(o.f, ReceiveAll(v.q, o.events + OwnData(o.f, c)), o.exit)
  }

  function LookAll(v: View, data: seq<byte>): View
    decreases |data|
  {
    if data == [] then v else LookAll(Look(v, data[0]), data[1..])
  }

  lemma {:induction false} LookSplit(v: View, a: seq<byte>, b: seq<byte>)
    ensures LookAll(v, a + b) == LookAll(LookAll(v, a), b)
    decreases |a|
  {
    hide Look;
    if a == [] {
      assert a + b == b;
    } else {
      assert (a + b)[1..] == a[1..] + b;
      LookSplit(Look(v, a[0]), a[1..], b);
    }
  }

  lemma LookOne(v: View, c: byte)
    ensures LookAll(v, [c]) == Look(v, c)
  {
    hide Look;
    assert [c][1..] == [];
  }

  lemma {:induction false} ReceivePushed(q: Owner, log: seq<Event>, es: seq<Event>)
    ensures ReceiveAll(q, PushAll(log, es)) == ReceiveAll(ReceiveAll(q, log), es)
    decreases |es|
  {
    hide Receive, Push;
    if es == [] {
      ReceiveNone(ReceiveAll(q, log));
    } else {
      var n := |es| - 1;
      ReceivePushed(q, log, es[..n]);
      ReceivePush(q, PushAll(log, es[..n]), es[n]);
    }
  }

  lemma LookIsStep(q0: Owner, r: Run, c: byte)
    ensures ViewOf(q0, ByteStep(r, c)) == Look(ViewOf(q0, r), c)
  {
    hide Dispatch, Counted, PushAll, ReceiveAll;
    var g := Counted(r.f);
    if !Stopped(r) && g.errno == OK {
      var o := Dispatch(g, c);
      ReceivePushed(q0, r.log, o.events + OwnData(o.f, c));
    }
  }

  /** A run and its view go together. */
  lemma {:induction false} LookIsRun(q0: Owner, r: Run, data: seq<byte>)
    ensures ViewOf(q0, RunBytes(r, data)) == LookAll(ViewOf(q0, r), data)
    decreases |data|
  {
    hide ByteStep, Look, ViewOf;
    if data != [] {
      var n := |data| - 1;
      assert data == data[..n] + [data[n]];
      LookIsRun(q0, r, data[..n]);
      LookSplit(ViewOf(q0, r), data[..n], [data[n]]);
      LookOne(ViewOf(q0, RunBytes(r, data[..n])), data[n]);
      LookIsStep(q0, RunBytes(r, data[..n]), data[n]);
    }
  }

  // ---- few callbacks ----

  lemma ReceiveFew(q: Owner)
    ensures ReceiveAll(q, []) == q
    ensures forall e :: ReceiveAll(q, [e]) == Receive(q, e)
    ensures forall e, e' :: ReceiveAll(q, [e, e']) == Receive(Receive(q, e), e')
  {
    hide Receive;
    forall e
      ensures ReceiveAll(q, [e]) == Receive(q, e)
    {
      assert [e][..0] == [];
    }
    forall e, e'
      ensures ReceiveAll(q, [e, e']) == Receive(Receive(q, e), e')
    {
      assert [e, e'][..1] == [e] && [e][..0] == [];
    }
  }

  /** What a byte does that is counted and goes to `o`. */
  lemma LookTo(v: View, c: byte, o: Out)
    requires !Halted(v) && ParsingHeader(v.f.state) && v.f.nread < MAX_HEADER_SIZE
    requires Dispatch(v.f.(nread := v.f.nread + 1), c) == o
    ensures Look(v, c) == View(o.f, ReceiveAll(v.q, o.events + OwnData(o.f, c)), o.exit)
  {
    hide Dispatch, ReceiveAll;
  }
}
