/** The calls made around a request handler: every middleware that was asked before the handler
    is told after it, in reverse order, whichever of them completes the response early. */
module Middleware {

  // ---- the packed index list ----

  predicate Increasing(s: seq<nat>) { forall i, j :: 0 <= i < j < |s| ==> s[i] < s[j] }

  /** Puts an index in its place in a sorted list, unless it is there already. */
  function Insert(s: seq<nat>, x: nat): seq<nat> {
    if s == [] || x < s[0] then [x] + s
    else if x == s[0] then s
    else [s[0]] + Insert(s[1..], x)
  }

  /** The indices sorted and without duplicates. */
  function Packed(s: seq<nat>): seq<nat> {
    if s == [] then [] else Insert(Packed(s[..|s| - 1]), s[|s| - 1])
  }

  lemma {:induction false} InsertKeeps(s: seq<nat>, x: nat)
    requires Increasing(s)
    ensures Increasing(Insert(s, x)) && forall y :: y in Insert(s, x) <==> y in s || y == x
    ensures s == [] || x < s[0] ==> Insert(s, x)[0] == x
    ensures s != [] && x >= s[0] ==> Insert(s, x)[0] == s[0]
  {
    if s != [] && x > s[0] {
      InsertKeeps(s[1..], x);
      assert s == [s[0]] + s[1..];
      var r := Insert(s[1..], x);
      assert forall y :: y in r ==> y > s[0];
    }
  }

  lemma {:induction false} PackedIs(s: seq<nat>)
    ensures Increasing(Packed(s)) && forall y :: y in Packed(s) <==> y in s
  {
    if s != [] {
      var n := |s| - 1;
      PackedIs(s[..n]);
      InsertKeeps(Packed(s[..n]), s[n]);
      assert s == s[..n] + [s[n]];
    }
  }

  // ---- which middlewares are selected ----

  /** How many of the sorted indices are smaller than `i`. */
  function Below(s: seq<nat>, i: nat): (k: nat)
    requires Increasing(s)
    ensures k <= |s| && (forall j :: 0 <= j < k ==> s[j] < i) && (forall j :: k <= j < |s| ==> s[j] >= i)
  {
    if s == [] || s[0] >= i then 0 else
      assert forall j :: 1 <= j < |s| ==> s[j] == s[1..][j - 1];
      1 + Below(s[1..], i)
  }

  lemma BelowStep(s: seq<nat>, i: nat)
    requires Increasing(s)
    ensures var k := Below(s, i);
            && (i in s <==> k < |s| && s[k] == i)
            && Below(s, i + 1) == (if i in s then k + 1 else k)
            && (i in s <==> Below(s, i + 1) > 0 && s[Below(s, i + 1) - 1] == i)
  {
    if i in s {
      var j :| 0 <= j < |s| && s[j] == i;
      BelowIs(s, i, j);
      BelowIs(s, i + 1, j + 1);
    } else {
      BelowIs(s, i + 1, Below(s, i));
    }
  }

  lemma {:induction false} BelowIs(s: seq<nat>, i: nat, k: nat)
    requires Increasing(s) && k <= |s|
    requires (forall j :: 0 <= j < k ==> s[j] < i) && forall j :: k <= j < |s| ==> s[j] >= i
    ensures Below(s, i) == k
    decreases |s|
  {
    if k > 0 { BelowIs(s[1..], i, k - 1); }
  }

  datatype Mode = Global(flags: seq<bool>) | Forward(indices: seq<nat>) | Backward(indices: seq<nat>)

  predicate Selects(mode: Mode, i: nat) {
    if mode.Global? then i < |mode.flags| && mode.flags[i] else i in mode.indices
  }

  /** Decides for one middleware after the other whether it is called. For a rule's own list a slider
      moves along the list. */
  class Criteria {
    const mode: Mode
    var slider: int

    constructor (mode: Mode)
      ensures this.mode == mode
      ensures mode.Forward? ==> slider == 0
      ensures mode.Backward? ==> slider == |mode.indices| - 1
    {
      this.mode := mode;
      slider := if mode.Backward? then |mode.indices| - 1 else 0;
    }

    /** The slider fits if middleware `i` is asked for next, counting up or down. */
    ghost predicate Ready(i: int)
      reads this
    {
      && (mode.Forward? ==> Increasing(mode.indices) && i >= 0 && slider == Below(mode.indices, i))
      && (mode.Backward? ==> Increasing(mode.indices) && i >= -1 && slider == Below(mode.indices, i + 1) - 1)
    }

    method Enabled(i: nat) returns (yes: bool)
      requires Ready(i)
      modifies this`slider
      ensures yes == Selects(mode, i)
      ensures Ready(if mode.Backward? then i - 1 else i + 1)
    {
      match mode {
        case Global(flags) => return i < |flags| && flags[i];
        case Forward(indices) =>
          BelowStep(indices, i);
          if slider < |indices| && indices[slider] == i {
            slider := slider + 1;
            return true;
          }
          return false;
        case Backward(indices) =>
          BelowStep(indices, i);
          if slider >= 0 && indices[slider] == i {
            slider := slider - 1;
            return true;
          }
          return false;
      }
    }
  }

  /** The selected middlewares from `i` to `n`, in order. */
  function Selected(mode: Mode, i: nat, n: nat): seq<nat>
    decreases n - i
  {
    if i >= n then [] else if Selects(mode, i) then [i] + Selected(mode, i + 1, n) else Selected(mode, i + 1, n)
  }

  // ---- the calls ----

  datatype Call = Before(mw: nat) | After(mw: nat) | Handler

  function Befores(es: seq<nat>): seq<Call> { seq(|es|, i requires 0 <= i < |es| => Before(es[i])) }

  /** The calls after the handler, in reverse order. */
  function Afters(es: seq<nat>): seq<Call> {
    seq(|es|, i requires 0 <= i < |es| => After(es[|es| - 1 - i]))
  }

  /** Whether middleware `i` completes the response before the handler. */
  predicate Completes(ends: seq<bool>, i: nat) { i < |ends| && ends[i] }

  predicate EndedBy(es: seq<nat>, ends: seq<bool>) {
    es != [] && (Completes(ends, es[0]) || EndedBy(es[1..], ends))
  }

  /** The middlewares that are asked: all up to the first that completes the response. */
  function Ran(es: seq<nat>, ends: seq<bool>): seq<nat> {
    if es == [] then [] else if Completes(ends, es[0]) then [es[0]] else [es[0]] + Ran(es[1..], ends)
  }

  /** What runs when the response is completed. */
  datatype Completion = Unset | Nothing | CompleteRequest | LocalsThen(indices: seq<nat>)

  class Exchange {
    const count: nat
    const flags: seq<bool>
    const ends: seq<bool>
    var completed: bool
    var onComplete: Completion
    var needAfters: bool
    ghost var log: seq<Call>

    constructor (count: nat, flags: seq<bool>, ends: seq<bool>)
      ensures this.count == count && this.flags == flags && this.ends == ends
      ensures !completed && !needAfters && log == []
    {
      this.count, this.flags, this.ends := count, flags, ends;
      completed, onComplete, needAfters := false, Unset, false;
      log := [];
    }

    /** Calls a middleware, which completes the response or not. Nothing is set to run then, or
        nothing but the empty handler. */
    method CallBefore(i: nat)
      requires !completed && (onComplete.Unset? || onComplete.Nothing?)
      modifies this
      ensures completed == Completes(ends, i) && log == old(log) + [Before(i)]
      ensures onComplete == old(onComplete) && needAfters == old(needAfters)
    {
      log := log + [Before(i)];
      if Completes(ends, i) { completed := true; }
    }

    method CallAfter(i: nat)
      modifies this`log
      ensures log == old(log) + [After(i)]
    {
      log := log + [After(i)];
    }

    /** Asks the selected middlewares from `i` on, and tells those that were asked if one of them
        completes the response. */
    method CallHelper(cc: Criteria, i: nat) returns (done: bool)
      requires i <= count && cc.Ready(i) && !cc.mode.Backward?
      requires !completed && (onComplete.Unset? || onComplete.Nothing?)
      modifies this, cc
      ensures onComplete == old(onComplete) && needAfters == old(needAfters)
      ensures done == completed == EndedBy(Selected(cc.mode, i, count), ends)
      ensures log == old(log) + Befores(Ran(Selected(cc.mode, i, count), ends))
                     + if done then Afters(Ran(Selected(cc.mode, i, count), ends)) else []
      decreases count - i
    {
      hide Selects, Completes, Ran, EndedBy, Befores, Afters;
      if i >= count {
        NoneRan(ends);
        return false;
      }
      ghost var es := Selected(cc.mode, i, count);
      ghost var later := Selected(cc.mode, i + 1, count);
      var enabled := cc.Enabled(i);
      if !enabled {
        done := CallHelper(cc, i + 1);
        return;
      }
      assert es == [i] + later && es[1..] == later;
      FirstRan(es, ends);
      CallBefore(i);
      if completed {
        CallAfter(i);
        return true;
      }
      done := CallHelper(cc, i + 1);
      if done { CallAfter(i); }
    }

    /** Tells the selected middlewares from `i - 1` down to the first. */
    method AftersHelper(cc: Criteria, i: nat)
      requires cc.Ready(if cc.mode.Backward? then i - 1 else i) && !cc.mode.Forward?
      modifies this`log, cc
      ensures log == old(log) + Afters(Selected(cc.mode, 0, i))
    {
      if i > 0 {
        SelectedLast(cc.mode, 0, i - 1);
        var enabled := cc.Enabled(i - 1);
        if enabled { CallAfter(i - 1); }
        AftersHelper(cc, i - 1);
      }
    }

    /** Tells the global middlewares, if that is still due; then the response is written. */
    method CompleteRequest()
      modifies this
      ensures completed == old(completed) && !needAfters
      ensures log == old(log) + if old(needAfters) then Afters(Globals()) else []
    {
      if needAfters {
        needAfters := false;
        var cc := new Criteria(Global(flags));
        AftersHelper(cc, count);
      }
    }

    ghost function Globals(): seq<nat> { Selected(Global(flags), 0, count) }

    /** Completes the response and runs what is set for that: the empty handler does nothing. */
    method End()
      requires onComplete.LocalsThen? ==> Packable(onComplete.indices, count)
      modifies this
      ensures completed
      ensures old(completed) ==> log == old(log)
      ensures !old(completed) && (old(onComplete).LocalsThen? || old(onComplete).CompleteRequest?) ==> !needAfters
      ensures !old(completed) && old(onComplete).LocalsThen? ==>
                log == old(log) + Afters(old(onComplete).indices) + if old(needAfters) then Afters(Globals()) else []
      ensures !old(completed) && old(onComplete).CompleteRequest? ==>
                log == old(log) + if old(needAfters) then Afters(Globals()) else []
    {
      if completed { return; }
      completed := true;
      match onComplete {
        case Unset =>
        case Nothing =>
        case CompleteRequest => CompleteRequest();
        case LocalsThen(indices) =>
          var cc := new Criteria(Backward(indices));
          SelectedAll(cc.mode, indices, count);
          AftersHelper(cc, count);
          CompleteRequest();
      }
    }

    /** Runs the rule's own middlewares and its handler. The handler completes the response, at once
        or later; nothing happens in between. */
    method HandleRule(indices: seq<nat>)
      requires Packable(indices, count) && !completed && onComplete.CompleteRequest? && needAfters
      modifies this
      ensures completed && !needAfters
      ensures log == old(log) + Befores(Ran(indices, ends))
                   + (if EndedBy(indices, ends) then [] else [Handler])
                   + Afters(Ran(indices, ends)) + Afters(Globals())
    {
      hide Selects, Completes, Ran, EndedBy, Befores, Afters, Selected;
      if indices != [] {
        var cc := new Criteria(Forward(indices));
        SelectedAll(cc.mode, indices, count);
        onComplete := Nothing;
        var done := CallHelper(cc, 0);
        if completed {
          CompleteRequest();
          return;
        }
        onComplete := LocalsThen(indices);
      }
      NoneRan(ends);
      AllRan(indices, ends);
      log := log + [Handler];
      End();
    }

    /** Handles a request from the first middleware to the completion of the response. */
    method Handle(indices: seq<nat>)
      requires Packable(indices, count) && !completed && log == []
      modifies this
      ensures completed
      ensures var all := Globals() + indices;
              log == Befores(Ran(all, ends)) + (if EndedBy(all, ends) then [] else [Handler]) + Afters(Ran(all, ends))
    {
      hide Selects, Completes, Ran, EndedBy, Befores, Afters, Selected;
      needAfters := false;
      onComplete := Unset;
      var cc := new Criteria(Global(flags));
      var done := CallHelper(cc, 0);
      RanJoin(Globals(), indices, ends);
      if !completed {
        onComplete := Completion.CompleteRequest;
        needAfters := true;
        AllRan(Globals(), ends);
        CallsJoin(Globals(), Ran(indices, ends));
        HandleRule(indices);
      } else {
        CompleteRequest();
      }
    }
  }

  /** A list that was packed, of middlewares that exist. */
  predicate Packable(indices: seq<nat>, count: nat) {
    Increasing(indices) && forall i :: 0 <= i < |indices| ==> indices[i] < count
  }

  lemma {:induction false} SelectedBelow(mode: Mode, indices: seq<nat>, n: nat)
    requires Increasing(indices) && (mode == Forward(indices) || mode == Backward(indices))
    ensures Selected(mode, 0, n) == indices[..Below(indices, n)]
    decreases n
  {
    if n > 0 {
      SelectedBelow(mode, indices, n - 1);
      SelectedLast(mode, 0, n - 1);
      BelowStep(indices, n - 1);
    }
  }

  lemma SelectedAll(mode: Mode, indices: seq<nat>, count: nat)
    requires Packable(indices, count) && (mode == Forward(indices) || mode == Backward(indices))
    ensures Selected(mode, 0, count) == indices && Below(indices, count) == |indices| && Below(indices, 0) == 0
  {
    SelectedBelow(mode, indices, count);
    BelowIs(indices, count, |indices|);
    assert indices[..|indices|] == indices;
  }

  /** If no one completes the response all are asked. */
  lemma {:induction false} AllRan(es: seq<nat>, ends: seq<bool>)
    ensures !EndedBy(es, ends) ==> Ran(es, ends) == es
  {
    if es != [] { AllRan(es[1..], ends); }
  }

  lemma {:induction false} RanJoin(a: seq<nat>, b: seq<nat>, ends: seq<bool>)
    ensures EndedBy(a + b, ends) == (EndedBy(a, ends) || EndedBy(b, ends))
    ensures Ran(a + b, ends) == if EndedBy(a, ends) then Ran(a, ends) else a + Ran(b, ends)
  {
    if a == [] {
      assert a + b == b;
      assert [] + Ran(b, ends) == Ran(b, ends);
    } else {
      RanJoin(a[1..], b, ends);
      assert (a + b)[0] == a[0] && (a + b)[1..] == a[1..] + b;
      RanFirst(a, ends);
      RanFirst(a + b, ends);
      hide Completes, EndedBy, Ran;
      PutFirst(a, Ran(b, ends));
    }
  }

  lemma RanFirst(es: seq<nat>, ends: seq<bool>)
    requires es != []
    ensures EndedBy(es, ends) == (Completes(ends, es[0]) || EndedBy(es[1..], ends))
    ensures Ran(es, ends) == if Completes(ends, es[0]) then [es[0]] else [es[0]] + Ran(es[1..], ends)
  {
  }

  lemma PutFirst(a: seq<nat>, b: seq<nat>)
    requires a != []
    ensures [a[0]] + (a[1..] + b) == a + b
  {
  }

  lemma CallsJoin(a: seq<nat>, b: seq<nat>)
    ensures Befores(a + b) == Befores(a) + Befores(b)
    ensures Afters(a + b) == Afters(b) + Afters(a)
  {
  }

  lemma NoneRan(ends: seq<bool>)
    ensures !EndedBy([], ends) && Befores(Ran([], ends)) == [] && Afters(Ran([], ends)) == []
  {
  }

  lemma FirstRan(es: seq<nat>, ends: seq<bool>)
    requires es != []
    ensures Completes(ends, es[0]) ==>
              EndedBy(es, ends) && Befores(Ran(es, ends)) == [Before(es[0])] && Afters(Ran(es, ends)) == [After(es[0])]
    ensures !Completes(ends, es[0]) ==>
              && EndedBy(es, ends) == EndedBy(es[1..], ends)
              && Befores(Ran(es, ends)) == [Before(es[0])] + Befores(Ran(es[1..], ends))
              && Afters(Ran(es, ends)) == Afters(Ran(es[1..], ends)) + [After(es[0])]
  {
    RanFirst(es, ends);
    OneCall(es[0]);
    hide Completes, EndedBy, Ran, Befores, Afters;
    CallsJoin([es[0]], Ran(es[1..], ends));
  }

  lemma OneCall(i: nat)
    ensures Befores([i]) == [Before(i)] && Afters([i]) == [After(i)]
  {
  }

  lemma {:induction false} SelectedLast(mode: Mode, i: nat, n: nat)
    requires i <= n
    ensures Selected(mode, i, n + 1) == Selected(mode, i, n) + if Selects(mode, n) then [n] else []
    decreases n - i
  {
    if i < n { SelectedLast(mode, i + 1, n); }
  }
}
