/** The recursive mutex: two plain mutexes and a count for every thread. Threads run it in
    any interleaving; every access to a mutex, and every stretch of code that runs while `my`
    is held, is one step of one thread. */
module RecursiveMutex {
  import opened Options

  /** The count of one thread. */
  datatype Ident = Ident(thread: nat, number: nat)

  /** Where a thread is: the statement it will run next. */
  datatype Pc =
    | Outside
    | LockStart | LockTest | LockLeave(index: nat) | LockWait(index: nat) | LockBack(index: nat)
    | LockCount(index: nat) | LockEnd
    | UnlockStart | UnlockTest | UnlockLeave(index: nat) | UnlockFree(index: nat) | UnlockBack(index: nat)
    | UnlockCount(index: nat) | UnlockEnd

  /** `depth` counts the finished calls of lock less the finished calls of unlock. */
  datatype Thread = Thread(pc: Pc, depth: nat)

  datatype State = State(threads: seq<Thread>, ids: seq<Ident>, my: Option<nat>, mt: Option<nat>)

  function Init(n: nat): State {
    State(seq(n, i => Thread(Outside, 0)), [], None, None)
  }

  /** What a thread does: begin a call while it is outside, or go on with the call it is in. */
  datatype Move = Lock | Unlock | Go

  /** The index of a thread's entry, or the number of entries if it has none. */
  function IndexOf(ids: seq<Ident>, t: nat): (i: nat)
    ensures i <= |ids|
    ensures i < |ids| ==> ids[i].thread == t
    ensures forall j :: 0 <= j < i ==> ids[j].thread != t
  {
    if ids == [] then 0
    else if ids[0].thread == t then 0
    else
      var i := IndexOf(ids[1..], t);
      assert forall j :: 1 <= j <= i ==> ids[j] == ids[1..][j - 1];
      1 + i
  }

  /** The entries after a thread has looked for its own: it appends one if it has none. */
  function CheckThread(ids: seq<Ident>, t: nat): (r: seq<Ident>)
    ensures IndexOf(ids, t) < |r| && r[IndexOf(ids, t)].thread == t && ids <= r
  {
    if IndexOf(ids, t) < |ids| then ids else ids + [Ident(t, 0)]
  }

  function At(s: State, t: nat, pc: Pc): State
    requires t < |s.threads|
  {
    s.(threads := s.threads[t := s.threads[t].(pc := pc)])
  }

  function Return(s: State, t: nat, depth: nat): State
    requires t < |s.threads|
  {
    s.(threads := s.threads[t := Thread(Outside, depth)], my := None)
  }

  function Take(s: State, t: nat, pc: Pc): Option<State>
    requires t < |s.threads|
  {
    if s.my.None? then Some(At(s, t, pc).(my := Some(t))) else None
  }

  /** One step of thread `t`, if it is not blocked. Only a thread that has locked may unlock. */
  function Step(s: State, t: nat, move: Move): Option<State>
    requires t < |s.threads|
  {
    var th := s.threads[t];
    if th.pc.Outside? then
      if move.Lock? then Some(At(s, t, LockStart))
      else if move.Unlock? && th.depth > 0 then Some(At(s, t, UnlockStart))
      else None
    else if !move.Go? then None
    else
      match th.pc
      case LockStart => Take(s, t, LockTest)
      case LockTest =>
        var ids, i := CheckThread(s.ids, t), IndexOf(s.ids, t);
        Some(At(s, t, if ids[i].number == 0 then LockLeave(i) else LockCount(i)).(ids := ids))
      case LockLeave(i) => Some(At(s, t, LockWait(i)).(my := None))
      case LockWait(i) => if s.mt.None? then Some(At(s, t, LockBack(i)).(mt := Some(t))) else None
      case LockBack(i) => Take(s, t, LockCount(i))
      case LockCount(i) =>
        if i < |s.ids| then Some(At(s, t, LockEnd).(ids := s.ids[i := s.ids[i].(number := s.ids[i].number + 1)]))
            else None
      case LockEnd => Some(Return(s, t, th.depth + 1))
      case UnlockStart => Take(s, t, UnlockTest)
      case UnlockTest =>
        var ids, i := CheckThread(s.ids, t), IndexOf(s.ids, t);
        Some(At(s, t, if ids[i].number == 1 then UnlockLeave(i) else UnlockCount(i)).(ids := ids))
      case UnlockLeave(i) => Some(At(s, t, UnlockFree(i)).(my := None))
      case UnlockFree(i) => Some(At(s, t, UnlockBack(i)).(mt := None))
      case UnlockBack(i) => Take(s, t, UnlockCount(i))
      case UnlockCount(i) =>
        if i < |s.ids| then
          var n := s.ids[i].number;
          Some(At(s, t, UnlockEnd).(ids := s.ids[i := s.ids[i].(number := if n != 0 then n - 1 else n)]))
        else None
      case UnlockEnd => Some(Return(s, t, if th.depth > 0 then th.depth - 1 else 0))
  }

  /** A schedule says which thread moves next. */
  type Schedule = seq<(nat, Move)>

  /** The state after a schedule, if every step of it could be taken. */
  function Run(s: State, schedule: Schedule): Option<State> {
    if schedule == [] then Some(s)
    else
      var n := |schedule| - 1;
      match Run(s, schedule[..n])
      case None => None
      case Some(s') => if schedule[n].0 < |s'.threads| then Step(s', schedule[n].0, schedule[n].1) else None
  }

  // ---- what every step keeps ----

  /** The thread is in the stretches of code that run with `my` held. */
  predicate HoldsMy(pc: Pc) {
    pc.LockTest? || pc.LockLeave? || pc.LockCount? || pc.LockEnd? ||
    pc.UnlockTest? || pc.UnlockLeave? || pc.UnlockCount? || pc.UnlockEnd?
  }

  /** The thread is between the taking and the giving back of `mt`. */
  predicate HoldsMt(th: Thread) {
    match th.pc
    case LockBack(_) => true
    case LockCount(_) => true
    case LockEnd => true
    case UnlockBack(_) => th.depth > 1
    case UnlockCount(_) => th.depth > 1
    case UnlockEnd => th.depth > 1
    case _ => th.depth > 0
  }

  /** The calls a thread makes fit its depth. */
  predicate Fits(th: Thread) {
    match th.pc
    case LockLeave(_) => th.depth == 0
    case LockWait(_) => th.depth == 0
    case LockBack(_) => th.depth == 0
    case UnlockStart => th.depth > 0
    case UnlockTest => th.depth > 0
    case UnlockLeave(_) => th.depth == 1
    case UnlockFree(_) => th.depth == 1
    case UnlockBack(_) => th.depth == 1
    case UnlockCount(_) => th.depth > 0
    case UnlockEnd => th.depth > 0
    case _ => true
  }

  /** What a thread's count should be: its depth, except while a call has counted already. */
  function Counted(th: Thread): int {
    if th.pc.LockEnd? then th.depth + 1 else if th.pc.UnlockEnd? then th.depth - 1 else th.depth
  }

  function Number(ids: seq<Ident>, t: nat): nat {
    var i := IndexOf(ids, t);
    if i < |ids| then ids[i].number else 0
  }

  predicate Knows(pc: Pc, ids: seq<Ident>, t: nat) {
    pc.LockLeave? || pc.LockWait? || pc.LockBack? || pc.LockCount? ||
    pc.UnlockLeave? || pc.UnlockFree? || pc.UnlockBack? || pc.UnlockCount? ==>
      pc.index < |ids| && ids[pc.index].thread == t
  }

  predicate ThreadOk(s: State, t: nat)
    requires t < |s.threads|
  {
    var th := s.threads[t];
    && (HoldsMy(th.pc) <==> s.my == Some(t))
    && (HoldsMt(th) <==> s.mt == Some(t))
    && Fits(th)
    && Number(s.ids, t) == Counted(th)
    && Knows(th.pc, s.ids, t)
  }

  /** No thread has two entries. */
  predicate OneEach(ids: seq<Ident>) {
    forall i, j :: 0 <= i < j < |ids| ==> ids[i].thread != ids[j].thread
  }

  predicate Inv(s: State) {
    && (forall t :: 0 <= t < |s.threads| ==> ThreadOk(s, t))
    && OneEach(s.ids)
    && (s.my.Some? ==> s.my.value < |s.threads|)
    && (s.mt.Some? ==> s.mt.value < |s.threads|)
  }

  lemma InitInv(n: nat)
    ensures Inv(Init(n))
  {
  }

  lemma IndexIs(ids: seq<Ident>, i: nat)
    requires i < |ids| && OneEach(ids)
    ensures IndexOf(ids, ids[i].thread) == i
  {
  }

  /** Looking for an entry changes no thread's count. */
  lemma CheckKeeps(ids: seq<Ident>, t: nat, u: nat)
    requires OneEach(ids)
    ensures OneEach(CheckThread(ids, t)) && Number(CheckThread(ids, t), u) == Number(ids, u)
    ensures IndexOf(CheckThread(ids, t), t) == IndexOf(ids, t)
  {
    var r := CheckThread(ids, t);
    assert OneEach(r);
    IndexIs(r, IndexOf(ids, t));
    if IndexOf(ids, u) < |ids| { IndexIs(r, IndexOf(ids, u)); }
    else if u != t { assert forall j :: 0 <= j < |r| ==> r[j].thread != u; }
  }

  /** Counting in one entry changes the count of its thread only. */
  lemma CountKeeps(ids: seq<Ident>, i: nat, n: nat, u: nat)
    requires OneEach(ids) && i < |ids|
    ensures var r := ids[i := ids[i].(number := n)];
            OneEach(r) && Number(r, u) == if u == ids[i].thread then n else Number(ids, u)
  {
    var r := ids[i := ids[i].(number := n)];
    assert OneEach(r);
    IndexIs(ids, i);
    IndexIs(r, i);
    if IndexOf(ids, u) < |ids| { IndexIs(r, IndexOf(ids, u)); }
    else { assert forall j :: 0 <= j < |r| ==> r[j].thread != u; }
  }

  // One step, seen part by part.

  function NextIds(ids: seq<Ident>, t: nat, pc: Pc): seq<Ident> {
    if pc.LockTest? || pc.UnlockTest? then CheckThread(ids, t)
    else if pc.LockCount? && pc.index < |ids| then ids[pc.index := ids[pc.index].(number := ids[pc.index].number + 1)]
    else if pc.UnlockCount? && pc.index < |ids| && ids[pc.index].number != 0 then
      ids[pc.index := ids[pc.index].(number := ids[pc.index].number - 1)]
    else ids
  }

  function NextMy(my: Option<nat>, t: nat, pc: Pc): Option<nat> {
    if pc.LockStart? || pc.LockBack? || pc.UnlockStart? || pc.UnlockBack? then Some(t)
    else if pc.LockLeave? || pc.LockEnd? || pc.UnlockLeave? || pc.UnlockEnd? then None
    else my
  }

  function NextMt(mt: Option<nat>, t: nat, pc: Pc): Option<nat> {
    if pc.LockWait? then Some(t) else if pc.UnlockFree? then None else mt
  }

  lemma StepShape(s: State, t: nat, move: Move)
    requires t < |s.threads| && Step(s, t, move).Some?
    ensures var s', pc := Step(s, t, move).value, s.threads[t].pc;
            && s'.threads == s.threads[t := s'.threads[t]] && |s'.threads| == |s.threads|
            && s'.ids == NextIds(s.ids, t, pc)
            && s'.my == NextMy(s.my, t, pc) && s'.mt == NextMt(s.mt, t, pc)
            && (pc.LockStart? || pc.LockBack? || pc.UnlockStart? || pc.UnlockBack? ==> s.my.None?)
            && (pc.LockWait? ==> s.mt.None?)
  {
    hide CheckThread, IndexOf;
  }

  /** The entry a thread reads in a call holds its own count. */
  lemma TestReads(ids: seq<Ident>, t: nat)
    ensures CheckThread(ids, t)[IndexOf(ids, t)].number == Number(ids, t)
  {
  }

  lemma CountReads(ids: seq<Ident>, i: nat)
    requires OneEach(ids) && i < |ids|
    ensures Number(ids, ids[i].thread) == ids[i].number
  {
    IndexIs(ids, i);
  }

  /** How the entries change: no entry changes its thread, and only the count of `t` changes. */
  lemma IdsKeep(s: State, t: nat, u: nat)
    requires t < |s.threads| && ThreadOk(s, t) && OneEach(s.ids)
    ensures var ids := NextIds(s.ids, t, s.threads[t].pc);
            && OneEach(ids) && |ids| >= |s.ids|
            && (forall i :: 0 <= i < |s.ids| ==> ids[i].thread == s.ids[i].thread)
            && (u != t ==> Number(ids, u) == Number(s.ids, u))
  {
    hide Number, IndexOf;
    var pc := s.threads[t].pc;
    if pc.LockTest? || pc.UnlockTest? {
      CheckKeeps(s.ids, t, u);
    } else if pc.LockCount? {
      CountKeeps(s.ids, pc.index, s.ids[pc.index].number + 1, u);
    } else if pc.UnlockCount? && s.ids[pc.index].number != 0 {
      CountKeeps(s.ids, pc.index, s.ids[pc.index].number - 1, u);
    }
  }

  lemma OthersKeep(s: State, t: nat, move: Move, u: nat)
    requires Inv(s) && t < |s.threads| && u < |s.threads| && u != t && Step(s, t, move).Some?
    ensures |Step(s, t, move).value.threads| == |s.threads| && ThreadOk(Step(s, t, move).value, u)
  {
    StepShape(s, t, move);
    assert ThreadOk(s, t) && ThreadOk(s, u);
    IdsKeep(s, t, u);
    hide Step, NextIds, Number, OneEach, Inv;
  }

  lemma SelfMutexes(s: State, t: nat, move: Move)
    requires t < |s.threads| && ThreadOk(s, t) && Step(s, t, move).Some?
    ensures var s' := Step(s, t, move).value;
            && |s'.threads| == |s.threads|
            && (HoldsMy(s'.threads[t].pc) <==> s'.my == Some(t))
            && (HoldsMt(s'.threads[t]) <==> s'.mt == Some(t))
            && Fits(s'.threads[t])
  {
    TestReads(s.ids, t);
    hide CheckThread, IndexOf, Number;
  }

  lemma SelfCounts(s: State, t: nat, move: Move)
    requires t < |s.threads| && ThreadOk(s, t) && OneEach(s.ids) && Step(s, t, move).Some?
    ensures var s' := Step(s, t, move).value;
            && |s'.threads| == |s.threads|
            && Number(s'.ids, t) == Counted(s'.threads[t])
            && Knows(s'.threads[t].pc, s'.ids, t)
  {
    hide Number, IndexOf, CheckThread;
    var pc := s.threads[t].pc;
    CheckKeeps(s.ids, t, t);
    if pc.LockCount? || pc.UnlockCount? { CountReads(s.ids, pc.index); }
    if pc.LockCount? {
      CountKeeps(s.ids, pc.index, s.ids[pc.index].number + 1, t);
    } else if pc.UnlockCount? && s.ids[pc.index].number != 0 {
      CountKeeps(s.ids, pc.index, s.ids[pc.index].number - 1, t);
    }
  }

  /** Every step of every thread keeps the invariant. */
  lemma StepInv(s: State, t: nat, move: Move)
    requires Inv(s) && t < |s.threads| && Step(s, t, move).Some?
    ensures Inv(Step(s, t, move).value) && |Step(s, t, move).value.threads| == |s.threads|
  {
    assert ThreadOk(s, t);
    var s' := Step(s, t, move).value;
    SelfMutexes(s, t, move);
    SelfCounts(s, t, move);
    forall u | 0 <= u < |s'.threads|
      ensures ThreadOk(s', u)
    {
      if u != t { OthersKeep(s, t, move, u); }
    }
    StepShape(s, t, move);
    IdsKeep(s, t, t);
  }

  /** The invariant holds after every schedule of any number of threads. */
  lemma {:induction false} RunInv(n: nat, schedule: Schedule)
    requires Run(Init(n), schedule).Some?
    ensures Inv(Run(Init(n), schedule).value) && |Run(Init(n), schedule).value.threads| == n
    decreases |schedule|
  {
    hide Step, Inv;
    if schedule == [] {
      InitInv(n);
    } else {
      var last := schedule[|schedule| - 1];
      RunInv(n, schedule[..|schedule| - 1]);
      StepInv(Run(Init(n), schedule[..|schedule| - 1]).value, last.0, last.1);
    }
  }

  // ---- what a user of the mutex relies on ----

  /** The thread is between the return of its outermost lock and the call of its outermost unlock. */
  predicate Inside(th: Thread) {
    || th.depth > 1
    || (th.depth == 1 && (th.pc.Outside? || th.pc.LockStart? || th.pc.LockTest? || th.pc.LockCount? || th.pc.LockEnd?))
  }

  /** No two threads are inside at the same time, whatever the schedule. */
  lemma MutualExclusion(n: nat, schedule: Schedule, t: nat, u: nat)
    requires Run(Init(n), schedule).Some? && t < n && u < n
    ensures var s := Run(Init(n), schedule).value;
            |s.threads| == n && (Inside(s.threads[t]) && Inside(s.threads[u]) ==> t == u)
  {
    RunInv(n, schedule);
    var s := Run(Init(n), schedule).value;
    assert ThreadOk(s, t) && ThreadOk(s, u);
  }

  /** Between calls a thread's count is its depth, and it has one entry at most. */
  lemma CountIsDepth(n: nat, schedule: Schedule, t: nat)
    requires Run(Init(n), schedule).Some? && t < n
    ensures var s := Run(Init(n), schedule).value;
            && |s.threads| == n
            && (s.threads[t].pc.Outside? ==> Number(s.ids, t) == s.threads[t].depth)
            && (forall i, j :: 0 <= i < |s.ids| && 0 <= j < |s.ids| && s.ids[i].thread == s.ids[j].thread ==> i == j)
  {
    RunInv(n, schedule);
    assert ThreadOk(Run(Init(n), schedule).value, t);
  }

  /** A plain mutex is given back only by the thread that took it. */
  lemma ReleasedByHolder(n: nat, schedule: Schedule, t: nat, move: Move)
    requires Run(Init(n), schedule).Some? && t < n
    ensures var s := Run(Init(n), schedule).value;
            && |s.threads| == n
            && (Step(s, t, move).Some? ==>
                  var s' := Step(s, t, move).value;
                  && (s.my.Some? && s'.my != s.my ==> s.my == Some(t) && s'.my.None?)
                  && (s.mt.Some? && s'.mt != s.mt ==> s.mt == Some(t) && s'.mt.None?))
  {
    RunInv(n, schedule);
    var s := Run(Init(n), schedule).value;
    assert ThreadOk(s, t);
    if Step(s, t, move).Some? { StepShape(s, t, move); }
    hide Step;
  }

  /** A thread that waits for `mt` while another one has it. */
  predicate Waits(s: State, t: nat)
    requires t < |s.threads|
  {
    s.threads[t].pc.LockWait? && s.mt.Some? && s.mt != Some(t)
  }

  /** No deadlock: either some thread can go on with its call, or all threads that are in a call
      wait for one that is outside of any call and has the mutex, and that can call unlock. */
  lemma NoDeadlock(n: nat, schedule: Schedule)
    requires Run(Init(n), schedule).Some?
    ensures var s := Run(Init(n), schedule).value;
            && |s.threads| == n
            && ((exists t :: 0 <= t < n && !s.threads[t].pc.Outside? && Step(s, t, Go).Some?)
                || (forall t :: 0 <= t < n && !s.threads[t].pc.Outside? ==>
                      && Waits(s, t) && s.mt.value < n
                      && s.threads[s.mt.value].pc.Outside? && s.threads[s.mt.value].depth > 0
                      && Step(s, s.mt.value, Unlock).Some?))
  {
    RunInv(n, schedule);
    var s := Run(Init(n), schedule).value;
    if s.my.Some? {
      assert ThreadOk(s, s.my.value);
      CanGo(s, s.my.value);
    } else if s.mt.Some? {
      assert ThreadOk(s, s.mt.value);
      if !s.threads[s.mt.value].pc.Outside? { CanGo(s, s.mt.value); }
    }
    if forall t :: 0 <= t < n && !s.threads[t].pc.Outside? ==> Step(s, t, Go).None? {
      forall t | 0 <= t < n && !s.threads[t].pc.Outside?
        ensures Waits(s, t)
      {
        assert ThreadOk(s, t) && s.my.None?;
        if !Waits(s, t) { CanGo(s, t); }
      }
    }
  }

  /** Only a taken mutex blocks a call. */
  lemma CanGo(s: State, t: nat)
    requires t < |s.threads| && ThreadOk(s, t) && !s.threads[t].pc.Outside?
    requires s.my.None? || s.my == Some(t)
    requires !Waits(s, t)
    ensures Step(s, t, Go).Some?
  {
    hide CheckThread, IndexOf, Number;
  }

  // ---- the window ----

  /** A thread is counted without having the mutex exactly while its outermost unlock has given it back
      and has not counted down yet. */
  lemma CountedWithoutMutex(n: nat, schedule: Schedule, t: nat)
    requires Run(Init(n), schedule).Some? && t < n
    ensures var s := Run(Init(n), schedule).value;
            && |s.threads| == n
            && (Number(s.ids, t) > 0 && s.mt != Some(t) <==>
                  s.threads[t].depth == 1 && (s.threads[t].pc.UnlockBack? || s.threads[t].pc.UnlockCount?))
  {
    RunInv(n, schedule);
    assert ThreadOk(Run(Init(n), schedule).value, t);
    hide Step, Number, Run;
  }

  lemma RunSnoc(s0: State, schedule: Schedule, s: State, t: nat, move: Move) returns (longer: Schedule, s': State)
    requires Run(s0, schedule) == Some(s) && t < |s.threads| && Step(s, t, move).Some?
    ensures Step(s, t, move) == Some(s') && Run(s0, longer) == Some(s')
  {
    hide Step;
    longer, s' := schedule + [(t, move)], Step(s, t, move).value;
    assert longer[..|schedule|] == schedule;
  }

  /** Two steps of a call, one after the other. */
  lemma GoTwice(s0: State, schedule: Schedule, s: State, t: nat, th: Thread, s': State) returns (longer: Schedule)
    requires Run(s0, schedule) == Some(s) && t < |s.threads| && s.threads[t] == th
    requires var m := Step(s, t, Go); m.Some? && |m.value.threads| == |s.threads| && Step(m.value, t, Go) == Some(s')
    ensures Run(s0, longer) == Some(s')
  {
    hide Step;
    var m;
    longer, m := RunSnoc(s0, schedule, s, t, Go);
    var r;
    longer, r := RunSnoc(s0, longer, m, t, Go);
  }

  /** A lock that finds the count 0 waits for `mt` without holding `my`. */
  lemma LockBegins(s0: State, schedule: Schedule, s: State, t: nat, i: nat) returns (longer: Schedule, s': State)
    requires Run(s0, schedule) == Some(s) && t < |s.threads| && s.threads[t] == Thread(LockStart, 0)
    requires s.my.None? && i == IndexOf(s.ids, t) && CheckThread(s.ids, t)[i].number == 0
    ensures Run(s0, longer) == Some(s')
    ensures s' == State(s.threads[t := Thread(LockWait(i), 0)], CheckThread(s.ids, t), None, s.mt)
  {
    hide CheckThread, IndexOf, Run;
    assert s.threads[t := Thread(LockTest, 0)][t := Thread(LockLeave(i), 0)] == s.threads[t := Thread(LockLeave(i), 0)];
    s' := State(s.threads[t := Thread(LockLeave(i), 0)], CheckThread(s.ids, t), Some(t), s.mt);
    longer := GoTwice(s0, schedule, s, t, s.threads[t], s');
    var r;
    longer, r := RunSnoc(s0, longer, s', t, Go);
    s' := r;
  }

  /** When `mt` is free the lock takes it and counts. */
  lemma LockGoesOn(s0: State, schedule: Schedule, s: State, t: nat, i: nat) returns (longer: Schedule, s': State)
    requires Run(s0, schedule) == Some(s) && t < |s.threads| && s.threads[t] == Thread(LockWait(i), 0)
    requires s.my.None? && s.mt.None? && i < |s.ids| && s.ids[i].number == 0
    ensures Run(s0, longer) == Some(s')
    ensures s' == State(s.threads[t := Thread(LockEnd, 0)], s.ids[i := s.ids[i].(number := 1)], Some(t), Some(t))
  {
    hide Run;
    assert s.threads[t := Thread(LockBack(i), 0)][t := Thread(LockCount(i), 0)] ==
           s.threads[t := Thread(LockCount(i), 0)];
    s' := State(s.threads[t := Thread(LockCount(i), 0)], s.ids, Some(t), Some(t));
    longer := GoTwice(s0, schedule, s, t, s.threads[t], s');
    var r;
    longer, r := RunSnoc(s0, longer, s', t, Go);
    s' := r;
  }

  /** A thread that finds both mutexes free locks, up to the last statement of the call. */
  lemma LockAlone(s0: State, schedule: Schedule, s: State, t: nat) returns (longer: Schedule, s': State)
    requires Run(s0, schedule) == Some(s) && t < |s.threads| && s.threads[t] == Thread(Outside, 0)
    requires s.my.None? && s.mt.None? && OneEach(s.ids) && Number(s.ids, t) == 0
    ensures Run(s0, longer) == Some(s') && s'.threads == s.threads[t := Thread(LockEnd, 0)]
    ensures s'.my == Some(t) && s'.mt == Some(t) && OneEach(s'.ids)
    ensures forall u :: Number(s'.ids, u) == if u == t then 1 else Number(s.ids, u)
  {
    TestReads(s.ids, t);
    var i := IndexOf(s.ids, t);
    var ids := CheckThread(s.ids, t);
    assert i < |ids| && ids[i].thread == t && ids[i].number == 0;
    forall u
      ensures OneEach(ids) && Number(ids, u) == Number(s.ids, u)
      ensures Number(ids[i := ids[i].(number := 1)], u) == if u == t then 1 else Number(ids, u)
      ensures OneEach(ids[i := ids[i].(number := 1)])
    {
      CheckKeeps(s.ids, t, u);
      CountKeeps(ids, i, 1, u);
    }
    longer, s' := RunSnoc(s0, schedule, s, t, Lock);
    hide Run, CheckThread, IndexOf, Number, OneEach, Step;
    longer, s' := LockBegins(s0, longer, s', t, i);
    longer, s' := LockGoesOn(s0, longer, s', t, i);
  }

  /** An unlock that finds the count 1 gives back `mt` before it counts. */
  lemma UnlockGoesOn(s0: State, schedule: Schedule, s: State, t: nat, i: nat) returns (longer: Schedule, s': State)
    requires Run(s0, schedule) == Some(s) && t < |s.threads| && s.threads[t] == Thread(UnlockStart, 1)
    requires s.my.None? && i == IndexOf(s.ids, t) && CheckThread(s.ids, t) == s.ids && s.ids[i].number == 1
    ensures Run(s0, longer) == Some(s')
    ensures s' == State(s.threads[t := Thread(UnlockBack(i), 1)], s.ids, None, None)
  {
    hide CheckThread, IndexOf, Run;
    assert s.threads[t := Thread(UnlockTest, 1)][t := Thread(UnlockLeave(i), 1)] ==
           s.threads[t := Thread(UnlockLeave(i), 1)];
    var m := State(s.threads[t := Thread(UnlockLeave(i), 1)], s.ids, Some(t), s.mt);
    longer := GoTwice(s0, schedule, s, t, s.threads[t], m);
    assert m.threads[t := Thread(UnlockFree(i), 1)][t := Thread(UnlockBack(i), 1)] ==
           s.threads[t := Thread(UnlockBack(i), 1)];
    s' := State(s.threads[t := Thread(UnlockBack(i), 1)], s.ids, None, None);
    longer := GoTwice(s0, longer, m, t, m.threads[t], s');
  }

  /** A thread that returns from its lock and unlocks, up to where it has given back `mt`. */
  lemma UnlockAlone(s0: State, schedule: Schedule, s: State, t: nat) returns (longer: Schedule, s': State)
    requires Run(s0, schedule) == Some(s) && t < |s.threads| && s.threads[t] == Thread(LockEnd, 0)
    requires s.my == Some(t) && OneEach(s.ids) && Number(s.ids, t) == 1
    ensures Run(s0, longer) == Some(s') && s'.ids == s.ids && s'.my.None? && s'.mt.None?
    ensures |s'.threads| == |s.threads| && forall u :: 0 <= u < |s.threads| && u != t ==> s'.threads[u] == s.threads[u]
  {
    TestReads(s.ids, t);
    assert CheckThread(s.ids, t) == s.ids;
    hide Run, CheckThread, IndexOf, Number, OneEach;
    longer, s' := RunSnoc(s0, schedule, s, t, Go);
    longer, s' := RunSnoc(s0, longer, s', t, Unlock);
    hide Step;
    longer, s' := UnlockGoesOn(s0, longer, s', t, IndexOf(s.ids, t));
  }

  /** A thread's count does not tell who has the mutex: there is a run after which the first of two
      threads has given it back and the second has taken it, and both counts are 1. */
  lemma Window() returns (schedule: Schedule)
    ensures Run(Init(2), schedule).Some?
    ensures var s := Run(Init(2), schedule).value;
            Number(s.ids, 0) == 1 && Number(s.ids, 1) == 1 && s.mt == Some(1)
  {
    var s0 := Init(2);
    var s;
    assert Run(s0, []) == Some(s0);
    hide Run, OneEach;
    assert OneEach(s0.ids) by { InitInv(2); }
    schedule, s := LockAlone(s0, [], s0, 0);
    schedule, s := UnlockAlone(s0, schedule, s, 0);
    schedule, s := LockAlone(s0, schedule, s, 1);
  }

  // ---- balanced use ----

  /** The guard that takes the mutex at most once and gives it back when it goes out of scope. */
  class ScopeLock {
    var b: bool
    ghost var calls: seq<Move>

    /** Lock and unlock alternate, beginning with lock; the flag says whether one is due. */
    ghost predicate Valid()
      reads this
    {
      && (forall i :: 0 <= i < |calls| ==> calls[i] == if i % 2 == 0 then Move.Lock else Move.Unlock)
      && (b <==> |calls| % 2 == 1)
    }

    constructor ()
      ensures Valid() && calls == [Move.Lock]
    {
      b := true;
      calls := [Move.Lock];
    }

    method Lock()
      requires Valid()
      modifies this
      ensures Valid() && b && calls == old(calls) + if old(b) then [] else [Move.Lock]
    {
      if !b { calls := calls + [Move.Lock]; }
      b := true;
    }

    method Unlock()
      requires Valid()
      modifies this
      ensures Valid() && !b && calls == old(calls) + if old(b) then [Move.Unlock] else []
    {
      if b { calls := calls + [Move.Unlock]; }
      b := false;
    }

    /** What the destructor does: every lock has its unlock. */
    method Leave()
      requires Valid()
      modifies this
      ensures Valid() && |calls| % 2 == 0 && old(calls) <= calls
    {
      Unlock();
    }
  }
}
