/** The broker's table of events: slots that are filled, started, put back and emptied. */
module EventTable {
  import opened Options

  /** What an event carries, as the texts its two parts are printed to. */
  datatype Payload = Payload(meta: string, data: Option<string>)

  datatype Event = Event(id: string, json: Payload, restarts: nat, busy: bool, process: bool)

  const NO_PAYLOAD := Payload("null", None)

  const BLANK := Event("", NO_PAYLOAD, 0, false, false)

  const OK := 0
  const NOT_STARTED := -2
  const NOT_FOUND := -3

  // ---- what each operation does to the slots ----

  /** The first slot with this id, or the number of slots. Slots in use and others are not told apart. */
  function SlotOf(events: seq<Event>, id: string): (i: nat)
    ensures i <= |events|
    ensures i < |events| ==> events[i].id == id
    ensures forall j :: 0 <= j < i ==> events[j].id != id
  {
    if events == [] then 0
    else if events[0].id == id then 0
    else
      var i := SlotOf(events[1..], id);
      assert forall j :: 1 <= j <= i && j < |events| ==> events[j] == events[1..][j - 1];
      1 + i
  }

  function FreeSlot(events: seq<Event>): (i: nat)
    ensures i <= |events|
    ensures i < |events| ==> !events[i].busy
    ensures forall j :: 0 <= j < i ==> events[j].busy
  {
    if events == [] then 0
    else if !events[0].busy then 0
    else
      var i := FreeSlot(events[1..]);
      assert forall j :: 1 <= j <= i && j < |events| ==> events[j] == events[1..][j - 1];
      1 + i
  }

  /** The operations. An id that is made up for an event comes with the operation. */
  datatype Op = Add(json: Payload, made: string) | Start(id: string) | Clear(id: string, made: string) | End(id: string)

  function Put(events: seq<Event>, i: nat, e: Event): seq<Event>
    requires i <= |events|
  {
    if i < |events| then events[i := e] else events + [e]
  }

  function Restarted(e: Event, made: string): Event {
    e.(restarts := e.restarts + 1, id := made, process := false)
  }

  function After(events: seq<Event>, op: Op): seq<Event> {
    match op
    case Add(json, made) => Put(events, FreeSlot(events), Event(made, json, 0, true, false))
    case Start(id) =>
      var i := SlotOf(events, id);
      if i < |events| then events[i := events[i].(process := true)] else events
    case Clear(id, made) =>
      var i := SlotOf(events, id);
      if i < |events| && events[i].process then events[i := Restarted(events[i], made)] else events
    case End(id) =>
      var i := SlotOf(events, id);
      if i < |events| then events[i := BLANK] else events
  }

  function Status(events: seq<Event>, op: Op): int {
    match op
    case Add(_, _) => OK
    case Start(id) =>
      var i := SlotOf(events, id);
      if i == |events| then NOT_FOUND else if events[i].process then NOT_STARTED else OK
    case Clear(id, _) => if SlotOf(events, id) == |events| then NOT_STARTED else OK
    case End(id) => if SlotOf(events, id) == |events| then NOT_STARTED else OK
  }

  /** The events a worker is offered: those in use that nobody has started. */
  predicate Offered(e: Event) { e.busy && !e.process }

  function Listing(events: seq<Event>): seq<Event> {
    if events == [] then []
    else
      var n := |events| - 1;
      Listing(events[..n]) + if Offered(events[n]) then [events[n]] else []
  }

  // ---- the table ----

  class GroupClients {
    var events: seq<Event>
    var clients: seq<string>

    constructor ()
      ensures events == [] && clients == []
    {
      events, clients := [], [];
    }

    /** Makes the worker known. */
    method Meet(worker: string)
      modifies this`clients
      ensures worker in clients && clients == old(clients) + if worker in old(clients) then [] else [worker]
    {
      for i := 0 to |clients|
        invariant clients == old(clients) && worker !in clients[..i]
        modifies {}
      {
        if clients[i] == worker { return; }
      }
      clients := clients + [worker];
    }

    method AddNewEvent(worker: string, json: Payload, made: string) returns (status: int)
      modifies this
      ensures events == After(old(events), Add(json, made)) && status == Status(old(events), Add(json, made))
    {
      Meet(worker);
      var i := 0;
      while i < |events|
        invariant i <= |events| && events == old(events) && forall j :: 0 <= j < i ==> events[j].busy
        modifies {}
      {
        if !events[i].busy { break; }
        i := i + 1;
      }
      assert i == FreeSlot(events);
      if i < |events| {
        events := events[i := Event(made, json, 0, true, false)];
      } else {
        events := events + [Event(made, json, 0, true, false)];
      }
      return OK;
    }

    method Find(id: string) returns (i: nat)
      ensures i == SlotOf(events, id)
    {
      i := 0;
      while i < |events|
        invariant i <= |events| && forall j :: 0 <= j < i ==> events[j].id != id
      {
        if events[i].id == id { return; }
        i := i + 1;
      }
    }

    method StartEvent(worker: string, id: string) returns (status: int)
      modifies this
      ensures events == After(old(events), Start(id)) && status == Status(old(events), Start(id))
    {
      Meet(worker);
      var i := Find(id);
      if i == |events| { return NOT_FOUND; }
      if events[i].process {
        assert events[i := events[i].(process := true)] == events;
        return NOT_STARTED;
      }
      events := events[i := events[i].(process := true)];
      return OK;
    }

    method ClearEvent(worker: string, id: string, made: string) returns (status: int)
      modifies this
      ensures events == After(old(events), Clear(id, made)) && status == Status(old(events), Clear(id, made))
    {
      Meet(worker);
      var i := Find(id);
      if i == |events| { return NOT_STARTED; }
      if events[i].process {
        events := events[i := events[i].(restarts := events[i].restarts + 1, id := made, process := false)];
      }
      return OK;
    }

    method EndEvent(worker: string, id: string) returns (status: int)
      modifies this
      ensures events == After(old(events), End(id)) && status == Status(old(events), End(id))
    {
      Meet(worker);
      var i := Find(id);
      if i == |events| { return NOT_STARTED; }
      events := events[i := BLANK];
      return OK;
    }
  }

  // ---- runs ----

  function Run(ops: seq<Op>): seq<Event> {
    if ops == [] then [] else After(Run(ops[..|ops| - 1]), ops[|ops| - 1])
  }

  /** What the last of the operations answered. */
  function Answer(ops: seq<Op>, i: nat): int
    requires i < |ops|
  {
    Status(Run(ops[..i]), ops[i])
  }

  function Made(op: Op): set<string> {
    if op.Add? || op.Clear? then {op.made} else {}
  }

  function MadeIn(ops: seq<Op>): set<string> {
    if ops == [] then {} else MadeIn(ops[..|ops| - 1]) + Made(ops[|ops| - 1])
  }

  /** Ids that are made up are not empty and new, and no one asks for the empty id. */
  predicate FairNext(made: set<string>, op: Op) {
    && "" !in Made(op) && Made(op) !! made
    && (!op.Add? ==> op.id != "")
  }

  predicate Fair(ops: seq<Op>) {
    ops != [] ==> Fair(ops[..|ops| - 1]) && FairNext(MadeIn(ops[..|ops| - 1]), ops[|ops| - 1])
  }

  /** Slots in use have ids that were made up, and no two the same; the others are blank. */
  predicate Inv(events: seq<Event>, made: set<string>) {
    && (forall i :: 0 <= i < |events| && events[i].busy ==> events[i].id != "" && events[i].id in made)
    && (forall i :: 0 <= i < |events| && !events[i].busy ==> events[i].id == "" && !events[i].process)
    && (forall i, j :: 0 <= i < j < |events| && events[i].busy && events[j].busy ==> events[i].id != events[j].id)
  }

  lemma PutInv(events: seq<Event>, made: set<string>, i: nat, e: Event)
    requires Inv(events, made) && i <= |events|
    requires if e.busy then e.id != "" && forall j :: 0 <= j < |events| && j != i && events[j].busy ==>
             events[j].id != e.id
             else e.id == "" && !e.process
    ensures Inv(Put(events, i, e), made + if e.busy then {e.id} else {})
  {
    var r := Put(events, i, e);
    assert forall j :: 0 <= j < |r| && j != i ==> r[j] == events[j];
    assert r[i] == e;
  }

  lemma StepInv(events: seq<Event>, made: set<string>, op: Op)
    requires Inv(events, made) && FairNext(made, op)
    ensures Inv(After(events, op), made + Made(op))
  {
    match op {
      case Add(json, id) =>
        PutInv(events, made, FreeSlot(events), Event(id, json, 0, true, false));
      case Start(id) =>
        var i := SlotOf(events, id);
        if i < |events| {
          PutInv(events, made, i, events[i].(process := true));
          assert made + {id} == made;
        }
      case Clear(id, new_) =>
        var i := SlotOf(events, id);
        if i < |events| && events[i].process { PutInv(events, made, i, Restarted(events[i], new_)); }
      case End(id) =>
        var i := SlotOf(events, id);
        if i < |events| { PutInv(events, made, i, BLANK); }
    }
  }

  /** In every fair run the ids of the events in use are distinct, and a slot that is not in use is blank. */
  lemma {:induction false} RunInv(ops: seq<Op>)
    requires Fair(ops)
    ensures Inv(Run(ops), MadeIn(ops))
    decreases |ops|
  {
    if ops != [] {
      hide Inv, After, FairNext;
      var n := |ops| - 1;
      RunInv(ops[..n]);
      StepInv(Run(ops[..n]), MadeIn(ops[..n]), ops[n]);
    }
  }

  // ---- an event is started once ----

  /** No one can start the event of this id: it is started, or there is none of this id. */
  predicate Shut(events: seq<Event>, id: string) {
    forall i :: 0 <= i < |events| && events[i].id == id ==> events[i].process
  }

  predicate Gone(events: seq<Event>, id: string) {
    forall i :: 0 <= i < |events| ==> events[i].id != id
  }

  /** Nothing but the making of this id opens it again, and a gone id stays gone. */
  lemma StaysShut(events: seq<Event>, op: Op, id: string)
    requires id != "" && id !in Made(op)
    ensures Shut(events, id) ==> Shut(After(events, op), id)
    ensures Gone(events, id) ==> Gone(After(events, op), id)
  {
  }

  lemma {:induction false} RunStaysShut(ops: seq<Op>, m: nat, id: string)
    requires Fair(ops) && m <= |ops| && id != "" && id in MadeIn(ops[..m])
    ensures Shut(Run(ops[..m]), id) ==> Shut(Run(ops), id)
    ensures Gone(Run(ops[..m]), id) ==> Gone(Run(ops), id)
    ensures id in MadeIn(ops)
    decreases |ops| - m
  {
    var n := |ops| - 1;
    if m == |ops| {
      assert ops[..m] == ops;
    } else {
      assert ops[..n][..m] == ops[..m];
      RunStaysShut(ops[..n], m, id);
      hide After, Shut, Gone;
      StaysShut(Run(ops[..n]), ops[n], id);
    }
  }

  lemma {:induction false} FairPrefix(ops: seq<Op>, n: nat)
    requires Fair(ops) && n <= |ops|
    ensures Fair(ops[..n]) && (n < |ops| ==> FairNext(MadeIn(ops[..n]), ops[n]))
    decreases |ops| - n
  {
    if n == |ops| {
      assert ops[..n] == ops;
    } else {
      assert n < |ops| - 1 ==> ops[..|ops| - 1][..n] == ops[..n];
      if n < |ops| - 1 { FairPrefix(ops[..|ops| - 1], n); }
    }
  }

  /** What one operation leaves behind for the id it was asked for. */
  lemma AfterAnswer(events: seq<Event>, made: set<string>, op: Op)
    requires Inv(events, made) && FairNext(made, op) && !op.Add? && Status(events, op) == OK
    ensures op.id in made
    ensures op.Start? ==> Shut(After(events, op), op.id)
    ensures op.Clear? && events[SlotOf(events, op.id)].process ==> Gone(After(events, op), op.id)
    ensures op.End? ==> Gone(After(events, op), op.id)
  {
    var i := SlotOf(events, op.id);
    assert events[i].busy;
    assert forall j :: 0 <= j < |events| && j != i ==> events[j].id != op.id;
  }

  /** The answer OK is given to a start at most once for each id. */
  lemma StartedOnce(ops: seq<Op>, i: nat, j: nat, id: string)
    requires Fair(ops) && i < j < |ops| && ops[i] == Start(id) && ops[j] == Start(id) && Answer(ops, i) == OK
    ensures Answer(ops, j) != OK
  {
    FairPrefix(ops, i);
    RunInv(ops[..i]);
    hide Inv, After, FairNext;
    AfterAnswer(Run(ops[..i]), MadeIn(ops[..i]), ops[i]);
    ShutLater(ops, i, j, id);
  }

  lemma ShutLater(ops: seq<Op>, i: nat, j: nat, id: string)
    requires Fair(ops) && i < j < |ops| && id != "" && id in MadeIn(ops[..i])
    ensures Shut(After(Run(ops[..i]), ops[i]), id) ==> Shut(Run(ops[..j]), id)
    ensures Gone(After(Run(ops[..i]), ops[i]), id) ==> Gone(Run(ops[..j]), id)
  {
    hide After, Shut, Gone, FairNext;
    assert ops[..i + 1][..i] == ops[..i];
    assert ops[..j][..i + 1] == ops[..i + 1];
    FairPrefix(ops, j);
    RunStaysShut(ops[..j], i + 1, id);
  }

  /** An event that was put back while in process, or ended, is not reachable by that id again. */
  lemma GoneForGood(ops: seq<Op>, i: nat, j: nat)
    requires Fair(ops) && i < j <= |ops| && Answer(ops, i) == OK
    requires ops[i].End? || (ops[i].Clear? && Run(ops[..i])[SlotOf(Run(ops[..i]), ops[i].id)].process)
    ensures Gone(Run(ops[..j]), ops[i].id)
    ensures j < |ops| && !ops[j].Add? && ops[j].id == ops[i].id ==>
            Answer(ops, j) != OK && Run(ops[..j + 1]) == Run(ops[..j])
  {
    hide Run, Inv, After, FairNext, Gone, Shut, Fair, MadeIn, Status;
    FairPrefix(ops, i);
    RunInv(ops[..i]);
    AfterAnswer(Run(ops[..i]), MadeIn(ops[..i]), ops[i]);
    assert ops[i].id != "" by { Named(MadeIn(ops[..i]), ops[i]); }
    GoneLater(ops, i, j);
    if j < |ops| && !ops[j].Add? && ops[j].id == ops[i].id {
      RunNext(ops, j);
      NothingThere(Run(ops[..j]), ops[j]);
    }
  }

  lemma Named(made: set<string>, op: Op)
    requires FairNext(made, op) && !op.Add?
    ensures op.id != ""
  {
  }

  lemma RunNext(ops: seq<Op>, j: nat)
    requires j < |ops|
    ensures Run(ops[..j + 1]) == After(Run(ops[..j]), ops[j])
  {
    assert ops[..j + 1][..j] == ops[..j];
  }

  lemma NothingThere(events: seq<Event>, op: Op)
    requires !op.Add? && Gone(events, op.id)
    ensures Status(events, op) != OK && After(events, op) == events
  {
    assert SlotOf(events, op.id) == |events|;
  }

  lemma GoneLater(ops: seq<Op>, i: nat, j: nat)
    requires Fair(ops) && i < j <= |ops| && !ops[i].Add? && ops[i].id != "" && ops[i].id in MadeIn(ops[..i])
    requires Gone(After(Run(ops[..i]), ops[i]), ops[i].id)
    ensures Gone(Run(ops[..j]), ops[i].id)
  {
    hide After, Shut, Gone, FairNext;
    assert ops[..i + 1][..i] == ops[..i];
    assert ops[..j][..i + 1] == ops[..i + 1];
    FairPrefix(ops, j);
    RunStaysShut(ops[..j], i + 1, ops[i].id);
  }

  // ---- what is offered ----

  lemma {:induction false} ListingHas(events: seq<Event>, e: Event)
    ensures e in Listing(events) <==> e in events && Offered(e)
  {
    if events != [] {
      var n := |events| - 1;
      ListingHas(events[..n], e);
      assert events == events[..n] + [events[n]];
    }
  }

  /** The listing offers exactly the ids that a start would be granted for. */
  lemma OfferedIffStartable(ops: seq<Op>, id: string)
    requires Fair(ops) && id != ""
    ensures Status(Run(ops), Start(id)) == OK <==> exists e :: e in Listing(Run(ops)) && e.id == id
  {
    hide Run, Fair, MadeIn, Listing;
    RunInv(ops);
    var events := Run(ops);
    var i := SlotOf(events, id);
    if Status(events, Start(id)) == OK {
      ListingHas(events, events[i]);
      assert events[i] in events;
    }
    if e :| e in Listing(events) && e.id == id {
      ListingHas(events, e);
      var j :| 0 <= j < |events| && events[j] == e;
      assert i <= j && events[i].busy;
    }
  }

  // ---- what an event carries ----

  /** What was added for the event that has this id now: an add gives an id its payload, and a clear hands
      the payload of one id on to the next. This looks at the operations only. */
  function PayloadOf(ops: seq<Op>, id: string): Payload
    decreases |ops|
  {
    if ops == [] then NO_PAYLOAD
    else
      var n := |ops| - 1;
      if ops[n].Add? && ops[n].made == id then ops[n].json
      else if ops[n].Clear? && ops[n].made == id then PayloadOf(ops[..n], ops[n].id)
      else PayloadOf(ops[..n], id)
  }

  /** How often the event that has this id now was put back. */
  function RestartsOf(ops: seq<Op>, id: string): nat
    decreases |ops|
  {
    if ops == [] then 0
    else
      var n := |ops| - 1;
      if ops[n].Add? && ops[n].made == id then 0
      else if ops[n].Clear? && ops[n].made == id then 1 + RestartsOf(ops[..n], ops[n].id)
      else RestartsOf(ops[..n], id)
  }

  /** The events in use carry these payloads. */
  predicate Carried(ops: seq<Op>, events: seq<Event>) {
    forall i :: 0 <= i < |events| && events[i].busy ==>
      events[i].json == PayloadOf(ops, events[i].id) && events[i].restarts == RestartsOf(ops, events[i].id)
  }

  lemma OtherId(ops: seq<Op>, id: string)
    requires ops != [] && id !in Made(ops[|ops| - 1])
    ensures PayloadOf(ops, id) == PayloadOf(ops[..|ops| - 1], id)
    ensures RestartsOf(ops, id) == RestartsOf(ops[..|ops| - 1], id)
  {
  }

  lemma StepCarried(ops: seq<Op>)
    requires ops != []
    requires var n := |ops| - 1;
             var events, made := Run(ops[..n]), MadeIn(ops[..n]);
             Inv(events, made) && FairNext(made, ops[n]) && Carried(ops[..n], events)
    ensures Carried(ops, After(Run(ops[..|ops| - 1]), ops[|ops| - 1]))
  {
    hide Run, MadeIn;
    var n := |ops| - 1;
    var events, op := Run(ops[..n]), ops[n];
    var later := After(events, op);
    forall i | 0 <= i < |later| && later[i].busy
      ensures later[i].json == PayloadOf(ops, later[i].id) && later[i].restarts == RestartsOf(ops, later[i].id)
    {
      if later[i].id !in Made(op) { OtherId(ops, later[i].id); }
    }
  }

  /** In every fair run each event in use carries what was added for it, through all changes of its id, and
      counts how often it was put back. */
  lemma {:induction false} CarriesItsAdd(ops: seq<Op>)
    requires Fair(ops)
    ensures Carried(ops, Run(ops))
    decreases |ops|
  {
    if ops != [] {
      hide Inv, After, FairNext, Carried;
      var n := |ops| - 1;
      CarriesItsAdd(ops[..n]);
      RunInv(ops[..n]);
      StepCarried(ops);
    } else {
      hide PayloadOf, RestartsOf;
    }
  }

  // ---- the table without its slots ----

  datatype Entry = Entry(json: Payload, restarts: nat, process: bool)

  function Next(m: map<string, Entry>, op: Op): map<string, Entry> {
    match op
    case Add(json, made) => m[made := Entry(json, 0, false)]
    case Start(id) => if id in m then m[id := m[id].(process := true)] else m
    case Clear(id, made) =>
      if id in m && m[id].process then (m - {id})[made := Entry(m[id].json, m[id].restarts + 1, false)] else m
    case End(id) => m - {id}
  }

  /** The events that are in the table after some operations, by their ids. */
  function Live(ops: seq<Op>): map<string, Entry> {
    if ops == [] then map[] else Next(Live(ops[..|ops| - 1]), ops[|ops| - 1])
  }

  /** The slots in use hold exactly the events of the map. */
  predicate Holds(events: seq<Event>, m: map<string, Entry>) {
    && (forall i :: 0 <= i < |events| && events[i].busy ==>
          events[i].id in m && m[events[i].id] == Entry(events[i].json, events[i].restarts, events[i].process))
    && (forall id :: id in m ==> id != "" && SlotOf(events, id) < |events|)
  }

  /** Changing one slot changes the entry of its id. */
  lemma PutHolds(events: seq<Event>, made: set<string>, m: map<string, Entry>, i: nat, e: Event, m': map<string, Entry>)
    requires Inv(events, made) && Holds(events, m) && i <= |events|
    requires i < |events| && !events[i].busy ==> events[i].id == ""
    requires var old_ := if i < |events| && events[i].busy then {events[i].id} else {};
             m' == if e.busy then (m - old_)[e.id := Entry(e.json, e.restarts, e.process)] else m - old_
    requires e.busy ==> e.id != "" && forall j :: 0 <= j < |events| && j != i && events[j].busy ==> events[j].id != e.id
    ensures Holds(Put(events, i, e), m')
  {
    var r := Put(events, i, e);
    assert r[i] == e && forall j :: 0 <= j < |r| && j != i ==> r[j] == events[j];
    forall id | id in m'
      ensures id != "" && SlotOf(r, id) < |r|
    {
      if e.busy && id == e.id {
        InSlots(r, i);
      } else {
        var j := SlotOf(events, id);
        assert events[j].id == id && j != i;
        InSlots(r, j);
      }
    }
  }

  lemma InSlots(events: seq<Event>, i: nat)
    requires i < |events|
    ensures SlotOf(events, events[i].id) < |events|
  {
  }

  lemma FoundBusy(events: seq<Event>, made: set<string>, m: map<string, Entry>, id: string)
    requires Inv(events, made) && Holds(events, m) && id != ""
    ensures id in m <==> SlotOf(events, id) < |events|
    ensures SlotOf(events, id) < |events| ==> events[SlotOf(events, id)].busy
  {
  }

  /** In every fair run the table holds exactly the events that the operations leave, with what they carry,
      how often they were put back and whether they are in process; where they stand does not matter. */
  lemma {:induction false} TableIsMap(ops: seq<Op>)
    requires Fair(ops)
    ensures Holds(Run(ops), Live(ops))
    decreases |ops|
  {
    if ops != [] {
      hide Inv, After, FairNext, Holds, Next;
      var n := |ops| - 1;
      TableIsMap(ops[..n]);
      RunInv(ops[..n]);
      StepHolds(Run(ops[..n]), MadeIn(ops[..n]), Live(ops[..n]), ops[n]);
    }
  }

  lemma StepHolds(events: seq<Event>, made: set<string>, m: map<string, Entry>, op: Op)
    requires Inv(events, made) && FairNext(made, op) && Holds(events, m)
    ensures Holds(After(events, op), Next(m, op))
  {
    hide Holds;
    match op {
      case Add(json, id) => AddHolds(events, made, m, op);
      case Start(id) => StartHolds(events, made, m, op);
      case Clear(id, new_) => ClearHolds(events, made, m, op);
      case End(id) => EndHolds(events, made, m, op);
    }
  }

  lemma AddHolds(events: seq<Event>, made: set<string>, m: map<string, Entry>, op: Op)
    requires Inv(events, made) && FairNext(made, op) && Holds(events, m) && op.Add?
    ensures Holds(After(events, op), Next(m, op))
  {
    hide Holds, Put;
    assert m - {} == m;
    PutHolds(events, made, m, FreeSlot(events), Event(op.made, op.json, 0, true, false), Next(m, op));
  }

  lemma StartHolds(events: seq<Event>, made: set<string>, m: map<string, Entry>, op: Op)
    requires Inv(events, made) && FairNext(made, op) && Holds(events, m) && op.Start?
    ensures Holds(After(events, op), Next(m, op))
  {
    hide Holds;
    FoundBusy(events, made, m, op.id);
    EntryIs(events, m, op.id);
    var i := SlotOf(events, op.id);
    if i < |events| {
      assert m[op.id := m[op.id].(process := true)] == (m - {op.id})[op.id := m[op.id].(process := true)];
      Others(events, made, i);
      PutHolds(events, made, m, i, events[i].(process := true), Next(m, op));
    }
  }

  lemma ClearHolds(events: seq<Event>, made: set<string>, m: map<string, Entry>, op: Op)
    requires Inv(events, made) && FairNext(made, op) && Holds(events, m) && op.Clear?
    ensures Holds(After(events, op), Next(m, op))
  {
    hide Holds;
    FoundBusy(events, made, m, op.id);
    EntryIs(events, m, op.id);
    var i := SlotOf(events, op.id);
    if i < |events| && events[i].process {
      PutHolds(events, made, m, i, Restarted(events[i], op.made), Next(m, op));
    }
  }

  lemma EndHolds(events: seq<Event>, made: set<string>, m: map<string, Entry>, op: Op)
    requires Inv(events, made) && FairNext(made, op) && Holds(events, m) && op.End?
    ensures Holds(After(events, op), Next(m, op))
  {
    hide Holds;
    FoundBusy(events, made, m, op.id);
    var i := SlotOf(events, op.id);
    if i < |events| { PutHolds(events, made, m, i, BLANK, Next(m, op)); } else { assert m - {op.id} == m; }
  }

  lemma Others(events: seq<Event>, made: set<string>, i: nat)
    requires Inv(events, made) && i < |events| && events[i].busy
    ensures forall j :: 0 <= j < |events| && j != i && events[j].busy ==> events[j].id != events[i].id
  {
  }

  lemma EntryIs(events: seq<Event>, m: map<string, Entry>, id: string)
    requires Holds(events, m)
    ensures var i := SlotOf(events, id);
            i < |events| && events[i].busy ==>
              id in m && m[id] == Entry(events[i].json, events[i].restarts, events[i].process)
  {
  }

  /** The listing offers exactly the events of the map that are not in process, with what was added for them. */
  lemma ListsTheLive(ops: seq<Op>, id: string, json: Payload)
    requires Fair(ops)
    ensures (exists e :: e in Listing(Run(ops)) && e.id == id && e.json == json) <==>
            id in Live(ops) && !Live(ops)[id].process && json == Live(ops)[id].json
    ensures id in Live(ops) ==> Live(ops)[id].json == PayloadOf(ops, id)
  {
    hide Run, Live, Fair, Listing, MadeIn, PayloadOf;
    var events, m := Run(ops), Live(ops);
    RunInv(ops);
    TableIsMap(ops);
    CarriesItsAdd(ops);
    if id in m {
      FoundBusy(events, MadeIn(ops), m, id);
      EntryIs(events, m, id);
      var e := events[SlotOf(events, id)];
      ListingHas(events, e);
      assert e in events;
    }
    if e :| e in Listing(events) && e.id == id && e.json == json {
      ListingHas(events, e);
      var i :| 0 <= i < |events| && events[i] == e;
      assert id in m && m[id] == Entry(json, e.restarts, e.process);
    }
  }

  /** What the operations answer, in terms of the map. */
  lemma AnswersAre(ops: seq<Op>, id: string, made: string)
    requires Fair(ops) && id != ""
    ensures var m := Live(ops);
            && Status(Run(ops), Start(id)) == (if id !in m then -3 else if m[id].process then -2 else 0)
            && Status(Run(ops), Clear(id, made)) == (if id !in m then -2 else 0)
            && Status(Run(ops), End(id)) == (if id !in m then -2 else 0)
  {
    hide Run, Live, Fair, MadeIn;
    RunInv(ops);
    TableIsMap(ops);
    FoundBusy(Run(ops), MadeIn(ops), Live(ops), id);
    EntryIs(Run(ops), Live(ops), id);
  }

  // ---- how many events there are ----

  function BusyCount(events: seq<Event>): nat {
    if events == [] then 0 else BusyCount(events[..|events| - 1]) + if events[|events| - 1].busy then 1 else 0
  }

  lemma {:induction false} BusyPut(events: seq<Event>, i: nat, e: Event)
    requires i <= |events|
    ensures BusyCount(Put(events, i, e)) ==
            BusyCount(events) + (if e.busy then 1 else 0) - (if i < |events| && events[i].busy then 1 else 0)
    decreases |events|
  {
    var r := Put(events, i, e);
    var n := |r| - 1;
    if i == |events| {
      assert r[..n] == events;
    } else if i == n {
      assert r[..n] == events[..n];
    } else {
      assert r[..n] == Put(events[..n], i, e);
      BusyPut(events[..n], i, e);
    }
  }

  /** One event more for an add, one less for an end that succeeds, and else as many as before. */
  lemma StepCount(events: seq<Event>, made: set<string>, op: Op)
    requires Inv(events, made) && FairNext(made, op)
    ensures BusyCount(After(events, op)) ==
            BusyCount(events) + if op.Add? then 1 else if op.End? && Status(events, op) == OK then -1 else 0
  {
    hide BusyCount;
    match op {
      case Add(json, id) => BusyPut(events, FreeSlot(events), Event(id, json, 0, true, false));
      case Start(id) =>
        var i := SlotOf(events, id);
        if i < |events| { BusyPut(events, i, events[i].(process := true)); }
      case Clear(id, new_) =>
        var i := SlotOf(events, id);
        if i < |events| && events[i].process { BusyPut(events, i, Restarted(events[i], new_)); }
      case End(id) =>
        var i := SlotOf(events, id);
        if i < |events| { BusyPut(events, i, BLANK); }
    }
  }

  function Adds(ops: seq<Op>): nat {
    if ops == [] then 0 else Adds(ops[..|ops| - 1]) + if ops[|ops| - 1].Add? then 1 else 0
  }

  /** The ends that succeeded. */
  function Ends(ops: seq<Op>): nat {
    if ops == [] then 0
    else
      var n := |ops| - 1;
      Ends(ops[..n]) + if ops[n].End? && Answer(ops, n) == OK then 1 else 0
  }

  lemma {:induction false} CountIsAddsLessEnds(ops: seq<Op>)
    requires Fair(ops)
    ensures BusyCount(Run(ops)) == Adds(ops) - Ends(ops)
    decreases |ops|
  {
    if ops != [] {
      var n := |ops| - 1;
      CountIsAddsLessEnds(ops[..n]);
      RunInv(ops[..n]);
      hide Inv, After, FairNext, BusyCount;
      StepCount(Run(ops[..n]), MadeIn(ops[..n]), ops[n]);
    }
  }

  // ---- the empty id ----

  // No request carries the empty id: the routes take ids from pieces of the path, and these are not
  // empty. Only a direct call of the table's operations does, and then an id that should find nothing
  // finds a slot that is not in use.

  /** A start that is granted finds an event in use exactly if it was asked for with an id. */
  lemma StartFindsBusyIffNamed(events: seq<Event>, made: set<string>, id: string)
    requires Inv(events, made) && Status(events, Start(id)) == OK
    ensures SlotOf(events, id) < |events| && (events[SlotOf(events, id)].busy <==> id != "")
  {
    hide SlotOf;
  }

  /** An end that succeeds removes an event exactly if it was asked for with an id. */
  lemma EndRemovesIffNamed(events: seq<Event>, made: set<string>, id: string)
    requires Inv(events, made) && Status(events, End(id)) == OK
    ensures BusyCount(After(events, End(id))) == BusyCount(events) - 1 <==> id != ""
    ensures id == "" ==> BusyCount(After(events, End(id))) == BusyCount(events)
  {
    hide BusyCount;
    BusyPut(events, SlotOf(events, id), BLANK);
  }

  /** After one event has come and gone, the empty id is granted a start and an end. */
  lemma EmptyIdIsGranted(json: Payload, id: string)
    requires id != ""
    ensures var ops := [Add(json, id), End(id)];
            && Fair(ops)
            && Status(Run(ops), Start("")) == OK && Status(Run(ops), End("")) == OK
            && BusyCount(Run(ops)) == 0
  {
    ComeAndGone(json, id);
    assert SlotOf([BLANK], "") == 0;
    assert [BLANK][..0] == [];
  }

  lemma ComeAndGone(json: Payload, id: string)
    requires id != ""
    ensures Fair([Add(json, id), End(id)]) && Run([Add(json, id), End(id)]) == [BLANK]
  {
    var ops := [Add(json, id), End(id)];
    assert ops[..1] == [Add(json, id)] && ops[..1][..0] == [];
    var one := Event(id, json, 0, true, false);
    assert Run(ops[..1]) == [one];
    assert SlotOf([one], id) == 0;
  }

  /** If it is started and put back, the slot that is not in use gets a live id, and the table is not
      as it should be any more, whatever ids were made. */
  lemma EmptyIdRevives(json: Payload, id: string, made: string)
    requires id != "" && made != ""
    ensures Run([Add(json, id), End(id), Start(""), Clear("", made)]) == [Event(made, NO_PAYLOAD, 1, false, false)]
    ensures forall ids :: !Inv([Event(made, NO_PAYLOAD, 1, false, false)], ids)
  {
    var ops := [Add(json, id), End(id), Start(""), Clear("", made)];
    ComeAndGone(json, id);
    var started := BLANK.(process := true);
    assert ops[..3][..2] == [Add(json, id), End(id)];
    assert SlotOf([BLANK], "") == 0 && SlotOf([started], "") == 0;
    assert Run(ops[..3]) == After([BLANK], Start("")) == [started];
    assert Run(ops) == After([started], Clear("", made));
    var revived := [Event(made, NO_PAYLOAD, 1, false, false)];
    assert !revived[0].busy && revived[0].id != "";
  }
}
