// The offline queue, the retrying sender and the server as one state machine.  Requests
// and responses may be lost, repeated and reordered, the app may be closed at any point,
// several sync loops may overlap, and other clients and administrators keep working.
module SyncProtocol {
  import opened Ledger
  import opened LedgerFacts

  const BATCH: nat := 50
  const MAX_ATTEMPTS: nat := 3

  // A row of the local queue; suspicious means that it reports negative XP.
  datatype Row = Row(id: Id, payload: Payload, suspicious: bool)

  // A positive answer: synced or already_processed.
  datatype Response = Response(event: Id, wipe: bool)

  datatype Phase = Ready | Waiting | Deleting

  // One run of the sync loop over its batch; `at` is the row it is working on.
  datatype Worker = Worker(rows: seq<Row>, at: nat, attempts: nat, confirmed: set<Id>, phase: Phase)

  datatype State = State(
    user: Id, device: Id,
    queue: seq<Row>,
    enqueued: map<Id, Payload>,      // every event this client ever queued
    live: set<Id>,                   // those queued since the last wipe
    workers: map<nat, Worker>,
    requests: set<Request>,          // every request ever sent
    responses: set<Response>,        // every positive answer ever given
    server: Tables)

  datatype Event =
    | Enqueue(row: Row)
    | Start(w: nat)
    | SkipSuspicious(w: nat)
    | Send(w: nat)
    | Deliver(req: Request, signed: bool, today: Day)
    | ReceiveOk(w: nat, wipe: bool)
    | ReceiveError(w: nat, unauthorized: bool)
    | EndOfBatch(w: nat)
    | DeleteRow(w: nat)
    | Crash
    | Elsewhere(action: Action)

  // ---------------------------------------------------------------------- steps

  function RequestOf(s: State, r: Row): Request {
    Request(r.id, s.user, s.device, r.payload)
  }

  function WithoutRow(rows: seq<Row>, id: Id): seq<Row> {
    if rows == [] then []
    else
      var rest, r := WithoutRow(rows[..|rows| - 1], id), rows[|rows| - 1];
      if r.id == id then rest else rest + [r]
  }

  function SetWorker(s: State, w: nat, worker: Worker): State {
    s.(workers := s.workers[w := worker])
  }

  predicate IsAt(s: State, w: nat, phase: Phase) {
    w in s.workers && s.workers[w].phase == phase
  }

  predicate HasRow(s: State, w: nat) {
    w in s.workers && s.workers[w].at < |s.workers[w].rows|
  }

  // Whether the step can be taken.
  predicate Enabled(s: State, e: Event) {
    match e
    case Enqueue(row) => row.id !in s.enqueued && row.id !in s.server.events
    case Start(w) => w !in s.workers && s.queue != []
    case SkipSuspicious(w) => IsAt(s, w, Ready) && HasRow(s, w) && s.workers[w].rows[s.workers[w].at].suspicious
    case Send(w) => IsAt(s, w, Ready) && HasRow(s, w) && !s.workers[w].rows[s.workers[w].at].suspicious
    case Deliver(req, _, _) => req in s.requests
    case ReceiveOk(w, wipe) =>
      IsAt(s, w, Waiting) && HasRow(s, w) && Response(s.workers[w].rows[s.workers[w].at].id, wipe) in s.responses
    case ReceiveError(w, _) => IsAt(s, w, Waiting) && HasRow(s, w)
    case EndOfBatch(w) => IsAt(s, w, Ready) && !HasRow(s, w)
    case DeleteRow(w) => IsAt(s, w, Deleting)
    case Crash => true
    case Elsewhere(a) => a.Sync? ==> a.req.event !in s.enqueued
  }

  function Delivered(s: State, req: Request, signed: bool, today: Day): State {
    var (t, outcome) := ProcessSync(s.server, req, signed, today);
    var answer :=
      if outcome == Done then {Response(req.event, s.server.devices[req.device].wipe)}
      else if outcome == AlreadyProcessed then {Response(req.event, false)}
      else {};
    s.(server := t, responses := s.responses + answer)
  }

  // An accepted answer confirms the row; an order to wipe empties the queue and ends the loop.
  function Confirmed(s: State, w: nat, wipe: bool): State
    requires HasRow(s, w)
  {
    var k := s.workers[w];
    var c := k.confirmed + {k.rows[k.at].id};
    if wipe then SetWorker(s, w, k.(confirmed := c, phase := Deleting, at := 0)).(queue := [], live := {})
    else SetWorker(s, w, k.(confirmed := c, phase := Ready, at := k.at + 1, attempts := 0))
  }

  // After a failure: try again, or give up and delete what was confirmed so far.
  function Failed(s: State, w: nat, unauthorized: bool): State
    requires w in s.workers
  {
    var k := s.workers[w];
    if unauthorized || k.attempts >= MAX_ATTEMPTS then SetWorker(s, w, k.(phase := Deleting, at := 0))
    else SetWorker(s, w, k.(phase := Ready))
  }

  function DeletedRow(s: State, w: nat): State
    requires w in s.workers
  {
    var k := s.workers[w];
    if k.at >= |k.rows| then s.(workers := s.workers - {w})
    else
      var t := SetWorker(s, w, k.(at := k.at + 1));
      if k.rows[k.at].id in k.confirmed then t.(queue := WithoutRow(s.queue, k.rows[k.at].id)) else t
  }

  function Next(s: State, e: Event): State
    requires Enabled(s, e)
  {
    match e
    case Enqueue(row) =>
      s.(queue := s.queue + [row], enqueued := s.enqueued[row.id := row.payload], live := s.live + {row.id})
    case Start(w) =>
      SetWorker(s, w, Worker(if |s.queue| <= BATCH then s.queue else s.queue[..BATCH], 0, 0, {}, Ready))
    case SkipSuspicious(w) =>
      SetWorker(s, w, s.workers[w].(at := s.workers[w].at + 1))
    case Send(w) =>
      var k := s.workers[w];
      SetWorker(s, w, k.(phase := Waiting, attempts := k.attempts + 1))
        .(requests := s.requests + {RequestOf(s, k.rows[k.at])})
    case Deliver(req, signed, today) => Delivered(s, req, signed, today)
    case ReceiveOk(w, wipe) => Confirmed(s, w, wipe)
    case ReceiveError(w, unauthorized) => Failed(s, w, unauthorized)
    case EndOfBatch(w) => SetWorker(s, w, s.workers[w].(phase := Deleting, at := 0))
    case DeleteRow(w) => DeletedRow(s, w)
    case Crash => s.(workers := map[])
    case Elsewhere(a) => s.(server := Apply(s.server, a))
  }

  ghost predicate Reaches(s: State, events: seq<Event>, t: State)
    decreases |events|
  {
    if events == [] then s == t
    else Enabled(s, events[0]) && Reaches(Next(s, events[0]), events[1..], t)
  }

  predicate Start0(s: State) {
    && s.queue == [] && s.enqueued == map[] && s.live == {} && s.workers == map[]
    && s.requests == {} && s.responses == {} && Initial(s.server)
  }

  // ------------------------------------------------------------------ invariant

  predicate OnRecord(t: Tables, id: Id) {
    id in t.events
  }

  predicate Known(s: State, r: Row) {
    r.id in s.enqueued && s.enqueued[r.id] == r.payload
  }

  predicate InQueue(rows: seq<Row>, id: Id) {
    exists i :: 0 <= i < |rows| && rows[i].id == id
  }

  predicate RowsKnown(s: State, rows: seq<Row>) {
    forall i :: 0 <= i < |rows| ==> Known(s, rows[i])
  }

  predicate WorkersSound(s: State) {
    forall w :: w in s.workers ==>
      && RowsKnown(s, s.workers[w].rows)
      && forall id :: id in s.workers[w].confirmed ==> OnRecord(s.server, id)
  }

  predicate MessagesSound(s: State) {
    && (forall r :: r in s.requests ==> r.event in s.enqueued && s.enqueued[r.event] == r.payload)
    && (forall r :: r in s.responses ==> OnRecord(s.server, r.event))
  }

  // Nothing queued since the last wipe has been lost.
  predicate NothingLost(s: State) {
    forall id :: id in s.live ==> InQueue(s.queue, id) || OnRecord(s.server, id)
  }

  // What the server has on record is what was queued.
  predicate RecordsTrue(s: State) {
    forall id :: id in s.enqueued && OnRecord(s.server, id) ==> s.server.events[id].payload == s.enqueued[id]
  }

  ghost predicate Inv(s: State) {
    && RowsKnown(s, s.queue) && WorkersSound(s) && MessagesSound(s) && NothingLost(s) && RecordsTrue(s)
    && LedgerFacts.Sound(s.server)
  }

  // ------------------------------------------------------------ what the server does

  // The server may have gained records but has lost and changed none.
  ghost predicate Grown(t: Tables, r: Tables) {
    forall id :: id in t.events ==> id in r.events && r.events[id] == t.events[id]
  }

  lemma ServerStepSound(t: Tables, a: Action)
    requires LedgerFacts.Sound(t)
    ensures LedgerFacts.Sound(Apply(t, a)) && Grown(t, Apply(t, a))
  {
    hide Apply, Agrees, TagsMatch;
    StepKeepsAgreement(t, a);
    forall e
      ensures TagsMatch(Apply(t, a), e)
      ensures e in t.events ==> e in Apply(t, a).events && Apply(t, a).events[e] == t.events[e]
    {
      StepKeepsTags(t, a, e);
    }
  }

  lemma ServerStepFilesOwn(t: Tables, a: Action, id: Id)
    requires id in Apply(t, a).events
    ensures id in t.events || (a.Sync? && id == a.req.event && Apply(t, a).events[id].payload == a.req.payload)
  {
    hide Eligible, AllRecorded, StreakDays;
  }

  // Any growth of the server that files no false record keeps the client's invariants.
  lemma ServerGrowthIsSafe(s: State, r: Tables)
    requires Inv(s) && Grown(s.server, r) && LedgerFacts.Sound(r)
    requires forall id :: id in r.events && id !in s.server.events && id in s.enqueued ==>
               r.events[id].payload == s.enqueued[id]
    ensures Inv(s.(server := r))
  {
    hide LedgerFacts.Sound;
    var t := s.(server := r);
    forall id | id in s.live
      ensures InQueue(t.queue, id) || OnRecord(t.server, id)
    {
      assert InQueue(s.queue, id) || OnRecord(s.server, id);
    }
    forall id | id in t.enqueued && OnRecord(t.server, id)
      ensures t.server.events[id].payload == t.enqueued[id]
    {
      assert OnRecord(s.server, id) ==> s.server.events[id].payload == s.enqueued[id];
    }
  }

  lemma DeliverKeeps(s: State, req: Request, signed: bool, today: Day)
    requires Inv(s) && req in s.requests
    ensures Inv(Delivered(s, req, signed, today))
  {
    var a := Sync(req, signed, today);
    var (t, outcome) := ProcessSync(s.server, req, signed, today);
    assert t == Apply(s.server, a);
    ServerStepSound(s.server, a);
    forall id | id in t.events && id !in s.server.events
      ensures id == req.event && t.events[id].payload == req.payload
    {
      ServerStepFilesOwn(s.server, a, id);
    }
    ServerGrowthIsSafe(s, t);
    assert outcome == Done || outcome == AlreadyProcessed ==> req.event in t.events;
  }

  lemma ElsewhereKeeps(s: State, a: Action)
    requires Inv(s) && (a.Sync? ==> a.req.event !in s.enqueued)
    ensures Inv(s.(server := Apply(s.server, a)))
  {
    hide Apply, LedgerFacts.Sound;
    var t := Apply(s.server, a);
    ServerStepSound(s.server, a);
    forall id | id in t.events && id !in s.server.events
      ensures id !in s.enqueued
    {
      ServerStepFilesOwn(s.server, a, id);
    }
    ServerGrowthIsSafe(s, t);
  }

  // ------------------------------------------------------------ what the client does

  lemma EnqueueKeeps(s: State, row: Row)
    requires Inv(s) && row.id !in s.enqueued && row.id !in s.server.events
    ensures Inv(Next(s, Enqueue(row)))
  {
    hide LedgerFacts.Sound;
    var t := Next(s, Enqueue(row));
    forall r | Known(s, r)
      ensures Known(t, r)
    {
    }
    forall id | id in t.live
      ensures InQueue(t.queue, id) || OnRecord(t.server, id)
    {
      if id == row.id {
        assert t.queue[|s.queue|].id == id;
      } else if InQueue(s.queue, id) {
        var i :| 0 <= i < |s.queue| && s.queue[i].id == id;
        assert t.queue[i].id == id;
      }
    }
  }

  lemma WorkerStepKeeps(s: State, w: nat, k: Worker)
    requires Inv(s) && RowsKnown(s, k.rows)
    requires forall id :: id in k.confirmed ==> OnRecord(s.server, id)
    ensures Inv(SetWorker(s, w, k))
  {
  }

  lemma {:induction false} WithoutRowKeepsOthers(rows: seq<Row>, gone: Id, id: Id)
    requires InQueue(rows, id) && id != gone
    ensures InQueue(WithoutRow(rows, gone), id)
  {
    var i :| 0 <= i < |rows| && rows[i].id == id;
    var n := |rows| - 1;
    var rest := WithoutRow(rows[..n], gone);
    if i < n {
      assert rows[..n][i].id == id;
      WithoutRowKeepsOthers(rows[..n], gone, id);
      var j :| 0 <= j < |rest| && rest[j].id == id;
      assert WithoutRow(rows, gone)[j].id == id;
    } else {
      assert WithoutRow(rows, gone)[|rest|].id == id;
    }
  }

  lemma {:induction false} WithoutRowAddsNone(s: State, rows: seq<Row>, gone: Id)
    requires RowsKnown(s, rows)
    ensures RowsKnown(s, WithoutRow(rows, gone))
  {
    if rows != [] {
      WithoutRowAddsNone(s, rows[..|rows| - 1], gone);
    }
  }

  lemma DeleteKeeps(s: State, w: nat)
    requires Inv(s) && w in s.workers
    ensures Inv(DeletedRow(s, w))
  {
    hide LedgerFacts.Sound;
    var k := s.workers[w];
    if k.at < |k.rows| {
      WorkerStepKeeps(s, w, k.(at := k.at + 1));
      var gone := k.rows[k.at].id;
      if gone in k.confirmed {
        WithoutRowAddsNone(s, s.queue, gone);
        forall id | id in s.live
          ensures InQueue(WithoutRow(s.queue, gone), id) || OnRecord(s.server, id)
        {
          if id != gone && !OnRecord(s.server, id) {
            WithoutRowKeepsOthers(s.queue, gone, id);
          }
        }
      }
    }
  }

  lemma ConfirmKeeps(s: State, w: nat, wipe: bool)
    requires Inv(s) && HasRow(s, w)
    requires Response(s.workers[w].rows[s.workers[w].at].id, wipe) in s.responses
    ensures Inv(Confirmed(s, w, wipe))
  {
    hide LedgerFacts.Sound;
    var k := s.workers[w];
    var c := k.confirmed + {k.rows[k.at].id};
    if wipe {
      WorkerStepKeeps(s, w, k.(confirmed := c, phase := Deleting, at := 0));
    } else {
      WorkerStepKeeps(s, w, k.(confirmed := c, phase := Ready, at := k.at + 1, attempts := 0));
    }
  }

  lemma SendKeeps(s: State, w: nat)
    requires Inv(s) && Enabled(s, Send(w))
    ensures Inv(Next(s, Send(w)))
  {
    hide LedgerFacts.Sound;
    var k := s.workers[w];
    WorkerStepKeeps(s, w, k.(phase := Waiting, attempts := k.attempts + 1));
    assert Known(s, k.rows[k.at]);
  }

  // Every step of client, network, server or anyone else keeps the invariant.
  lemma StepKeeps(s: State, e: Event)
    requires Inv(s) && Enabled(s, e)
    ensures Inv(Next(s, e))
  {
    match e
    case Enqueue(row) => EnqueueKeeps(s, row);
    case Start(w) =>
      hide LedgerFacts.Sound;
      var rows := if |s.queue| <= BATCH then s.queue else s.queue[..BATCH];
      WorkerStepKeeps(s, w, Worker(rows, 0, 0, {}, Ready));
    case SkipSuspicious(w) => WorkerStepKeeps(s, w, s.workers[w].(at := s.workers[w].at + 1));
    case Send(w) => SendKeeps(s, w);
    case Deliver(req, signed, today) => DeliverKeeps(s, req, signed, today);
    case ReceiveOk(w, wipe) => ConfirmKeeps(s, w, wipe);
    case ReceiveError(w, unauthorized) =>
      WorkerStepKeeps(s, w, s.workers[w].(phase := Deleting, at := 0));
      WorkerStepKeeps(s, w, s.workers[w].(phase := Ready));
    case EndOfBatch(w) => WorkerStepKeeps(s, w, s.workers[w].(phase := Deleting, at := 0));
    case DeleteRow(w) => DeleteKeeps(s, w);
    case Crash =>
    case Elsewhere(a) => ElsewhereKeeps(s, a);
  }

  // ------------------------------------------------------------------ every run

  lemma StartIsSound(s: State)
    requires Start0(s)
    ensures Inv(s)
  {
    InitialIsSound(s.server);
  }

  lemma {:induction false} RunKeeps(s: State, events: seq<Event>, t: State)
    requires Inv(s) && Reaches(s, events, t)
    ensures Inv(t)
    decreases |events|
  {
    if events != [] {
      StepKeeps(s, events[0]);
      RunKeeps(Next(s, events[0]), events[1..], t);
    }
  }

  // In every reachable state each event queued since the last wipe is still in the local
  // queue or already on the server's record.
  lemma NoProgressIsLost(s: State, events: seq<Event>, t: State, id: Id)
    requires Start0(s) && Reaches(s, events, t) && id in t.live
    ensures InQueue(t.queue, id) || OnRecord(t.server, id)
  {
    StartIsSound(s);
    RunKeeps(s, events, t);
  }

  // In every reachable state the history holds, for each queued event, no row at all or
  // exactly one row per reported attempt, however often it was sent and delivered.
  lemma EffectsAreExactlyOnce(s: State, events: seq<Event>, t: State, id: Id)
    requires Start0(s) && Reaches(s, events, t) && id in t.enqueued
    ensures var rows := Total(t.server.history, TaggedWith(id));
            rows == 0 || (OnRecord(t.server, id) && rows == |t.enqueued[id].items|)
  {
    StartIsSound(s);
    RunKeeps(s, events, t);
    assert TagsMatch(t.server, id);
  }

  predicate IsWipe(e: Event) {
    e.ReceiveOk? && e.wipe
  }

  // Apart from a wipe, no step takes an event out of the queue before its record has been
  // committed.
  lemma QueuedUntilCommitted(s: State, e: Event, id: Id)
    requires Inv(s) && Enabled(s, e) && !IsWipe(e)
    requires InQueue(s.queue, id) && !OnRecord(s.server, id)
    ensures InQueue(Next(s, e).queue, id)
  {
    match e
    case Enqueue(row) =>
      var i :| 0 <= i < |s.queue| && s.queue[i].id == id;
      assert Next(s, e).queue[i].id == id;
    case DeleteRow(w) =>
      var k := s.workers[w];
      if k.at < |k.rows| && k.rows[k.at].id in k.confirmed {
        WithoutRowKeepsOthers(s.queue, k.rows[k.at].id, id);
      }
    case Start(_) =>
    case SkipSuspicious(_) =>
    case Send(_) =>
    case Deliver(_, _, _) =>
    case ReceiveOk(_, _) =>
    case ReceiveError(_, _) =>
    case EndOfBatch(_) =>
    case Crash =>
    case Elsewhere(_) =>
  }
}
