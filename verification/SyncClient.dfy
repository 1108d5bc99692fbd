// The client's side as it is written: a queue table, a loop over the oldest rows, a
// recursive retry and an HTTP client that refreshes its session once, run against the
// server's database.
module SyncClient {
  import opened Ledger
  import opened LedgerServer
  import opened SyncProtocol

  // ------------------------------------------------------------ reaching the server

  // What happens to one exchange.  Unauthorized is a token refused before the request's
  // transaction begins.
  datatype Fate = RequestLost | RolledBack | ResponseLost | Answered | Unauthorized

  // One post: when it is answered with 401 and the session can be refreshed, the same
  // request is sent once more.
  datatype Trip = Trip(first: Fate, refreshed: bool, again: Fate)

  datatype Reply = Synced(wipe: bool) | Failure | AuthFailure

  // A bad signature is answered with 401, like a bad token, after the event was filed.
  function Answer(t: Tables, req: Request, outcome: Outcome): Reply {
    match outcome
    case Done => Synced(req.device in t.devices && t.devices[req.device].wipe)
    case AlreadyProcessed => Synced(false)
    case BadSignature => AuthFailure
    case Invalid => Failure
    case NotFound => Failure
  }

  function Exchanged(t: Tables, req: Request, signed: bool, today: Day, fate: Fate): (Tables, Reply) {
    var done := ProcessSync(t, req, signed, today);
    match fate
    case RequestLost => (t, Failure)
    case RolledBack => (t, Failure)
    case Unauthorized => (t, AuthFailure)
    case ResponseLost => (done.0, Failure)
    case Answered => (done.0, Answer(t, req, done.1))
  }

  function Posted(t: Tables, req: Request, signed: bool, today: Day, trip: Trip): (Tables, Reply) {
    var e := Exchanged(t, req, signed, today, trip.first);
    if e.1 == AuthFailure && trip.refreshed then Exchanged(e.0, req, signed, today, trip.again) else e
  }

  // Up to three posts; one that ends in 401 is the last.
  function Fetched(t: Tables, req: Request, signed: bool, today: Day, trips: seq<Trip>, attempt: nat): (Tables, Reply)
    requires 1 <= attempt <= MAX_ATTEMPTS == |trips|
    decreases MAX_ATTEMPTS - attempt
  {
    var p := Posted(t, req, signed, today, trips[attempt - 1]);
    if p.1.Failure? && attempt < MAX_ATTEMPTS then Fetched(p.0, req, signed, today, trips, attempt + 1) else p
  }

  method Exchange(db: Database, req: Request, signed: bool, today: Day, fate: Fate) returns (reply: Reply)
    modifies db
    ensures (db.Now(), reply) == Exchanged(old(db.Now()), req, signed, today, fate)
  {
    match fate
    case RequestLost => return Failure;
    case RolledBack => return Failure;
    case Unauthorized => return AuthFailure;
    case ResponseLost =>
      var _ := db.ProcessSync(req, signed, today);
      return Failure;
    case Answered =>
      var wipe := req.device in db.devices && db.devices[req.device].wipe;
      var outcome := db.ProcessSync(req, signed, today);
      match outcome {
        case Done => return Synced(wipe);
        case AlreadyProcessed => return Synced(false);
        case BadSignature => return AuthFailure;
        case Invalid => return Failure;
        case NotFound => return Failure;
      }
  }

  method Post(db: Database, req: Request, signed: bool, today: Day, trip: Trip) returns (reply: Reply)
    modifies db
    ensures (db.Now(), reply) == Posted(old(db.Now()), req, signed, today, trip)
  {
    hide Exchanged;
    reply := Exchange(db, req, signed, today, trip.first);
    if reply == AuthFailure && trip.refreshed {
      reply := Exchange(db, req, signed, today, trip.again);
    }
  }

  method FetchWithRetry(db: Database, req: Request, signed: bool, today: Day, trips: seq<Trip>, attempt: nat)
    returns (reply: Reply)
    requires 1 <= attempt <= MAX_ATTEMPTS == |trips|
    modifies db
    ensures (db.Now(), reply) == Fetched(old(db.Now()), req, signed, today, trips, attempt)
    ensures Grew(old(db.Now()), db.Now())
    ensures reply.Synced? ==> req.event in db.events
    decreases MAX_ATTEMPTS - attempt
  {
    hide Posted, Fetched, Grew;
    FetchedGrows(db.Now(), req, signed, today, trips, attempt);
    FetchedStep(db.Now(), req, signed, today, trips, attempt);
    reply := Post(db, req, signed, today, trips[attempt - 1]);
    if reply.AuthFailure? {
      return;
    }
    if reply.Synced? || attempt >= MAX_ATTEMPTS {
      return;
    }
    reply := FetchWithRetry(db, req, signed, today, trips, attempt + 1);
  }

  lemma FetchedStep(t: Tables, req: Request, signed: bool, today: Day, trips: seq<Trip>, attempt: nat)
    requires 1 <= attempt <= MAX_ATTEMPTS == |trips|
    ensures var p := Posted(t, req, signed, today, trips[attempt - 1]);
            Fetched(t, req, signed, today, trips, attempt) ==
              if p.1.Failure? && attempt < MAX_ATTEMPTS then Fetched(p.0, req, signed, today, trips, attempt + 1) else p
  {
  }

  // ------------------------------------------------------------- what a fetch does

  // Records are kept, and devices and levels stay.
  ghost predicate Grew(t: Tables, s: Tables) {
    && (forall id :: id in t.events ==> id in s.events)
    && s.devices == t.devices && s.levels == t.levels
  }

  lemma ProcessGrows(t: Tables, req: Request, signed: bool, today: Day)
    ensures var (s, outcome) := ProcessSync(t, req, signed, today);
            && Grew(t, s)
            && (outcome in {Done, AlreadyProcessed, BadSignature} ==> req.event in s.events)
            && (forall id :: id in s.events && id !in t.events ==> id == req.event)
  {
  }

  lemma PostedGrows(t: Tables, req: Request, signed: bool, today: Day, trip: Trip)
    ensures var (s, reply) := Posted(t, req, signed, today, trip);
            && Grew(t, s) && (reply.Synced? ==> req.event in s.events)
            && (forall id :: id in s.events && id !in t.events ==> id == req.event)
            && (reply.Synced? && reply.wipe ==> req.device in t.devices && t.devices[req.device].wipe)
  {
    hide ProcessSync;
    ProcessGrows(t, req, signed, today);
    var e := Exchanged(t, req, signed, today, trip.first);
    ProcessGrows(e.0, req, signed, today);
  }

  lemma {:induction false} FetchedGrows(t: Tables, req: Request, signed: bool, today: Day, trips: seq<Trip>, attempt: nat)
    requires 1 <= attempt <= MAX_ATTEMPTS == |trips|
    ensures var (s, reply) := Fetched(t, req, signed, today, trips, attempt);
            && Grew(t, s) && (reply.Synced? ==> req.event in s.events)
            && (forall id :: id in s.events && id !in t.events ==> id == req.event)
            && (reply.Synced? && reply.wipe ==> req.device in t.devices && t.devices[req.device].wipe)
    decreases MAX_ATTEMPTS - attempt
  {
    hide Posted;
    PostedGrows(t, req, signed, today, trips[attempt - 1]);
    var p := Posted(t, req, signed, today, trips[attempt - 1]);
    if p.1.Failure? && attempt < MAX_ATTEMPTS {
      FetchedGrows(p.0, req, signed, today, trips, attempt + 1);
    }
  }

  // No message is lost; a token may be refused.
  predicate Delivers(fate: Fate) {
    fate == Answered || fate == Unauthorized
  }

  predicate Faultless(trips: seq<Trip>) {
    forall i :: 0 <= i < |trips| ==> Delivers(trips[i].first) && Delivers(trips[i].again)
  }

  // The post gets past the token check, if need be with a refreshed session.
  predicate Gets(trip: Trip) {
    trip.first == Answered || (trip.refreshed && trip.again == Answered)
  }

  // It gets past it twice, the second time after the one refresh.
  predicate Twice(trip: Trip) {
    trip.first == Answered && trip.refreshed && trip.again == Answered
  }

  // A request whose sender the server knows.
  predicate Acceptable(t: Tables, req: Request) {
    req.event != NIL && req.user != NIL && req.device != NIL && ActiveDevice(t, req.device, req.user)
  }

  // What one answered exchange says.
  lemma AnsweredMeans(t: Tables, req: Request, signed: bool, today: Day)
    requires Acceptable(t, req)
    ensures var (s, reply) := Exchanged(t, req, signed, today, Answered);
            && req.event in s.events && s.devices == t.devices
            && (reply.Synced? <==> req.event in t.events || (signed && GoodPayload(t, today, req.payload)))
            && (reply.AuthFailure? <==> req.event !in t.events && !signed)
  {
    ProcessGrows(t, req, signed, today);
    hide Merged, GoodPayload;
  }

  // What one post without lost messages says.
  lemma PostedMeans(t: Tables, req: Request, signed: bool, today: Day, trip: Trip)
    requires Acceptable(t, req) && Delivers(trip.first) && Delivers(trip.again)
    ensures var (s, reply) := Posted(t, req, signed, today, trip);
            var recorded := req.event in t.events;
            && Acceptable(s, req) && (req.event in s.events <==> recorded || Gets(trip))
            && (reply.Synced? <==>
                  && Gets(trip)
                  && (recorded || if signed then GoodPayload(t, today, req.payload) else Twice(trip)))
            && (reply.Failure? <==> Gets(trip) && !recorded && signed && !GoodPayload(t, today, req.payload))
  {
    hide GoodPayload, ProcessSync;
    AnsweredMeans(t, req, signed, today);
    var e := Exchanged(t, req, signed, today, trip.first);
    AnsweredMeans(e.0, req, signed, today);
  }

  // When no message is lost and the sender is known: an event is confirmed exactly when the
  // first post gets past the token check and the event was on record; or its signature checks
  // and its payload is good, or bad but the next post gets past the token check as well; or its
  // signature does not check and the session is refreshed for that 401, the token's own 401
  // having left the one refresh unspent.  Otherwise the fetch ends in a 401.  The event is on
  // record afterwards exactly when it was before or the first post got past the token check.
  lemma FetchedIff(t: Tables, req: Request, signed: bool, today: Day, trips: seq<Trip>)
    requires |trips| == MAX_ATTEMPTS && Faultless(trips) && Acceptable(t, req)
    ensures var (s, reply) := Fetched(t, req, signed, today, trips, 1);
            && (reply.Synced? <==> Confirms(t, req.event, req.payload, signed, today, trips))
            && (reply.AuthFailure? <==> !reply.Synced?)
            && (req.event in s.events <==> req.event in t.events || Gets(trips[0]))
  {
    hide Posted, GoodPayload;
    PostedMeans(t, req, signed, today, trips[0]);
    var p := Posted(t, req, signed, today, trips[0]);
    FetchedStep(t, req, signed, today, trips, 1);
    if p.1.Failure? {
      PostedMeans(p.0, req, signed, today, trips[1]);
      FetchedStep(p.0, req, signed, today, trips, 2);
    }
  }

  // The answer orders a wipe exactly when the device is marked for one and the first answer
  // merges the event.
  lemma FetchedWipesIff(t: Tables, req: Request, signed: bool, today: Day, trips: seq<Trip>)
    requires |trips| == MAX_ATTEMPTS && Faultless(trips) && Acceptable(t, req)
    ensures Fetched(t, req, signed, today, trips, 1).1 == Synced(true) <==>
            && t.devices[req.device].wipe && Gets(trips[0])
            && req.event !in t.events && signed && GoodPayload(t, today, req.payload)
  {
    hide Posted, GoodPayload;
    PostedMeans(t, req, signed, today, trips[0]);
    PostedWipesIff(t, req, signed, today, trips[0]);
    var p := Posted(t, req, signed, today, trips[0]);
    FetchedStep(t, req, signed, today, trips, 1);
    if p.1.Failure? {
      PostedMeans(p.0, req, signed, today, trips[1]);
      PostedWipesIff(p.0, req, signed, today, trips[1]);
      FetchedStep(p.0, req, signed, today, trips, 2);
    }
  }

  lemma PostedWipesIff(t: Tables, req: Request, signed: bool, today: Day, trip: Trip)
    requires Acceptable(t, req) && Delivers(trip.first) && Delivers(trip.again)
    ensures Posted(t, req, signed, today, trip).1 == Synced(true) <==>
            && t.devices[req.device].wipe && Gets(trip)
            && req.event !in t.events && signed && GoodPayload(t, today, req.payload)
  {
    hide GoodPayload, Merged;
    AnsweredMeans(t, req, signed, today);
    var e := Exchanged(t, req, signed, today, trip.first);
    AnsweredMeans(e.0, req, signed, today);
  }

  predicate Confirms(t: Tables, event: Id, payload: Payload, signed: bool, today: Day, trips: seq<Trip>)
    requires |trips| == MAX_ATTEMPTS
  {
    && Gets(trips[0])
    && (event in t.events || if signed then GoodPayload(t, today, payload) || Gets(trips[1]) else Twice(trips[0]))
  }

  // ---------------------------------------------------------------------- the loop

  // What the surroundings do to one row: whether its signature checks, and its posts.
  datatype Luck = Luck(signed: bool, trips: seq<Trip>)

  // How the loop stands: going on, ended by an order to wipe, by a failure, or by a 401,
  // which logs the player out.
  datatype Ending = Going | Wiped | GaveUp | LoggedOut

  datatype Loop = Loop(server: Tables, confirmed: seq<Id>, ending: Ending)

  predicate Lucky(rows: seq<Row>, lucks: seq<Luck>) {
    |lucks| == |rows| && forall i :: 0 <= i < |lucks| ==> |lucks[i].trips| == MAX_ATTEMPTS
  }

  // After the first n rows.
  function Looped(t: Tables, user: Id, device: Id, rows: seq<Row>, lucks: seq<Luck>, today: Day, n: nat): Loop
    requires Lucky(rows, lucks) && n <= |rows|
  {
    if n == 0 then Loop(t, [], Going)
    else
      var l, row := Looped(t, user, device, rows, lucks, today, n - 1), rows[n - 1];
      if l.ending != Going || row.suspicious then l
      else
        var f := Fetched(l.server, Request(row.id, user, device, row.payload),
                         lucks[n - 1].signed, today, lucks[n - 1].trips, 1);
        match f.1
        case Synced(wipe) => Loop(f.0, l.confirmed + [row.id], if wipe then Wiped else Going)
        case Failure => Loop(f.0, l.confirmed, GaveUp)
        case AuthFailure => Loop(f.0, l.confirmed, LoggedOut)
  }

  method SyncLocalProgress(db: Database, user: Id, device: Id, rows: seq<Row>, lucks: seq<Luck>, today: Day)
    returns (confirmed: seq<Id>, ending: Ending)
    requires Lucky(rows, lucks)
    modifies db
    ensures Loop(db.Now(), confirmed, ending) == Looped(old(db.Now()), user, device, rows, lucks, today, |rows|)
    ensures Grew(old(db.Now()), db.Now())
    ensures forall id :: id in confirmed ==> id in db.events
    ensures forall id :: id in confirmed ==> exists i :: 0 <= i < |rows| && rows[i].id == id && !rows[i].suspicious
  {
    ghost var start := db.Now();
    LoopIsSafe(start, user, device, rows, lucks, today, |rows|);
    hide Fetched, Grew;
    confirmed, ending := [], Going;
    var i := 0;
    while i < |rows| && ending == Going
      invariant i <= |rows|
      invariant Loop(db.Now(), confirmed, ending) == Looped(start, user, device, rows, lucks, today, i)
    {
      var row := rows[i];
      i := i + 1;
      if row.suspicious {
        continue;
      }
      var req := Request(row.id, user, device, row.payload);
      var reply := FetchWithRetry(db, req, lucks[i - 1].signed, today, lucks[i - 1].trips, 1);
      match reply {
        case Synced(wipe) =>
          confirmed := confirmed + [row.id];
          if wipe {
            ending := Wiped;
          }
        case Failure => ending := GaveUp;
        case AuthFailure => ending := LoggedOut;
      }
    }
    EndedStays(start, user, device, rows, lucks, today, i, |rows|);
  }

  lemma {:induction false} EndedStays(
      t: Tables, user: Id, device: Id, rows: seq<Row>, lucks: seq<Luck>, today: Day, i: nat, n: nat)
    requires Lucky(rows, lucks) && i <= n <= |rows|
    requires i == n || Looped(t, user, device, rows, lucks, today, i).ending != Going
    ensures Looped(t, user, device, rows, lucks, today, n) == Looped(t, user, device, rows, lucks, today, i)
    decreases n
  {
    hide Fetched;
    if i < n {
      EndedStays(t, user, device, rows, lucks, today, i, n - 1);
    }
  }

  ghost predicate AsksFor(rows: seq<Row>, n: nat, id: Id) {
    exists i :: 0 <= i < n && i < |rows| && rows[i].id == id && !rows[i].suspicious
  }

  // Whatever the network does: confirmed events are on record and were asked for, and the
  // loop ends in a wipe only by the server's order.
  lemma {:induction false} LoopIsSafe(
      t: Tables, user: Id, device: Id, rows: seq<Row>, lucks: seq<Luck>, today: Day, n: nat)
    requires Lucky(rows, lucks) && n <= |rows|
    ensures var l := Looped(t, user, device, rows, lucks, today, n);
            && Grew(t, l.server)
            && (forall id :: id in l.confirmed ==> id in l.server.events && AsksFor(rows, n, id))
            && (forall id :: id in l.server.events && id !in t.events ==> AsksFor(rows, n, id))
            && (l.ending == Wiped ==> device in t.devices && t.devices[device].wipe)
  {
    hide Fetched;
    if n > 0 {
      LoopIsSafe(t, user, device, rows, lucks, today, n - 1);
      var l, row := Looped(t, user, device, rows, lucks, today, n - 1), rows[n - 1];
      FetchedGrows(l.server, Request(row.id, user, device, row.payload),
                   lucks[n - 1].signed, today, lucks[n - 1].trips, 1);
      hide AsksFor;
      AsksOneMore(rows, n);
    }
  }

  lemma AsksOneMore(rows: seq<Row>, n: nat)
    requires 0 < n <= |rows|
    ensures forall id :: AsksFor(rows, n - 1, id) ==> AsksFor(rows, n, id)
    ensures !rows[n - 1].suspicious ==> AsksFor(rows, n, rows[n - 1].id)
  {
  }

  // ------------------------------------------------- exactly what is delivered

  predicate NoLosses(t: Tables, user: Id, device: Id, rows: seq<Row>, lucks: seq<Luck>) {
    && user != NIL && device != NIL && ActiveDevice(t, device, user)
    && (forall i :: 0 <= i < |rows| ==> rows[i].id != NIL)
    && (forall i :: 0 <= i < |lucks| ==> Faultless(lucks[i].trips))
  }

  predicate NoFaults(t: Tables, user: Id, device: Id, rows: seq<Row>, lucks: seq<Luck>) {
    NoLosses(t, user, device, rows, lucks) && !t.devices[device].wipe
  }

  // The queue's primary key.
  predicate UniqueIds(rows: seq<Row>) {
    forall i, j :: 0 <= i < j < |rows| ==> rows[i].id != rows[j].id
  }

  // The loop gets past the row.
  predicate Passes(t: Tables, today: Day, rows: seq<Row>, lucks: seq<Luck>, i: nat)
    requires Lucky(rows, lucks) && i < |rows|
  {
    rows[i].suspicious || Confirms(t, rows[i].id, rows[i].payload, lucks[i].signed, today, lucks[i].trips)
  }

  // The first answer that the row gets merges it.
  predicate Merges(t: Tables, today: Day, rows: seq<Row>, lucks: seq<Luck>, i: nat)
    requires Lucky(rows, lucks) && i < |rows|
  {
    && !rows[i].suspicious && rows[i].id !in t.events
    && Gets(lucks[i].trips[0]) && lucks[i].signed && GoodPayload(t, today, rows[i].payload)
  }

  // The ids of the first n rows but the suspicious ones.
  function Sent(rows: seq<Row>, n: nat): seq<Id>
    requires n <= |rows|
  {
    if n == 0 then [] else Sent(rows, n - 1) + if rows[n - 1].suspicious then [] else [rows[n - 1].id]
  }

  // The first k rows pass and the next one, if it is among the first n, does not.
  predicate PassesUpTo(t: Tables, today: Day, rows: seq<Row>, lucks: seq<Luck>, n: nat, k: nat)
    requires Lucky(rows, lucks) && n <= |rows|
  {
    k <= n && (forall j :: 0 <= j < k ==> Passes(t, today, rows, lucks, j)) && (k < n ==> !Passes(t, today, rows, lucks, k))
  }

  // Without lost messages, and when no wipe is ordered, the loop confirms exactly the rows
  // before the first that does not pass.  That one ends in a 401, which logs the player out;
  // its event is on record by then if its first post got past the token check.
  lemma {:induction false} LoopStopsAt(
      t: Tables, user: Id, device: Id, rows: seq<Row>, lucks: seq<Luck>, today: Day, n: nat, k: nat)
    requires Lucky(rows, lucks) && n <= |rows| && UniqueIds(rows)
    requires NoFaults(t, user, device, rows, lucks) && PassesUpTo(t, today, rows, lucks, n, k)
    ensures var l := Looped(t, user, device, rows, lucks, today, n);
            && l.confirmed == Sent(rows, k)
            && l.ending == (if k < n then LoggedOut else Going)
            && (k < n ==> (rows[k].id in l.server.events <==> rows[k].id in t.events || Gets(lucks[k].trips[0])))
  {
    hide Fetched, NoLosses, UniqueIds, Passes;
    if n > 0 {
      LoopStopsAt(t, user, device, rows, lucks, today, n - 1, if k < n then k else n - 1);
      var l := Looped(t, user, device, rows, lucks, today, n - 1);
      if l.ending == Going {
        RowPasses(t, user, device, rows, lucks, today, n - 1);
      }
    }
  }

  // How the loop fares with one row when it gets there.
  lemma RowPasses(
      t: Tables, user: Id, device: Id, rows: seq<Row>, lucks: seq<Luck>, today: Day, n: nat)
    requires Lucky(rows, lucks) && n < |rows| && UniqueIds(rows) && NoLosses(t, user, device, rows, lucks)
    requires Looped(t, user, device, rows, lucks, today, n).ending == Going
    ensures var l := Looped(t, user, device, rows, lucks, today, n);
            var (s, reply) := Fetched(l.server, Request(rows[n].id, user, device, rows[n].payload),
                                      lucks[n].signed, today, lucks[n].trips, 1);
            && (if rows[n].suspicious then Passes(t, today, rows, lucks, n) else reply.Synced? <==> Passes(t, today, rows, lucks, n))
            && (reply.Synced? || reply.AuthFailure?)
            && (!rows[n].suspicious && reply.Synced? ==>
                  (reply.wipe <==> t.devices[device].wipe && Merges(t, today, rows, lucks, n)))
            && (rows[n].id in s.events <==> rows[n].id in t.events || Gets(lucks[n].trips[0]))
  {
    LoopIsSafe(t, user, device, rows, lucks, today, n);
    NotAskedBefore(rows, n);
    var l := Looped(t, user, device, rows, lucks, today, n);
    hide Looped, Fetched, UniqueIds, AsksFor;
    var req := Request(rows[n].id, user, device, rows[n].payload);
    FetchedIff(l.server, req, lucks[n].signed, today, lucks[n].trips);
    FetchedWipesIff(l.server, req, lucks[n].signed, today, lucks[n].trips);
    SameGood(t, l.server, today, rows[n].payload);
    hide GoodPayload;
  }

  // Whether a payload is good depends on the levels only.
  lemma SameGood(t: Tables, s: Tables, today: Day, p: Payload)
    requires s.levels == t.levels
    ensures GoodPayload(s, today, p) <==> GoodPayload(t, today, p)
  {
  }

  lemma NotAskedBefore(rows: seq<Row>, n: nat)
    requires UniqueIds(rows) && n < |rows|
    ensures !AsksFor(rows, n, rows[n].id)
  {
  }

  lemma {:induction false} FirstBlocked(t: Tables, today: Day, rows: seq<Row>, lucks: seq<Luck>, n: nat) returns (k: nat)
    requires Lucky(rows, lucks) && n <= |rows|
    ensures PassesUpTo(t, today, rows, lucks, n, k)
  {
    k := 0;
    if n > 0 {
      k := FirstBlocked(t, today, rows, lucks, n - 1);
      if k == n - 1 && Passes(t, today, rows, lucks, n - 1) {
        k := n;
      }
    }
  }

  lemma {:induction false} SentMeans(rows: seq<Row>, n: nat)
    requires n <= |rows|
    ensures forall id :: id in Sent(rows, n) <==> AsksFor(rows, n, id)
  {
    if n > 0 {
      SentMeans(rows, n - 1);
      AsksOneMore(rows, n);
    }
  }

  // A row is confirmed exactly when it is not suspicious and it and all rows before it pass.
  lemma DeliveredIff(
      t: Tables, user: Id, device: Id, rows: seq<Row>, lucks: seq<Luck>, today: Day, i: nat)
    requires Lucky(rows, lucks) && UniqueIds(rows) && NoFaults(t, user, device, rows, lucks) && i < |rows|
    ensures rows[i].id in Looped(t, user, device, rows, lucks, today, |rows|).confirmed <==>
            !rows[i].suspicious && forall j :: 0 <= j <= i ==> Passes(t, today, rows, lucks, j)
  {
    hide Looped, Passes, NoFaults;
    var k := FirstBlocked(t, today, rows, lucks, |rows|);
    LoopStopsAt(t, user, device, rows, lucks, today, |rows|, k);
    SentMeans(rows, k);
    assert AsksFor(rows, k, rows[i].id) <==> i < k && !rows[i].suspicious;
  }

  // --------------------------------------------------------------------- the queue

  function Remaining(rows: seq<Row>, gone: set<Id>): seq<Row> {
    if rows == [] then []
    else
      var rest, r := Remaining(rows[..|rows| - 1], gone), rows[|rows| - 1];
      if r.id in gone then rest else rest + [r]
  }

  // The ids of the batch that were confirmed.
  function Gone(batch: seq<Row>, confirmed: seq<Id>): set<Id> {
    set i | 0 <= i < |batch| && batch[i].id in confirmed :: batch[i].id
  }

  // One round: the tables, what stays in the queue, and how the loop ended.
  function AfterRound(t: Tables, user: Id, device: Id, rows: seq<Row>, lucks: seq<Luck>, today: Day)
      : (Tables, seq<Row>, Ending)
    requires Lucky(rows[..BatchSize(rows)], lucks)
  {
    var batch := rows[..BatchSize(rows)];
    var l := Looped(t, user, device, batch, lucks, today, |batch|);
    (l.server, if l.ending == Wiped then [] else Remaining(rows, Gone(batch, l.confirmed)), l.ending)
  }

  class LocalQueue {
    var rows: seq<Row>

    constructor ()
      ensures rows == []
    {
      rows := [];
    }

    method EnqueueProgress(row: Row)
      modifies this
      ensures rows == old(rows) + [row]
    {
      rows := rows + [row];
    }

    // One round over the oldest rows, then the deletion of the confirmed ones.
    method SyncLocalQueue(db: Database, user: Id, device: Id, lucks: seq<Luck>, today: Day)
      returns (ending: Ending)
      requires Lucky(rows[..BatchSize(rows)], lucks)
      modifies this, db
      ensures (db.Now(), rows, ending) == AfterRound(old(db.Now()), user, device, old(rows), lucks, today)
      ensures Grew(old(db.Now()), db.Now())
      ensures ending != Wiped ==> forall r :: r in old(rows) ==> r in rows || r.id in db.events
      ensures forall r :: r in rows ==> r in old(rows)
    {
      hide Looped, Grew;
      var batch := rows[..BatchSize(rows)];
      var confirmed;
      confirmed, ending := SyncLocalProgress(db, user, device, batch, lucks, today);
      RemainingMeans(rows, Gone(batch, confirmed));
      if ending == Wiped {
        rows := [];
      }
      DeleteConfirmed(batch, confirmed);
    }

    method DeleteConfirmed(batch: seq<Row>, confirmed: seq<Id>)
      modifies this
      ensures rows == Remaining(old(rows), Gone(batch, confirmed))
    {
      RemainingAll(rows);
      assert Gone(batch[..0], confirmed) == {};
      for i := 0 to |batch|
        invariant rows == Remaining(old(rows), Gone(batch[..i], confirmed))
      {
        GoneOneMore(batch, confirmed, i);
        if batch[i].id in confirmed {
          RemainingTwice(old(rows), Gone(batch[..i], confirmed), batch[i].id);
          rows := WithoutRow(rows, batch[i].id);
        }
      }
      assert batch[..|batch|] == batch;
    }
  }

  function BatchSize(rows: seq<Row>): nat {
    if |rows| <= BATCH then |rows| else BATCH
  }

  lemma GoneOneMore(batch: seq<Row>, confirmed: seq<Id>, i: nat)
    requires i < |batch|
    ensures Gone(batch[..i + 1], confirmed) ==
            if batch[i].id in confirmed then Gone(batch[..i], confirmed) + {batch[i].id} else Gone(batch[..i], confirmed)
  {
    assert batch[..i + 1] == batch[..i] + [batch[i]];
  }

  lemma {:induction false} RemainingAll(rows: seq<Row>)
    ensures Remaining(rows, {}) == rows
  {
    if rows != [] {
      RemainingAll(rows[..|rows| - 1]);
    }
  }

  lemma {:induction false} RemainingTwice(rows: seq<Row>, gone: set<Id>, id: Id)
    ensures WithoutRow(Remaining(rows, gone), id) == Remaining(rows, gone + {id})
  {
    if rows != [] {
      var rest, r := Remaining(rows[..|rows| - 1], gone), rows[|rows| - 1];
      RemainingTwice(rows[..|rows| - 1], gone, id);
      assert (rest + [r])[..|rest|] == rest;
    }
  }

  lemma {:induction false} RemainingMeans(rows: seq<Row>, gone: set<Id>)
    ensures forall r :: r in Remaining(rows, gone) <==> r in rows && r.id !in gone
  {
    if rows != [] {
      RemainingMeans(rows[..|rows| - 1], gone);
      assert rows == rows[..|rows| - 1] + [rows[|rows| - 1]];
    }
  }

  // After a round without lost messages in which no wipe is ordered, a row is gone exactly when
  // it was in the batch and confirmed in the sense above; suspicious rows stay, and so does
  // every row from the first that did not pass on.
  lemma GoneFromQueueIff(
      t: Tables, user: Id, device: Id, rows: seq<Row>, lucks: seq<Luck>, today: Day, i: nat)
    requires var batch := rows[..BatchSize(rows)];
             && Lucky(batch, lucks) && UniqueIds(rows) && i < |rows|
             && NoFaults(t, user, device, batch, lucks)
    ensures var batch := rows[..BatchSize(rows)];
            rows[i] !in AfterRound(t, user, device, rows, lucks, today).1 <==>
              i < |batch| && !rows[i].suspicious && forall j :: 0 <= j <= i ==> Passes(t, today, batch, lucks, j)
  {
    var batch := rows[..BatchSize(rows)];
    var l := Looped(t, user, device, batch, lucks, today, |batch|);
    LoopIsSafe(t, user, device, batch, lucks, today, |batch|);
    hide Looped, Passes;
    RemainingMeans(rows, Gone(batch, l.confirmed));
    if i < |batch| {
      DeliveredIff(t, user, device, batch, lucks, today, i);
    }
  }

  // ------------------------------------------------------------------ many rounds

  // What the surroundings do to each event in one round.
  datatype Round = Round(luck: Id -> Luck, today: Day)

  ghost predicate IsRound(r: Round) {
    forall id :: |r.luck(id).trips| == MAX_ATTEMPTS
  }

  function LucksOf(r: Round, rows: seq<Row>): (lucks: seq<Luck>)
    ensures |lucks| == |rows| && forall i :: 0 <= i < |rows| ==> lucks[i] == r.luck(rows[i].id)
  {
    seq(|rows|, i requires 0 <= i < |rows| => r.luck(rows[i].id))
  }

  ghost function AfterRounds(t: Tables, user: Id, device: Id, rows: seq<Row>, rounds: seq<Round>): (Tables, seq<Row>)
    requires forall r :: r in rounds ==> IsRound(r)
    decreases |rounds|
  {
    if rounds == [] then (t, rows)
    else
      var n := |rounds| - 1;
      var before := AfterRounds(t, user, device, rows, rounds[..n]);
      var batch := before.1[..BatchSize(before.1)];
      assert rounds[n] in rounds && IsRound(rounds[n]);
      var after := AfterRound(before.0, user, device, before.1, LucksOf(rounds[n], batch), rounds[n].today);
      (after.0, after.1)
  }

  // Luck that confirms any event: the first post gets past the token check; a signature that
  // checks also has the second do so, one that does not has the session refreshed for it.
  predicate Fine(luck: Luck) {
    && |luck.trips| == MAX_ATTEMPTS && Faultless(luck.trips) && Gets(luck.trips[0])
    && if luck.signed then Gets(luck.trips[1]) else Twice(luck.trips[0])
  }

  ghost predicate FineRounds(rounds: seq<Round>) {
    forall r, id :: r in rounds ==> Fine(r.luck(id))
  }

  function Suspects(rows: seq<Row>): nat {
    if rows == [] then 0 else Suspects(rows[..|rows| - 1]) + if rows[|rows| - 1].suspicious then 1 else 0
  }

  // The rows without those of the first k that are not suspicious.
  function Cleared(rows: seq<Row>, k: nat): seq<Row> {
    if rows == [] then []
    else
      var n := |rows| - 1;
      Cleared(rows[..n], k) + if n >= k || rows[n].suspicious then [rows[n]] else []
  }

  // The suspicious rows, and all rows behind the fiftieth of them.
  function Stuck(rows: seq<Row>): seq<Row> {
    if rows == [] then []
    else
      var n := |rows| - 1;
      Stuck(rows[..n]) + if rows[n].suspicious || Suspects(rows[..n]) >= BATCH then [rows[n]] else []
  }

  ghost predicate GoodQueue(rows: seq<Row>) {
    UniqueIds(rows) && forall r :: r in rows ==> r.id != NIL
  }

  lemma {:induction false} RemainingIsCleared(rows: seq<Row>, gone: set<Id>, k: nat)
    requires forall i :: 0 <= i < |rows| ==> (rows[i].id in gone <==> i < k && !rows[i].suspicious)
    ensures Remaining(rows, gone) == Cleared(rows, k)
  {
    if rows != [] {
      RemainingIsCleared(rows[..|rows| - 1], gone, k);
    }
  }

  ghost predicate AllFine(lucks: seq<Luck>) {
    forall i :: 0 <= i < |lucks| ==> Fine(lucks[i])
  }

  lemma FineRoundClears(
      t: Tables, user: Id, device: Id, rows: seq<Row>, batch: seq<Row>, lucks: seq<Luck>, today: Day)
    requires batch == rows[..BatchSize(rows)] && GoodQueue(rows) && Lucky(batch, lucks) && AllFine(lucks)
    requires user != NIL && device != NIL && ActiveDevice(t, device, user) && !t.devices[device].wipe
    ensures var after := AfterRound(t, user, device, rows, lucks, today);
            && after.1 == Cleared(rows, BATCH)
            && ActiveDevice(after.0, device, user) && !after.0.devices[device].wipe
  {
    hide *;
    BatchConfirmed(t, user, device, rows, batch, lucks, today);
    AfterRoundMeans(t, user, device, rows, lucks, today);
    BatchIsGood(rows);
    ConfirmedClears(rows, batch, Looped(t, user, device, batch, lucks, today, |batch|).confirmed);
  }

  lemma LucksAreFine(r: Round, batch: seq<Row>)
    requires IsRound(r) && forall id :: Fine(r.luck(id))
    ensures Lucky(batch, LucksOf(r, batch)) && AllFine(LucksOf(r, batch))
  {
    hide Fine;
  }

  lemma AfterRoundMeans(t: Tables, user: Id, device: Id, rows: seq<Row>, lucks: seq<Luck>, today: Day)
    requires Lucky(rows[..BatchSize(rows)], lucks)
    ensures var batch := rows[..BatchSize(rows)];
            var l := Looped(t, user, device, batch, lucks, today, |batch|);
            l.ending != Wiped ==>
              AfterRound(t, user, device, rows, lucks, today) == (l.server, Remaining(rows, Gone(batch, l.confirmed)), l.ending)
  {
    hide Looped, Remaining, Gone;
  }

  lemma BatchConfirmed(
      t: Tables, user: Id, device: Id, rows: seq<Row>, batch: seq<Row>, lucks: seq<Luck>, today: Day)
    requires batch == rows[..BatchSize(rows)] && GoodQueue(rows)
    requires Lucky(batch, lucks) && AllFine(lucks)
    requires user != NIL && device != NIL && ActiveDevice(t, device, user) && !t.devices[device].wipe
    ensures var l := Looped(t, user, device, batch, lucks, today, |batch|);
            && l.ending != Wiped && ActiveDevice(l.server, device, user) && !l.server.devices[device].wipe
            && forall i :: 0 <= i < |batch| ==> (batch[i].id in l.confirmed <==> !batch[i].suspicious)
  {
    hide Looped, Fine, GoodQueue, AsksFor;
    BatchIsGood(rows);
    AllConfirmed(t, user, device, batch, lucks, today);
    LoopIsSafe(t, user, device, batch, lucks, today, |batch|);
  }

  lemma ConfirmedClears(rows: seq<Row>, batch: seq<Row>, confirmed: seq<Id>)
    requires batch == rows[..BatchSize(rows)] && UniqueIds(rows)
    requires forall i :: 0 <= i < |batch| ==> (batch[i].id in confirmed <==> !batch[i].suspicious)
    ensures Remaining(rows, Gone(batch, confirmed)) == Cleared(rows, BATCH)
  {
    GoneMeans(rows, confirmed);
    hide Remaining, Gone, Cleared, UniqueIds;
    assert forall i :: 0 <= i < |batch| ==> batch[i] == rows[i];
    RemainingIsCleared(rows, Gone(batch, confirmed), BATCH);
  }

  lemma BatchIsGood(rows: seq<Row>)
    requires GoodQueue(rows)
    ensures GoodQueue(rows[..BatchSize(rows)]) && UniqueIds(rows)
  {
    var batch := rows[..BatchSize(rows)];
    assert forall i :: 0 <= i < |batch| ==> batch[i] in rows;
  }

  lemma AllConfirmed(t: Tables, user: Id, device: Id, rows: seq<Row>, lucks: seq<Luck>, today: Day)
    requires |lucks| == |rows| && (forall i :: 0 <= i < |lucks| ==> Fine(lucks[i])) && GoodQueue(rows)
    requires user != NIL && device != NIL && ActiveDevice(t, device, user) && !t.devices[device].wipe
    ensures Lucky(rows, lucks)
    ensures var l := Looped(t, user, device, rows, lucks, today, |rows|);
            forall i :: 0 <= i < |rows| ==> (rows[i].id in l.confirmed <==> !rows[i].suspicious)
  {
    forall i | 0 <= i < |rows|
      ensures Passes(t, today, rows, lucks, i)
    {
      assert Fine(lucks[i]);
      hide GoodPayload;
    }
    assert forall i :: 0 <= i < |rows| ==> rows[i] in rows;
    assert NoFaults(t, user, device, rows, lucks);
    hide Looped, Passes, NoFaults, Fine;
    forall i | 0 <= i < |rows|
      ensures rows[i].id in Looped(t, user, device, rows, lucks, today, |rows|).confirmed <==> !rows[i].suspicious
    {
      DeliveredIff(t, user, device, rows, lucks, today, i);
    }
  }

  lemma GoneMeans(rows: seq<Row>, confirmed: seq<Id>)
    requires UniqueIds(rows)
    ensures var gone := Gone(rows[..BatchSize(rows)], confirmed);
            forall i :: 0 <= i < |rows| ==> (rows[i].id in gone <==> i < BatchSize(rows) && rows[i].id in confirmed)
  {
  }

  lemma OneMoreRow(front: seq<Row>, r: Row, k: nat)
    ensures Cleared(front + [r], k) == if |front| >= k || r.suspicious then Cleared(front, k) + [r] else Cleared(front, k)
    ensures Stuck(front + [r]) == if r.suspicious || Suspects(front) >= BATCH then Stuck(front) + [r] else Stuck(front)
    ensures Suspects(front + [r]) == Suspects(front) + if r.suspicious then 1 else 0
  {
    assert (front + [r])[..|front|] == front;
  }

  lemma {:induction false} ClearedCounts(rows: seq<Row>, k: nat)
    ensures Suspects(Cleared(rows, k)) == Suspects(rows) <= |rows|
    ensures Cleared(rows, k) == rows || |Cleared(rows, k)| < |rows|
  {
    if rows != [] {
      var front, r := rows[..|rows| - 1], rows[|rows| - 1];
      hide *;
      assert rows == front + [r];
      ClearedCounts(front, k);
      OneMoreRow(front, r, k);
      if |front| >= k || r.suspicious {
        OneMoreRow(Cleared(front, k), r, k);
      }
    }
  }

  lemma GoodQueueSplits(front: seq<Row>, r: Row)
    ensures GoodQueue(front + [r]) <==> GoodQueue(front) && r.id != NIL && forall x :: x in front ==> x.id != r.id
  {
    var rows := front + [r];
    assert rows[|front|] == r && forall i :: 0 <= i < |front| ==> rows[i] == front[i];
  }

  lemma {:induction false} ClearedAreRows(rows: seq<Row>, k: nat)
    ensures forall r :: r in Cleared(rows, k) ==> r in rows
    ensures GoodQueue(rows) ==> GoodQueue(Cleared(rows, k))
  {
    hide GoodQueue;
    if rows != [] {
      var front, r := rows[..|rows| - 1], rows[|rows| - 1];
      assert rows == front + [r];
      ClearedAreRows(front, k);
      OneMoreRow(front, r, k);
      hide Cleared, Suspects, Stuck;
      GoodQueueSplits(front, r);
      GoodQueueSplits(Cleared(front, k), r);
    }
  }

  // Clearing the oldest rows changes nothing about which rows are stuck.
  lemma {:induction false} ClearedSticksAlike(rows: seq<Row>)
    ensures Stuck(Cleared(rows, BATCH)) == Stuck(rows)
  {
    if rows != [] {
      var front, r := rows[..|rows| - 1], rows[|rows| - 1];
      assert rows == front + [r];
      ClearedSticksAlike(front);
      ClearedCounts(front, BATCH);
      OneMoreRow(front, r, BATCH);
      OneMoreRow(Cleared(front, BATCH), r, BATCH);
      hide Cleared, Suspects, Stuck;
    }
  }

  // When nothing more is cleared, everything is stuck.
  lemma {:induction false} UnclearedIsStuck(rows: seq<Row>)
    requires Cleared(rows, BATCH) == rows
    ensures Stuck(rows) == rows
    ensures Suspects(rows) >= if |rows| <= BATCH then |rows| else BATCH
  {
    if rows != [] {
      var front, r := rows[..|rows| - 1], rows[|rows| - 1];
      assert rows == front + [r];
      OneMoreRow(front, r, BATCH);
      ClearedCounts(front, BATCH);
      hide Cleared, Suspects, Stuck;
      UnclearedIsStuck(front);
    }
  }

  // No round takes anything away from what is stuck.
  lemma {:induction false} StuckStays(rows: seq<Row>)
    ensures Cleared(Stuck(rows), BATCH) == Stuck(rows)
    ensures |Stuck(rows)| >= if Suspects(rows) <= BATCH then Suspects(rows) else BATCH
  {
    if rows != [] {
      var front, r := rows[..|rows| - 1], rows[|rows| - 1];
      assert rows == front + [r];
      StuckStays(front);
      OneMoreRow(front, r, BATCH);
      OneMoreRow(Stuck(front), r, BATCH);
      hide Cleared, Suspects, Stuck;
    }
  }

  lemma {:induction false} RoundsClear(t: Tables, user: Id, device: Id, rows: seq<Row>, rounds: seq<Round>)
    requires (forall r :: r in rounds ==> IsRound(r)) && FineRounds(rounds) && GoodQueue(rows)
    requires user != NIL && device != NIL && ActiveDevice(t, device, user) && !t.devices[device].wipe
    ensures var (s, left) := AfterRounds(t, user, device, rows, rounds);
            && ActiveDevice(s, device, user) && !s.devices[device].wipe
            && GoodQueue(left) && Stuck(left) == Stuck(rows)
            && (left == Stuck(rows) || |left| + |rounds| <= |rows|)
    decreases |rounds|
  {
    if rounds != [] {
      var n := |rounds| - 1;
      RoundsClear(t, user, device, rows, rounds[..n]);
      var (s, left) := AfterRounds(t, user, device, rows, rounds[..n]);
      assert rounds[n] in rounds;
      var batch := left[..BatchSize(left)];
      LucksAreFine(rounds[n], batch);
      FineRoundClears(s, user, device, left, batch, LucksOf(rounds[n], batch), rounds[n].today);
      hide AfterRound, FineRounds, Cleared, Stuck, GoodQueue;
      ClearedCounts(left, BATCH);
      ClearedAreRows(left, BATCH);
      ClearedSticksAlike(left);
      if Cleared(left, BATCH) == left {
        UnclearedIsStuck(left);
      }
      StuckStays(rows);
    }
  }

  // However many rounds follow, once there were as many as rows: exactly the suspicious rows
  // are left, and every row behind the fiftieth of them, which no round ever sends.
  lemma RepeatedRoundsLeave(t: Tables, user: Id, device: Id, rows: seq<Row>, rounds: seq<Round>)
    requires (forall r :: r in rounds ==> IsRound(r)) && FineRounds(rounds) && GoodQueue(rows)
    requires user != NIL && device != NIL && ActiveDevice(t, device, user) && !t.devices[device].wipe
    requires |rounds| >= |rows|
    ensures AfterRounds(t, user, device, rows, rounds).1 == Stuck(rows)
  {
    RoundsClear(t, user, device, rows, rounds);
    hide AfterRounds;
    var left := AfterRounds(t, user, device, rows, rounds).1;
    assert |left| + |rounds| <= |rows| ==> left == [] == Stuck(left);
  }

  lemma {:induction false} StuckIff(rows: seq<Row>, i: nat)
    requires UniqueIds(rows) && i < |rows|
    ensures rows[i] in Stuck(rows) <==> rows[i].suspicious || Suspects(rows[..i]) >= 50
  {
    var n := |rows| - 1;
    StuckAreRows(rows[..n]);
    if i < n {
      StuckIff(rows[..n], i);
      assert rows[..n][..i] == rows[..i];
    }
  }

  lemma {:induction false} StuckAreRows(rows: seq<Row>)
    ensures forall r :: r in Stuck(rows) ==> r in rows
  {
    if rows != [] {
      StuckAreRows(rows[..|rows| - 1]);
    }
  }
}
