// The protocol is never stuck: whatever has happened, the oldest row can still be delivered.
module SyncProgress {
  import opened Ledger
  import opened SyncProtocol

  lemma {:induction false} ReachesBoth(s: State, a: seq<Event>, t: State, b: seq<Event>, r: State)
    requires Reaches(s, a, t) && Reaches(t, b, r)
    ensures Reaches(s, a + b, r)
    decreases |a|
  {
    if a == [] {
      assert a + b == b;
    } else {
      ReachesBoth(Next(s, a[0]), a[1..], t, b, r);
      assert (a + b)[1..] == a[1..] + b;
    }
  }

  lemma ReachesOne(s: State, e: Event)
    requires Enabled(s, e)
    ensures Reaches(s, [e], Next(s, e))
  {
    assert [e][1..] == [];
    assert Reaches(Next(s, e), [], Next(s, e));
  }

  // One more step at the end of a run.
  lemma ReachesNext(s: State, a: seq<Event>, t: State, e: Event)
    requires Reaches(s, a, t) && Enabled(t, e)
    ensures Reaches(s, a + [e], Next(t, e))
  {
    ReachesOne(t, e);
    ReachesBoth(s, a, t, [e], Next(t, e));
  }

  // The worker has given up the rest of its batch and will delete what was confirmed, from the
  // first row on; nothing else has changed but requests on their way.
  ghost predicate GaveUp(s: State, t: State, w: nat) {
    && w in s.workers && w in t.workers
    && t.workers[w].phase == Deleting && t.workers[w].at == 0
    && t.workers[w].rows == s.workers[w].rows && t.workers[w].confirmed == s.workers[w].confirmed
    && t.queue == s.queue && t.server == s.server && t.user == s.user && t.device == s.device
  }

  // A loop that is about to look at a row can always end: it skips suspicious rows, and a 401
  // ends it at the next row it sends.
  lemma {:induction false} CanGiveUp(s: State, w: nat) returns (events: seq<Event>, t: State)
    requires IsAt(s, w, Ready)
    ensures Reaches(s, events, t) && GaveUp(s, t, w)
    decreases if HasRow(s, w) then |s.workers[w].rows| - s.workers[w].at else 0
  {
    if !HasRow(s, w) {
      ReachesOne(s, EndOfBatch(w));
      events, t := [EndOfBatch(w)], Next(s, EndOfBatch(w));
    } else if s.workers[w].rows[s.workers[w].at].suspicious {
      var mid := Next(s, SkipSuspicious(w));
      var rest;
      ReachesOne(s, SkipSuspicious(w));
      rest, t := CanGiveUp(mid, w);
      ReachesBoth(s, [SkipSuspicious(w)], mid, rest, t);
      events := [SkipSuspicious(w)] + rest;
    } else {
      var mid := Next(s, Send(w));
      ReachesOne(s, Send(w));
      ReachesNext(s, [Send(w)], mid, ReceiveError(w, true));
      events, t := [Send(w)] + [ReceiveError(w, true)], Next(mid, ReceiveError(w, true));
    }
  }

  // The server would accept the row, or has it on record.
  predicate Deliverable(s: State, row: Row, today: Day) {
    && !row.suspicious && row.id != NIL && s.user != NIL && s.device != NIL
    && ActiveDevice(s.server, s.device, s.user)
    && (OnRecord(s.server, row.id) || GoodPayload(s.server, today, row.payload))
  }

  // Start, send, deliver and receive the answer.
  lemma CanConfirm(s: State, w: nat, today: Day) returns (events: seq<Event>, t: State, wipe: bool)
    requires w !in s.workers && s.queue != [] && Deliverable(s, s.queue[0], today)
    ensures Reaches(s, events, t) && OnRecord(t.server, s.queue[0].id)
    ensures wipe ==> t.queue == []
    ensures !wipe ==>
              && IsAt(t, w, Ready) && t.queue == s.queue
              && t.workers[w].rows != [] && t.workers[w].rows[0] == s.queue[0]
              && s.queue[0].id in t.workers[w].confirmed
  {
    var req := RequestOf(s, s.queue[0]);
    var sending;
    events, sending := CanSend(s, w);
    wipe := AnswersReady(sending, req, today);
    hide ProcessSync, GoodPayload;
    var answered := Delivered(sending, req, true, today);
    ReachesNext(s, events, sending, Deliver(req, true, today));
    t := Confirmed(answered, w, wipe);
    ReachesNext(s, events + [Deliver(req, true, today)], answered, ReceiveOk(w, wipe));
    events := events + [Deliver(req, true, today)] + [ReceiveOk(w, wipe)];
  }

  lemma CanSend(s: State, w: nat) returns (events: seq<Event>, t: State)
    requires w !in s.workers && s.queue != [] && !s.queue[0].suspicious
    ensures Reaches(s, events, t) && IsAt(t, w, Waiting) && RequestOf(s, s.queue[0]) in t.requests
    ensures t.workers[w].rows != [] && t.workers[w].rows[0] == s.queue[0] && t.workers[w].at == 0
    ensures t.queue == s.queue && t.server == s.server && t.user == s.user && t.device == s.device
  {
    var a := Next(s, Start(w));
    ReachesOne(s, Start(w));
    assert a.workers[w].rows[0] == s.queue[0];
    t := Next(a, Send(w));
    ReachesNext(s, [Start(w)], a, Send(w));
    events := [Start(w)] + [Send(w)];
  }

  lemma AnswersReady(s: State, req: Request, today: Day) returns (wipe: bool)
    requires req.event != NIL && req.user != NIL && req.device != NIL && ActiveDevice(s.server, req.device, req.user)
    requires OnRecord(s.server, req.event) || GoodPayload(s.server, today, req.payload)
    ensures var t := Delivered(s, req, true, today);
            && Response(req.event, wipe) in t.responses && OnRecord(t.server, req.event)
            && t.queue == s.queue && t.workers == s.workers && t.user == s.user && t.device == s.device
  {
    hide ProcessSync, GoodPayload;
    wipe := !OnRecord(s.server, req.event) && s.server.devices[req.device].wipe;
    AnswerIsGood(s.server, req, today);
  }

  lemma AnswerIsGood(t: Tables, req: Request, today: Day)
    requires req.event != NIL && req.user != NIL && req.device != NIL && ActiveDevice(t, req.device, req.user)
    requires OnRecord(t, req.event) || GoodPayload(t, today, req.payload)
    ensures var (s, outcome) := ProcessSync(t, req, true, today);
            OnRecord(s, req.event) && outcome == if OnRecord(t, req.event) then AlreadyProcessed else Done
  {
    hide AllRecorded, Eligible, StreakDays, GoodPayload;
  }

  // From every state in which no loop of that number runs, some run confirms the oldest row and
  // takes it out of the queue, unless it is suspicious, the device is not the user's any more, or
  // the server would not accept the payload.
  lemma OldestCanBeDelivered(s: State, w: nat, today: Day) returns (events: seq<Event>, t: State)
    requires w !in s.workers && s.queue != [] && Deliverable(s, s.queue[0], today)
    ensures Reaches(s, events, t)
    ensures OnRecord(t.server, s.queue[0].id) && !InQueue(t.queue, s.queue[0].id)
  {
    var id := s.queue[0].id;
    var wipe, mid, rest;
    events, mid, wipe := CanConfirm(s, w, today);
    if wipe {
      t := mid;
    } else {
      var end;
      rest, end := CanGiveUp(mid, w);
      ReachesBoth(s, events, mid, rest, end);
      t := Next(end, DeleteRow(w));
      ReachesNext(s, events + rest, end, DeleteRow(w));
      events := events + rest + [DeleteRow(w)];
      RowIsGone(s.queue, id);
    }
  }

  lemma {:induction false} RowIsGone(rows: seq<Row>, id: Id)
    ensures !InQueue(WithoutRow(rows, id), id)
  {
    if rows != [] {
      RowIsGone(rows[..|rows| - 1], id);
    }
  }
}
