// What losses and orders to wipe do to the client: repetition never counts twice, lost posts are
// made up for, and a round always confirms a beginning of its batch.
module SyncLosses {
  import opened Ledger
  import opened SyncProtocol
  import opened SyncClient

  // ------------------------------------------------------- sending more than once

  function Once(t: Tables, req: Request, signed: bool, today: Day): Tables {
    ProcessSync(t, req, signed, today).0
  }

  // The message gets to the server, whatever becomes of the answer.
  predicate Reaches(fate: Fate) {
    fate == ResponseLost || fate == Answered
  }

  lemma TwiceIsOnce(t: Tables, req: Request, signed: bool, today: Day)
    ensures Once(Once(t, req, signed, today), req, signed, today) == Once(t, req, signed, today)
  {
    ProcessGrows(t, req, signed, today);
    hide Merged, GoodPayload;
  }

  // s is what it was, or what one processing makes of it, and the latter if a message arrived.
  ghost predicate AtMostOnce(t: Tables, s: Tables, req: Request, signed: bool, today: Day, arrived: bool) {
    s == Once(t, req, signed, today) || (s == t && !arrived)
  }

  lemma PostedOnce(t: Tables, s: Tables, req: Request, signed: bool, today: Day, trip: Trip, arrived: bool)
    requires AtMostOnce(t, s, req, signed, today, arrived)
    ensures var (r, reply) := Posted(s, req, signed, today, trip);
            && AtMostOnce(t, r, req, signed, today, arrived || Reaches(trip.first) || reply.Synced?)
            && (!Reaches(trip.first) && !Reaches(trip.again) ==> r == s)
  {
    TwiceIsOnce(t, req, signed, today);
    hide ProcessSync;
  }

  // However often a request is sent and whatever gets lost, the tables are those that sending
  // it once leaves, or untouched; untouched if nothing arrived, and not if the first post did
  // or the event was confirmed.
  lemma {:induction false} RepetitionCountsOnce(
      t: Tables, s: Tables, req: Request, signed: bool, today: Day, trips: seq<Trip>, attempt: nat, arrived: bool)
    requires |trips| == 3 && 1 <= attempt <= 3 && AtMostOnce(t, s, req, signed, today, arrived)
    ensures var (r, reply) := Fetched(s, req, signed, today, trips, attempt);
            && AtMostOnce(t, r, req, signed, today, arrived || Reaches(trips[attempt - 1].first) || reply.Synced?)
            && ((forall i :: attempt - 1 <= i < 3 ==> !Reaches(trips[i].first) && !Reaches(trips[i].again)) ==> r == s)
    decreases 3 - attempt
  {
    hide Posted, AtMostOnce;
    PostedOnce(t, s, req, signed, today, trips[attempt - 1], arrived);
    FetchedStep(s, req, signed, today, trips, attempt);
    var p := Posted(s, req, signed, today, trips[attempt - 1]);
    if p.1.Failure? && attempt < 3 {
      RepetitionCountsOnce(t, p.0, req, signed, today, trips, attempt + 1, arrived || Reaches(trips[attempt - 1].first));
      StillOnce(t, Fetched(s, req, signed, today, trips, attempt).0, req, signed, today);
    }
    hide Fetched;
  }

  lemma StillOnce(t: Tables, s: Tables, req: Request, signed: bool, today: Day)
    ensures forall a, b :: AtMostOnce(t, s, req, signed, today, a) && (b ==> a) ==> AtMostOnce(t, s, req, signed, today, b)
  {
  }

  // A post of which the request or the answer is lost, or that the server rolls back.
  predicate Lost(fate: Fate) {
    fate == RequestLost || fate == RolledBack || fate == ResponseLost
  }

  lemma LostPost(t: Tables, req: Request, signed: bool, today: Day, trip: Trip)
    requires Lost(trip.first)
    ensures var (s, reply) := Posted(t, req, signed, today, trip);
            reply == Failure && (s == t || s == Once(t, req, signed, today))
  {
    hide ProcessSync;
  }

  // An event that will be confirmed as soon as it is answered.
  predicate Ready(t: Tables, req: Request, signed: bool, today: Day) {
    && SyncClient.Acceptable(t, req)
    && (req.event in t.events || (signed && GoodPayload(t, today, req.payload)))
  }

  lemma StaysReady(t: Tables, req: Request, signed: bool, today: Day)
    requires Ready(t, req, signed, today)
    ensures Ready(Once(t, req, signed, today), req, signed, today)
  {
    AnsweredMeans(t, req, signed, today);
    hide ProcessSync, GoodPayload;
  }

  // Lost posts are made up for: of three, whichever is the first to be answered confirms the
  // event, and when all three are lost the fetch fails.
  lemma {:induction false} LostPostsAreMadeUpFor(
      t: Tables, req: Request, signed: bool, today: Day, trips: seq<Trip>, attempt: nat)
    requires |trips| == 3 && 1 <= attempt <= 3 && Ready(t, req, signed, today)
    requires forall i :: attempt - 1 <= i < 3 ==> Lost(trips[i].first) || trips[i].first == Answered
    ensures var reply := Fetched(t, req, signed, today, trips, attempt).1;
            && reply.Synced? == (exists i :: attempt - 1 <= i < 3 && trips[i].first == Answered)
            && (reply.Synced? || reply.Failure?)
    decreases 3 - attempt
  {
    hide Posted, Ready;
    var first := trips[attempt - 1];
    FetchedStep(t, req, signed, today, trips, attempt);
    if first.first == Answered {
      AnsweredPost(t, req, signed, today, first);
    } else {
      LostPost(t, req, signed, today, first);
      StaysReady(t, req, signed, today);
      if attempt < 3 {
        LostPostsAreMadeUpFor(Posted(t, req, signed, today, first).0, req, signed, today, trips, attempt + 1);
      }
    }
    hide Fetched;
  }

  lemma AnsweredPost(t: Tables, req: Request, signed: bool, today: Day, trip: Trip)
    requires Ready(t, req, signed, today) && trip.first == Answered
    ensures Posted(t, req, signed, today, trip).1.Synced?
  {
    AnsweredMeans(t, req, signed, today);
    hide ProcessSync, GoodPayload;
  }

  // ----------------------------------------------------------------- the whole loop

  // Whatever is lost, a round confirms exactly the rows to send among the first k of its batch,
  // all of them if it is not cut short, and sends none behind the row on which it ends.
  lemma {:induction false} RoundsConfirmAPrefix(
      t: Tables, user: Id, device: Id, rows: seq<Row>, lucks: seq<Luck>, today: Day, n: nat) returns (k: nat)
    requires Lucky(rows, lucks) && n <= |rows|
    ensures k <= n
    ensures var l := Looped(t, user, device, rows, lucks, today, n);
            && l.confirmed == Sent(rows, k)
            && (l.ending == Going ==> k == n)
            && (l.ending in {GaveUp, LoggedOut} ==> k < n && !rows[k].suspicious)
            && (l.ending == Wiped ==> k > 0 && !rows[k - 1].suspicious)
            && forall id :: id in l.server.events && id !in t.events ==> AsksFor(rows, if l.ending in {GaveUp, LoggedOut} then k + 1 else k, id)
  {
    hide Fetched, AsksFor;
    if n == 0 {
      k := 0;
    } else {
      k := RoundsConfirmAPrefix(t, user, device, rows, lucks, today, n - 1);
      var l, row := Looped(t, user, device, rows, lucks, today, n - 1), rows[n - 1];
      FetchedGrows(l.server, Request(row.id, user, device, row.payload),
                   lucks[n - 1].signed, today, lucks[n - 1].trips, 1);
      AsksOneMore(rows, n);
      if l.ending == Going && (row.suspicious || Looped(t, user, device, rows, lucks, today, n).ending in {Going, Wiped}) {
        k := n;
      }
    }
  }

  // The first k rows are confirmed without an order to wipe, and the next one, if it is among
  // the first n, is not.
  predicate UnwipedUpTo(t: Tables, today: Day, rows: seq<Row>, lucks: seq<Luck>, n: nat, k: nat)
    requires Lucky(rows, lucks) && n <= |rows|
  {
    && k <= n && (forall j :: 0 <= j < k ==> Passes(t, today, rows, lucks, j) && !Merges(t, today, rows, lucks, j))
    && (k < n ==> !Passes(t, today, rows, lucks, k) || Merges(t, today, rows, lucks, k))
  }

  // On a device that is marked for a wipe the loop ends with the first row that is merged, on
  // which the order comes, or with the first one that is not confirmed, whichever is earlier.
  lemma {:induction false} MarkedLoopStopsAt(
      t: Tables, user: Id, device: Id, rows: seq<Row>, lucks: seq<Luck>, today: Day, n: nat, k: nat)
    requires Lucky(rows, lucks) && n <= |rows| && UniqueIds(rows) && NoLosses(t, user, device, rows, lucks)
    requires t.devices[device].wipe && UnwipedUpTo(t, today, rows, lucks, n, k)
    ensures var l := Looped(t, user, device, rows, lucks, today, n);
            && l.ending == (if k == n then Going else if Merges(t, today, rows, lucks, k) then Wiped else LoggedOut)
            && l.confirmed == (if k < n && Merges(t, today, rows, lucks, k) then Sent(rows, k + 1) else Sent(rows, k))
  {
    hide Fetched, NoLosses, UniqueIds, Passes, Merges;
    if n > 0 {
      MarkedLoopStopsAt(t, user, device, rows, lucks, today, n - 1, if k < n then k else n - 1);
      var l := Looped(t, user, device, rows, lucks, today, n - 1);
      MergingPasses(t, today, rows, lucks, n - 1);
      if l.ending == Going {
        RowPasses(t, user, device, rows, lucks, today, n - 1);
      }
    }
  }

  lemma MergingPasses(t: Tables, today: Day, rows: seq<Row>, lucks: seq<Luck>, i: nat)
    requires Lucky(rows, lucks) && i < |rows|
    ensures Merges(t, today, rows, lucks, i) ==> Passes(t, today, rows, lucks, i) && !rows[i].suspicious
  {
  }

  lemma {:induction false} FirstUnwiped(t: Tables, today: Day, rows: seq<Row>, lucks: seq<Luck>, n: nat) returns (k: nat)
    requires Lucky(rows, lucks) && n <= |rows|
    ensures UnwipedUpTo(t, today, rows, lucks, n, k)
  {
    hide Passes, Merges;
    k := 0;
    if n > 0 {
      k := FirstUnwiped(t, today, rows, lucks, n - 1);
      if k == n - 1 && Passes(t, today, rows, lucks, k) && !Merges(t, today, rows, lucks, k) {
        k := n;
      }
    }
  }

  // So on such a device, without losses, the queue is emptied by the server's order exactly when
  // some row of the batch is merged and every row before it passes.
  lemma WipedIff(t: Tables, user: Id, device: Id, rows: seq<Row>, lucks: seq<Luck>, today: Day)
    requires var batch := rows[..BatchSize(rows)];
             Lucky(batch, lucks) && UniqueIds(batch) && NoLosses(t, user, device, batch, lucks) && t.devices[device].wipe
    ensures var batch, after := rows[..BatchSize(rows)], AfterRound(t, user, device, rows, lucks, today);
            && (after.2 == Wiped ==> after.1 == [])
            && (after.2 == Wiped <==>
                 exists k :: 0 <= k < |batch| && Merges(t, today, batch, lucks, k)
                             && forall j :: 0 <= j < k ==> Passes(t, today, batch, lucks, j))
  {
    var batch := rows[..BatchSize(rows)];
    var k := FirstUnwiped(t, today, batch, lucks, |batch|);
    MarkedLoopStopsAt(t, user, device, batch, lucks, today, |batch|, k);
    hide Looped, Merges, Passes, Remaining, Gone;
  }

  // A batch is the fifty oldest rows, or all of them when there are fewer.
  lemma BatchIsFifty(rows: seq<Row>)
    ensures BatchSize(rows) <= 50 && BatchSize(rows) <= |rows| && (BatchSize(rows) == 50 || BatchSize(rows) == |rows|)
  {
  }
}
