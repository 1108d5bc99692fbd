// The tables read as a log: what each transaction files row by row, and what any run leaves in
// them, said of the reports that were accepted.
module LedgerLog {
  import opened Wrappers
  import opened Ledger
  import opened LedgerFacts

  // ------------------------------------------------------------- what is accepted

  predicate Available(t: Tables, l: Id) {
    l in t.levels && t.levels[l].published
  }

  // Every date parses and is not in the future, no score is negative, every level is published.
  predicate Acceptable(t: Tables, p: Payload, today: Day) {
    && (forall i :: i in p.items ==> i.day.Some? && i.day.value <= today && i.score >= 0 && Available(t, i.level))
    && (forall d :: d in p.streak ==> d.Some? && d.value <= today)
  }

  lemma CompleteOutcome(t: Tables, u: Id, l: Id, day: Day, score: int, completed: bool)
    ensures var (s, outcome) := CompleteLevel(t, u, l, day, score, completed);
            && (outcome != Done ==> s == t)
            && outcome == if u == 0 || l == 0 || score < 0 then Invalid
                          else if Available(t, l) then Done else NotFound
  {
  }

  lemma SyncOutcome(t: Tables, req: Request, signed: bool, today: Day)
    ensures ProcessSync(t, req, signed, today).1 ==
            if req.event == 0 || req.user == 0 || req.device == 0 || req.device !in t.devices then Invalid
            else if t.devices[req.device].user != req.user || t.devices[req.device].revoked then Invalid
            else if req.event in t.events then AlreadyProcessed
            else if !signed then BadSignature
            else if Acceptable(t, req.payload, today) then Done else Invalid
  {
    var p := req.payload;
    assert GoodPayload(t, today, p) <==> Acceptable(t, p, today) by {
      if GoodPayload(t, today, p) {
        forall i | i in p.items
          ensures i.day.Some? && i.day.value <= today && i.score >= 0 && Available(t, i.level)
        {
          var k :| 0 <= k < |p.items| && p.items[k] == i;
          assert GoodItem(t, today, p.items[k]);
        }
      }
    }
    hide Merged, GoodPayload, Acceptable;
  }

  // ------------------------------------------------------- the rows of an arrival

  // Four times the difficulty for the first attempt of a day, half of it for the next two.
  function Pay(difficulty: int, number: int, completed: bool): int {
    if !completed || difficulty <= 0 || number > 3 then 0
    else if number == 1 then 4 * difficulty else 2 * difficulty
  }

  // Row k of the attempts is the user's report i, numbered after the earlier rows of its day and
  // paid by its number, and its history row beside it.
  ghost predicate Files(t: Tables, s: Tables, k: nat, j: nat, u: Id, i: Item, event: Option<Id>)
    requires k < |s.attempts| && j < |s.history|
  {
    var row := s.attempts[k];
    && i.day.Some? && i.level in t.levels
    && row.user == u && row.level == i.level && row.day == i.day.value && row.completed == i.completed
    && row.number == 1 + Total(s.attempts[..k], IsTry(u, i.level, i.day.value))
    && row.xp == Pay(t.levels[i.level].difficulty, row.number, i.completed)
    && s.history[j] == HistoryRow(Some(u), i.level, row.xp, event)
  }

  // s is t with the reports filed in order at the end of the attempts and of the history.
  ghost predicate Filed(t: Tables, s: Tables, u: Id, items: seq<Item>, event: Option<Id>) {
    var n, m := |t.attempts|, |t.history|;
    && |s.attempts| == n + |items| && s.attempts[..n] == t.attempts
    && |s.history| == m + |items| && s.history[..m] == t.history
    && forall k :: 0 <= k < |items| ==> Files(t, s, n + k, m + k, u, items[k], event)
  }

  lemma PayIsXp(difficulty: int, number: int, completed: bool)
    requires number >= 1
    ensures Xp(difficulty, number, completed) == Pay(difficulty, number, completed) >= 0
  {
  }

  lemma {:induction false} TriesAreCounted(rows: seq<AttemptRow>, u: Id, l: Id, day: Day)
    ensures Total(rows, IsTry(u, l, day)) >= 0
  {
    if rows != [] {
      TriesAreCounted(rows[..|rows| - 1], u, l, day);
    }
  }

  lemma RecordedFiles(t: Tables, u: Id, i: Item, event: Option<Id>)
    requires i.day.Some? && i.level in t.levels
    ensures Filed(t, Recorded(t, u, i.level, i.day.value, i.score, i.completed, event), u, [i], event)
  {
    TriesAreCounted(t.attempts, u, i.level, i.day.value);
    PayIsXp(t.levels[i.level].difficulty, 1 + CountTries(t, u, i.level, i.day.value), i.completed);
    hide Xp, Pay, Total, IsTry, Upserted;
    var s := Recorded(t, u, i.level, i.day.value, i.score, i.completed, event);
    assert s.attempts[..|t.attempts|] == t.attempts && s.history[..|t.history|] == t.history;
    assert Files(t, s, |t.attempts|, |t.history|, u, i, event);
  }

  // A row that was filed stays filed while others come after it.
  lemma FilesStays(t: Tables, s: Tables, r: Tables, k: nat, j: nat, u: Id, i: Item, event: Option<Id>)
    requires k < |s.attempts| <= |r.attempts| && r.attempts[..|s.attempts|] == s.attempts
    requires j < |s.history| <= |r.history| && r.history[..|s.history|] == s.history
    requires Files(t, s, k, j, u, i, event)
    ensures Files(t, r, k, j, u, i, event)
  {
    hide Total, IsTry, Pay;
    assert r.attempts[..k] == r.attempts[..|s.attempts|][..k];
    assert r.attempts[k] == r.attempts[..|s.attempts|][k] && r.history[j] == r.history[..|s.history|][j];
  }

  lemma SameLevelsFile(t: Tables, s: Tables, r: Tables, k: nat, j: nat, u: Id, i: Item, event: Option<Id>)
    requires k < |r.attempts| && j < |r.history| && s.levels == t.levels && Files(s, r, k, j, u, i, event)
    ensures Files(t, r, k, j, u, i, event)
  {
    hide Total, IsTry, Pay;
  }

  lemma FiledOneMore(t: Tables, s: Tables, r: Tables, u: Id, items: seq<Item>, i: Item, event: Option<Id>)
    requires Filed(t, s, u, items, event) && Filed(s, r, u, [i], event) && s.levels == t.levels
    ensures Filed(t, r, u, items + [i], event)
  {
    hide Files;
    var n, m := |t.attempts|, |t.history|;
    assert r.attempts[..n] == r.attempts[..|s.attempts|][..n] && r.history[..m] == r.history[..|s.history|][..m];
    forall k | 0 <= k < |items + [i]|
      ensures Files(t, r, n + k, m + k, u, (items + [i])[k], event)
    {
      if k < |items| {
        FilesStays(t, s, r, n + k, m + k, u, items[k], event);
      } else {
        assert Files(s, r, |s.attempts| + 0, |s.history| + 0, u, [i][0], event);
        SameLevelsFile(t, s, r, n + k, m + k, u, i, event);
      }
    }
  }

  lemma NothingFiled(t: Tables, u: Id, event: Option<Id>)
    ensures Filed(t, t, u, [], event)
  {
  }

  lemma {:induction false} AllRecordedFiles(t: Tables, u: Id, items: seq<Item>, event: Id)
    requires forall k :: 0 <= k < |items| ==> items[k].day.Some? && items[k].level in t.levels
    ensures Filed(t, AllRecorded(t, u, items, event), u, items, Some(event))
  {
    hide Recorded, Filed;
    if items == [] {
      NothingFiled(t, u, Some(event));
    } else {
      var n := |items| - 1;
      var i, s := items[n], AllRecorded(t, u, items[..n], event);
      AllRecordedFiles(t, u, items[..n], event);
      assert AllRecorded(t, u, items, event) ==
             Recorded(s, u, i.level, i.day.value, i.score, i.completed, Some(event));
      hide AllRecorded;
      RecordedFiles(s, u, i, Some(event));
      FiledOneMore(t, s, AllRecorded(t, u, items, event), u, items[..n], i, Some(event));
      assert items == items[..n] + [i];
    }
  }

  lemma SameRowsFiled(t: Tables, s: Tables, r: Tables, u: Id, items: seq<Item>, event: Option<Id>)
    requires Filed(t, s, u, items, event) && r.attempts == s.attempts && r.history == s.history
    ensures Filed(t, r, u, items, event)
  {
    forall k | 0 <= k < |items|
      ensures Files(t, r, |t.attempts| + k, |t.history| + k, u, items[k], event)
    {
      assert Files(t, s, |t.attempts| + k, |t.history| + k, u, items[k], event);
    }
  }

  // An accepted online completion files its one attempt, and the day if it was completed.
  lemma CompleteMeans(t: Tables, u: Id, l: Id, day: Day, score: int, completed: bool)
    requires CompleteLevel(t, u, l, day, score, completed).1 == Done
    ensures var s := CompleteLevel(t, u, l, day, score, completed).0;
            && Filed(t, s, u, [Item(l, Some(day), score, completed)], None)
            && (forall v, d :: (v, d) in s.streak <==> (v, d) in t.streak || (completed && v == u && d == day))
            && s.events == t.events && s.devices == t.devices && s.levels == t.levels && s.badges == t.badges
  {
    RecordedFiles(t, u, Item(l, Some(day), score, completed), None);
    hide Recorded, Filed, Eligible;
    SameRowsFiled(t, Recorded(t, u, l, day, score, completed, None),
                  CompleteLevel(t, u, l, day, score, completed).0, u, [Item(l, Some(day), score, completed)], None);
  }

  // A merged event files all its attempts in order and exactly the days it reports; a refused one
  // files neither.  Its record says which it was.
  lemma SyncMeans(t: Tables, req: Request, signed: bool, today: Day)
    ensures var (s, outcome) := ProcessSync(t, req, signed, today);
            && (outcome == Done ==> Filed(t, s, req.user, req.payload.items, Some(req.event)))
            && (outcome != Done ==>
                  s.attempts == t.attempts && s.history == t.history && s.progress == t.progress && s.earned == t.earned)
            && (forall v, d :: (v, d) in s.streak <==>
                  (v, d) in t.streak || (outcome == Done && v == req.user && Some(d) in req.payload.streak))
            && s.devices == t.devices && s.levels == t.levels && s.badges == t.badges
  {
    var (s, outcome) := ProcessSync(t, req, signed, today);
    if outcome == Done {
      SyncIsMerged(t, req, signed, today);
      MergedFiles(t, req);
    }
  }

  lemma SyncIsMerged(t: Tables, req: Request, signed: bool, today: Day)
    requires ProcessSync(t, req, signed, today).1 == Done
    ensures forall k :: 0 <= k < |req.payload.items| ==>
              req.payload.items[k].day.Some? && req.payload.items[k].level in t.levels
    ensures ProcessSync(t, req, signed, today).0 == Merged(t, req)
  {
    hide Merged;
    assert forall k :: 0 <= k < |req.payload.items| ==> GoodItem(t, today, req.payload.items[k]);
  }

  lemma MergedFiles(t: Tables, req: Request)
    requires forall k :: 0 <= k < |req.payload.items| ==>
               req.payload.items[k].day.Some? && req.payload.items[k].level in t.levels
    ensures var s := Merged(t, req);
            && Filed(t, s, req.user, req.payload.items, Some(req.event))
            && (forall v, d :: (v, d) in s.streak <==> (v, d) in t.streak || (v == req.user && Some(d) in req.payload.streak))
            && s.devices == t.devices && s.levels == t.levels && s.badges == t.badges
  {
    AllRecordedFiles(t, req.user, req.payload.items, req.event);
    hide AllRecorded, Filed, Eligible;
    SameRowsFiled(t, AllRecorded(t, req.user, req.payload.items, req.event), Merged(t, req),
                  req.user, req.payload.items, Some(req.event));
    forall v, d
      ensures (v, d) in StreakDays(req.user, req.payload.streak) <==> v == req.user && Some(d) in req.payload.streak
    {
      if Some(d) in req.payload.streak {
        var k :| 0 <= k < |req.payload.streak| && req.payload.streak[k] == Some(d);
        assert req.payload.streak[k].Some? && req.payload.streak[k].value == d;
      }
    }
  }

  // Every event that reaches the transaction is on record from then on, with its sender and what
  // it reported, as processed or rejected; no other record changes.
  lemma SyncRecords(t: Tables, req: Request, signed: bool, today: Day)
    ensures var (s, outcome) := ProcessSync(t, req, signed, today);
            var known := req.event != 0 && req.user != 0 && req.device != 0 && ActiveDevice(t, req.device, req.user);
            s.events == if !known || req.event in t.events then t.events
                        else t.events[req.event := EventRow(req.user, req.payload, if outcome == Done then Processed else Rejected)]
  {
    hide GoodPayload, Eligible, StreakDays;
  }

  lemma RecordedKeepsRest(t: Tables, u: Id, l: Id, day: Day, score: int, completed: bool, event: Option<Id>)
    requires l in t.levels
    ensures var s := Recorded(t, u, l, day, score, completed, event);
            && s.streak == t.streak && s.earned == t.earned && s.events == t.events
            && s.devices == t.devices && s.levels == t.levels && s.badges == t.badges
  {
    hide Total, Xp, CountTries, Upserted;
  }

  lemma AwardedMeans(t: Tables, u: Id, v: Id, b: Id)
    ensures var s := Awarded(t, u);
            && s.badges == t.badges && s.history == t.history
            && ((v, b) in s.earned <==>
                 (v, b) in t.earned || (v == u && b in t.badges && t.badges[b] <= Total(s.history, OwnXp(u))))
  {
    hide Total;
  }

  // A badge is earned when it was before, or when an accepted arrival of the user leaves the
  // user's total at its threshold or above.
  lemma BadgesMean(t: Tables, a: Action, v: Id, b: Id)
    requires a.Complete? || a.Sync?
    ensures var s := Apply(t, a);
            && s.badges == t.badges
            && ((v, b) in s.earned <==>
                 || (v, b) in t.earned
                 || (Arrives(t, a, v) && b in t.badges && t.badges[b] <= Total(s.history, OwnXp(v))))
  {
    hide Awarded, Total, OwnXp, Recorded, AllRecorded, StreakDays, GoodPayload;
    match a
    case Complete(u, l, day, score, completed) =>
      if CompleteLevel(t, u, l, day, score, completed).1 == Done {
        RecordedKeepsRest(t, u, l, day, score, completed, None);
        var r := Recorded(t, u, l, day, score, completed, None);
        AwardedMeans(if completed then r.(streak := r.streak + {(u, day)}) else r, u, v, b);
      }
    case Sync(req, signed, today) =>
      if ProcessSync(t, req, signed, today).1 == Done {
        SyncIsMerged(t, req, signed, today);
        var r := AllRecorded(t, req.user, req.payload.items, req.event);
        AwardedMeans(r.(streak := r.streak + StreakDays(req.user, req.payload.streak),
                        events := r.events[req.event := EventRow(req.user, req.payload, Processed)]), req.user, v, b);
        hide ProcessSync;
      }
  }

  // ------------------------------------------------------------------ cancellation

  function OwnRows(rows: seq<AttemptRow>, u: Id): seq<AttemptRow> {
    if rows == [] then []
    else
      var rest, r := OwnRows(rows[..|rows| - 1], u), rows[|rows| - 1];
      if r.user == u then rest + [r] else rest
  }

  lemma KeptOneMore(rows: seq<AttemptRow>, row: AttemptRow, u: Id)
    ensures Kept(rows + [row], u) == if row.user == u then Kept(rows, u) else Kept(rows, u) + [row]
  {
    assert (rows + [row])[..|rows|] == rows;
  }

  lemma {:induction false} KeptRows(rows: seq<AttemptRow>, u: Id, v: Id)
    ensures forall r :: r in Kept(rows, u) ==> r.user != u && r in rows
    ensures OwnRows(Kept(rows, u), v) == if u == v then [] else OwnRows(rows, v)
  {
    if rows != [] {
      var front, row := rows[..|rows| - 1], rows[|rows| - 1];
      assert rows == front + [row];
      KeptRows(front, u, v);
      KeptOneMore(front, row, u);
      OwnRowsLast(Kept(front, u), row, v);
      OwnRowsLast(front, row, v);
      hide Kept, OwnRows;
    }
  }

  lemma {:induction false} NulledRows(rows: seq<HistoryRow>, u: Id)
    ensures |Nulled(rows, u)| == |rows|
    ensures forall k :: 0 <= k < |rows| ==>
              Nulled(rows, u)[k] == if rows[k].user == Some(u) then HistoryRow(None, rows[k].level, rows[k].xp, rows[k].event) else rows[k]
  {
    if rows != [] {
      NulledRows(rows[..|rows| - 1], u);
    }
  }

  // After a cancellation no row of progress, attempts, streak days or badges names the user, and
  // no history row does; everybody else's rows are as before and in their order, and nothing of
  // the history is lost but the name.
  lemma CancelPurges(t: Tables, u: Id)
    ensures var s := CancelUser(t, u);
            && (forall r :: r in s.attempts ==> r.user != u)
            && (forall v :: v != u ==> OwnRows(s.attempts, v) == OwnRows(t.attempts, v))
            && |s.history| == |t.history|
            && (forall k :: 0 <= k < |t.history| ==>
                  s.history[k] == if t.history[k].user != Some(u) then t.history[k]
                                  else HistoryRow(None, t.history[k].level, t.history[k].xp, t.history[k].event))
            && (forall v, l :: (v, l) in s.progress <==> v != u && (v, l) in t.progress)
            && (forall k :: k in s.progress ==> s.progress[k] == t.progress[k])
            && (forall v, d :: (v, d) in s.streak <==> v != u && (v, d) in t.streak)
            && (forall v, b :: (v, b) in s.earned <==> v != u && (v, b) in t.earned)
  {
    NulledRows(t.history, u);
    forall v
      ensures forall r :: r in Kept(t.attempts, u) ==> r.user != u
      ensures v != u ==> OwnRows(Kept(t.attempts, u), v) == OwnRows(t.attempts, v)
    {
      KeptRows(t.attempts, u, v);
    }
    hide Kept, Nulled, OwnRows;
    assert forall r :: r in CancelUser(t, u).attempts ==> r.user != u by {
      KeptRows(t.attempts, u, u);
    }
  }

  // Every device of the user that was not revoked is told to wipe itself; no other device,
  // event, level or badge changes.
  lemma CancelOrdersWipes(t: Tables, u: Id)
    ensures var s := CancelUser(t, u);
            && s.events == t.events && s.levels == t.levels && s.badges == t.badges
            && s.devices.Keys == t.devices.Keys
            && forall d :: d in t.devices ==>
                 var dev := t.devices[d];
                 s.devices[d] == DeviceRow(dev.user, dev.revoked, dev.wipe || (dev.user == u && !dev.revoked))
  {
    hide Kept, Nulled;
  }

  // ------------------------------------------------------------------- whole runs

  // The reports of the user that the transaction accepts.
  function Told(t: Tables, a: Action, u: Id): seq<Item> {
    match a
    case Complete(v, l, day, score, completed) =>
      if v == u && CompleteLevel(t, v, l, day, score, completed).1 == Done then [Item(l, Some(day), score, completed)] else []
    case Sync(req, signed, today) =>
      if req.user == u && ProcessSync(t, req, signed, today).1 == Done then req.payload.items else []
    case _ => []
  }

  predicate Arrives(t: Tables, a: Action, u: Id) {
    match a
    case Complete(v, l, day, score, completed) => v == u && CompleteLevel(t, v, l, day, score, completed).1 == Done
    case Sync(req, signed, today) => req.user == u && ProcessSync(t, req, signed, today).1 == Done
    case _ => false
  }

  // The transaction is a completed online attempt of the user on that day, or an event of the
  // user that reports it.
  predicate TellsDay(t: Tables, a: Action, u: Id, d: Day) {
    && Arrives(t, a, u)
    && match a
       case Complete(_, _, day, _, completed) => completed && day == d
       case Sync(req, _, _) => Some(d) in req.payload.streak
       case _ => false
  }

  // All reports of the user that were accepted since the user's last cancellation.
  function Reports(t: Tables, actions: seq<Action>, u: Id): seq<Item> {
    if actions == [] then []
    else
      var front, a := actions[..|actions| - 1], actions[|actions| - 1];
      if a == Cancel(u) then [] else Reports(t, front, u) + Told(Run(t, front), a, u)
  }

  // Transaction k, on the tables it met, is followed by no cancellation of the user.
  ghost predicate Stands(t: Tables, actions: seq<Action>, u: Id, k: nat) {
    k < |actions| && forall j :: k <= j < |actions| ==> actions[j] != Cancel(u)
  }

  ghost predicate Tells(t: Tables, u: Id, reports: seq<Item>) {
    RowsTell(t, u, reports) && forall l :: ProgressTells(t, u, l, reports)
  }

  // The user's attempt rows are the reports, in order.
  ghost predicate RowsTell(t: Tables, u: Id, reports: seq<Item>) {
    var rows := OwnRows(t.attempts, u);
    && |rows| == |reports|
    && forall k :: 0 <= k < |rows| ==>
         rows[k].level == reports[k].level && Some(rows[k].day) == reports[k].day && rows[k].completed == reports[k].completed
  }

  // A progress row stands for the reports of its level: the best score is the largest of theirs,
  // and it counts as completed when one of them was.
  ghost predicate ProgressTells(t: Tables, u: Id, l: Id, reports: seq<Item>) {
    && ((u, l) in t.progress <==> exists i :: i in reports && i.level == l)
    && ((u, l) in t.progress ==>
          var p := t.progress[(u, l)];
          && (exists i :: i in reports && i.level == l && i.score == p.best)
          && (forall i :: i in reports && i.level == l ==> i.score <= p.best)
          && (p.everCompleted <==> exists i :: i in reports && i.level == l && i.completed))
  }

  lemma RecordedTells(t: Tables, u: Id, i: Item, event: Option<Id>, v: Id, reports: seq<Item>)
    requires i.day.Some? && i.level in t.levels && Tells(t, v, reports)
    ensures Tells(Recorded(t, u, i.level, i.day.value, i.score, i.completed, event), v,
                  if u == v then reports + [i] else reports)
  {
    var s := Recorded(t, u, i.level, i.day.value, i.score, i.completed, event);
    var now := if u == v then reports + [i] else reports;
    RecordedRowsTell(t, u, i, event, v, reports);
    forall l
      ensures ProgressTells(s, v, l, now)
    {
      assert ProgressTells(t, v, l, reports);
      RecordedProgressTells(t, u, i, event, v, l, reports);
    }
  }

  lemma RecordedRowsTell(t: Tables, u: Id, i: Item, event: Option<Id>, v: Id, reports: seq<Item>)
    requires i.day.Some? && i.level in t.levels && RowsTell(t, v, reports)
    ensures RowsTell(Recorded(t, u, i.level, i.day.value, i.score, i.completed, event), v,
                     if u == v then reports + [i] else reports)
  {
    hide Xp, Total, CountTries;
    var s := Recorded(t, u, i.level, i.day.value, i.score, i.completed, event);
    var row := s.attempts[|t.attempts|];
    assert s.attempts == t.attempts + [row];
    OwnRowsLast(t.attempts, row, v);
    hide OwnRows;
  }

  lemma OwnRowsLast(rows: seq<AttemptRow>, row: AttemptRow, u: Id)
    ensures OwnRows(rows + [row], u) == if row.user == u then OwnRows(rows, u) + [row] else OwnRows(rows, u)
  {
    assert (rows + [row])[..|rows|] == rows;
  }

  lemma RecordedProgressTells(t: Tables, u: Id, i: Item, event: Option<Id>, v: Id, l: Id, reports: seq<Item>)
    requires i.day.Some? && i.level in t.levels && ProgressTells(t, v, l, reports)
    ensures ProgressTells(Recorded(t, u, i.level, i.day.value, i.score, i.completed, event), v, l,
                          if u == v then reports + [i] else reports)
  {
    hide Total, Xp, CountTries;
    var s := Recorded(t, u, i.level, i.day.value, i.score, i.completed, event);
    if u == v {
      var now := reports + [i];
      assert i in now && forall r :: r in now <==> r in reports || r == i;
      if l == i.level {
        var p := s.progress[(u, l)];
        if (u, l) in t.progress && t.progress[(u, l)].best >= i.score {
          var r :| r in reports && r.level == l && r.score == t.progress[(u, l)].best;
          assert r in now;
        }
      }
    }
  }

  lemma {:induction false} AllRecordedTells(t: Tables, u: Id, items: seq<Item>, event: Id, v: Id, reports: seq<Item>)
    requires forall k :: 0 <= k < |items| ==> items[k].day.Some? && items[k].level in t.levels
    requires Tells(t, v, reports)
    ensures Tells(AllRecorded(t, u, items, event), v, if u == v then reports + items else reports)
  {
    hide Recorded, Tells;
    if items == [] {
      assert reports + items == reports;
    } else {
      var n := |items| - 1;
      AllRecordedTells(t, u, items[..n], event, v, reports);
      RecordedTells(AllRecorded(t, u, items[..n], event), u, items[n], Some(event), v,
                    if u == v then reports + items[..n] else reports);
      assert reports + items == reports + items[..n] + [items[n]];
    }
  }

  lemma SameRowsTell(t: Tables, s: Tables, u: Id, reports: seq<Item>)
    requires Tells(t, u, reports) && s.attempts == t.attempts && s.progress == t.progress
    ensures Tells(s, u, reports)
  {
    forall l
      ensures ProgressTells(s, u, l, reports)
    {
      assert ProgressTells(t, u, l, reports);
    }
  }

  lemma CancelTells(t: Tables, u: Id, v: Id, reports: seq<Item>)
    requires Tells(t, v, reports)
    ensures Tells(CancelUser(t, u), v, if u == v then [] else reports)
  {
    var s := CancelUser(t, u);
    CancelPurges(t, u);
    KeptRows(t.attempts, u, v);
    hide CancelUser, OwnRows, Kept;
    if u == v {
      assert OwnRows(s.attempts, v) == [] by { NoOwnRows(s.attempts, v); }
      forall l
        ensures ProgressTells(s, v, l, [])
      {
      }
    } else {
      forall l
        ensures ProgressTells(s, v, l, reports)
      {
        assert ProgressTells(t, v, l, reports);
      }
    }
  }

  lemma {:induction false} NoOwnRows(rows: seq<AttemptRow>, u: Id)
    requires forall r :: r in rows ==> r.user != u
    ensures OwnRows(rows, u) == []
  {
    if rows != [] {
      NoOwnRows(rows[..|rows| - 1], u);
    }
  }

  lemma StepTells(t: Tables, a: Action, u: Id, reports: seq<Item>)
    requires Tells(t, u, reports)
    ensures Tells(Apply(t, a), u, if a == Cancel(u) then [] else reports + Told(t, a, u))
  {
    hide Tells, Recorded, AllRecorded, GoodPayload, CancelUser, Eligible, StreakDays;
    assert reports + [] == reports;
    match a
    case Complete(v, l, day, score, completed) =>
      if CompleteLevel(t, v, l, day, score, completed).1 == Done {
        RecordedTells(t, v, Item(l, Some(day), score, completed), None, u, reports);
        SameRowsTell(Recorded(t, v, l, day, score, completed, None), Apply(t, a), u,
                     if v == u then reports + [Item(l, Some(day), score, completed)] else reports);
      }
    case Sync(req, signed, today) =>
      if ProcessSync(t, req, signed, today).1 == Done {
        SyncIsMerged(t, req, signed, today);
        AllRecordedTells(t, req.user, req.payload.items, req.event, u, reports);
        SameRowsTell(AllRecorded(t, req.user, req.payload.items, req.event), Apply(t, a), u,
                     if req.user == u then reports + req.payload.items else reports);
      } else {
        SameRowsTell(t, Apply(t, a), u, reports);
      }
    case Cancel(v) => CancelTells(t, v, u, reports);
    case SetLevel(_, _) => SameRowsTell(t, Apply(t, a), u, reports);
    case SetDevice(_, _) => SameRowsTell(t, Apply(t, a), u, reports);
  }

  // After any run a user's attempts are exactly the accepted reports since the last cancellation,
  // in order, and each progress row sums up those of its level.
  lemma {:induction false} TablesTellTheReports(t: Tables, actions: seq<Action>, u: Id)
    requires Initial(t)
    ensures Tells(Run(t, actions), u, Reports(t, actions, u))
  {
    hide Apply, Told;
    if actions != [] {
      var n := |actions| - 1;
      TablesTellTheReports(t, actions[..n], u);
      hide Tells;
      StepTells(Run(t, actions[..n]), actions[n], u, Reports(t, actions[..n], u));
    }
  }

  // ------------------------------------------------------------ streaks and badges

  ghost predicate ToldOf(t: Tables, actions: seq<Action>, u: Id, d: Day) {
    exists k: nat :: k < |actions| && Stands(t, actions, u, k) && TellsDay(Run(t, actions[..k]), actions[k], u, d)
  }

  lemma StandsOneMore(t: Tables, actions: seq<Action>, u: Id, k: nat)
    requires actions != []
    ensures var n := |actions| - 1;
            && (k < n ==> actions[..n][..k] == actions[..k] && actions[..n][k] == actions[k])
            && (Stands(t, actions, u, k) <==> actions[n] != Cancel(u) && (k == n || Stands(t, actions[..n], u, k)))
  {
  }

  lemma ToldOneMore(t: Tables, actions: seq<Action>, u: Id, d: Day)
    requires actions != []
    ensures var n := |actions| - 1;
            ToldOf(t, actions, u, d) <==>
              actions[n] != Cancel(u) && (ToldOf(t, actions[..n], u, d) || TellsDay(Run(t, actions[..n]), actions[n], u, d))
  {
    hide TellsDay, Run, Stands;
    var n := |actions| - 1;
    if k: nat :| k < |actions| && Stands(t, actions, u, k) && TellsDay(Run(t, actions[..k]), actions[k], u, d) {
      StandsOneMore(t, actions, u, k);
    }
    if actions[n] != Cancel(u) {
      StandsOneMore(t, actions, u, n);
      if k: nat :| k < n && Stands(t, actions[..n], u, k) && TellsDay(Run(t, actions[..n][..k]), actions[..n][k], u, d) {
        StandsOneMore(t, actions, u, k);
      }
    }
  }

  lemma StepDays(t: Tables, a: Action, u: Id, d: Day)
    ensures (u, d) in Apply(t, a).streak <==> a != Cancel(u) && ((u, d) in t.streak || TellsDay(t, a, u, d))
  {
    hide CompleteLevel, ProcessSync, CancelUser;
    match a
    case Complete(v, l, day, score, completed) =>
      CompleteOutcome(t, v, l, day, score, completed);
      if CompleteLevel(t, v, l, day, score, completed).1 == Done {
        CompleteMeans(t, v, l, day, score, completed);
      }
    case Sync(req, signed, today) => SyncMeans(t, req, signed, today);
    case Cancel(v) => CancelPurges(t, v);
    case SetLevel(_, _) =>
    case SetDevice(_, _) =>
  }

  // A day is in a user's streak exactly when, since the user's last cancellation, a completed
  // online attempt was accepted on it or a merged event reported it.
  lemma {:induction false} StreakIff(t: Tables, actions: seq<Action>, u: Id, d: Day)
    requires Initial(t)
    ensures (u, d) in Run(t, actions).streak <==> ToldOf(t, actions, u, d)
  {
    hide Apply, TellsDay, ToldOf;
    if actions == [] {
      assert !ToldOf(t, actions, u, d) by { NothingTold(t, u, d); }
    } else {
      var n := |actions| - 1;
      StreakIff(t, actions[..n], u, d);
      StepDays(Run(t, actions[..n]), actions[n], u, d);
      ToldOneMore(t, actions, u, d);
    }
  }

  lemma NothingTold(t: Tables, u: Id, d: Day)
    ensures !ToldOf(t, [], u, d) && !ArrivedSince(t, [], u)
  {
  }

  ghost predicate ArrivedSince(t: Tables, actions: seq<Action>, u: Id) {
    exists k: nat :: k < |actions| && Stands(t, actions, u, k) && Arrives(Run(t, actions[..k]), actions[k], u)
  }

  lemma ArrivedOneMore(t: Tables, actions: seq<Action>, u: Id)
    requires actions != []
    ensures var n := |actions| - 1;
            ArrivedSince(t, actions, u) <==>
              actions[n] != Cancel(u) && (ArrivedSince(t, actions[..n], u) || Arrives(Run(t, actions[..n]), actions[n], u))
  {
    hide Arrives, Run, Stands;
    var n := |actions| - 1;
    if k: nat :| k < |actions| && Stands(t, actions, u, k) && Arrives(Run(t, actions[..k]), actions[k], u) {
      StandsOneMore(t, actions, u, k);
    }
    if actions[n] != Cancel(u) {
      StandsOneMore(t, actions, u, n);
      if k: nat :| k < n && Stands(t, actions[..n], u, k) && Arrives(Run(t, actions[..n][..k]), actions[..n][k], u) {
        StandsOneMore(t, actions, u, k);
      }
    }
  }

  lemma {:induction false} FiledPays(rows: seq<HistoryRow>, more: seq<HistoryRow>, u: Id)
    requires forall r :: r in more ==> r.xp >= 0
    ensures Total(rows + more, OwnXp(u)) >= Total(rows, OwnXp(u))
    ensures (forall r :: r in more ==> r.user != Some(u)) ==> Total(rows + more, OwnXp(u)) == Total(rows, OwnXp(u))
  {
    if more == [] {
      assert rows + more == rows;
    } else {
      var n := |more| - 1;
      FiledPays(rows, more[..n], u);
      assert rows + more == rows + more[..n] + [more[n]];
      TotalAppend(rows + more[..n], more[n], OwnXp(u));
    }
  }

  // Nobody's total ever falls but by a cancellation, and it rises only by own arrivals.
  lemma FiledTotal(t: Tables, s: Tables, u: Id, items: seq<Item>, event: Option<Id>, v: Id)
    requires Filed(t, s, u, items, event)
    ensures TotalXp(s, v) >= TotalXp(t, v) && (v != u ==> TotalXp(s, v) == TotalXp(t, v))
  {
    var n := |t.history|;
    var more := s.history[n..];
    assert s.history == t.history + more;
    forall r | r in more
      ensures r.xp >= 0 && r.user == Some(u)
    {
      var k :| 0 <= k < |more| && more[k] == r;
      assert Files(t, s, |t.attempts| + k, n + k, u, items[k], event);
    }
    FiledPays(t.history, more, v);
  }

  lemma StepTotal(t: Tables, a: Action, u: Id)
    requires a != Cancel(u)
    ensures TotalXp(Apply(t, a), u) >= TotalXp(t, u)
    ensures !Arrives(t, a, u) ==> TotalXp(Apply(t, a), u) == TotalXp(t, u)
  {
    hide CompleteLevel, ProcessSync, CancelUser, Filed;
    match a
    case Complete(v, l, day, score, completed) =>
      CompleteOutcome(t, v, l, day, score, completed);
      if CompleteLevel(t, v, l, day, score, completed).1 == Done {
        CompleteMeans(t, v, l, day, score, completed);
        FiledTotal(t, Apply(t, a), v, [Item(l, Some(day), score, completed)], None, u);
      }
    case Sync(req, signed, today) =>
      SyncMeans(t, req, signed, today);
      if ProcessSync(t, req, signed, today).1 == Done {
        FiledTotal(t, Apply(t, a), req.user, req.payload.items, Some(req.event), u);
      }
    case Cancel(v) => CancelTotals(t, v, u);
      assert Apply(t, a).history == Nulled(t.history, v) by { CancelHistory(t, v); }
    case SetLevel(_, _) =>
    case SetDevice(_, _) =>
  }

  lemma CancelHistory(t: Tables, u: Id)
    ensures CancelUser(t, u).history == Nulled(t.history, u)
  {
  }

  lemma BadgesStay(t: Tables, a: Action)
    ensures Apply(t, a).badges == t.badges
  {
    if a.Complete? || a.Sync? {
      BadgesMean(t, a, 0, 0);
      hide Apply;
    } else if a.Cancel? {
      CancelOrdersWipes(t, a.user);
      hide CancelUser;
    }
  }

  lemma StepBadges(t: Tables, a: Action, u: Id, b: Id)
    requires (u, b) in t.earned ==> b in t.badges && t.badges[b] <= TotalXp(t, u)
    ensures (u, b) in Apply(t, a).earned <==>
              a != Cancel(u) && ((u, b) in t.earned || (Arrives(t, a, u) && b in t.badges && t.badges[b] <= TotalXp(Apply(t, a), u)))
  {
    if a.Complete? || a.Sync? {
      BadgesMean(t, a, u, b);
    } else if a.Cancel? {
      CancelPurges(t, a.user);
      hide CancelUser;
    }
  }

  // After any run a user holds exactly the badges whose threshold is at most the user's total,
  // once an arrival of the user was accepted since the last cancellation, and none before.
  lemma {:induction false} BadgesIff(t: Tables, actions: seq<Action>, u: Id, b: Id)
    requires Initial(t)
    ensures var s := Run(t, actions);
            && s.badges == t.badges
            && ((u, b) in s.earned <==> b in t.badges && t.badges[b] <= TotalXp(s, u) && ArrivedSince(t, actions, u))
  {
    hide Apply, Arrives, ArrivedSince, TotalXp;
    if actions == [] {
      NothingTold(t, u, 0);
    } else {
      var n := |actions| - 1;
      var prev, a := Run(t, actions[..n]), actions[n];
      BadgesIff(t, actions[..n], u, b);
      BadgesStay(prev, a);
      StepBadges(prev, a, u, b);
      ArrivedOneMore(t, actions, u);
      if a != Cancel(u) {
        StepTotal(prev, a, u);
      }
    }
  }
}
