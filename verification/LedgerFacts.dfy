// What holds of the tables after any run of transactions: the three running totals agree,
// attempt numbers are gapless, a day's XP is capped, and sync effects happen once.
module LedgerFacts {
  import opened Wrappers
  import opened Ledger

  // --------------------------------------------------------------- what is summed

  function AttemptOf(u: Id, l: Id): AttemptRow -> int {
    (r: AttemptRow) => if r.user == u && r.level == l then 1 else 0
  }

  function AttemptXpOf(u: Id, l: Id): AttemptRow -> int {
    (r: AttemptRow) => if r.user == u && r.level == l then r.xp else 0
  }

  function UserXp(u: Id): AttemptRow -> int {
    (r: AttemptRow) => if r.user == u then r.xp else 0
  }

  function DayXp(u: Id, l: Id, day: Day): AttemptRow -> int {
    (r: AttemptRow) => if r.user == u && r.level == l && r.day == day then r.xp else 0
  }

  function HasNumber(u: Id, l: Id, day: Day, k: int): AttemptRow -> int {
    (r: AttemptRow) => if r.user == u && r.level == l && r.day == day && r.number == k then 1 else 0
  }

  function HistoryXpOf(u: Id, l: Id): HistoryRow -> int {
    (r: HistoryRow) => if r.user == Some(u) && r.level == l then r.xp else 0
  }

  function AnyXp(): HistoryRow -> int {
    (r: HistoryRow) => r.xp
  }

  function TaggedWith(e: Id): HistoryRow -> int {
    (r: HistoryRow) => if r.event == Some(e) then 1 else 0
  }

  // The sum of xp_total_for_level over a user's progress rows.
  ghost function ProgressXp(p: map<(Id, Id), ProgressRow>, u: Id): int
    decreases |p|
  {
    if p == map[] then 0
    else
      var k :| k in p;
      ProgressXp(p - {k}, u) + if k.0 == u then p[k].xp else 0
  }

  lemma {:induction false} ProgressXpWithout(p: map<(Id, Id), ProgressRow>, k: (Id, Id), u: Id)
    requires k in p
    ensures ProgressXp(p, u) == ProgressXp(p - {k}, u) + if k.0 == u then p[k].xp else 0
    decreases |p|
  {
    var j :| j in p && ProgressXp(p, u) == ProgressXp(p - {j}, u) + if j.0 == u then p[j].xp else 0;
    if j != k {
      ProgressXpWithout(p - {j}, k, u);
      ProgressXpWithout(p - {k}, j, u);
      assert p - {j} - {k} == p - {k} - {j};
    }
  }

  lemma ProgressXpUpdated(p: map<(Id, Id), ProgressRow>, k: (Id, Id), row: ProgressRow, u: Id)
    ensures ProgressXp(p[k := row], u) ==
            ProgressXp(p, u) + (if k.0 == u then row.xp - (if k in p then p[k].xp else 0) else 0)
  {
    var q := p[k := row];
    ProgressXpWithout(q, k, u);
    assert q - {k} == p - {k};
    if k in p {
      ProgressXpWithout(p, k, u);
    } else {
      assert p - {k} == p;
    }
  }

  function WithoutUser(p: map<(Id, Id), ProgressRow>, u: Id): map<(Id, Id), ProgressRow> {
    map k | k in p && k.0 != u :: p[k]
  }

  lemma {:induction false} ProgressXpWithoutUser(p: map<(Id, Id), ProgressRow>, u: Id, v: Id)
    ensures ProgressXp(WithoutUser(p, u), v) == if u == v then 0 else ProgressXp(p, v)
    decreases |p|
  {
    if p != map[] {
      var k :| k in p;
      ProgressXpWithout(p, k, v);
      ProgressXpWithoutUser(p - {k}, u, v);
      if k.0 == u {
        assert WithoutUser(p, u) == WithoutUser(p - {k}, u);
      } else {
        ProgressXpWithout(WithoutUser(p, u), k, v);
        assert WithoutUser(p, u) - {k} == WithoutUser(p - {k}, u);
      }
    }
  }

  // ------------------------------------------------------------------ the invariant

  // Every row carries the number of the user's earlier rows for that level and day, plus one.
  ghost predicate Numbered(rows: seq<AttemptRow>) {
    rows != [] ==>
      var front, r := rows[..|rows| - 1], rows[|rows| - 1];
      Numbered(front) && r.number == Total(front, IsTry(r.user, r.level, r.day)) + 1
  }

  ghost predicate LevelAgrees(t: Tables, u: Id, l: Id) {
    var tries := Total(t.attempts, AttemptOf(u, l));
    && ((u, l) in t.progress <==> tries > 0)
    && ((u, l) in t.progress ==>
         t.progress[(u, l)].attempts == tries && t.progress[(u, l)].xp == Total(t.attempts, AttemptXpOf(u, l)))
    && Total(t.history, HistoryXpOf(u, l)) == Total(t.attempts, AttemptXpOf(u, l))
    && tries >= 0 && (tries == 0 ==> Total(t.attempts, AttemptXpOf(u, l)) == 0)
  }

  ghost predicate UserAgrees(t: Tables, u: Id) {
    TotalXp(t, u) == Total(t.attempts, UserXp(u)) == ProgressXp(t.progress, u)
  }

  // History rows tagged with an event: one for each reported attempt once the event has
  // been processed, none before that and none if it was rejected.  No commit leaves an
  // event pending.
  ghost predicate TagsMatch(t: Tables, e: Id) {
    && (e in t.events ==> !t.events[e].status.Pending?)
    && Total(t.history, TaggedWith(e)) ==
    if e in t.events && t.events[e].status.Processed? then |t.events[e].payload.items| else 0
  }

  ghost predicate Agrees(t: Tables) {
    && (forall u, l :: LevelAgrees(t, u, l))
    && (forall u :: UserAgrees(t, u))
    && Numbered(t.attempts)
  }

  ghost predicate Sound(t: Tables) {
    Agrees(t) && forall e :: TagsMatch(t, e)
  }

  // ------------------------------------------------------ one attempt keeps it

  lemma RecordedAgrees(t: Tables, u: Id, l: Id, day: Day, score: int, completed: bool, event: Option<Id>)
    requires Agrees(t) && l in t.levels
    ensures Agrees(Recorded(t, u, l, day, score, completed, event))
  {
    var s := Recorded(t, u, l, day, score, completed, event);
    forall v, m
      ensures LevelAgrees(s, v, m)
    {
      assert LevelAgrees(t, v, m);
      RecordedLevelAgrees(t, u, l, day, score, completed, event, v, m);
    }
    forall v
      ensures UserAgrees(s, v)
    {
      assert UserAgrees(t, v);
      RecordedUserAgrees(t, u, l, day, score, completed, event, v);
    }
    assert s.attempts[..|t.attempts|] == t.attempts;
  }

  // The three rows that an attempt writes.
  lemma RecordedRows(t: Tables, u: Id, l: Id, day: Day, score: int, completed: bool, event: Option<Id>)
      returns (row: AttemptRow, line: HistoryRow, now: ProgressRow)
    requires l in t.levels
    ensures var s := Recorded(t, u, l, day, score, completed, event);
            && s.attempts == t.attempts + [row] && s.history == t.history + [line]
            && s.progress == t.progress[(u, l) := now]
    ensures row.user == u && row.level == l && line.user == Some(u) && line.level == l && line.xp == row.xp
    ensures now.xp == row.xp + (if (u, l) in t.progress then t.progress[(u, l)].xp else 0)
    ensures now.attempts == 1 + (if (u, l) in t.progress then t.progress[(u, l)].attempts else 0)
  {
    hide Total, Xp, CountTries;
    var s := Recorded(t, u, l, day, score, completed, event);
    row, line, now := s.attempts[|t.attempts|], s.history[|t.history|], s.progress[(u, l)];
  }

  lemma RecordedLevelAgrees(
      t: Tables, u: Id, l: Id, day: Day, score: int, completed: bool, event: Option<Id>, v: Id, m: Id)
    requires l in t.levels && LevelAgrees(t, v, m)
    ensures LevelAgrees(Recorded(t, u, l, day, score, completed, event), v, m)
  {
    hide Total, Recorded;
    var row, line, now := RecordedRows(t, u, l, day, score, completed, event);
    TotalAppend(t.attempts, row, AttemptOf(v, m));
    TotalAppend(t.attempts, row, AttemptXpOf(v, m));
    TotalAppend(t.history, line, HistoryXpOf(v, m));
    assert AttemptOf(v, m)(row) == (if u == v && l == m then 1 else 0);
    assert AttemptXpOf(v, m)(row) == HistoryXpOf(v, m)(line) == (if u == v && l == m then row.xp else 0);
    hide AttemptOf, AttemptXpOf, HistoryXpOf;
  }

  lemma RecordedUserAgrees(
      t: Tables, u: Id, l: Id, day: Day, score: int, completed: bool, event: Option<Id>, v: Id)
    requires l in t.levels && UserAgrees(t, v)
    ensures UserAgrees(Recorded(t, u, l, day, score, completed, event), v)
  {
    hide Total, Recorded, ProgressXp;
    var row, line, now := RecordedRows(t, u, l, day, score, completed, event);
    TotalAppend(t.attempts, row, UserXp(v));
    TotalAppend(t.history, line, OwnXp(v));
    ProgressXpUpdated(t.progress, (u, l), now, v);
    assert UserXp(v)(row) == OwnXp(v)(line) == (if u == v then row.xp else 0);
    hide UserXp, OwnXp;
  }

  lemma {:induction false} AllRecordedAgrees(t: Tables, u: Id, items: seq<Item>, event: Id)
    requires Agrees(t) && forall k :: 0 <= k < |items| ==> items[k].day.Some? && items[k].level in t.levels
    ensures Agrees(AllRecorded(t, u, items, event))
  {
    if items != [] {
      var i := items[|items| - 1];
      AllRecordedAgrees(t, u, items[..|items| - 1], event);
      RecordedAgrees(AllRecorded(t, u, items[..|items| - 1], event), u, i.level, i.day.value, i.score, i.completed, Some(event));
    }
  }

  lemma {:induction false} AllRecordedTags(t: Tables, u: Id, items: seq<Item>, event: Id, e: Id)
    requires forall k :: 0 <= k < |items| ==> items[k].day.Some? && items[k].level in t.levels
    ensures Total(AllRecorded(t, u, items, event).history, TaggedWith(e)) ==
            Total(t.history, TaggedWith(e)) + if e == event then |items| else 0
  {
    if items != [] {
      var i, prev := items[|items| - 1], AllRecorded(t, u, items[..|items| - 1], event);
      AllRecordedTags(t, u, items[..|items| - 1], event, e);
      var s := AllRecorded(t, u, items, event);
      TotalAppend(prev.history, s.history[|prev.history|], TaggedWith(e));
    }
  }

  // ---------------------------------------------------------- cancelling keeps it

  lemma {:induction false} TotalKept(rows: seq<AttemptRow>, u: Id, f: AttemptRow -> int, g: AttemptRow -> int)
    requires forall r :: g(r) == if r.user == u then 0 else f(r)
    ensures Total(Kept(rows, u), f) == Total(rows, g)
  {
    if rows != [] {
      var front, r := rows[..|rows| - 1], rows[|rows| - 1];
      TotalKept(front, u, f, g);
      TotalAppend(Kept(front, u), r, f);
    }
  }

  lemma {:induction false} TotalNulled(rows: seq<HistoryRow>, u: Id, f: HistoryRow -> int, g: HistoryRow -> int)
    requires forall r :: g(r) == f(if r.user == Some(u) then r.(user := None) else r)
    ensures Total(Nulled(rows, u), f) == Total(rows, g)
  {
    if rows != [] {
      var front, r := rows[..|rows| - 1], rows[|rows| - 1];
      TotalNulled(front, u, f, g);
      TotalAppend(Nulled(front, u), if r.user == Some(u) then r.(user := None) else r, f);
    }
  }

  lemma {:induction false} TotalZero<T>(rows: seq<T>)
    ensures Total(rows, _ => 0) == 0
  {
    if rows != [] {
      TotalZero(rows[..|rows| - 1]);
    }
  }

  lemma {:induction false} KeptNumbered(rows: seq<AttemptRow>, u: Id)
    requires Numbered(rows)
    ensures Numbered(Kept(rows, u))
  {
    if rows != [] {
      var front, r := rows[..|rows| - 1], rows[|rows| - 1];
      KeptNumbered(front, u);
      if r.user != u {
        TotalKept(front, u, IsTry(r.user, r.level, r.day), IsTry(r.user, r.level, r.day));
        assert (Kept(front, u) + [r])[..|Kept(front, u)|] == Kept(front, u);
      }
    }
  }

  // The cancelled user's totals all become 0, everyone else's stay, and the history as a
  // whole loses no XP and no event tag.
  lemma CancelAgrees(t: Tables, u: Id)
    requires Agrees(t)
    ensures Agrees(CancelUser(t, u))
    ensures TotalXp(CancelUser(t, u), u) == 0
    ensures forall v :: v != u ==> TotalXp(CancelUser(t, u), v) == TotalXp(t, v)
    ensures Total(CancelUser(t, u).history, AnyXp()) == Total(t.history, AnyXp())
    ensures forall e :: Total(CancelUser(t, u).history, TaggedWith(e)) == Total(t.history, TaggedWith(e))
  {
    var s := CancelUser(t, u);
    assert s.progress == WithoutUser(t.progress, u);
    forall v, m
      ensures LevelAgrees(s, v, m)
    {
      assert LevelAgrees(t, v, m);
      CancelLevel(t, u, v, m);
    }
    forall v
      ensures UserAgrees(s, v)
      ensures TotalXp(s, v) == if v == u then 0 else TotalXp(t, v)
    {
      assert UserAgrees(t, v);
      CancelTotals(t, u, v);
    }
    KeptNumbered(t.attempts, u);
    TotalNulled(t.history, u, AnyXp(), AnyXp());
    forall e
      ensures Total(s.history, TaggedWith(e)) == Total(t.history, TaggedWith(e))
    {
      TotalNulled(t.history, u, TaggedWith(e), TaggedWith(e));
    }
  }

  lemma CancelLevel(t: Tables, u: Id, v: Id, m: Id)
    ensures Total(Kept(t.attempts, u), AttemptOf(v, m)) == if u == v then 0 else Total(t.attempts, AttemptOf(v, m))
    ensures Total(Kept(t.attempts, u), AttemptXpOf(v, m)) == if u == v then 0 else Total(t.attempts, AttemptXpOf(v, m))
    ensures Total(Nulled(t.history, u), HistoryXpOf(v, m)) == if u == v then 0 else Total(t.history, HistoryXpOf(v, m))
  {
    if u == v {
      TotalZero(t.attempts);
      TotalZero(t.history);
      TotalKept(t.attempts, u, AttemptOf(v, m), _ => 0);
      TotalKept(t.attempts, u, AttemptXpOf(v, m), _ => 0);
      TotalNulled(t.history, u, HistoryXpOf(v, m), _ => 0);
    } else {
      TotalKept(t.attempts, u, AttemptOf(v, m), AttemptOf(v, m));
      TotalKept(t.attempts, u, AttemptXpOf(v, m), AttemptXpOf(v, m));
      TotalNulled(t.history, u, HistoryXpOf(v, m), HistoryXpOf(v, m));
    }
  }

  lemma CancelTotals(t: Tables, u: Id, v: Id)
    ensures Total(Kept(t.attempts, u), UserXp(v)) == if u == v then 0 else Total(t.attempts, UserXp(v))
    ensures Total(Nulled(t.history, u), OwnXp(v)) == if u == v then 0 else Total(t.history, OwnXp(v))
    ensures ProgressXp(WithoutUser(t.progress, u), v) == if u == v then 0 else ProgressXp(t.progress, v)
  {
    ProgressXpWithoutUser(t.progress, u, v);
    if u == v {
      TotalZero(t.attempts);
      TotalZero(t.history);
      TotalKept(t.attempts, u, UserXp(v), _ => 0);
      TotalNulled(t.history, u, OwnXp(v), _ => 0);
    } else {
      TotalKept(t.attempts, u, UserXp(v), UserXp(v));
      TotalNulled(t.history, u, OwnXp(v), OwnXp(v));
    }
  }

  // ------------------------------------------------------------- every run keeps it

  lemma SameRowsAgree(t: Tables, s: Tables)
    requires Agrees(t) && s.attempts == t.attempts && s.history == t.history && s.progress == t.progress
    ensures Agrees(s)
  {
    forall u, l
      ensures LevelAgrees(s, u, l)
    {
      assert LevelAgrees(t, u, l);
    }
    forall u
      ensures UserAgrees(s, u)
    {
      assert UserAgrees(t, u);
    }
  }

  lemma CompleteAgrees(t: Tables, u: Id, l: Id, day: Day, score: int, completed: bool)
    requires Agrees(t)
    ensures Agrees(CompleteLevel(t, u, l, day, score, completed).0)
  {
    var s := CompleteLevel(t, u, l, day, score, completed).0;
    if s != t {
      RecordedAgrees(t, u, l, day, score, completed, None);
      hide Agrees;
      SameRowsAgree(Recorded(t, u, l, day, score, completed, None), s);
    }
  }

  lemma SyncAgrees(t: Tables, req: Request, signed: bool, today: Day)
    requires Agrees(t)
    ensures Agrees(ProcessSync(t, req, signed, today).0)
  {
    hide Agrees;
    var (s, outcome) := ProcessSync(t, req, signed, today);
    if outcome == Done {
      AllRecordedAgrees(t, req.user, req.payload.items, req.event);
      SameRowsAgree(AllRecorded(t, req.user, req.payload.items, req.event), s);
    } else {
      SameRowsAgree(t, s);
    }
  }

  lemma StepKeepsAgreement(t: Tables, a: Action)
    requires Agrees(t)
    ensures Agrees(Apply(t, a))
  {
    hide Agrees, CompleteLevel, ProcessSync, CancelUser;
    match a
    case Complete(u, l, day, score, completed) => CompleteAgrees(t, u, l, day, score, completed);
    case Sync(req, signed, today) => SyncAgrees(t, req, signed, today);
    case Cancel(u) => CancelAgrees(t, u);
    case SetLevel(_, _) => SameRowsAgree(t, Apply(t, a));
    case SetDevice(_, _) => SameRowsAgree(t, Apply(t, a));
  }

  // A step neither changes the record of an event that is on file nor its tagged rows.
  ghost predicate TagsKept(t: Tables, s: Tables, e: Id) {
    && (TagsMatch(t, e) ==> TagsMatch(s, e))
    && (e in t.events ==> e in s.events && s.events[e] == t.events[e])
    && (e in t.events ==> Total(s.history, TaggedWith(e)) == Total(t.history, TaggedWith(e)))
  }

  lemma CompleteTags(t: Tables, u: Id, l: Id, day: Day, score: int, completed: bool, e: Id)
    ensures TagsKept(t, CompleteLevel(t, u, l, day, score, completed).0, e)
  {
    if Playable(t, l) {
      var r := Recorded(t, u, l, day, score, completed, None);
      TotalAppend(t.history, r.history[|t.history|], TaggedWith(e));
    }
  }

  lemma SyncTags(t: Tables, req: Request, signed: bool, today: Day, e: Id)
    ensures TagsKept(t, ProcessSync(t, req, signed, today).0, e)
  {
    if ProcessSync(t, req, signed, today).1 == Done {
      AllRecordedTags(t, req.user, req.payload.items, req.event, e);
    }
  }

  lemma StepKeepsTags(t: Tables, a: Action, e: Id)
    requires Agrees(t)
    ensures TagsKept(t, Apply(t, a), e)
  {
    hide CompleteLevel, ProcessSync, Agrees;
    match a
    case Complete(u, l, day, score, completed) => CompleteTags(t, u, l, day, score, completed, e);
    case Sync(req, signed, today) => SyncTags(t, req, signed, today, e);
    case Cancel(u) => CancelAgrees(t, u);
    case SetLevel(_, _) =>
    case SetDevice(_, _) =>
  }

  lemma InitialIsSound(t: Tables)
    requires Initial(t)
    ensures Sound(t)
  {
  }

  // After any run of online completions, sync events, cancellations and content edits the
  // three totals agree, numbers are gapless, and every event's effects happened once or never.
  lemma {:induction false} RunIsSound(t: Tables, actions: seq<Action>)
    requires Initial(t)
    ensures Sound(Run(t, actions))
  {
    if actions == [] {
      InitialIsSound(t);
    } else {
      var prev, a := Run(t, actions[..|actions| - 1]), actions[|actions| - 1];
      RunIsSound(t, actions[..|actions| - 1]);
      StepKeepsAgreement(prev, a);
      forall e
        ensures TagsMatch(Apply(prev, a), e)
      {
        StepKeepsTags(prev, a, e);
      }
    }
  }

  // Once an event is on record, no later step adds a row for it.
  lemma {:induction false} EffectsHappenOnce(t: Tables, actions: seq<Action>, more: seq<Action>, e: Id)
    requires Initial(t) && e in Run(t, actions).events
    ensures e in Run(t, actions + more).events
    ensures Run(t, actions + more).events[e] == Run(t, actions).events[e]
    ensures Total(Run(t, actions + more).history, TaggedWith(e)) == Total(Run(t, actions).history, TaggedWith(e))
    decreases |more|
  {
    if more == [] {
      assert actions + more == actions;
    } else {
      var shorter, a := more[..|more| - 1], more[|more| - 1];
      EffectsHappenOnce(t, actions, shorter, e);
      assert actions + more == (actions + shorter) + [a];
      assert (actions + more)[..|actions + more| - 1] == actions + shorter;
      RunIsSound(t, actions + shorter);
      StepKeepsTags(Run(t, actions + shorter), a, e);
    }
  }

  // -------------------------------------------------------------- attempt numbers

  // For each user, level and day the numbers in the table are exactly 1..n.
  lemma {:induction false} NumbersAreOneToN(rows: seq<AttemptRow>, u: Id, l: Id, day: Day, k: int)
    requires Numbered(rows)
    ensures Total(rows, HasNumber(u, l, day, k)) ==
            if 1 <= k <= Total(rows, IsTry(u, l, day)) then 1 else 0
    ensures Total(rows, IsTry(u, l, day)) >= 0
  {
    if rows != [] {
      NumbersAreOneToN(rows[..|rows| - 1], u, l, day, k);
    }
  }

  // --------------------------------------------------------------------- the cap

  // What n completed attempts of one day earn.
  function DayTotal(difficulty: nat, n: nat): nat {
    if n == 0 then 0 else DayTotal(difficulty, n - 1) + Xp(difficulty, n, true)
  }

  lemma {:induction false} DayTotalIsCapped(difficulty: nat, n: nat)
    ensures DayTotal(difficulty, n) <= 8 * difficulty
    ensures n >= 3 ==> DayTotal(difficulty, n) == 8 * difficulty
    ensures n == 2 ==> DayTotal(difficulty, n) == 6 * difficulty
    ensures n == 1 ==> DayTotal(difficulty, n) == 4 * difficulty
  {
    if n > 0 {
      DayTotalIsCapped(difficulty, n - 1);
      assert 4 * difficulty / 2 == 2 * difficulty;
    }
  }

  // No row of the level pays more than its number earns at difficulty d.
  ghost predicate PaidUpTo(rows: seq<AttemptRow>, l: Id, d: nat) {
    forall i :: 0 <= i < |rows| && rows[i].level == l ==> 0 <= rows[i].xp <= Xp(d, rows[i].number, true)
  }

  lemma {:induction false} DayXpIsCapped(rows: seq<AttemptRow>, u: Id, l: Id, day: Day, d: nat)
    requires Numbered(rows) && PaidUpTo(rows, l, d)
    ensures Total(rows, IsTry(u, l, day)) >= 0
    ensures Total(rows, DayXp(u, l, day)) <= DayTotal(d, Total(rows, IsTry(u, l, day)))
  {
    if rows != [] {
      DayXpIsCapped(rows[..|rows| - 1], u, l, day, d);
    }
  }

  lemma RecordedPays(t: Tables, u: Id, m: Id, day: Day, score: int, completed: bool, event: Option<Id>, l: Id, d: nat)
    requires m in t.levels && PaidUpTo(t.attempts, l, d)
    requires m == l ==> t.levels[m].difficulty <= d
    ensures PaidUpTo(Recorded(t, u, m, day, score, completed, event).attempts, l, d)
  {
  }

  lemma {:induction false} AllRecordedPays(t: Tables, u: Id, items: seq<Item>, event: Id, l: Id, d: nat)
    requires forall k :: 0 <= k < |items| ==> items[k].day.Some? && items[k].level in t.levels
    requires PaidUpTo(t.attempts, l, d) && (l in t.levels ==> t.levels[l].difficulty <= d)
    ensures PaidUpTo(AllRecorded(t, u, items, event).attempts, l, d)
  {
    if items != [] {
      var i := items[|items| - 1];
      AllRecordedPays(t, u, items[..|items| - 1], event, l, d);
      RecordedPays(AllRecorded(t, u, items[..|items| - 1], event), u, i.level, i.day.value, i.score, i.completed, Some(event), l, d);
    }
  }

  lemma {:induction false} KeptPays(rows: seq<AttemptRow>, u: Id, l: Id, d: nat)
    requires PaidUpTo(rows, l, d)
    ensures PaidUpTo(Kept(rows, u), l, d)
  {
    if rows != [] {
      KeptPays(rows[..|rows| - 1], u, l, d);
    }
  }

  // The level's difficulty stays at or below d all along.
  ghost predicate DifficultyStays(t: Tables, actions: seq<Action>, l: Id, d: nat) {
    && (l in t.levels ==> t.levels[l].difficulty <= d)
    && forall a :: a in actions && a.SetLevel? && a.level == l ==> a.row.difficulty <= d
  }

  lemma {:induction false} RunPays(t: Tables, actions: seq<Action>, l: Id, d: nat)
    requires Initial(t) && DifficultyStays(t, actions, l, d)
    ensures PaidUpTo(Run(t, actions).attempts, l, d)
    ensures l in Run(t, actions).levels ==> Run(t, actions).levels[l].difficulty <= d
  {
    if actions != [] {
      var front, a := actions[..|actions| - 1], actions[|actions| - 1];
      assert forall b :: b in front ==> b in actions;
      RunPays(t, front, l, d);
      var prev := Run(t, front);
      StepPays(prev, a, l, d);
    }
  }

  lemma StepPays(t: Tables, a: Action, l: Id, d: nat)
    requires PaidUpTo(t.attempts, l, d) && (l in t.levels ==> t.levels[l].difficulty <= d)
    requires a.SetLevel? && a.level == l ==> a.row.difficulty <= d
    ensures PaidUpTo(Apply(t, a).attempts, l, d)
    ensures l in Apply(t, a).levels ==> Apply(t, a).levels[l].difficulty <= d
  {
    match a
    case Complete(u, m, day, score, completed) =>
      if Playable(t, m) {
        RecordedPays(t, u, m, day, score, completed, None, l, d);
      }
    case Sync(req, signed, today) =>
      if ProcessSync(t, req, signed, today).1 == Done {
        AllRecordedPays(t, req.user, req.payload.items, req.event, l, d);
      }
    case Cancel(u) => KeptPays(t.attempts, u, l, d);
    case SetLevel(_, _) =>
    case SetDevice(_, _) =>
  }

  // A level of difficulty at most d never pays a user more than 8 * d on one day.
  lemma DailyXpCap(t: Tables, actions: seq<Action>, u: Id, l: Id, day: Day, d: nat)
    requires Initial(t) && DifficultyStays(t, actions, l, d)
    ensures Total(Run(t, actions).attempts, DayXp(u, l, day)) <= 8 * d
  {
    var rows := Run(t, actions).attempts;
    RunIsSound(t, actions);
    RunPays(t, actions, l, d);
    DayXpIsCapped(rows, u, l, day, d);
    DayTotalIsCapped(d, Total(rows, IsTry(u, l, day)));
  }
}
