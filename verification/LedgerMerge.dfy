// The merge does not depend on the order in which events and online completions arrive,
// as long as every attempt was completed; and exactly why that proviso is needed.
module LedgerMerge {
  import opened Wrappers
  import opened Ledger
  import opened LedgerFacts

  // A completed attempt on its own, and the recording of a list of them.
  datatype Try = Try(user: Id, level: Id, day: Day, score: int, event: Option<Id>)

  function Rec(t: Tables, x: Try): (r: Tables)
    ensures r.levels == t.levels && r.badges == t.badges && r.devices == t.devices && r.events == t.events
    ensures r.streak == t.streak && r.earned == t.earned
  {
    if x.level in t.levels then Recorded(t, x.user, x.level, x.day, x.score, true, x.event) else t
  }

  function RecAll(t: Tables, xs: seq<Try>): (r: Tables)
    ensures r.levels == t.levels && r.badges == t.badges && r.devices == t.devices && r.events == t.events
    ensures r.streak == t.streak && r.earned == t.earned
  {
    if xs == [] then t else Rec(RecAll(t, xs[..|xs| - 1]), xs[|xs| - 1])
  }

  // --------------------------------------------------------- tables that agree

  ghost predicate SameAt(t: Tables, s: Tables, u: Id, l: Id, day: Day) {
    && CountTries(t, u, l, day) == CountTries(s, u, l, day)
    && Total(t.attempts, DayXp(u, l, day)) == Total(s.attempts, DayXp(u, l, day))
    && TotalXp(t, u) == TotalXp(s, u)
  }

  // Same counts, same XP per user, level and day, same totals, same progress rows.
  ghost predicate SameCore(t: Tables, s: Tables) {
    && (forall u, l, day :: SameAt(t, s, u, l, day))
    && t.progress == s.progress && t.levels == s.levels && t.badges == s.badges
  }

  // Everything a player can see is the same; only the order of rows may differ.
  ghost predicate Same(t: Tables, s: Tables) {
    && SameCore(t, s)
    && t.streak == s.streak && t.earned == s.earned && t.events == s.events && t.devices == s.devices
  }

  lemma SameCoreTransitive(t: Tables, s: Tables, r: Tables)
    requires SameCore(t, s) && SameCore(s, r)
    ensures SameCore(t, r)
  {
    forall u, l, day
      ensures SameAt(t, r, u, l, day)
    {
      assert SameAt(t, s, u, l, day) && SameAt(s, r, u, l, day);
    }
  }

  // ----------------------------------------------------------------- one attempt

  function Gain(t: Tables, x: Try): int {
    if x.level !in t.levels then 0
    else Xp(t.levels[x.level].difficulty, CountTries(t, x.user, x.level, x.day) + 1, true)
  }

  function Hits(t: Tables, x: Try, u: Id, l: Id, day: Day): int {
    if x.level in t.levels && x.user == u && x.level == l && x.day == day then 1 else 0
  }

  // What one attempt adds to each of the sums.
  lemma RecSums(t: Tables, x: Try, u: Id, l: Id, day: Day)
    ensures CountTries(Rec(t, x), u, l, day) == CountTries(t, u, l, day) + Hits(t, x, u, l, day)
    ensures Total(Rec(t, x).attempts, DayXp(u, l, day)) ==
            Total(t.attempts, DayXp(u, l, day)) + if Hits(t, x, u, l, day) == 1 then Gain(t, x) else 0
    ensures TotalXp(Rec(t, x), u) == TotalXp(t, u) + if x.user == u then Gain(t, x) else 0
  {
    if x.level in t.levels {
      var s := Rec(t, x);
      TotalAppend(t.attempts, s.attempts[|t.attempts|], IsTry(u, l, day));
      TotalAppend(t.attempts, s.attempts[|t.attempts|], DayXp(u, l, day));
      TotalAppend(t.history, s.history[|t.history|], OwnXp(u));
    }
  }

  lemma SameGain(t: Tables, s: Tables, x: Try)
    requires SameCore(t, s)
    ensures Gain(t, x) == Gain(s, x)
  {
    assert SameAt(t, s, x.user, x.level, x.day);
  }

  lemma SameCoreRec(t: Tables, s: Tables, x: Try)
    requires SameCore(t, s)
    ensures SameCore(Rec(t, x), Rec(s, x))
  {
    SameGain(t, s, x);
    forall u, l, day
      ensures SameAt(Rec(t, x), Rec(s, x), u, l, day)
    {
      hide Rec, Gain;
      assert SameAt(t, s, u, l, day);
      RecSums(t, x, u, l, day);
      RecSums(s, x, u, l, day);
    }
  }

  // Two completed attempts together gain the same in either order.
  lemma GainsCommute(t: Tables, x: Try, y: Try)
    ensures Gain(t, x) + Gain(Rec(t, x), y) == Gain(t, y) + Gain(Rec(t, y), x)
    ensures (x.user, x.level) != (y.user, y.level) || x.day != y.day ==>
              Gain(Rec(t, y), x) == Gain(t, x) && Gain(Rec(t, x), y) == Gain(t, y)
  {
    hide Rec, Total;
    RecSums(t, x, y.user, y.level, y.day);
    RecSums(t, y, x.user, x.level, x.day);
  }

  lemma RecsCommuteAt(t: Tables, x: Try, y: Try, u: Id, l: Id, day: Day)
    ensures SameAt(Rec(Rec(t, x), y), Rec(Rec(t, y), x), u, l, day)
  {
    GainsCommute(t, x, y);
    hide Rec, Gain;
    RecSums(t, x, u, l, day);
    RecSums(t, y, u, l, day);
    RecSums(Rec(t, x), y, u, l, day);
    RecSums(Rec(t, y), x, u, l, day);
  }

  lemma RecsCommute(t: Tables, x: Try, y: Try)
    ensures SameCore(Rec(Rec(t, x), y), Rec(Rec(t, y), x))
  {
    hide Rec, SameAt;
    forall u, l, day
      ensures SameAt(Rec(Rec(t, x), y), Rec(Rec(t, y), x), u, l, day)
    {
      RecsCommuteAt(t, x, y, u, l, day);
    }
    ProgressCommutes(t, x, y);
  }

  function Bump(p: map<(Id, Id), ProgressRow>, x: Try, gain: int): map<(Id, Id), ProgressRow> {
    p[(x.user, x.level) := Upserted(p, x.user, x.level, x.score, gain, true)]
  }

  lemma ProgressCommutes(t: Tables, x: Try, y: Try)
    ensures Rec(Rec(t, x), y).progress == Rec(Rec(t, y), x).progress
  {
    hide Rec, Gain, Bump;
    GainsCommute(t, x, y);
    RecProgress(t, x);
    RecProgress(t, y);
    RecProgress(Rec(t, x), y);
    RecProgress(Rec(t, y), x);
    if x.level in t.levels && y.level in t.levels {
      BumpsCommute(t.progress, x, y, Gain(t, x), Gain(Rec(t, x), y), Gain(t, y), Gain(Rec(t, y), x));
    }
  }

  lemma RecProgress(t: Tables, x: Try)
    ensures Rec(t, x).progress == if x.level in t.levels then Bump(t.progress, x, Gain(t, x)) else t.progress
  {
    hide Total, Xp, Upserted;
  }

  lemma BumpsCommute(p: map<(Id, Id), ProgressRow>, x: Try, y: Try, a: int, b: int, c: int, d: int)
    requires a + b == c + d
    requires (x.user, x.level) != (y.user, y.level) ==> a == d && b == c
    ensures Bump(Bump(p, x, a), y, b) == Bump(Bump(p, y, c), x, d)
  {
  }

  // ---------------------------------------------------------- lists of attempts

  lemma {:induction false} SameCoreRecAll(t: Tables, s: Tables, xs: seq<Try>)
    requires SameCore(t, s)
    ensures SameCore(RecAll(t, xs), RecAll(s, xs))
  {
    if xs != [] {
      SameCoreRecAll(t, s, xs[..|xs| - 1]);
      SameCoreRec(RecAll(t, xs[..|xs| - 1]), RecAll(s, xs[..|xs| - 1]), xs[|xs| - 1]);
    }
  }

  lemma {:induction false} RecPastList(t: Tables, xs: seq<Try>, y: Try)
    ensures SameCore(Rec(RecAll(t, xs), y), RecAll(Rec(t, y), xs))
  {
    if xs != [] {
      hide SameCore, Rec;
      var front, x := xs[..|xs| - 1], xs[|xs| - 1];
      var mid := RecAll(t, front);
      RecPastList(t, front, y);
      RecsCommute(mid, x, y);
      SameCoreRec(Rec(mid, y), RecAll(Rec(t, y), front), x);
      SameCoreTransitive(Rec(Rec(mid, x), y), Rec(Rec(mid, y), x), RecAll(Rec(t, y), xs));
    }
  }

  lemma {:induction false} ListsCommute(t: Tables, xs: seq<Try>, ys: seq<Try>)
    ensures SameCore(RecAll(RecAll(t, xs), ys), RecAll(RecAll(t, ys), xs))
  {
    if ys != [] {
      hide SameCore, Rec;
      var front, y := ys[..|ys| - 1], ys[|ys| - 1];
      var base := RecAll(t, front);
      ListsCommute(t, xs, front);
      SameCoreRec(RecAll(RecAll(t, xs), front), RecAll(base, xs), y);
      RecPastList(base, xs, y);
      SameCoreTransitive(
        Rec(RecAll(RecAll(t, xs), front), y), Rec(RecAll(base, xs), y), RecAll(Rec(base, y), xs));
    }
  }

  // A user's total never falls, and recording for one user leaves the others' totals alone.
  lemma {:induction false} RecAllTotals(t: Tables, xs: seq<Try>, u: Id)
    ensures TotalXp(RecAll(t, xs), u) >= TotalXp(t, u)
    ensures (forall x :: x in xs ==> x.user != u) ==> TotalXp(RecAll(t, xs), u) == TotalXp(t, u)
  {
    if xs != [] {
      RecAllTotals(t, xs[..|xs| - 1], u);
      RecSums(RecAll(t, xs[..|xs| - 1]), xs[|xs| - 1], u, 0, 0);
    }
  }

  // ------------------------------------------------------- what an arrival does

  // The rows an arrival adds: attempts of one user, streak days, event rows.  A rejected
  // event has no attempts and earns no badges, an ignored one has nothing at all.
  datatype Effect = Effect(user: Id, tries: seq<Try>, days: set<(Id, Day)>, events: map<Id, EventRow>, awards: bool)

  function Perform(t: Tables, e: Effect): Tables {
    var r := RecAll(t, e.tries);
    r.(streak := r.streak + e.days,
       events := r.events + e.events,
       earned := r.earned + if e.awards then Eligible(r, e.user) else {})
  }

  function TriesOf(u: Id, items: seq<Item>, event: Id): (xs: seq<Try>)
    requires forall k :: 0 <= k < |items| ==> items[k].day.Some?
    ensures forall x :: x in xs ==> x.user == u
  {
    if items == [] then []
    else
      var i := items[|items| - 1];
      TriesOf(u, items[..|items| - 1], event) + [Try(u, i.level, i.day.value, i.score, Some(event))]
  }

  predicate AllCompleted(items: seq<Item>) {
    forall k :: 0 <= k < |items| ==> items[k].completed
  }

  // An arrival: an online completion or a sync event, all of its attempts completed.
  predicate IsArrival(a: Action) {
    || (a.Complete? && a.completed)
    || (a.Sync? && AllCompleted(a.req.payload.items))
  }

  function EffectOf(t: Tables, a: Action): (e: Effect)
    requires IsArrival(a)
    ensures forall x :: x in e.tries ==> x.user == e.user
    ensures e.tries != [] ==> e.awards
  {
    match a
    case Complete(u, l, day, score, _) =>
      if u == NIL || l == NIL || score < 0 || !Playable(t, l) then Effect(u, [], {}, map[], false)
      else Effect(u, [Try(u, l, day, score, None)], {(u, day)}, map[], true)
    case Sync(req, signed, today) =>
      var u := req.user;
      if req.event == NIL || u == NIL || req.device == NIL then Effect(u, [], {}, map[], false)
      else if !ActiveDevice(t, req.device, u) || req.event in t.events then Effect(u, [], {}, map[], false)
      else if !signed || !GoodPayload(t, today, req.payload) then
        Effect(u, [], {}, map[req.event := EventRow(u, req.payload, Rejected)], false)
      else
        assert forall k :: 0 <= k < |req.payload.items| ==> GoodItem(t, today, req.payload.items[k]);
        Effect(u, TriesOf(u, req.payload.items, req.event), StreakDays(u, req.payload.streak),
               map[req.event := EventRow(u, req.payload, Processed)], true)
  }

  lemma {:induction false} RecAllIsAllRecorded(t: Tables, u: Id, items: seq<Item>, event: Id)
    requires AllCompleted(items)
    requires forall k :: 0 <= k < |items| ==> items[k].day.Some? && items[k].level in t.levels
    ensures RecAll(t, TriesOf(u, items, event)) == AllRecorded(t, u, items, event)
  {
    if items != [] {
      var front, i := items[..|items| - 1], items[|items| - 1];
      RecAllIsAllRecorded(t, u, front, event);
      var x := Try(u, i.level, i.day.value, i.score, Some(event));
      assert (TriesOf(u, front, event) + [x])[..|TriesOf(u, front, event)|] == TriesOf(u, front, event);
    }
  }

  lemma AddEvent(events: map<Id, EventRow>, e: Id, row: EventRow)
    ensures events + map[e := row] == events[e := row]
  {
  }

  lemma NothingAdded(t: Tables, u: Id)
    ensures Perform(t, Effect(u, [], {}, map[], false)) == t
  {
    assert t.events + map[] == t.events && t.streak + {} == t.streak && t.earned + {} == t.earned;
  }

  lemma CompleteIsPerform(t: Tables, a: Action)
    requires IsArrival(a) && a.Complete?
    ensures Apply(t, a) == Perform(t, EffectOf(t, a))
  {
    hide Recorded, TotalXp;
    var Complete(u, l, day, score, _) := a;
    if EffectOf(t, a).tries == [] {
      NothingAdded(t, u);
    } else {
      hide Eligible;
      var x := Try(u, l, day, score, None);
      assert [x][..0] == [];
      var r := Rec(t, x);
      assert RecAll(t, [x]) == r && r.events + map[] == r.events;
      EligibleReadsHistory(r, u);
    }
  }

  lemma EligibleReadsHistory(t: Tables, u: Id)
    ensures forall streak, events :: Eligible(t.(streak := streak, events := events), u) == Eligible(t, u)
    ensures forall streak :: Eligible(t.(streak := streak), u) == Eligible(t, u)
  {
  }

  lemma SyncIsPerform(t: Tables, a: Action)
    requires IsArrival(a) && a.Sync?
    ensures Apply(t, a) == Perform(t, EffectOf(t, a))
  {
    hide Eligible, AllRecorded, StreakDays, TriesOf, Rec;
    var Sync(req, signed, today) := a;
    var u, outcome := req.user, ProcessSync(t, req, signed, today).1;
    AddEvent(t.events, req.event, EventRow(u, req.payload, Rejected));
    if outcome == Done {
      assert forall k :: 0 <= k < |req.payload.items| ==> GoodItem(t, today, req.payload.items[k]);
      RecAllIsAllRecorded(t, u, req.payload.items, req.event);
      AddEvent(t.events, req.event, EventRow(u, req.payload, Processed));
      EligibleReadsHistory(AllRecorded(t, u, req.payload.items, req.event), u);
    } else {
      NothingAdded(t, u);
      assert t.streak + {} == t.streak && t.earned + {} == t.earned;
    }
  }

  // ------------------------------------------------------- two arrivals commute

  lemma DressingKeepsCore(r: Tables, s: Tables)
    requires s.attempts == r.attempts && s.history == r.history && s.progress == r.progress
    requires s.levels == r.levels && s.badges == r.badges
    ensures SameCore(r, s) && SameCore(s, r)
  {
  }

  lemma SamePerform(t: Tables, s: Tables, e: Effect)
    requires Same(t, s)
    ensures Same(Perform(t, e), Perform(s, e))
  {
    var r, q := RecAll(t, e.tries), RecAll(s, e.tries);
    SameCoreRecAll(t, s, e.tries);
    assert SameAt(r, q, e.user, 0, 0);
    DressingKeepsCore(r, Perform(t, e));
    DressingKeepsCore(q, Perform(s, e));
    SameCoreTransitive(Perform(t, e), r, q);
    SameCoreTransitive(Perform(t, e), q, Perform(s, e));
  }

  lemma {:induction false} RecAllReadsRowsOnly(t: Tables, s: Tables, xs: seq<Try>)
    requires s == t.(streak := s.streak, events := s.events, earned := s.earned)
    ensures RecAll(s, xs) == RecAll(t, xs).(streak := s.streak, events := s.events, earned := s.earned)
  {
    if xs != [] {
      RecAllReadsRowsOnly(t, s, xs[..|xs| - 1]);
    }
  }

  // What two effects leave behind: the rows of both lists, and the badges that the two
  // users' final totals deserve.
  lemma PerformTwo(t: Tables, e: Effect, f: Effect)
    requires forall x :: x in f.tries ==> x.user == f.user
    requires f.tries != [] ==> f.awards
    ensures var r, s := RecAll(RecAll(t, e.tries), f.tries), Perform(Perform(t, e), f);
            && SameCore(r, s) && s.devices == t.devices
            && s.streak == t.streak + e.days + f.days
            && s.events == t.events + e.events + f.events
            && s.earned == t.earned + (if e.awards then Eligible(r, e.user) else {})
                                    + (if f.awards then Eligible(r, f.user) else {})
  {
    var mid := RecAll(t, e.tries);
    var r, s := RecAll(mid, f.tries), Perform(Perform(t, e), f);
    hide RecAll, Eligible;
    RecAllReadsRowsOnly(mid, Perform(t, e), f.tries);
    DressingKeepsCore(r, s);
    BadgesOfTwo(mid, f, e.user);
    hide SameCore;
    SameEligible(r, RecAll(Perform(t, e), f.tries), f.user);
  }

  // Badges awarded along the way are among those that the end deserves.
  lemma BadgesOfTwo(mid: Tables, f: Effect, u: Id)
    requires forall x :: x in f.tries ==> x.user == f.user
    requires f.tries != [] ==> f.awards
    ensures var r := RecAll(mid, f.tries);
            if u == f.user && f.awards then Eligible(mid, u) <= Eligible(r, u)
            else Eligible(mid, u) == Eligible(r, u)
  {
    RecAllTotals(mid, f.tries, u);
    if u == f.user && !f.awards {
      assert RecAll(mid, f.tries) == mid;
    }
  }

  lemma EffectsCommute(t: Tables, e: Effect, f: Effect)
    requires forall x :: x in e.tries ==> x.user == e.user
    requires forall x :: x in f.tries ==> x.user == f.user
    requires (e.tries != [] ==> e.awards) && (f.tries != [] ==> f.awards)
    requires e.events.Keys !! f.events.Keys
    ensures Same(Perform(Perform(t, e), f), Perform(Perform(t, f), e))
  {
    hide *;
    var r, q := RecAll(RecAll(t, e.tries), f.tries), RecAll(RecAll(t, f.tries), e.tries);
    var a, b := Perform(Perform(t, e), f), Perform(Perform(t, f), e);
    PerformTwo(t, e, f);
    PerformTwo(t, f, e);
    ListsCommute(t, e.tries, f.tries);
    SameCoreSymmetric(r, a);
    SameCoreTransitive(a, r, q);
    SameCoreTransitive(a, q, b);
    SameEligible(r, q, e.user);
    SameEligible(r, q, f.user);
    UnionsCommute(t.events, e.events, f.events);
    SameOf(a, b);
  }

  lemma UnionsCommute(m: map<Id, EventRow>, a: map<Id, EventRow>, b: map<Id, EventRow>)
    requires a.Keys !! b.Keys
    ensures m + a + b == m + b + a
  {
  }

  lemma SameOf(t: Tables, s: Tables)
    requires SameCore(t, s)
    requires t.streak == s.streak && t.earned == s.earned && t.events == s.events && t.devices == s.devices
    ensures Same(t, s)
  {
  }

  lemma SameCoreSymmetric(t: Tables, s: Tables)
    requires SameCore(t, s)
    ensures SameCore(s, t)
  {
    forall u, l, day
      ensures SameAt(s, t, u, l, day)
    {
      assert SameAt(t, s, u, l, day);
    }
  }

  lemma SameEligible(t: Tables, s: Tables, u: Id)
    requires SameCore(t, s)
    ensures Eligible(t, u) == Eligible(s, u)
  {
    assert SameAt(t, s, u, 0, 0);
  }
}
