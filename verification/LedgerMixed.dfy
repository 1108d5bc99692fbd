// Attempts that may have failed: exactly when the order of a day's arrivals does not matter.
module LedgerMixed {
  import opened Wrappers
  import opened Ledger
  import opened LedgerFacts
  import opened LedgerOrder

  // A level of a user on a day.
  datatype Spot = Spot(user: Id, level: Id, day: Day)

  function Tried(t: Tables, p: Spot): int {
    CountTries(t, p.user, p.level, p.day)
  }

  function Paid(t: Tables, p: Spot): int {
    Total(t.attempts, DayXp(p.user, p.level, p.day))
  }

  function DifficultyAt(t: Tables, p: Spot): int {
    if p.level in t.levels then t.levels[p.level].difficulty else 0
  }

  lemma {:induction false} TriedIsNat(rows: seq<AttemptRow>, p: Spot)
    ensures Total(rows, IsTry(p.user, p.level, p.day)) >= 0
  {
    if rows != [] {
      TriedIsNat(rows[..|rows| - 1], p);
    }
  }

  // ------------------------------------------------------------- what flags earn

  // The XP of attempts after c earlier ones of the day, given which were completed.
  function FlagsXp(d: int, c: int, flags: seq<bool>): int {
    if flags == [] then 0 else FlagsXp(d, c, flags[..|flags| - 1]) + Xp(d, c + |flags|, flags[|flags| - 1])
  }

  lemma {:induction false} FlagsXpConcat(d: int, c: int, f: seq<bool>, g: seq<bool>)
    ensures FlagsXp(d, c, f + g) == FlagsXp(d, c, f) + FlagsXp(d, c + |f|, g)
  {
    hide Xp;
    if g == [] {
      assert f + g == f;
    } else {
      FlagsXpConcat(d, c, f, g[..|g| - 1]);
      assert (f + g)[..|f + g| - 1] == f + g[..|g| - 1];
    }
  }

  // From the fourth attempt on nothing is paid.
  lemma {:induction false} LatePaysNothing(d: int, c: int, flags: seq<bool>)
    requires c >= 3
    ensures FlagsXp(d, c, flags) == 0
  {
    if flags != [] {
      LatePaysNothing(d, c, flags[..|flags| - 1]);
    }
  }

  lemma {:induction false} FlagsXpUpdate(d: int, c: int, flags: seq<bool>, k: nat, b: bool)
    requires k < |flags|
    ensures FlagsXp(d, c, flags[k := b]) == FlagsXp(d, c, flags) - Xp(d, c + k + 1, flags[k]) + Xp(d, c + k + 1, b)
  {
    var n := |flags| - 1;
    hide Xp;
    if k == n {
      assert flags[k := b][..n] == flags[..n];
    } else {
      FlagsXpUpdate(d, c, flags[..n], k, b);
      assert flags[k := b][..n] == flags[..n][k := b];
    }
  }

  predicate Uniform(flags: seq<bool>) {
    forall i, j :: 0 <= i < |flags| && 0 <= j < |flags| ==> flags[i] == flags[j]
  }

  // How often a completed attempt would be paid the same, at every place from c + 1 on.
  predicate FlatRate(d: int, c: int, n: nat) {
    Xp(d, c + 1, true) == Xp(d, c + n, true)
  }

  function Completions(flags: seq<bool>): nat {
    if flags == [] then 0 else Completions(flags[..|flags| - 1]) + if flags[|flags| - 1] then 1 else 0
  }

  lemma PayFalls(d: int, i: int, k: int, n: int)
    requires 1 <= i <= k <= n
    ensures Xp(d, i, true) >= Xp(d, k, true) >= Xp(d, n, true)
  {
  }

  // At a flat rate only the number of completed attempts counts.
  lemma {:induction false} FlatRatePays(d: int, c: int, n: nat, flags: seq<bool>)
    requires c >= 0 && FlatRate(d, c, n) && |flags| <= n
    ensures FlagsXp(d, c, flags) == Xp(d, c + 1, true) * Completions(flags)
  {
    if flags != [] {
      FlatRatePays(d, c, n, flags[..|flags| - 1]);
      PayFalls(d, c + 1, c + |flags|, c + n);
      assert !flags[|flags| - 1] ==> Xp(d, c + |flags|, flags[|flags| - 1]) == 0;
      var w, m := Xp(d, c + 1, true), Completions(flags[..|flags| - 1]);
      assert w * (m + 1) == w * m + w;
      hide Xp;
    }
  }

  // ------------------------------------------------------------ what arrivals report

  // Which of the attempts that an item list reports at the spot were completed, in order.
  function ItemFlags(items: seq<Item>, p: Spot): seq<bool> {
    if items == [] then []
    else
      var rest, i := ItemFlags(items[..|items| - 1], p), items[|items| - 1];
      if i.level == p.level && i.day == Some(p.day) then rest + [i.completed] else rest
  }

  function FlagsOf(a: Action, p: Spot): seq<bool> {
    match a
    case Complete(u, l, day, _, completed) => if u == p.user && l == p.level && day == p.day then [completed] else []
    case Sync(req, _, _) => if req.user == p.user then ItemFlags(req.payload.items, p) else []
    case _ => []
  }

  function AllFlags(xs: seq<Action>, p: Spot): seq<bool> {
    if xs == [] then [] else AllFlags(xs[..|xs| - 1], p) + FlagsOf(xs[|xs| - 1], p)
  }

  lemma {:induction false} AllFlagsConcat(xs: seq<Action>, ys: seq<Action>, p: Spot)
    ensures AllFlags(xs + ys, p) == AllFlags(xs, p) + AllFlags(ys, p)
  {
    hide FlagsOf;
    if ys == [] {
      assert xs + ys == xs;
    } else {
      AllFlagsConcat(xs, ys[..|ys| - 1], p);
      assert (xs + ys)[..|xs + ys| - 1] == xs + ys[..|ys| - 1];
    }
  }

  lemma AllFlagsOfOne(x: Action, p: Spot)
    ensures AllFlags([x], p) == FlagsOf(x, p)
  {
    hide FlagsOf;
    assert [x][..0] == [];
    assert AllFlags([], p) == [];
  }

  // An arrival that the server records: an online completion or a sync event, with any
  // number of attempts at any levels and days, completed or not.
  predicate Accepted(t: Tables, a: Action) {
    match a
    case Complete(u, l, _, score, _) => u != NIL && l != NIL && score >= 0 && Playable(t, l)
    case Sync(req, signed, today) =>
      && req.event != NIL && req.user != NIL && req.device != NIL && signed
      && ActiveDevice(t, req.device, req.user) && req.event !in t.events && GoodPayload(t, today, req.payload)
    case _ => false
  }

  // No event among the arrivals twice.
  ghost predicate AcceptedEach(t: Tables, xs: seq<Action>) {
    && (forall a :: a in xs ==> Accepted(t, a))
    && (forall a :: a in xs && a.Sync? ==> multiset(xs)[a] == 1)
    && forall a, b :: a in xs && b in xs && a.Sync? && b.Sync? && a.req.event == b.req.event ==> a == b
  }

  // -------------------------------------------------------------- what arrivals earn

  // The tables s are t with these attempts recorded, as far as the spot is concerned.
  predicate Earns(t: Tables, s: Tables, p: Spot, flags: seq<bool>) {
    && Tried(s, p) == Tried(t, p) + |flags|
    && Paid(s, p) == Paid(t, p) + FlagsXp(DifficultyAt(t, p), Tried(t, p), flags)
    && s.levels == t.levels && s.devices == t.devices
  }

  lemma EarnsTwice(t: Tables, s: Tables, r: Tables, p: Spot, f: seq<bool>, g: seq<bool>)
    requires Earns(t, s, p, f) && Earns(s, r, p, g)
    ensures Earns(t, r, p, f + g)
  {
    FlagsXpConcat(DifficultyAt(t, p), Tried(t, p), f, g);
    hide FlagsXp, Tried, Paid;
  }

  lemma RecordedEarns(
      t: Tables, u: Id, l: Id, day: Day, score: int, completed: bool, event: Option<Id>, p: Spot)
    requires l in t.levels
    ensures Earns(t, Recorded(t, u, l, day, score, completed, event), p,
                  if u == p.user && l == p.level && day == p.day then [completed] else [])
  {
    var s := Recorded(t, u, l, day, score, completed, event);
    var row := s.attempts[|t.attempts|];
    TotalAppend(t.attempts, row, IsTry(p.user, p.level, p.day));
    TotalAppend(t.attempts, row, DayXp(p.user, p.level, p.day));
    assert FlagsXp(DifficultyAt(t, p), Tried(t, p), []) == 0;
    assert [completed][..0] == [];
    hide Total, Xp;
  }

  // What one event's attempts earn at a spot.
  lemma {:induction false} ItemsEarn(t: Tables, u: Id, items: seq<Item>, event: Id, p: Spot)
    requires forall k :: 0 <= k < |items| ==> items[k].day.Some? && items[k].level in t.levels
    ensures Earns(t, AllRecorded(t, u, items, event), p, if u == p.user then ItemFlags(items, p) else [])
  {
    hide Recorded, Earns;
    if items == [] {
      NothingEarned(t, p);
    } else {
      var n := |items| - 1;
      var i, front := items[n], AllRecorded(t, u, items[..n], event);
      ItemsEarn(t, u, items[..n], event, p);
      RecordedEarns(front, u, i.level, i.day.value, i.score, i.completed, Some(event), p);
      var f := if u == p.user then ItemFlags(items[..n], p) else [];
      var g := if u == p.user && i.level == p.level && i.day.value == p.day then [i.completed] else [];
      EarnsTwice(t, front, AllRecorded(t, u, items, event), p, f, g);
      assert f + g == if u == p.user then ItemFlags(items, p) else [];
    }
  }

  lemma NothingEarned(t: Tables, p: Spot)
    ensures Earns(t, t, p, [])
  {
  }

  lemma SameRowsEarn(t: Tables, s: Tables, r: Tables, p: Spot, flags: seq<bool>)
    requires Earns(t, s, p, flags) && r.attempts == s.attempts && r.levels == s.levels && r.devices == s.devices
    ensures Earns(t, r, p, flags)
  {
    hide FlagsXp, Total;
  }

  lemma ArrivalEarns(t: Tables, a: Action, p: Spot)
    requires Accepted(t, a)
    ensures Earns(t, Apply(t, a), p, FlagsOf(a, p))
    ensures forall e :: e in Apply(t, a).events <==> e in t.events || (a.Sync? && e == a.req.event)
  {
    match a
    case Complete(u, l, day, score, completed) =>
      RecordedEarns(t, u, l, day, score, completed, None, p);
      hide Recorded, Earns, Eligible;
      SameRowsEarn(t, Recorded(t, u, l, day, score, completed, None), Apply(t, a), p, FlagsOf(a, p));
    case Sync(req, _, today) =>
      GoodItems(t, today, req.payload);
      ItemsEarn(t, req.user, req.payload.items, req.event, p);
      hide AllRecorded, Earns, Eligible, StreakDays, GoodPayload;
      SameRowsEarn(t, AllRecorded(t, req.user, req.payload.items, req.event), Apply(t, a), p, FlagsOf(a, p));
  }

  lemma GoodItems(t: Tables, today: Day, payload: Payload)
    requires GoodPayload(t, today, payload)
    ensures forall k :: 0 <= k < |payload.items| ==> payload.items[k].day.Some? && payload.items[k].level in t.levels
  {
    assert forall k :: 0 <= k < |payload.items| ==> GoodItem(t, today, payload.items[k]);
  }

  // What a list of arrivals earns at a spot.
  lemma {:induction false} ArrivalsEarn(t: Tables, xs: seq<Action>, p: Spot)
    requires AcceptedEach(t, xs)
    ensures Earns(t, Run(t, xs), p, AllFlags(xs, p))
    ensures forall e :: e in Run(t, xs).events ==> e in t.events || exists a :: a in xs && a.Sync? && e == a.req.event
  {
    if xs == [] {
      NothingEarned(t, p);
    } else {
      var n := |xs| - 1;
      var front, last := xs[..n], xs[n];
      assert xs == front + [last];
      FrontAccepted(t, front, last);
      ArrivalsEarn(t, front, p);
      hide AcceptedEach, Apply, FlagsOf;
      var s := Run(t, front);
      StillAccepted(t, s, p, AllFlags(front, p), front, last);
      ArrivalEarns(s, last, p);
      hide Earns;
      EarnsTwice(t, s, Run(t, xs), p, AllFlags(front, p), FlagsOf(last, p));
    }
  }

  lemma FrontAccepted(t: Tables, front: seq<Action>, last: Action)
    requires AcceptedEach(t, front + [last])
    ensures AcceptedEach(t, front) && Accepted(t, last)
    ensures last.Sync? ==> forall a :: a in front && a.Sync? ==> a.req.event != last.req.event
  {
    hide Accepted;
    var xs := front + [last];
    assert last in xs;
    assert multiset(xs) == multiset(front) + multiset{last};
    assert forall a :: a in front ==> a in xs && multiset(front)[a] > 0;
  }

  // An arrival stays acceptable while other events arrive.
  lemma StillAccepted(t: Tables, s: Tables, p: Spot, flags: seq<bool>, front: seq<Action>, last: Action)
    requires Accepted(t, last) && Earns(t, s, p, flags)
    requires last.Sync? ==> forall a :: a in front && a.Sync? ==> a.req.event != last.req.event
    requires forall e :: e in s.events ==> e in t.events || exists a :: a in front && a.Sync? && e == a.req.event
    ensures Accepted(s, last)
  {
    hide FlagsXp, Tried, Paid;
    assert last.Sync? ==> last.req.event !in s.events;
  }

  lemma SameAccepted(t: Tables, xs: seq<Action>, ys: seq<Action>)
    requires AcceptedEach(t, xs) && multiset(xs) == multiset(ys)
    ensures AcceptedEach(t, ys)
  {
    hide Accepted;
    SameMembers(xs, ys);
  }

  // --------------------------------------------------- exactly when order does not matter

  // `before`, a, b and `after` are the arrivals in one of their orders.
  ghost predicate InSomeOrder(xs: seq<Action>, before: seq<Action>, a: Action, b: Action, after: seq<Action>) {
    multiset(before + [a, b] + after) == multiset(xs)
  }

  // Two blocks of attempts after k earlier ones of the day earn the same either way round.
  predicate SwapPays(d: int, k: int, f: seq<bool>, g: seq<bool>) {
    FlagsXp(d, k, f + g) == FlagsXp(d, k, g + f)
  }

  // Exchanging any two arrivals that can become neighbours while fewer than three attempts of
  // the day have been made changes nothing.
  ghost predicate ExchangesPay(d: int, c: int, xs: seq<Action>, p: Spot) {
    forall before, a, b, after ::
      InSomeOrder(xs, before, a, b, after) && c + |AllFlags(before, p)| < 3 ==>
        SwapPays(d, c + |AllFlags(before, p)|, FlagsOf(a, p), FlagsOf(b, p))
  }

  lemma NeighboursPay(d: int, c: int, p: Spot, before: seq<Action>, a: Action, b: Action, after: seq<Action>)
    ensures FlagsXp(d, c, AllFlags(before + [a, b] + after, p)) == FlagsXp(d, c, AllFlags(before + [b, a] + after, p)) <==>
            SwapPays(d, c + |AllFlags(before, p)|, FlagsOf(a, p), FlagsOf(b, p))
  {
    PayOfFour(d, c, p, before, a, b, after);
    PayOfFour(d, c, p, before, b, a, after);
    hide FlagsXp, AllFlags;
  }

  lemma PayOfFour(d: int, c: int, p: Spot, before: seq<Action>, a: Action, b: Action, after: seq<Action>)
    ensures var k, f, g := c + |AllFlags(before, p)|, FlagsOf(a, p), FlagsOf(b, p);
            FlagsXp(d, c, AllFlags(before + [a, b] + after, p)) ==
              FlagsXp(d, c, AllFlags(before, p)) + FlagsXp(d, k, f + g) + FlagsXp(d, k + |f| + |g|, AllFlags(after, p))
  {
    hide FlagsXp, AllFlags, FlagsOf;
    var f, g := FlagsOf(a, p), FlagsOf(b, p);
    assert [a] + [b] == [a, b];
    AllFlagsConcat(before + [a, b], after, p);
    AllFlagsConcat(before, [a, b], p);
    AllFlagsConcat([a], [b], p);
    AllFlagsOfOne(a, p);
    AllFlagsOfOne(b, p);
    FlagsXpConcat(d, c, AllFlags(before, p) + (f + g), AllFlags(after, p));
    FlagsXpConcat(d, c, AllFlags(before, p), f + g);
  }

  lemma ExchangePays(
      d: int, c: int, xs: seq<Action>, p: Spot, before: seq<Action>, a: Action, b: Action, after: seq<Action>)
    requires ExchangesPay(d, c, xs, p) && InSomeOrder(xs, before, a, b, after)
    ensures FlagsXp(d, c, AllFlags(before + [a, b] + after, p)) == FlagsXp(d, c, AllFlags(before + [b, a] + after, p))
  {
    var k, f, g := c + |AllFlags(before, p)|, FlagsOf(a, p), FlagsOf(b, p);
    hide FlagsXp, AllFlags, FlagsOf, InSomeOrder;
    NeighboursPay(d, c, p, before, a, b, after);
    if k >= 3 {
      LatePaysNothing(d, k, f + g);
      LatePaysNothing(d, k, g + f);
    }
  }

  ghost predicate OrderOf(ys: seq<Action>, xs: seq<Action>) {
    multiset(ys) == multiset(xs)
  }

  // An arrival may be moved to the end.
  lemma {:induction false} MovePays(
      d: int, c: int, xs: seq<Action>, p: Spot, before: seq<Action>, x: Action, after: seq<Action>)
    requires ExchangesPay(d, c, xs, p) && OrderOf(before + [x] + after, xs)
    ensures FlagsXp(d, c, AllFlags(before + [x] + after, p)) == FlagsXp(d, c, AllFlags(before + after + [x], p))
    decreases |after|
  {
    hide *;
    if after == [] {
      assert before + [x] + after == before + after + [x];
    } else {
      var b, rest := after[0], after[1..];
      Slide(before, x, after);
      MovePastOne(d, c, xs, p, before, x, b, rest);
      MovePays(d, c, xs, p, before + [b], x, rest);
    }
  }

  lemma MovePastOne(
      d: int, c: int, xs: seq<Action>, p: Spot, before: seq<Action>, x: Action, b: Action, rest: seq<Action>)
    requires ExchangesPay(d, c, xs, p) && OrderOf(before + [x, b] + rest, xs)
    ensures OrderOf(before + [b, x] + rest, xs)
    ensures FlagsXp(d, c, AllFlags(before + [x, b] + rest, p)) == FlagsXp(d, c, AllFlags(before + [b, x] + rest, p))
  {
    hide FlagsXp, AllFlags, ExchangesPay, FlagsOf;
    SwappedOrder(before, x, b, rest);
    ExchangePays(d, c, xs, p, before, x, b, rest);
  }

  lemma Slide<T>(before: seq<T>, x: T, after: seq<T>)
    requires after != []
    ensures before + [x] + after == before + [x, after[0]] + after[1..]
    ensures before + [after[0]] + [x] + after[1..] == before + [after[0], x] + after[1..]
    ensures before + after + [x] == before + [after[0]] + after[1..] + [x]
  {
  }

  lemma SwappedOrder(before: seq<Action>, a: Action, b: Action, after: seq<Action>)
    ensures multiset(before + [a, b] + after) == multiset(before + [b, a] + after)
  {
    assert multiset([a, b]) == multiset([b, a]);
  }

  // What holds of the exchanges of a list holds of those of its front.
  lemma FrontExchanges(d: int, c: int, front: seq<Action>, x: Action, p: Spot)
    requires ExchangesPay(d, c, front + [x], p)
    ensures ExchangesPay(d, c, front, p)
  {
    hide FlagsOf, AllFlags, SwapPays;
    forall before, a, b, after | InSomeOrder(front, before, a, b, after) && c + |AllFlags(before, p)| < 3
      ensures SwapPays(d, c + |AllFlags(before, p)|, FlagsOf(a, p), FlagsOf(b, p))
    {
      assert before + [a, b] + (after + [x]) == before + [a, b] + after + [x];
      assert InSomeOrder(front + [x], before, a, b, after + [x]);
    }
  }

  lemma {:induction false} AnyOrderPays(d: int, c: int, xs: seq<Action>, ys: seq<Action>, p: Spot)
    requires ExchangesPay(d, c, xs, p) && multiset(ys) == multiset(xs)
    ensures FlagsXp(d, c, AllFlags(ys, p)) == FlagsXp(d, c, AllFlags(xs, p))
    ensures |AllFlags(ys, p)| == |AllFlags(xs, p)|
    decreases |xs|
  {
    hide FlagsXp, AllFlags, ExchangesPay, FlagsOf;
    SameSize(xs, ys);
    if xs == [] {
      assert ys == xs;
    } else {
      var n := |xs| - 1;
      var front, x := xs[..n], xs[n];
      assert xs == front + [x];
      var k := PlaceOf(xs, ys, x);
      var before, after := ys[..k], ys[k + 1..];
      assert ys == before + [x] + after;
      WithoutOne(front, before, x, after);
      FrontExchanges(d, c, front, x, p);
      AnyOrderPays(d, c, front, before + after, p);
      assert OrderOf(before + [x] + after, xs);
      MovePays(d, c, xs, p, before, x, after);
      OneAtTheEnd(d, c, front, x, p);
      OneAtTheEnd(d, c, before + after, x, p);
      LengthAround(before, x, after, p);
    }
  }

  lemma OneAtTheEnd(d: int, c: int, front: seq<Action>, x: Action, p: Spot)
    ensures AllFlags(front + [x], p) == AllFlags(front, p) + FlagsOf(x, p)
    ensures FlagsXp(d, c, AllFlags(front + [x], p)) ==
            FlagsXp(d, c, AllFlags(front, p)) + FlagsXp(d, c + |AllFlags(front, p)|, FlagsOf(x, p))
  {
    hide *;
    AllFlagsConcat(front, [x], p);
    AllFlagsOfOne(x, p);
    FlagsXpConcat(d, c, AllFlags(front, p), FlagsOf(x, p));
  }

  lemma LengthAround(before: seq<Action>, x: Action, after: seq<Action>, p: Spot)
    ensures |AllFlags(before + [x] + after, p)| == |AllFlags(before + after, p)| + |FlagsOf(x, p)|
  {
    hide AllFlags, FlagsOf;
    AllFlagsConcat(before + [x], after, p);
    AllFlagsConcat(before, [x], p);
    AllFlagsConcat(before, after, p);
    AllFlagsOfOne(x, p);
  }

  lemma SameSize(xs: seq<Action>, ys: seq<Action>)
    requires multiset(xs) == multiset(ys)
    ensures |xs| == |ys|
  {
    assert |multiset(xs)| == |multiset(ys)|;
  }

  // Every order of the arrivals pays the player the same at the spot.
  ghost predicate OrderNeverMatters(t: Tables, xs: seq<Action>, p: Spot) {
    forall ys :: multiset(ys) == multiset(xs) ==> Paid(Run(t, ys), p) == Paid(Run(t, xs), p)
  }

  lemma SameOrderedPay(t: Tables, xs: seq<Action>, ys: seq<Action>, zs: seq<Action>, p: Spot)
    requires AcceptedEach(t, xs) && OrderNeverMatters(t, xs, p)
    requires multiset(ys) == multiset(xs) == multiset(zs)
    ensures FlagsXp(DifficultyAt(t, p), Tried(t, p), AllFlags(ys, p)) ==
            FlagsXp(DifficultyAt(t, p), Tried(t, p), AllFlags(zs, p))
  {
    hide FlagsXp, AllFlags, AcceptedEach, Run, Paid, Tried, DifficultyAt;
    PayByFlags(t, xs, ys, p);
    PayByFlags(t, xs, zs, p);
  }

  lemma ExchangesMakeOrderFree(t: Tables, xs: seq<Action>, p: Spot)
    requires AcceptedEach(t, xs) && ExchangesPay(DifficultyAt(t, p), Tried(t, p), xs, p)
    ensures OrderNeverMatters(t, xs, p)
  {
    hide FlagsXp, AllFlags, FlagsOf, ExchangesPay, AcceptedEach, Run, Paid, Tried, DifficultyAt;
    forall ys | multiset(ys) == multiset(xs)
      ensures Paid(Run(t, ys), p) == Paid(Run(t, xs), p)
    {
      AnyOrderPays(DifficultyAt(t, p), Tried(t, p), xs, ys, p);
      PayByFlags(t, xs, ys, p);
    }
  }

  lemma OrderFreeExchanges(t: Tables, xs: seq<Action>, p: Spot)
    requires AcceptedEach(t, xs) && OrderNeverMatters(t, xs, p)
    ensures ExchangesPay(DifficultyAt(t, p), Tried(t, p), xs, p)
  {
    var d, c := DifficultyAt(t, p), Tried(t, p);
    hide FlagsXp, AllFlags, FlagsOf, ExchangesPay, AcceptedEach, OrderNeverMatters, Tried, DifficultyAt, SwapPays;
    forall before, a, b, after | InSomeOrder(xs, before, a, b, after)
      ensures SwapPays(d, c + |AllFlags(before, p)|, FlagsOf(a, p), FlagsOf(b, p))
    {
      SwappedOrder(before, a, b, after);
      SameOrderedPay(t, xs, before + [a, b] + after, before + [b, a] + after, p);
      NeighboursPay(d, c, p, before, a, b, after);
    }
    hide InSomeOrder;
    AllSwapsPay(d, c, xs, p);
  }

  // The order in which accepted arrivals are applied never changes what a player earns at a
  // level on a day exactly when no exchange of two of them does that can happen among the
  // first three attempts.
  lemma OrderMattersIff(t: Tables, xs: seq<Action>, p: Spot)
    requires AcceptedEach(t, xs)
    ensures OrderNeverMatters(t, xs, p) <==> ExchangesPay(DifficultyAt(t, p), Tried(t, p), xs, p)
  {
    hide *;
    if ExchangesPay(DifficultyAt(t, p), Tried(t, p), xs, p) {
      ExchangesMakeOrderFree(t, xs, p);
    }
    if OrderNeverMatters(t, xs, p) {
      OrderFreeExchanges(t, xs, p);
    }
  }

  lemma AllSwapsPay(d: int, c: int, xs: seq<Action>, p: Spot)
    requires forall before, a, b, after :: InSomeOrder(xs, before, a, b, after) ==>
               SwapPays(d, c + |AllFlags(before, p)|, FlagsOf(a, p), FlagsOf(b, p))
    ensures ExchangesPay(d, c, xs, p)
  {
    hide InSomeOrder, SwapPays, AllFlags, FlagsOf;
  }

  lemma PayByFlags(t: Tables, xs: seq<Action>, ys: seq<Action>, p: Spot)
    requires AcceptedEach(t, xs) && multiset(ys) == multiset(xs)
    ensures Paid(Run(t, ys), p) == Paid(t, p) + FlagsXp(DifficultyAt(t, p), Tried(t, p), AllFlags(ys, p))
    ensures Paid(Run(t, xs), p) == Paid(t, p) + FlagsXp(DifficultyAt(t, p), Tried(t, p), AllFlags(xs, p))
  {
    hide AcceptedEach, Run, AllFlags, FlagsXp;
    SameAccepted(t, xs, ys);
    ArrivalsEarn(t, xs, p);
    ArrivalsEarn(t, ys, p);
  }

  // ------------------------------------------------------- arrivals of one attempt

  ghost predicate OneAttemptEach(xs: seq<Action>, p: Spot) {
    forall a :: a in xs ==> |FlagsOf(a, p)| == 1
  }

  lemma {:induction false} AllFlagsOfOnes(xs: seq<Action>, p: Spot)
    requires OneAttemptEach(xs, p)
    ensures |AllFlags(xs, p)| == |xs| && forall i :: 0 <= i < |xs| ==> [AllFlags(xs, p)[i]] == FlagsOf(xs[i], p)
  {
    hide FlagsOf;
    if xs != [] {
      var n := |xs| - 1;
      assert xs == xs[..n] + [xs[n]];
      AllFlagsOfOnes(xs[..n], p);
    }
  }

  lemma SameFlags(xs: seq<Action>, ys: seq<Action>, p: Spot)
    requires OneAttemptEach(xs, p) && multiset(xs) == multiset(ys) && Uniform(AllFlags(xs, p))
    ensures AllFlags(xs, p) == AllFlags(ys, p)
  {
    hide AllFlags, FlagsOf;
    SameSize(xs, ys);
    SameMembers(xs, ys);
    AllFlagsOfOnes(xs, p);
    AllFlagsOfOnes(ys, p);
    forall k | 0 <= k < |ys|
      ensures AllFlags(ys, p)[k] == AllFlags(xs, p)[k]
    {
      assert ys[k] in ys;
      var i :| 0 <= i < |xs| && xs[i] == ys[k];
      assert [AllFlags(xs, p)[i]] == [AllFlags(ys, p)[k]];
    }
  }

  lemma {:induction false} CompletionsSplit(a: seq<bool>, b: seq<bool>)
    ensures Completions(a + b) == Completions(a) + Completions(b)
  {
    if b == [] {
      assert a + b == a;
    } else {
      assert (a + b)[..|a + b| - 1] == a + b[..|b| - 1];
      CompletionsSplit(a, b[..|b| - 1]);
    }
  }

  lemma {:induction false} SameCompletions(xs: seq<Action>, ys: seq<Action>, p: Spot)
    requires multiset(xs) == multiset(ys)
    ensures Completions(AllFlags(xs, p)) == Completions(AllFlags(ys, p))
    ensures |AllFlags(xs, p)| == |AllFlags(ys, p)|
    decreases |xs|
  {
    hide Completions, AllFlags, FlagsOf;
    SameSize(xs, ys);
    if xs == [] {
      assert ys == xs;
    } else {
      var n := |xs| - 1;
      var front, x := xs[..n], xs[n];
      assert xs == front + [x] && front + [x] + [] == xs && front + [] == front;
      var k := PlaceOf(xs, ys, x);
      var before, after := ys[..k], ys[k + 1..];
      assert ys == before + [x] + after;
      WithoutOne(front, before, x, after);
      SameCompletions(front, before + after, p);
      CompletionsAround(front, x, [], p);
      CompletionsAround(before, x, after, p);
    }
  }

  lemma CompletionsAround(before: seq<Action>, x: Action, after: seq<Action>, p: Spot)
    ensures Completions(AllFlags(before + [x] + after, p)) ==
            Completions(AllFlags(before + after, p)) + Completions(FlagsOf(x, p))
    ensures |AllFlags(before + [x] + after, p)| == |AllFlags(before + after, p)| + |FlagsOf(x, p)|
  {
    hide AllFlags, FlagsOf, Completions;
    LengthAround(before, x, after, p);
    AllFlagsConcat(before + [x], after, p);
    AllFlagsConcat(before, [x], p);
    AllFlagsConcat(before, after, p);
    AllFlagsOfOne(x, p);
    CompletionsSplit(AllFlags(before, p) + FlagsOf(x, p), AllFlags(after, p));
    CompletionsSplit(AllFlags(before, p), FlagsOf(x, p));
    CompletionsSplit(AllFlags(before, p), AllFlags(after, p));
  }

  // Two orders that differ: a completed arrival first and a failed one last, and these two
  // exchanged.
  lemma TwoOrders(xs: seq<Action>, p: Spot) returns (better: seq<Action>, worse: seq<Action>)
    requires OneAttemptEach(xs, p) && !Uniform(AllFlags(xs, p))
    ensures multiset(better) == multiset(xs) == multiset(worse)
    ensures var f := AllFlags(better, p);
            && |f| == |xs| >= 2 && f[0] && !f[|f| - 1]
            && AllFlags(worse, p) == f[0 := false][|f| - 1 := true]
  {
    hide FlagsOf, AllFlags, OneAttemptEach;
    AllFlagsOfOnes(xs, p);
    var i, j := OneOfEach(AllFlags(xs, p));
    assert [AllFlags(xs, p)[i]] == FlagsOf(xs[i], p) && [AllFlags(xs, p)[j]] == FlagsOf(xs[j], p);
    better, worse := TwoOrdersOf(xs, i, j, p);
  }

  lemma OneOfEach(flags: seq<bool>) returns (i: nat, j: nat)
    requires !Uniform(flags)
    ensures i < |flags| && j < |flags| && flags[i] && !flags[j]
  {
    i, j :| i < |flags| && j < |flags| && flags[i] && !flags[j];
  }

  lemma TwoOrdersOf(xs: seq<Action>, i: nat, j: nat, p: Spot) returns (better: seq<Action>, worse: seq<Action>)
    requires OneAttemptEach(xs, p)
    requires i < |xs| && j < |xs| && FlagsOf(xs[i], p) == [true] && FlagsOf(xs[j], p) == [false]
    ensures multiset(better) == multiset(xs) == multiset(worse)
    ensures var f := AllFlags(better, p);
            && |f| == |xs| >= 2 && f[0] && !f[|f| - 1]
            && AllFlags(worse, p) == f[0 := false][|f| - 1 := true]
  {
    hide FlagsOf, AllFlags;
    var x, y := xs[i], xs[j];
    var rest;
    if i < j {
      rest := TakeTwo(xs, i, j);
    } else {
      rest := TakeTwo(xs, j, i);
    }
    better, worse := [x] + rest + [y], [y] + rest + [x];
    SameEnds(x, rest, y);
    EndsExchanged(x, rest, y, p);
    SameMembers(xs, better);
    AllFlagsOfOnes(better, p);
  }

  lemma SameEnds(x: Action, rest: seq<Action>, y: Action)
    ensures multiset([x] + rest + [y]) == multiset(rest) + multiset{x, y}
    ensures multiset([y] + rest + [x]) == multiset(rest) + multiset{x, y}
  {
  }

  lemma EndsExchanged(x: Action, rest: seq<Action>, y: Action, p: Spot)
    requires FlagsOf(x, p) == [true] && FlagsOf(y, p) == [false]
    ensures AllFlags([x] + rest + [y], p) == [true] + AllFlags(rest, p) + [false]
    ensures AllFlags([y] + rest + [x], p) ==
            AllFlags([x] + rest + [y], p)[0 := false][|AllFlags(rest, p)| + 1 := true]
  {
    hide *;
    EndFlags(x, rest, y, p);
    EndFlags(y, rest, x, p);
    assert [false] + AllFlags(rest, p) + [true] ==
           ([true] + AllFlags(rest, p) + [false])[0 := false][|AllFlags(rest, p)| + 1 := true];
  }

  lemma EndFlags(x: Action, rest: seq<Action>, y: Action, p: Spot)
    ensures AllFlags([x] + rest + [y], p) == FlagsOf(x, p) + AllFlags(rest, p) + FlagsOf(y, p)
  {
    hide *;
    AllFlagsConcat([x] + rest, [y], p);
    AllFlagsConcat([x], rest, p);
    AllFlagsOfOne(x, p);
    AllFlagsOfOne(y, p);
  }

  lemma TakeTwo(xs: seq<Action>, lo: nat, hi: nat) returns (rest: seq<Action>)
    requires lo < hi < |xs|
    ensures multiset(rest) + multiset{xs[lo], xs[hi]} == multiset(xs) && |rest| == |xs| - 2
  {
    var a, b, c := xs[..lo], xs[lo + 1..hi], xs[hi + 1..];
    rest := a + b + c;
    assert xs == a + [xs[lo]] + b + [xs[hi]] + c;
  }

  // For arrivals of one attempt each the condition is that all of the attempts were
  // completed, all of them failed, or every place left is paid the same.
  lemma OrderMattersIffMixed(t: Tables, xs: seq<Action>, p: Spot)
    requires AcceptedEach(t, xs) && OneAttemptEach(xs, p)
    ensures OrderNeverMatters(t, xs, p) <==>
            Uniform(AllFlags(xs, p)) || FlatRate(DifficultyAt(t, p), Tried(t, p), |xs|)
  {
    var d, c := DifficultyAt(t, p), Tried(t, p);
    TriedIsNat(t.attempts, p);
    hide FlagsXp, AllFlags, FlagsOf, AcceptedEach, OneAttemptEach, DifficultyAt, Uniform, FlatRate, Total;
    if Uniform(AllFlags(xs, p)) || FlatRate(d, c, |xs|) {
      FlatIsOrderFree(t, xs, p);
    } else {
      hide OrderNeverMatters;
      var better, worse := TwoOrders(xs, p);
      ExchangeCosts(d, c, AllFlags(better, p));
      if OrderNeverMatters(t, xs, p) {
        SameOrderedPay(t, xs, better, worse, p);
      }
    }
  }

  lemma FlatIsOrderFree(t: Tables, xs: seq<Action>, p: Spot)
    requires AcceptedEach(t, xs) && OneAttemptEach(xs, p) && Tried(t, p) >= 0
    requires Uniform(AllFlags(xs, p)) || FlatRate(DifficultyAt(t, p), Tried(t, p), |xs|)
    ensures OrderNeverMatters(t, xs, p)
  {
    hide FlagsXp, AllFlags, FlagsOf, AcceptedEach, OneAttemptEach, Run, Paid, Tried, DifficultyAt, Uniform, FlatRate;
    forall ys | multiset(ys) == multiset(xs)
      ensures Paid(Run(t, ys), p) == Paid(Run(t, xs), p)
    {
      PayByFlags(t, xs, ys, p);
      SamePay(DifficultyAt(t, p), Tried(t, p), xs, ys, p);
    }
  }

  lemma SamePay(d: int, c: int, xs: seq<Action>, ys: seq<Action>, p: Spot)
    requires OneAttemptEach(xs, p) && multiset(ys) == multiset(xs) && c >= 0
    requires Uniform(AllFlags(xs, p)) || FlatRate(d, c, |xs|)
    ensures FlagsXp(d, c, AllFlags(ys, p)) == FlagsXp(d, c, AllFlags(xs, p))
  {
    AllFlagsOfOnes(xs, p);
    SameCompletions(xs, ys, p);
    hide FlagsXp, AllFlags, FlagsOf, Completions, FlatRate;
    if Uniform(AllFlags(xs, p)) {
      SameFlags(xs, ys, p);
    } else {
      FlatRatePays(d, c, |xs|, AllFlags(xs, p));
      FlatRatePays(d, c, |xs|, AllFlags(ys, p));
    }
  }

  lemma ExchangeCosts(d: int, c: int, flags: seq<bool>)
    requires |flags| >= 2 && flags[0] && !flags[|flags| - 1] && !FlatRate(d, c, |flags|)
    ensures FlagsXp(d, c, flags[0 := false][|flags| - 1 := true]) != FlagsXp(d, c, flags)
  {
    hide FlagsXp;
    FlagsXpUpdate(d, c, flags, 0, false);
    FlagsXpUpdate(d, c, flags[0 := false], |flags| - 1, true);
  }

  // What the condition means in numbers: three earlier attempts leave nothing to gain, one
  // leaves the second and the third, which are paid alike.
  lemma FlatRateMeans(d: int, c: int, n: nat)
    requires d > 0 && c >= 0 && n > 0
    ensures FlatRate(d, c, n) <==> n == 1 || c >= 3 || (c == 1 && n == 2)
  {
  }
}
