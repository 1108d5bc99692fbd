// Any order of the same arrivals, all attempts completed, ends in the same progress.
module LedgerOrder {
  import opened Ledger
  import opened LedgerMerge

  // Two reports of one event id are the same report.
  predicate Agree(a: Action, b: Action) {
    a.Sync? && b.Sync? && a.req.event == b.req.event ==> a == b
  }

  lemma SameEffect(t: Tables, s: Tables, a: Action)
    requires IsArrival(a) && t.levels == s.levels && t.devices == s.devices
    requires a.Sync? ==> (a.req.event in t.events <==> a.req.event in s.events)
    ensures EffectOf(t, a) == EffectOf(s, a)
  {
    if a.Sync? {
      assert GoodPayload(t, a.today, a.req.payload) <==> GoodPayload(s, a.today, a.req.payload);
    }
  }

  lemma ApplyIsPerform(t: Tables, a: Action)
    requires IsArrival(a)
    ensures Apply(t, a) == Perform(t, EffectOf(t, a))
  {
    if a.Sync? {
      SyncIsPerform(t, a);
    } else {
      CompleteIsPerform(t, a);
    }
  }

  lemma SameApply(t: Tables, s: Tables, a: Action)
    requires Same(t, s) && IsArrival(a)
    ensures Same(Apply(t, a), Apply(s, a))
  {
    hide Apply, Perform, EffectOf;
    ApplyIsPerform(t, a);
    ApplyIsPerform(s, a);
    SameEffect(t, s, a);
    SamePerform(t, s, EffectOf(t, a));
  }

  predicate FilesOnly(e: Effect, a: Action) {
    forall k :: k in e.events ==> a.Sync? && k == a.req.event
  }

  lemma EffectFilesOwnEvent(t: Tables, a: Action)
    requires IsArrival(a)
    ensures FilesOnly(EffectOf(t, a), a)
  {
  }

  // Two arrivals may be applied in either order.
  lemma ArrivalsCommute(t: Tables, a: Action, b: Action)
    requires IsArrival(a) && IsArrival(b) && Agree(a, b)
    ensures Same(Apply(Apply(t, a), b), Apply(Apply(t, b), a))
  {
    if a == b {
      SameReflexive(Apply(Apply(t, a), b));
    } else {
      hide Apply, EffectOf, RecAll, Same, Eligible;
      var e, f := EffectOf(t, a), EffectOf(t, b);
      ApplyIsPerform(t, a);
      ApplyIsPerform(t, b);
      EffectFilesOwnEvent(t, a);
      EffectFilesOwnEvent(t, b);
      SameEffect(t, Perform(t, e), b);
      SameEffect(t, Perform(t, f), a);
      ApplyIsPerform(Apply(t, a), b);
      ApplyIsPerform(Apply(t, b), a);
      EffectsCommute(t, e, f);
    }
  }

  lemma SameReflexive(t: Tables)
    ensures Same(t, t)
  {
  }

  lemma SameTransitive(t: Tables, s: Tables, r: Tables)
    requires Same(t, s) && Same(s, r)
    ensures Same(t, r)
  {
    SameCoreTransitive(t, s, r);
  }

  ghost predicate Arrivals(xs: seq<Action>) {
    && (forall a :: a in xs ==> IsArrival(a))
    && (forall a, b :: a in xs && b in xs ==> Agree(a, b))
  }

  lemma RunLast(t: Tables, xs: seq<Action>, y: Action)
    ensures Run(t, xs + [y]) == Apply(Run(t, xs), y)
  {
    assert (xs + [y])[..|xs|] == xs;
  }

  lemma {:induction false} MoveToEnd(t: Tables, xs: seq<Action>, y: Action, zs: seq<Action>)
    requires Arrivals(xs + [y] + zs)
    ensures Same(Run(t, xs + [y] + zs), Run(t, xs + zs + [y]))
    decreases |zs|
  {
    hide Apply, Same, Run;
    if zs == [] {
      assert xs + [y] + zs == xs + zs + [y];
      SameReflexive(Run(t, xs + zs + [y]));
    } else {
      var front, z := zs[..|zs| - 1], zs[|zs| - 1];
      var all, mid := xs + [y] + zs, Run(t, xs + front);
      assert z in all && y in all && forall a :: a in xs + [y] + front ==> a in all;
      MoveToEnd(t, xs, y, front);
      RunLast(t, xs + [y] + front, z);
      RunLast(t, xs + front, y);
      RunLast(t, xs + front, z);
      RunLast(t, xs + zs, y);
      assert xs + [y] + front + [z] == all && xs + front + [z] == xs + zs;
      SameApply(Run(t, xs + [y] + front), Apply(mid, y), z);
      ArrivalsCommute(mid, y, z);
      SameTransitive(Run(t, all), Apply(Apply(mid, y), z), Apply(Apply(mid, z), y));
    }
  }

  // Whatever the order of the same events and completions, every player ends with the
  // same XP per level and day, total, attempt counts, best scores, streak days, badges
  // and event records.
  lemma {:induction false} OrderDoesNotMatter(t: Tables, xs: seq<Action>, ys: seq<Action>)
    requires multiset(xs) == multiset(ys) && Arrivals(xs)
    ensures Same(Run(t, xs), Run(t, ys))
    decreases |xs|
  {
    hide Apply, Same, Run;
    if xs == [] {
      assert |multiset(ys)| == 0;
      SameReflexive(Run(t, xs));
    } else {
      var front, x := xs[..|xs| - 1], xs[|xs| - 1];
      assert xs == front + [x];
      var k := PlaceOf(xs, ys, x);
      var before, after := ys[..k], ys[k + 1..];
      assert ys == before + [x] + after;
      SameMembers(xs, ys);
      MoveToEnd(t, before, x, after);
      WithoutOne(front, before, x, after);
      OrderDoesNotMatter(t, front, before + after);
      RunLast(t, front, x);
      RunLast(t, before + after, x);
      SameApply(Run(t, front), Run(t, before + after), x);
      SameSymmetric(Run(t, ys), Run(t, before + after + [x]));
      SameTransitive(Run(t, xs), Run(t, before + after + [x]), Run(t, ys));
    }
  }

  lemma WithoutOne(front: seq<Action>, before: seq<Action>, x: Action, after: seq<Action>)
    requires multiset(front + [x]) == multiset(before + [x] + after)
    ensures multiset(front) == multiset(before + after)
  {
    assert multiset(front) == multiset(front + [x]) - multiset{x};
    assert multiset(before + after) == multiset(before + [x] + after) - multiset{x};
  }

  lemma SameSymmetric(t: Tables, s: Tables)
    requires Same(t, s)
    ensures Same(s, t)
  {
    SameCoreSymmetric(t, s);
  }

  lemma PlaceOf(xs: seq<Action>, ys: seq<Action>, x: Action) returns (k: nat)
    requires multiset(xs) == multiset(ys) && x in xs
    ensures k < |ys| && ys[k] == x
  {
    assert x in multiset(ys);
    k :| k < |ys| && ys[k] == x;
  }

  lemma SameMembers(xs: seq<Action>, ys: seq<Action>)
    requires multiset(xs) == multiset(ys)
    ensures forall a :: a in ys ==> a in xs
  {
    forall a | a in ys
      ensures a in xs
    {
      assert a in multiset(xs);
    }
  }
}
