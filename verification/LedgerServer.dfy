// The transactions as the server runs them: queries that change tables one after another,
// proved to make exactly the changes described in Ledger.
module LedgerServer {
  import opened Wrappers
  import opened Ledger

  // An attempt that passed validation, with the level's difficulty beside it.
  datatype Prepared = Prepared(level: Id, day: Day, difficulty: int, score: int, completed: bool)

  class Database {
    var attempts: seq<AttemptRow>
    var history: seq<HistoryRow>
    var progress: map<(Id, Id), ProgressRow>
    var streak: set<(Id, Day)>
    var earned: set<(Id, Id)>
    var events: map<Id, EventRow>
    var devices: map<Id, DeviceRow>
    var levels: map<Id, LevelRow>
    var badges: map<Id, int>

    ghost function Now(): Tables
      reads this
    {
      Tables(attempts, history, progress, streak, earned, events, devices, levels, badges)
    }

    // ------------------------------------------------------------------ queries

    method CountLevelAttemptsByDate(u: Id, l: Id, day: Day) returns (count: int)
      ensures count == CountTries(Now(), u, l, day)
    {
      count := 0;
      for i := 0 to |attempts|
        invariant count == Total(attempts[..i], IsTry(u, l, day))
      {
        if attempts[i].user == u && attempts[i].level == l && attempts[i].day == day {
          count := count + 1;
        }
        assert attempts[..i + 1] == attempts[..i] + [attempts[i]];
        TotalAppend(attempts[..i], attempts[i], IsTry(u, l, day));
      }
      assert attempts[..|attempts|] == attempts;
    }

    method GetTotalXp(u: Id) returns (total: int)
      ensures total == TotalXp(Now(), u)
    {
      total := 0;
      for i := 0 to |history|
        invariant total == Total(history[..i], OwnXp(u))
      {
        if history[i].user == Some(u) {
          total := total + history[i].xp;
        }
        assert history[..i + 1] == history[..i] + [history[i]];
        TotalAppend(history[..i], history[i], OwnXp(u));
      }
      assert history[..|history|] == history;
    }

    method UpsertPlayerProgressForAttempt(u: Id, l: Id, score: int, xp: int, completed: bool)
      modifies this`progress
      ensures progress == old(progress)[(u, l) := Upserted(old(progress), u, l, score, xp, completed)]
      ensures forall k :: k in old(progress) && k != (u, l) ==> k in progress && progress[k] == old(progress)[k]
      ensures forall k :: k in progress ==> k in old(progress) || k == (u, l)
      ensures var was, now := if (u, l) in old(progress) then Some(old(progress)[(u, l)]) else None, progress[(u, l)];
              && now.best >= score && (now.best == score || (was.Some? && now.best == was.value.best))
              && (was.Some? ==> now.best >= was.value.best)
              && now.xp == xp + (if was.Some? then was.value.xp else 0)
              && now.attempts == 1 + (if was.Some? then was.value.attempts else 0)
              && (now.everCompleted <==> completed || (was.Some? && was.value.everCompleted))
    {
      if (u, l) in progress {
        var r := progress[(u, l)];
        var best := if r.best >= score then r.best else score;
        progress := progress[(u, l) := ProgressRow(best, r.xp + xp, r.attempts + 1, r.everCompleted || completed)];
      } else {
        progress := progress[(u, l) := ProgressRow(score, xp, 1, completed)];
      }
    }

    method AwardEligibleBadges(u: Id, total: int)
      requires total == TotalXp(Now(), u)
      modifies this`earned
      ensures Now() == Awarded(old(Now()), u)
    {
      var rest := badges.Keys;
      while rest != {}
        invariant rest <= badges.Keys
        invariant earned == old(earned) + set b | b in badges && b !in rest && badges[b] <= total :: (u, b)
        decreases |rest|
      {
        var b :| b in rest;
        rest := rest - {b};
        if badges[b] <= total {
          earned := earned + {(u, b)};
        }
      }
    }

    // The three inserts both paths make for one attempt.
    method RecordAttempt(
        u: Id, l: Id, day: Day, difficulty: int, score: int, completed: bool, event: Option<Id>)
      requires l in levels && levels[l].difficulty == difficulty
      modifies this`attempts, this`progress, this`history
      ensures Now() == Recorded(old(Now()), u, l, day, score, completed, event)
    {
      var prior := CountLevelAttemptsByDate(u, l, day);
      var number := prior + 1;
      var xp := Xp(difficulty, number, completed);
      attempts := attempts + [AttemptRow(u, l, day, number, xp, completed)];
      UpsertPlayerProgressForAttempt(u, l, score, xp, completed);
      history := history + [HistoryRow(Some(u), l, xp, event)];
    }

    // ------------------------------------------------------------- transactions

    method CompleteLevel(u: Id, l: Id, day: Day, score: int, completed: bool) returns (outcome: Outcome)
      modifies this
      ensures (Now(), outcome) == Ledger.CompleteLevel(old(Now()), u, l, day, score, completed)
    {
      if u == NIL || l == NIL || score < 0 {
        return Invalid;
      }
      if l !in levels || !levels[l].published {
        return NotFound;
      }
      RecordAttempt(u, l, day, levels[l].difficulty, score, completed, None);
      if completed {
        streak := streak + {(u, day)};
      }
      var total := GetTotalXp(u);
      AwardEligibleBadges(u, total);
      return Done;
    }

    method ValidateAndPrepare(payload: Payload, today: Day)
      returns (ok: bool, prepared: seq<Prepared>, days: seq<Day>)
      ensures ok <==> GoodPayload(Now(), today, payload)
      ensures ok ==> |prepared| == |payload.items| && |days| == |payload.streak|
      ensures ok ==> forall k :: 0 <= k < |prepared| ==> Matches(prepared[k], payload.items[k])
      ensures ok ==> forall k :: 0 <= k < |days| ==> payload.streak[k] == Some(days[k])
    {
      prepared, days := [], [];
      for k := 0 to |payload.items|
        invariant |prepared| == k
        invariant forall j :: 0 <= j < k ==> GoodItem(Now(), today, payload.items[j]) && Matches(prepared[j], payload.items[j])
      {
        var i := payload.items[k];
        if i.day.None? || i.day.value > today || i.score < 0 || i.level !in levels || !levels[i.level].published {
          assert !GoodItem(Now(), today, payload.items[k]);
          return false, [], [];
        }
        prepared := prepared + [Prepared(i.level, i.day.value, levels[i.level].difficulty, i.score, i.completed)];
      }
      for k := 0 to |payload.streak|
        invariant |days| == k
        invariant forall j :: 0 <= j < k ==> payload.streak[j] == Some(days[j]) && days[j] <= today
      {
        if payload.streak[k].None? || payload.streak[k].value > today {
          return false, [], [];
        }
        days := days + [payload.streak[k].value];
      }
      return true, prepared, days;
    }

    predicate Matches(p: Prepared, i: Item)
      reads this
    {
      && i.level in levels
      && i.day.Some?
      && p == Prepared(i.level, i.day.value, levels[i.level].difficulty, i.score, i.completed)
    }

    method ProcessSync(req: Request, signed: bool, today: Day) returns (outcome: Outcome)
      modifies this
      ensures (Now(), outcome) == Ledger.ProcessSync(old(Now()), req, signed, today)
    {
      hide AllRecorded, Awarded, StreakDays, TotalXp;
      if req.event == NIL || req.user == NIL || req.device == NIL {
        return Invalid;
      }
      if req.device !in devices || devices[req.device].user != req.user || devices[req.device].revoked {
        return Invalid;
      }
      if req.event in events {
        return AlreadyProcessed;
      }
      var start := events;
      events := events[req.event := EventRow(req.user, req.payload, Pending)];
      if !signed {
        events := events[req.event := EventRow(req.user, req.payload, Rejected)];
        assert events == start[req.event := EventRow(req.user, req.payload, Rejected)];
        return BadSignature;
      }
      var ok, prepared, days := ValidateAndPrepare(req.payload, today);
      if !ok {
        events := events[req.event := EventRow(req.user, req.payload, Rejected)];
        assert events == start[req.event := EventRow(req.user, req.payload, Rejected)];
        return Invalid;
      }
      MergeAttempts(req, prepared);
      MergeStreak(req.user, days, req.payload.streak);
      events := events[req.event := EventRow(req.user, req.payload, Processed)];
      assert events == start[req.event := EventRow(req.user, req.payload, Processed)];
      var total := GetTotalXp(req.user);
      AwardEligibleBadges(req.user, total);
      AllRecordedIgnoresEvents(
        old(Now()), start[req.event := EventRow(req.user, req.payload, Pending)],
        req.user, req.payload.items, req.event);
      return Done;
    }

    method MergeAttempts(req: Request, prepared: seq<Prepared>)
      requires |prepared| == |req.payload.items|
      requires forall k :: 0 <= k < |prepared| ==> Matches(prepared[k], req.payload.items[k])
      requires forall k :: 0 <= k < |req.payload.items| ==>
                 req.payload.items[k].day.Some? && req.payload.items[k].level in levels
      modifies this`attempts, this`progress, this`history
      ensures Now() == AllRecorded(old(Now()), req.user, req.payload.items, req.event)
    {
      var items := req.payload.items;
      hide Recorded;
      for k := 0 to |prepared|
        invariant forall j :: 0 <= j < |items| ==> items[j].day.Some? && items[j].level in old(Now()).levels
        invariant unchanged(`levels) && unchanged(`badges) && unchanged(`devices)
        invariant unchanged(`events) && unchanged(`streak) && unchanged(`earned)
        invariant Now() == AllRecorded(old(Now()), req.user, items[..k], req.event)
      {
        var p := prepared[k];
        RecordAttempt(req.user, p.level, p.day, p.difficulty, p.score, p.completed, Some(req.event));
        assert items[..k + 1][..k] == items[..k];
      }
      assert items[..|prepared|] == items;
    }

    method MergeStreak(u: Id, days: seq<Day>, ghost reported: seq<Option<Day>>)
      requires |days| == |reported| && forall k :: 0 <= k < |days| ==> reported[k] == Some(days[k])
      modifies this`streak
      ensures streak == old(streak) + StreakDays(u, reported)
    {
      for k := 0 to |days|
        invariant streak == old(streak) + StreakDays(u, reported[..k])
      {
        assert StreakDays(u, reported[..k + 1]) == StreakDays(u, reported[..k]) + {(u, days[k])} by {
          assert reported[..k + 1] == reported[..k] + [Some(days[k])];
        }
        streak := streak + {(u, days[k])};
      }
      assert reported[..|days|] == reported;
    }

    method CancelUser(u: Id)
      modifies this
      ensures Now() == Ledger.CancelUser(old(Now()), u)
    {
      hide Nulled, Kept;
      NullUserInLedger(u);
      PurgeAttempts(u);
      progress := map k | k in progress && k.0 != u :: progress[k];
      streak := set s | s in streak && s.0 != u;
      earned := set e | e in earned && e.0 != u;
      devices := map d | d in devices ::
        if devices[d].user == u && !devices[d].revoked then devices[d].(wipe := true) else devices[d];
    }

    method NullUserInLedger(u: Id)
      modifies this`history
      ensures history == Nulled(old(history), u)
    {
      var out := [];
      for i := 0 to |history|
        invariant out == Nulled(history[..i], u)
      {
        out := out + [if history[i].user == Some(u) then history[i].(user := None) else history[i]];
        assert history[..i + 1][..i] == history[..i];
      }
      assert history[..|history|] == history;
      history := out;
    }

    method PurgeAttempts(u: Id)
      modifies this`attempts
      ensures attempts == Kept(old(attempts), u)
    {
      var out := [];
      for i := 0 to |attempts|
        invariant out == Kept(attempts[..i], u)
      {
        if attempts[i].user != u {
          out := out + [attempts[i]];
        }
        assert attempts[..i + 1][..i] == attempts[..i];
      }
      assert attempts[..|attempts|] == attempts;
      attempts := out;
    }
  }

  // Marking the event pending first does not change what the merge records.
  lemma {:induction false} AllRecordedIgnoresEvents(
      t: Tables, events: map<Id, EventRow>, u: Id, items: seq<Item>, event: Id)
    requires forall k :: 0 <= k < |items| ==> items[k].day.Some? && items[k].level in t.levels
    ensures AllRecorded(t.(events := events), u, items, event) ==
            AllRecorded(t, u, items, event).(events := events)
  {
    if items != [] {
      AllRecordedIgnoresEvents(t, events, u, items[..|items| - 1], event);
    }
  }
}
