// The cells that tokens can reach: exactly when no match leaves the track, and exactly when a
// match can be won.
module SnakesReach {
  import opened Wrappers
  import opened SnakesLayout
  import opened SnakesGame

  predicate Legals(rolls: seq<int>) {
    forall i :: 0 <= i < |rolls| ==> 1 <= rolls[i] <= 6
  }

  // The cells on which a token can stand after one more throw.
  function Onward(c: Config, cells: set<int>): set<int> {
    set x, r | x in cells && x < c.end && 1 <= r <= 6 :: Moved(c, x, r)
  }

  // The cells on which a token can stand after at most n throws.
  function Reach(c: Config, from: int, n: nat): set<int> {
    if n == 0 then {from} else Reach(c, from, n - 1) + Onward(c, Reach(c, from, n - 1))
  }

  lemma {:induction false} ReachStaysOn(c: Config, from: int, n: nat)
    requires Playable(c) && 1 <= from <= c.end
    ensures forall x :: x in Reach(c, from, n) ==> 1 <= x <= c.end
  {
    if n > 0 {
      ReachStaysOn(c, from, n - 1);
      forall x, r | x in Reach(c, from, n - 1) && x < c.end && 1 <= r <= 6
        ensures 1 <= Moved(c, x, r) <= c.end
      {
        MovedStaysOn(c, x, r);
      }
    }
  }

  lemma {:induction false} RollsTo(c: Config, from: int, n: nat, x: int) returns (rolls: seq<int>)
    requires x in Reach(c, from, n)
    ensures |rolls| <= n && Legals(rolls) && Walk(c, from, rolls) == x
    ensures NeverHome(c, from, rolls)
  {
    hide Onward;
    if n == 0 {
      rolls := [];
    } else if x in Reach(c, from, n - 1) {
      rolls := RollsTo(c, from, n - 1, x);
    } else {
      hide Moved, Walk;
      var y, r := LastThrow(c, Reach(c, from, n - 1), x);
      hide Reach;
      var before := RollsTo(c, from, n - 1, y);
      WalkGrows(c, from, before, r);
      NotHomeYet(c, from, before, r);
      rolls := before + [r];
    }
  }

  // Before its last throw the token was short of the last cell all the time.
  ghost predicate NeverHome(c: Config, from: int, rolls: seq<int>) {
    forall k :: 0 <= k < |rolls| ==> Walk(c, from, rolls[..k]) < c.end
  }

  lemma NotHomeYet(c: Config, from: int, rolls: seq<int>, roll: int)
    requires NeverHome(c, from, rolls) && Walk(c, from, rolls) < c.end
    ensures NeverHome(c, from, rolls + [roll])
  {
    hide Walk;
    forall k | 0 <= k < |rolls + [roll]|
      ensures Walk(c, from, (rolls + [roll])[..k]) < c.end
    {
      assert k < |rolls| ==> (rolls + [roll])[..k] == rolls[..k];
      assert k == |rolls| ==> (rolls + [roll])[..k] == rolls;
    }
  }

  lemma LastThrow(c: Config, cells: set<int>, x: int) returns (y: int, r: int)
    requires x in Onward(c, cells)
    ensures y in cells && y < c.end && 1 <= r <= 6 && Moved(c, y, r) == x
  {
    hide Moved;
    y, r :| y in cells && y < c.end && 1 <= r <= 6 && Moved(c, y, r) == x;
  }

  lemma StillReached(c: Config, from: int, n: nat, x: int, r: int)
    requires 1 <= r <= 6
    ensures c.end in Reach(c, from, n) ==> c.end in Reach(c, from, n + 1)
    ensures x in Reach(c, from, n) && x < c.end ==> Moved(c, x, r) in Reach(c, from, n + 1)
  {
    hide Moved;
    assert x in Reach(c, from, n) && x < c.end ==> Moved(c, x, r) in Onward(c, Reach(c, from, n));
  }

  lemma {:induction false} ReachGrows(c: Config, from: int, n: nat, m: nat)
    requires n <= m
    ensures Reach(c, from, n) <= Reach(c, from, m)
  {
    hide Onward;
    if n < m {
      ReachGrows(c, from, n, m - 1);
    }
  }

  lemma {:induction false} ReachSettles(c: Config, from: int, n: nat, m: nat)
    requires n <= m && Reach(c, from, n + 1) == Reach(c, from, n)
    ensures Reach(c, from, m) == Reach(c, from, n)
  {
    hide Onward;
    if n < m {
      ReachSettles(c, from, n, m - 1);
    }
  }

  // Each further throw adds a cell until no throw does.
  lemma {:induction false} ReachCounts(c: Config, from: int, n: nat) returns (i: nat)
    ensures i <= n
    ensures |Reach(c, from, n)| > n || (i < n && Reach(c, from, i + 1) == Reach(c, from, i))
  {
    i := n;
    OneCellAtFirst(c, from);
    hide Reach;
    if n > 0 {
      var j := ReachCounts(c, from, n - 1);
      ReachGrows(c, from, n - 1, n);
      if j < n - 1 && Reach(c, from, j + 1) == Reach(c, from, j) {
        i := j;
      } else if Reach(c, from, n) == Reach(c, from, n - 1) {
        i := n - 1;
      } else {
        ProperSubsetIsSmaller(Reach(c, from, n - 1), Reach(c, from, n));
      }
    }
  }

  lemma OneCellAtFirst(c: Config, from: int)
    ensures |Reach(c, from, 0)| == 1
  {
  }

  lemma ProperSubsetIsSmaller(a: set<int>, b: set<int>)
    requires a <= b && a != b
    ensures |a| < |b|
  {
    assert b == a + (b - a);
    assert b - a != {};
  }

  function Numbers(n: nat): set<int> {
    if n == 0 then {} else Numbers(n - 1) + {n}
  }

  lemma {:induction false} NumbersMean(n: nat)
    ensures |Numbers(n)| == n && forall x :: x in Numbers(n) <==> 1 <= x <= n
  {
    if n > 0 {
      NumbersMean(n - 1);
    }
  }

  lemma CellsUpTo(s: set<int>, end: nat)
    requires forall x :: x in s ==> 1 <= x <= end
    ensures |s| <= end
  {
    NumbersMean(end);
    forall x | x in s
      ensures x in Numbers(end)
    {
    }
    SubsetIsSmaller(s, Numbers(end));
  }

  // The cells a token can reach from here all lie on the track.
  ghost predicate OnTrackFrom(c: Config, from: int) {
    c.end >= 0 && forall x :: x in Reach(c, from, c.end) ==> 1 <= x <= c.end
  }

  // No throw after as many as there are cells reaches anything new.
  lemma ReachIsFull(c: Config, from: int, n: nat)
    requires OnTrackFrom(c, from)
    ensures Reach(c, from, n) <= Reach(c, from, c.end)
  {
    hide Reach;
    var i := ReachCounts(c, from, c.end);
    CellsUpTo(Reach(c, from, c.end), c.end);
    ReachSettles(c, from, i, c.end);
    if n <= c.end {
      ReachGrows(c, from, n, c.end);
    } else {
      ReachSettles(c, from, i, n);
    }
  }

  lemma PlayableStaysOn(c: Config, from: int)
    requires Playable(c) && 1 <= from <= c.end
    ensures OnTrackFrom(c, from)
  {
    ReachStaysOn(c, from, c.end);
  }

  // --------------------------------------------------- exactly when the runs are sound

  // Every throw of a sound match leads on within what can be reached.
  lemma ReachedIsSafe(c: Config, x: int)
    requires OnTrackFrom(c, c.start) && x in Reach(c, c.start, c.end) && x < c.end
    ensures SafeFrom(c, x)
    ensures forall r :: 1 <= r <= 6 ==> Moved(c, x, r) in Reach(c, c.start, c.end)
  {
    hide Reach, Moved;
    forall r | 1 <= r <= 6
      ensures Moved(c, x, r) in Reach(c, c.start, c.end)
    {
      StillReached(c, c.start, c.end, x, r);
      ReachIsFull(c, c.start, c.end + 1);
    }
  }

  ghost predicate Reached(c: Config, m: Match) {
    c.end >= 0 && m.player in Reach(c, c.start, c.end) && m.ai in Reach(c, c.start, c.end)
  }

  lemma ReachedAreSafe(c: Config, m: Match)
    requires OnTrackFrom(c, c.start) && Reached(c, m)
    ensures BothSafe(c, m)
  {
    hide Reach, SafeFrom;
    if m.player < c.end {
      ReachedIsSafe(c, m.player);
    }
    if m.ai < c.end {
      ReachedIsSafe(c, m.ai);
    }
  }

  lemma MoveStaysReached(c: Config, m: Match, who: Who, roll: int)
    requires OnTrackFrom(c, c.start) && Reached(c, m) && Decided(c, m) && 1 <= roll <= 6
    requires m.phase == if who.Player? then PlayerTurn else AiTurn
    ensures Reached(c, AfterMove(c, m, who, roll))
  {
    hide Reach, Moved;
    ReachedIsSafe(c, if who.Player? then m.player else m.ai);
  }

  lemma StepStaysReached(c: Config, g: Game, call: Call)
    requires OnTrackFrom(c, c.start) && Reached(c, g.now) && Sound(c, g) && Legal(call)
    ensures Reached(c, Next(c, g, call).now)
  {
    hide Reach, OnTrackFrom, Reached, InTurn, InPlace;
    match call
    case Start =>
      StartMovesNothing(c, g.now);
    case RollPlayer(d) =>
      DieIsInRange(d);
      if g.now.phase.PlayerTurn? {
        MoveStaysReached(c, g.now, Player, Die(d));
      }
    case PlayAi(e, d) =>
      DieIsInRange(d);
      if g.now.phase.AiTurn? {
        MoveStaysReached(c, g.now, Ai, AiRoll(c, g.now.ai, e, d));
      }
  }

  lemma StartMovesNothing(c: Config, m: Match)
    requires Reached(c, m)
    ensures Reached(c, m.(phase := PlayerTurn))
  {
  }

  lemma {:induction false} RunOnTrack(c: Config, calls: seq<Call>)
    requires c.start < c.end && OnTrackFrom(c, c.start) && AllLegal(calls)
    ensures Sound(c, Run(c, calls)) && Reached(c, Run(c, calls).now)
  {
    if calls == [] {
      ReachGrows(c, c.start, 0, c.end);
      assert c.start in Reach(c, c.start, 0);
    } else {
      var n := |calls| - 1;
      RunOnTrack(c, calls[..n]);
      hide Sound, Reached, OnTrackFrom, Legal;
      ReachedAreSafe(c, Run(c, calls[..n]).now);
      StepKeepsSound(c, Run(c, calls[..n]), calls[n]);
      StepStaysReached(c, Run(c, calls[..n]), calls[n]);
    }
  }

  // ---- a token off the track

  function DrawFor(roll: int): real {
    (roll - 1) as real / 6.0
  }

  lemma DrawForMeans(roll: int)
    requires 1 <= roll <= 6
    ensures IsDraw(DrawFor(roll)) && Die(DrawFor(roll)) == roll
  {
    assert DrawFor(roll) * 6.0 == (roll - 1) as real;
  }

  // Player and machine throw the same: the machine's first draw keeps it from winning at once.
  function Mirrored(rolls: seq<int>): seq<Call> {
    if rolls == [] then [Start]
    else
      var r := rolls[|rolls| - 1];
      Mirrored(rolls[..|rolls| - 1]) + [RollPlayer(DrawFor(r))] + [PlayAi(0.0, DrawFor(r))]
  }

  lemma {:induction false} MirroredIsLegal(rolls: seq<int>)
    requires Legals(rolls)
    ensures AllLegal(Mirrored(rolls))
  {
    if rolls != [] {
      MirroredIsLegal(rolls[..|rolls| - 1]);
      DrawForMeans(rolls[|rolls| - 1]);
      hide DrawFor;
    }
  }

  // One throw of the player, and the same of the machine.
  lemma MirroredStep(c: Config, g: Game, roll: int)
    requires 1 <= roll <= 6 && g.now.phase.PlayerTurn? && g.now.player == g.now.ai
    requires Moved(c, g.now.player, roll) < c.end
    ensures var m := Next(c, Next(c, g, RollPlayer(DrawFor(roll))), PlayAi(0.0, DrawFor(roll))).now;
            m.phase.PlayerTurn? && m.player == m.ai == Moved(c, g.now.player, roll)
  {
    DrawForMeans(roll);
    hide Moved, DrawFor;
  }

  lemma NeverHomeBefore(c: Config, from: int, rolls: seq<int>)
    requires rolls != [] && NeverHome(c, from, rolls)
    ensures var front := rolls[..|rolls| - 1]; NeverHome(c, from, front) && Walk(c, from, front) < c.end
  {
    hide Walk;
    var front := rolls[..|rolls| - 1];
    assert forall k :: 0 <= k < |front| ==> front[..k] == rolls[..k];
  }

  lemma {:induction false} MirroredRun(c: Config, rolls: seq<int>)
    requires Legals(rolls) && NeverHome(c, c.start, rolls) && Walk(c, c.start, rolls) < c.end
    ensures var m := Run(c, Mirrored(rolls)).now;
            m.phase.PlayerTurn? && m.player == m.ai == Walk(c, c.start, rolls)
  {
    hide Moved, DrawFor, NeverHome;
    if rolls == [] {
      RunOneMore(c, [], Start);
      assert [] + [Start] == [Start];
    } else {
      var front, r := rolls[..|rolls| - 1], rolls[|rolls| - 1];
      NeverHomeBefore(c, c.start, rolls);
      MirroredRun(c, front);
      MirroredStep(c, Run(c, Mirrored(front)), r);
      hide Run, Next;
      RunOneMore(c, Mirrored(front), RollPlayer(DrawFor(r)));
      RunOneMore(c, Mirrored(front) + [RollPlayer(DrawFor(r))], PlayAi(0.0, DrawFor(r)));
    }
  }

  // Throws that lead a token off the track, and a run in which they do.
  lemma LeavesTrack(c: Config, n: nat, x: int) returns (calls: seq<Call>)
    requires 1 <= c.start < c.end && x in Reach(c, c.start, n) && !(1 <= x <= c.end)
    ensures AllLegal(calls) && Run(c, calls).now.player == x
  {
    var rolls := RollsTo(c, c.start, n, x);
    assert rolls != [];
    var k := |rolls| - 1;
    var front, r := rolls[..k], rolls[k];
    NeverHomeBefore(c, c.start, rolls);
    MirroredRun(c, front);
    MirroredIsLegal(front);
    DrawForMeans(r);
    calls := Mirrored(front) + [RollPlayer(DrawFor(r))];
    RunOneMore(c, Mirrored(front), RollPlayer(DrawFor(r)));
    hide DrawFor, Moved, Run, Mirrored;
  }

  // Every run is sound, whatever is called and thrown, exactly when the match starts before
  // the last cell and all cells a token can reach lie on the track.
  lemma RunIsSoundIff(c: Config)
    ensures (forall calls :: AllLegal(calls) ==> Sound(c, Run(c, calls))) <==>
            1 <= c.start < c.end && OnTrackFrom(c, c.start)
  {
    hide Reach, AllLegal;
    if 1 <= c.start < c.end && OnTrackFrom(c, c.start) {
      forall calls | AllLegal(calls)
        ensures Sound(c, Run(c, calls))
      {
        RunOnTrack(c, calls);
      }
    } else {
      var calls := BadRun(c);
    }
  }

  lemma BadRun(c: Config) returns (calls: seq<Call>)
    requires !(1 <= c.start < c.end && OnTrackFrom(c, c.start))
    ensures AllLegal(calls) && !Sound(c, Run(c, calls))
  {
    calls := [];
    if 1 <= c.start < c.end {
      var x :| x in Reach(c, c.start, c.end) && !(1 <= x <= c.end);
      calls := LeavesTrack(c, c.end, x);
    }
  }

  // In particular on a track of six cells or more past which no link leads.
  lemma RunIsSound(c: Config, calls: seq<Call>)
    requires Playable(c) && AllLegal(calls)
    ensures Sound(c, Run(c, calls))
  {
    PlayableStaysOn(c, c.start);
    RunOnTrack(c, calls);
  }

  // ------------------------------------------------------------ what the validators accept

  function ConfigOf(content: Content, difficulty: Difficulty): Config {
    Config(content.start, content.end, content.snakes, content.ladders, difficulty)
  }

  predicate EndsAtMost(links: seq<Link>, end: int) {
    forall i :: 0 <= i < |links| ==> links[i].end <= end
  }

  // Accepted content is playable exactly when its match starts before its end, the end is the
  // sixth cell or a later one, and no link leads past it; neither validator checks that.
  lemma AcceptedIsPlayableIff(content: Content, difficulty: Difficulty)
    requires GoAccepts(content)
    ensures Playable(ConfigOf(content, difficulty)) <==>
            && content.start < content.end && content.end >= 6
            && EndsAtMost(content.snakes, content.end) && EndsAtMost(content.ladders, content.end)
  {
    hide Directed, Decodes;
  }

  // Two accepted boards that are not: a ladder past the end, from which a throw leads to cell
  // -1, and a start past the end, from which one leads to cell -81.
  lemma LadderPastEndExample()
    ensures var content := Content(10, 10, 1, 50, [], [Link(2, 100)]);
            && GoAccepts(content) && ZodAccepts(content)
            && var c := ConfigOf(content, Medium);
               Moved(c, 1, 1) == 100 && Moved(c, 100, 1) == -1 && !OnTrackFrom(c, c.start)
  {
    var content := Content(10, 10, 1, 50, [], [Link(2, 100)]);
    var c := ConfigOf(content, Medium);
    assert NoRepeats(Starts(content.snakes) + Starts(content.ladders));
    assert FirstFrom([Link(2, 100)], 2) == Some(Link(2, 100));
    assert FirstFrom([Link(2, 100)], -1) == None && FirstFrom([], -1) == None;
    hide Reach;
    ThrowLeavesTrack(c, 1);
  }

  // One throw from the start is enough.
  lemma ThrowLeavesTrack(c: Config, roll: int)
    requires c.start < c.end && 1 <= c.end && 1 <= roll <= 6 && Moved(c, c.start, roll) > c.end
    ensures !OnTrackFrom(c, c.start)
  {
    hide Moved;
    FromIsReached(c, c.start);
    StillReached(c, c.start, 0, c.start, roll);
    ReachGrows(c, c.start, 1, c.end);
    hide Reach;
    assert Moved(c, c.start, roll) in Reach(c, c.start, c.end);
  }

  lemma FromIsReached(c: Config, from: int)
    ensures from in Reach(c, from, 0)
  {
  }

  lemma StartPastEndExample()
    ensures var content := Content(10, 10, 100, 10, [], []);
            && GoAccepts(content) && ZodAccepts(content)
            && Moved(ConfigOf(content, Medium), 100, 1) == -81
  {
  }

  // ------------------------------------------------------------- exactly when it can be won

  ghost predicate CanWin(c: Config, from: int) {
    exists rolls :: Legals(rolls) && Walk(c, from, rolls) == c.end
  }

  // A walk stays among the reached cells, unless it has come home on the way.
  lemma {:induction false} WalkIsReached(c: Config, from: int, rolls: seq<int>)
    requires OnTrackFrom(c, from) && Legals(rolls)
    ensures c.end in Reach(c, from, |rolls|) || Walk(c, from, rolls) in Reach(c, from, |rolls|)
  {
    hide Moved, Reach, OnTrackFrom;
    FromIsReached(c, from);
    if rolls != [] {
      var n := |rolls| - 1;
      WalkIsReached(c, from, rolls[..n]);
      WithinTrack(c, from, n, Walk(c, from, rolls[..n]));
      StillReached(c, from, n, Walk(c, from, rolls[..n]), rolls[n]);
    }
  }

  lemma WithinTrack(c: Config, from: int, n: nat, x: int)
    requires OnTrackFrom(c, from)
    ensures x in Reach(c, from, n) ==> x <= c.end
  {
    hide Reach;
    ReachIsFull(c, from, n);
  }

  // Where no token leaves the track, with any number of snakes: a token can come home exactly
  // when the last cell is among those reached by at most as many throws as there are cells.
  lemma CanWinIff(c: Config, from: int)
    requires OnTrackFrom(c, from)
    ensures CanWin(c, from) <==> c.end in Reach(c, from, c.end)
  {
    hide Reach, Walk;
    if CanWin(c, from) {
      var rolls :| Legals(rolls) && Walk(c, from, rolls) == c.end;
      WalkIsReached(c, from, rolls);
      ReachIsFull(c, from, |rolls|);
    }
    if c.end in Reach(c, from, c.end) {
      var rolls := RollsTo(c, from, c.end, c.end);
    }
  }

  lemma PassableCanBeWon(c: Config, from: int)
    requires Playable(c) && LaddersClimb(c) && Passable(c) && 1 <= from <= c.end
    ensures CanWin(c, from)
  {
    var rolls := CanComeHome(c, from);
    assert Legals(rolls);
  }

  // A playable board that cannot be won has six snakes' heads in a row, or one on its last cell.
  lemma LostBoardsHaveWalls(c: Config, from: int)
    requires Playable(c) && LaddersClimb(c) && 1 <= from <= c.end && c.end !in Reach(c, from, c.end)
    ensures !Passable(c)
  {
    PlayableStaysOn(c, from);
    CanWinIff(c, from);
    if Passable(c) {
      PassableCanBeWon(c, from);
    }
  }
}
