// One match of snakes and ladders: the player and the machine take turns until a token
// stands on the last cell.
module SnakesGame {
  import opened Wrappers
  import opened SnakesLayout

  datatype Phase = Idle | PlayerTurn | AiTurn | GameOver
  datatype Who = Player | Ai
  datatype Difficulty = Easy | Medium | Hard

  datatype Config = Config(start: int, end: int, snakes: seq<Link>, ladders: seq<Link>, difficulty: Difficulty)

  datatype Match = Match(phase: Phase, player: int, ai: int, winner: Option<Who>, lastRoll: int)

  // ------------------------------------------------------------------- one move

  // What is past the last cell counts backwards from it.
  function Bounced(target: int, end: int): int {
    if target > end then end - (target - end) else target
  }

  // The first link that starts on the cell.
  function FirstFrom(links: seq<Link>, cell: int): (r: Option<Link>)
    ensures r.Some? ==> r.value in links && r.value.start == cell
    ensures r.None? <==> forall i :: 0 <= i < |links| ==> links[i].start != cell
  {
    if links == [] then None
    else if links[0].start == cell then Some(links[0])
    else FirstFrom(links[1..], cell)
  }

  lemma {:induction false} FirstComesFirst(links: seq<Link>, k: nat)
    requires k < |links| && forall i :: 0 <= i < k ==> links[i].start != links[k].start
    ensures FirstFrom(links, links[k].start) == Some(links[k])
  {
    if k > 0 {
      assert links[0].start != links[k].start;
      FirstComesFirst(links[1..], k - 1);
    }
  }

  // A ladder is looked up after a snake, and wins.
  function Landed(c: Config, cell: int): int {
    var snake, ladder := FirstFrom(c.snakes, cell), FirstFrom(c.ladders, cell);
    if ladder.Some? then ladder.value.end else if snake.Some? then snake.value.end else cell
  }

  function Moved(c: Config, from: int, roll: int): int {
    Landed(c, Bounced(from + roll, c.end))
  }

  // floor(random() * 6) + 1.
  function Die(draw: real): int {
    (draw * 6.0).Floor + 1
  }

  // Each face shows for a sixth of the draws.
  lemma FacesShareTheDraws(draw: real, face: int)
    ensures Die(draw) == face <==> (face - 1) as real / 6.0 <= draw < face as real / 6.0
  {
  }

  predicate IsDraw(draw: real) {
    0.0 <= draw < 1.0
  }

  function FailProbability(difficulty: Difficulty, remaining: int): real {
    if remaining <= 10 then 0.8
    else match difficulty
      case Easy => 0.8
      case Medium => 0.0
      case Hard => 0.1
  }

  // The machine wins at once when the first draw passes its chance to fail and the last
  // cell is in reach; it throws a fair die otherwise.
  function AiRoll(c: Config, position: int, decision: real, draw: real): int {
    var remaining := c.end - position;
    if decision > FailProbability(c.difficulty, remaining) && remaining <= 6 then remaining else Die(draw)
  }

  // Whatever the difficulty, the machine throws what it needs for two of ten decisions as soon as
  // the last cell is in reach, and what the die shows otherwise.
  lemma MachineThrows(c: Config, position: int, decision: real, draw: real)
    ensures AiRoll(c, position, decision, draw) ==
            if position >= c.end - 6 && decision > 0.8 then c.end - position else Die(draw)
  {
  }

  // ----------------------------------------------------------------------- the match

  datatype Call = Start | RollPlayer(draw: real) | PlayAi(decision: real, draw: real)

  predicate Legal(call: Call) {
    match call
    case Start => true
    case RollPlayer(d) => IsDraw(d)
    case PlayAi(e, d) => IsDraw(e) && IsDraw(d)
  }

  function Begun(c: Config): Match {
    Match(Idle, c.start, c.start, None, 0)
  }

  function AfterMove(c: Config, m: Match, who: Who, roll: int): Match {
    var cell := Moved(c, if who.Player? then m.player else m.ai, roll);
    var won := cell == c.end;
    m.(player := if who.Player? then cell else m.player,
       ai := if who.Ai? then cell else m.ai,
       lastRoll := roll,
       winner := if won then Some(who) else m.winner,
       phase := if won then GameOver else if who.Player? then AiTurn else PlayerTurn)
  }

  // None stands for the exception of a call out of turn, which changes nothing.
  function Step(c: Config, m: Match, call: Call): Option<Match> {
    match call
    case Start => if m.phase.Idle? then Some(m.(phase := PlayerTurn)) else None
    case RollPlayer(d) => if m.phase.PlayerTurn? then Some(AfterMove(c, m, Player, Die(d))) else None
    case PlayAi(e, d) => if m.phase.AiTurn? then Some(AfterMove(c, m, Ai, AiRoll(c, m.ai, e, d))) else None
  }

  datatype Throw = Throw(who: Who, roll: int)

  // A match together with the throws that counted.
  datatype Game = Game(now: Match, throws: seq<Throw>)

  function Next(c: Config, g: Game, call: Call): Game {
    var after := Step(c, g.now, call);
    if after.None? then g
    else
      var m := after.value;
      Game(m, match call
              case Start => g.throws
              case RollPlayer(_) => g.throws + [Throw(Player, m.lastRoll)]
              case PlayAi(_, _) => g.throws + [Throw(Ai, m.lastRoll)])
  }

  function Run(c: Config, calls: seq<Call>): Game {
    if calls == [] then Game(Begun(c), [])
    else Next(c, Run(c, calls[..|calls| - 1]), calls[|calls| - 1])
  }

  // Where a token stands after its own throws.
  function Walk(c: Config, from: int, rolls: seq<int>): int {
    if rolls == [] then from
    else Moved(c, Walk(c, from, rolls[..|rolls| - 1]), rolls[|rolls| - 1])
  }

  function RollsOf(throws: seq<Throw>, who: Who): seq<int> {
    if throws == [] then []
    else
      var t := throws[|throws| - 1];
      RollsOf(throws[..|throws| - 1], who) + if t.who == who then [t.roll] else []
  }

  // Where no two links start on one cell, every link is taken, and no token moves on elsewhere.
  lemma EveryLinkIsTaken(c: Config, k: nat, cell: int)
    requires NoRepeats(Starts(c.snakes) + Starts(c.ladders))
    ensures k < |c.snakes| ==> Landed(c, c.snakes[k].start) == c.snakes[k].end
    ensures k < |c.ladders| ==> Landed(c, c.ladders[k].start) == c.ladders[k].end
    ensures cell !in Starts(c.snakes) && cell !in Starts(c.ladders) ==> Landed(c, cell) == cell
  {
    RepeatsIn(Starts(c.snakes), Starts(c.ladders));
    if k < |c.snakes| {
      assert forall i :: 0 <= i < k ==> Starts(c.snakes)[i] != Starts(c.snakes)[k];
      FirstComesFirst(c.snakes, k);
      assert Starts(c.snakes)[k] in Starts(c.snakes);
      assert forall i :: 0 <= i < |c.ladders| ==> Starts(c.ladders)[i] !in Starts(c.snakes);
    }
    if k < |c.ladders| {
      assert forall i :: 0 <= i < k ==> Starts(c.ladders)[i] != Starts(c.ladders)[k];
      FirstComesFirst(c.ladders, k);
    }
    NoLinkFrom(c.snakes, cell);
    NoLinkFrom(c.ladders, cell);
  }

  lemma NoLinkFrom(links: seq<Link>, cell: int)
    ensures cell !in Starts(links) ==> FirstFrom(links, cell).None?
  {
    assert forall i :: 0 <= i < |links| ==> Starts(links)[i] in Starts(links);
  }

  // A ladder wins over a snake that starts on its cell, whichever is listed where.
  lemma LaddersWin(c: Config, k: nat)
    requires k < |c.ladders| && forall i :: 0 <= i < k ==> c.ladders[i].start != c.ladders[k].start
    ensures Landed(c, c.ladders[k].start) == c.ladders[k].end
  {
    FirstComesFirst(c.ladders, k);
  }

  // ------------------------------------------------------------------ what always holds

  // No link leads past the last cell of the track; where it starts does not matter.
  predicate LinksWithin(c: Config) {
    && (forall i :: 0 <= i < |c.snakes| ==> 1 <= c.snakes[i].end <= c.end)
    && (forall i :: 0 <= i < |c.ladders| ==> 1 <= c.ladders[i].end <= c.end)
  }

  predicate Playable(c: Config) {
    1 <= c.start < c.end && c.end >= 6 && LinksWithin(c)
  }

  function Turn(k: nat): Who {
    if k % 2 == 0 then Player else Ai
  }

  // Throws alternate from the player on, lie in 1..6 and decide whose turn it is.
  ghost predicate InTurn(m: Match, throws: seq<Throw>) {
    && (forall k :: 0 <= k < |throws| ==> throws[k].who == Turn(k) && 1 <= throws[k].roll <= 6)
    && m.lastRoll == (if throws == [] then 0 else throws[|throws| - 1].roll)
    && (m.phase.Idle? ==> throws == [])
    && (m.phase.PlayerTurn? ==> |throws| % 2 == 0)
    && (m.phase.AiTurn? ==> |throws| % 2 == 1)
    && (m.phase.GameOver? ==> throws != [] && m.winner == Some(throws[|throws| - 1].who))
  }

  // Both tokens stand where their own throws lead.
  ghost predicate InPlace(c: Config, m: Match, throws: seq<Throw>) {
    && m.player == Walk(c, c.start, RollsOf(throws, Player))
    && m.ai == Walk(c, c.start, RollsOf(throws, Ai))
  }

  // The match is over exactly when the recorded winner stands on the last cell.
  predicate Decided(c: Config, m: Match) {
    && 1 <= m.player <= c.end && 1 <= m.ai <= c.end
    && (m.player == c.end <==> m.winner == Some(Player))
    && (m.ai == c.end <==> m.winner == Some(Ai))
    && (m.phase.GameOver? <==> m.winner.Some?)
  }

  ghost predicate Sound(c: Config, g: Game) {
    InTurn(g.now, g.throws) && InPlace(c, g.now, g.throws) && Decided(c, g.now)
  }

  lemma DieIsInRange(draw: real)
    requires IsDraw(draw)
    ensures 1 <= Die(draw) <= 6
  {
  }

  lemma MovedStaysOn(c: Config, from: int, roll: int)
    requires Playable(c) && 1 <= from < c.end && 1 <= roll <= 6
    ensures 1 <= Moved(c, from, roll) <= c.end
  {
    var cell := Bounced(from + roll, c.end);
    var snake, ladder := FirstFrom(c.snakes, cell), FirstFrom(c.ladders, cell);
    if ladder.Some? {
      assert 1 <= ladder.value.end <= c.end;
    } else if snake.Some? {
      assert 1 <= snake.value.end <= c.end;
    }
  }

  // Whatever is thrown from the cell, the token stays on the track.
  ghost predicate SafeFrom(c: Config, cell: int) {
    forall roll :: 1 <= roll <= 6 ==> 1 <= Moved(c, cell, roll) <= c.end
  }

  ghost predicate BothSafe(c: Config, m: Match) {
    (m.player < c.end ==> SafeFrom(c, m.player)) && (m.ai < c.end ==> SafeFrom(c, m.ai))
  }

  lemma ThrowsGrow(throws: seq<Throw>, t: Throw, who: Who)
    ensures RollsOf(throws + [t], who) == RollsOf(throws, who) + if t.who == who then [t.roll] else []
  {
    assert (throws + [t])[..|throws|] == throws;
  }

  lemma WalkGrows(c: Config, from: int, rolls: seq<int>, roll: int)
    ensures Walk(c, from, rolls + [roll]) == Moved(c, Walk(c, from, rolls), roll)
  {
    assert (rolls + [roll])[..|rolls|] == rolls;
  }

  lemma MoveKeepsPlaces(c: Config, g: Game, who: Who, roll: int)
    requires InPlace(c, g.now, g.throws)
    ensures InPlace(c, AfterMove(c, g.now, who, roll), g.throws + [Throw(who, roll)])
  {
    hide Moved, Walk, RollsOf;
    var t := Throw(who, roll);
    ThrowsGrow(g.throws, t, Player);
    ThrowsGrow(g.throws, t, Ai);
    assert RollsOf(g.throws, Player) + [] == RollsOf(g.throws, Player);
    assert RollsOf(g.throws, Ai) + [] == RollsOf(g.throws, Ai);
    WalkGrows(c, c.start, RollsOf(g.throws, who), roll);
  }

  lemma MoveKeepsDecided(c: Config, m: Match, who: Who, roll: int)
    requires BothSafe(c, m) && Decided(c, m) && 1 <= roll <= 6
    requires m.phase == if who.Player? then PlayerTurn else AiTurn
    ensures Decided(c, AfterMove(c, m, who, roll))
  {
    hide Moved;
  }

  lemma MoveKeepsTurns(c: Config, g: Game, who: Who, roll: int)
    requires InTurn(g.now, g.throws) && 1 <= roll <= 6
    requires g.now.phase == if who.Player? then PlayerTurn else AiTurn
    ensures InTurn(AfterMove(c, g.now, who, roll), g.throws + [Throw(who, roll)])
  {
    hide Moved;
  }

  lemma MoveKeepsSound(c: Config, g: Game, who: Who, roll: int)
    requires BothSafe(c, g.now) && Sound(c, g) && 1 <= roll <= 6
    requires g.now.phase == if who.Player? then PlayerTurn else AiTurn
    ensures Sound(c, Game(AfterMove(c, g.now, who, roll), g.throws + [Throw(who, roll)]))
  {
    hide Moved, InTurn, InPlace, BothSafe;
    MoveKeepsTurns(c, g, who, roll);
    MoveKeepsPlaces(c, g, who, roll);
    MoveKeepsDecided(c, g.now, who, roll);
  }

  lemma StepKeepsSound(c: Config, g: Game, call: Call)
    requires BothSafe(c, g.now) && Legal(call) && Sound(c, g)
    ensures Sound(c, Next(c, g, call))
  {
    match call
    case Start =>
    case RollPlayer(d) =>
      DieIsInRange(d);
      if g.now.phase.PlayerTurn? {
        MoveKeepsSound(c, g, Player, Die(d));
      }
    case PlayAi(e, d) =>
      DieIsInRange(d);
      if g.now.phase.AiTurn? {
        MoveKeepsSound(c, g, Ai, AiRoll(c, g.now.ai, e, d));
      }
  }

  ghost predicate AllLegal(calls: seq<Call>) {
    forall i :: 0 <= i < |calls| ==> Legal(calls[i])
  }

  // Six cells are exactly what the bounce needs: on a shorter track some throw from before
  // the end lands in front of the first cell.
  lemma BounceStaysOnIff(end: int)
    requires end >= 2
    ensures (forall from, roll :: 1 <= from < end && 1 <= roll <= 6 ==> StaysOn(from, roll, end)) <==> end >= 6
  {
    assert StaysOn(end - 1, 6, end) <==> end >= 6;
  }

  predicate StaysOn(from: int, roll: int, end: int) {
    1 <= Bounced(from + roll, end) <= end
  }

  lemma RunOneMore(c: Config, calls: seq<Call>, call: Call)
    ensures Run(c, calls + [call]) == Next(c, Run(c, calls), call)
  {
    assert (calls + [call])[..|calls|] == calls;
  }

  lemma ShortTrackExample()
    ensures var c := Config(1, 5, [], [], Medium);
            Run(c, [Start, RollPlayer(0.4), PlayAi(0.0, 0.0), RollPlayer(0.9)]).now.player == 0
  {
    var c := Config(1, 5, [], [], Medium);
    var g0 := Game(Begun(c), []);
    var g1 := Next(c, g0, Start);
    var g2 := Next(c, g1, RollPlayer(0.4));
    var g3 := Next(c, g2, PlayAi(0.0, 0.0));
    RunOneMore(c, [], Start);
    RunOneMore(c, [Start], RollPlayer(0.4));
    RunOneMore(c, [Start, RollPlayer(0.4)], PlayAi(0.0, 0.0));
    RunOneMore(c, [Start, RollPlayer(0.4), PlayAi(0.0, 0.0)], RollPlayer(0.9));
    assert Die(0.4) == 3 && Die(0.0) == 1 && Die(0.9) == 6;
    assert g2.now == Match(AiTurn, 4, 1, None, 3);
    assert g3.now == Match(PlayerTurn, 4, 2, None, 1);
    assert [] + [Start] == [Start];
    assert [Start] + [RollPlayer(0.4)] == [Start, RollPlayer(0.4)];
    assert [Start, RollPlayer(0.4)] + [PlayAi(0.0, 0.0)] == [Start, RollPlayer(0.4), PlayAi(0.0, 0.0)];
    assert [Start, RollPlayer(0.4), PlayAi(0.0, 0.0)] + [RollPlayer(0.9)]
        == [Start, RollPlayer(0.4), PlayAi(0.0, 0.0), RollPlayer(0.9)];
  }

  // The chance to fail depends on the difficulty only while the last cell is out of reach,
  // where the machine throws a fair die anyway: the difficulty changes no match.
  lemma DifficultyChangesNoRoll(c: Config, d: Difficulty, position: int, decision: real, draw: real)
    ensures AiRoll(c.(difficulty := d), position, decision, draw) == AiRoll(c, position, decision, draw)
  {
  }

  lemma {:induction false} DifficultyChangesNothing(c: Config, d: Difficulty, calls: seq<Call>)
    ensures Run(c.(difficulty := d), calls) == Run(c, calls)
  {
    if calls != [] {
      var n := |calls| - 1;
      DifficultyChangesNothing(c, d, calls[..n]);
      var g := Run(c, calls[..n]);
      if calls[n].PlayAi? {
        DifficultyChangesNoRoll(c, d, g.now.ai, calls[n].decision, calls[n].draw);
      }
    }
  }

  // ------------------------------------------------------------------ can it be won

  predicate IsHead(c: Config, cell: int) {
    FirstFrom(c.snakes, cell).Some? && FirstFrom(c.ladders, cell).None?
  }

  predicate LaddersClimb(c: Config) {
    forall i :: 0 <= i < |c.ladders| ==> c.ladders[i].start < c.ladders[i].end
  }

  // No token meets six snakes in a row, nor one on the last cell.
  predicate Passable(c: Config) {
    && !IsHead(c, c.end)
    && forall k :: 1 < k <= c.end - 5 ==> HasGap(c, k)
  }

  predicate HasGap(c: Config, k: int) {
    exists i :: k <= i < k + 6 && !IsHead(c, i)
  }

  // From every cell some throw leads strictly forwards.
  lemma SomeThrowAdvances(c: Config, from: int) returns (roll: int)
    requires LinksWithin(c) && LaddersClimb(c) && Passable(c) && 1 <= from < c.end
    ensures 1 <= roll <= 6 && from < Moved(c, from, roll) <= c.end
  {
    var cell;
    if c.end - from <= 6 {
      cell := c.end;
    } else {
      assert HasGap(c, from + 1);
      cell :| from + 1 <= cell < from + 7 && !IsHead(c, cell);
    }
    roll := cell - from;
    var ladder := FirstFrom(c.ladders, cell);
    if ladder.Some? {
      assert ladder.value.end <= c.end && ladder.value.start < ladder.value.end;
    }
  }

  // Throws that bring a token home, no more of them than cells are left.
  lemma {:induction false} CanComeHome(c: Config, from: int) returns (rolls: seq<int>)
    requires LinksWithin(c) && LaddersClimb(c) && Passable(c) && 1 <= from <= c.end
    ensures |rolls| <= c.end - from && Walk(c, from, rolls) == c.end
    ensures forall i :: 0 <= i < |rolls| ==> 1 <= rolls[i] <= 6
    decreases c.end - from
  {
    rolls := [];
    if from < c.end {
      var roll := SomeThrowAdvances(c, from);
      var rest := CanComeHome(c, Moved(c, from, roll));
      WalkFrom(c, from, roll, rest);
      rolls := [roll] + rest;
    }
  }

  lemma {:induction false} WalkFrom(c: Config, from: int, roll: int, rest: seq<int>)
    ensures Walk(c, from, [roll] + rest) == Walk(c, Moved(c, from, roll), rest)
  {
    if rest == [] {
      assert [roll] + rest == [roll];
      assert [roll][..0] == [];
    } else {
      var n := |rest| - 1;
      WalkFrom(c, from, roll, rest[..n]);
      assert ([roll] + rest)[..n + 1] == [roll] + rest[..n];
    }
  }

  lemma {:induction false} FewElements(s: seq<int>)
    ensures |set x | x in s| <= |s|
  {
    if s != [] {
      var n := |s| - 1;
      FewElements(s[..n]);
      assert s == s[..n] + [s[n]];
      assert (set x | x in s) == (set x | x in s[..n]) + {s[n]};
    }
  }

  // A generated layout with fewer than six snakes can always be won from the first cell of
  // a board of at least six.
  lemma FewSnakesCanBeWon(c: Config)
    requires GoodLayout(c.snakes, c.ladders, c.end) && |c.snakes| < 6 && 1 <= c.start < c.end && c.end >= 6
    ensures Playable(c) && LaddersClimb(c) && Passable(c)
  {
    forall k | 1 < k <= c.end - 5
      ensures HasGap(c, k)
    {
      var starts := set x | x in Starts(c.snakes);
      FewElements(Starts(c.snakes));
      if forall i :: k <= i < k + 6 ==> IsHead(c, i) {
        forall i | k <= i < k + 6
          ensures i in starts
        {
          assert IsHead(c, i);
          HeadIsStart(c.snakes, i);
        }
        SixOf(starts, k);
      }
    }
    if IsHead(c, c.end) {
      HeadIsStart(c.snakes, c.end);
    }
  }

  lemma HeadIsStart(links: seq<Link>, cell: int)
    requires FirstFrom(links, cell).Some?
    ensures cell in Starts(links) && exists i :: 0 <= i < |links| && links[i].start == cell
  {
    var l := FirstFrom(links, cell).value;
    assert l in links;
    var i :| 0 <= i < |links| && links[i] == l;
    assert Starts(links)[i] == cell;
  }

  lemma SixOf(s: set<int>, k: int)
    requires forall i :: k <= i < k + 6 ==> i in s
    ensures |s| >= 6
  {
    var six := {k, k + 1, k + 2, k + 3, k + 4, k + 5};
    assert |six| == 6;
    SubsetIsSmaller(six, s);
  }

  // Why six: a wall of six snakes from cell k on, each leading below the wall and with no
  // ladder over it, keeps a token below it for ever, whatever is thrown.
  predicate Wall(c: Config, k: int) {
    && 1 < k && k + 5 <= c.end
    && (forall i :: k <= i < k + 6 ==> IsHead(c, i) && FirstFrom(c.snakes, i).value.end < k)
    && (forall i :: 0 <= i < |c.ladders| && c.ladders[i].start < k ==> c.ladders[i].end < k)
    && (forall i :: 0 <= i < |c.snakes| && c.snakes[i].start < k ==> c.snakes[i].end < k)
  }

  lemma {:induction false} WallHolds(c: Config, k: int, from: int, rolls: seq<int>)
    requires Wall(c, k) && from < k && forall i :: 0 <= i < |rolls| ==> 1 <= rolls[i] <= 6
    ensures Walk(c, from, rolls) < k
  {
    if rolls != [] {
      var n := |rolls| - 1;
      WallHolds(c, k, from, rolls[..n]);
      var cell := Walk(c, from, rolls[..n]) + rolls[n];
      assert IsHead(c, cell) || cell < k;
      assert forall l :: l in c.ladders && l.start < k ==> l.end < k;
      assert forall l :: l in c.snakes && l.start < k ==> l.end < k;
    }
  }

  // ---------------------------------------------------------------------- the engine

  class SnakeLadderEngine {
    const config: Config
    var phase: Phase
    var playerPosition: int
    var aiPosition: int
    var winner: Option<Who>
    var lastRoll: int

    function Now(): Match
      reads this
    {
      Match(phase, playerPosition, aiPosition, winner, lastRoll)
    }

    constructor (config: Config)
      ensures this.config == config && Now() == Begun(config)
    {
      this.config := config;
      phase, playerPosition, aiPosition := Idle, config.start, config.start;
      winner, lastRoll := None, 0;
    }

    // Each call answers whether it was in turn.
    method Start() returns (ok: bool)
      modifies this
      ensures var after := Step(config, old(Now()), Call.Start);
              ok == after.Some? && Now() == if ok then after.value else old(Now())
    {
      ok := phase == Idle;
      if ok {
        phase := PlayerTurn;
      }
    }

    method Roll(draw: real) returns (ok: bool)
      modifies this
      ensures var after := Step(config, old(Now()), RollPlayer(draw));
              ok == after.Some? && Now() == if ok then after.value else old(Now())
    {
      if phase != PlayerTurn {
        return false;
      }
      var roll := Die(draw);
      lastRoll := roll;
      var target := playerPosition + roll;
      if target > config.end {
        var excess := target - config.end;
        target := config.end - excess;
      }
      playerPosition := target;
      ResolveTile(Player, target);
      return true;
    }

    method PlayAITurn(decision: real, draw: real) returns (ok: bool)
      modifies this
      ensures var after := Step(config, old(Now()), PlayAi(decision, draw));
              ok == after.Some? && Now() == if ok then after.value else old(Now())
    {
      if phase != AiTurn {
        return false;
      }
      var remaining := config.end - aiPosition;
      var failProbability := 0.0;
      if config.difficulty == Hard {
        failProbability := 0.1;
      }
      if config.difficulty == Easy {
        failProbability := 0.8;
      }
      if remaining <= 10 {
        failProbability := 0.8;
      }
      var optimal := decision > failProbability;
      var roll := Die(draw);
      if optimal && remaining <= 6 {
        roll := remaining;
      }
      lastRoll := roll;
      var target := aiPosition + roll;
      if target > config.end {
        var excess := target - config.end;
        target := config.end - excess;
      }
      aiPosition := target;
      ResolveTile(Ai, target);
      return true;
    }

    method ResolveTile(who: Who, position: int)
      modifies this
      ensures var cell, won := Landed(config, position), Landed(config, position) == config.end;
              Now() == Match(
                if won then GameOver else if who.Player? then AiTurn else PlayerTurn,
                if who.Player? then cell else old(playerPosition),
                if who.Ai? then cell else old(aiPosition),
                if won then Some(who) else old(winner),
                old(lastRoll))
    {
      var finalPos := position;
      var snake := FirstFrom(config.snakes, position);
      if snake.Some? {
        finalPos := snake.value.end;
      }
      var ladder := FirstFrom(config.ladders, position);
      if ladder.Some? {
        finalPos := ladder.value.end;
      }
      if who == Player {
        playerPosition := finalPos;
        if finalPos == config.end {
          phase, winner := GameOver, Some(Player);
        } else {
          phase := AiTurn;
        }
      } else {
        aiPosition := finalPos;
        if finalPos == config.end {
          phase, winner := GameOver, Some(Ai);
        } else {
          phase := PlayerTurn;
        }
      }
    }
  }
}
