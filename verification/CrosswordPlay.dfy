// Playing a built crossword: an engine object whose calls come in any order.
module CrosswordPlay {
  import opened Wrappers
  import opened CrosswordBoard

  datatype State = State(
    score: nat, finished: bool, user: Grid, selected: Option<Point>, across: bool, locked: set<Point>)

  // One public call; a typed character has already been cut to its first normalised letter.
  datatype Call =
    | InputChar(letter: Option<char>)
    | SelectCell(p: Point)
    | Navigate(dx: int, dy: int)
    | Validate
    | Reset

  // ----------------------------------------------------------- what a call does

  ghost function Correct(grid: Grid, user: Grid): set<Point> {
    set p | p in grid && p in user && user[p] == grid[p]
  }

  ghost function CorrectAmong(grid: Grid, user: Grid, cells: set<Point>): set<Point> {
    set p | p in cells && p in grid && p in user && user[p] == grid[p]
  }

  // Looking at one more cell: what becomes of the correct cells, their number, and
  // whether all cells seen so far are correct.
  lemma CorrectOneMore(grid: Grid, user: Grid, cells: set<Point>, p: Point)
    requires p in grid && p !in cells
    ensures var right, more := CorrectAmong(grid, user, cells), CorrectAmong(grid, user, cells + {p});
            if p in user && user[p] == grid[p] then
              more == right + {p} && |more| == |right| + 1 && (more == cells + {p} <==> right == cells)
            else
              more == right && more != cells + {p}
  {
    var right, more := CorrectAmong(grid, user, cells), CorrectAmong(grid, user, cells + {p});
    assert p !in right && p in cells + {p};
    if p in user && user[p] == grid[p] {
      assert more == right + {p};
      assert right == more - {p} && cells == cells + {p} - {p};
    } else {
      assert more == right;
    }
  }

  lemma NoCellsYet(grid: Grid, user: Grid)
    ensures CorrectAmong(grid, user, {}) == {}
  {
  }

  lemma AllCells(grid: Grid, user: Grid)
    ensures CorrectAmong(grid, user, grid.Keys) == Correct(grid, user)
  {
  }

  ghost function Validated(grid: Grid, s: State): State {
    var right := Correct(grid, s.user);
    s.(score := 10 * |right|, locked := right, finished := s.finished || (grid != map[] && right == grid.Keys))
  }

  ghost function Typed(grid: Grid, s: State, letter: Option<char>): State {
    if s.finished || s.selected.None? || s.selected.value !in grid || s.selected.value in s.locked then s
    else
      var p := s.selected.value;
      if letter.None? then Validated(grid, s.(user := s.user - {p}))
      else
        var next := Step(p, !s.across, 1);
        var moved := if next in grid then Some(next) else s.selected;
        Validated(grid, s.(user := s.user[p := letter.value], selected := moved))
  }

  ghost function Selected(grid: Grid, s: State, p: Point): State {
    if p !in grid then s
    else if s.selected == Some(p) then s.(across := !s.across)
    else
      var h := Step(p, false, 1) in grid || Step(p, false, -1) in grid;
      var v := Step(p, true, 1) in grid || Step(p, true, -1) in grid;
      s.(selected := Some(p), across := if h && !v then true else if v && !h then false else s.across)
  }

  ghost function Apply(grid: Grid, s: State, call: Call): State {
    match call
    case InputChar(letter) => Typed(grid, s, letter)
    case SelectCell(p) => Selected(grid, s, p)
    case Navigate(dx, dy) =>
      if s.selected.None? then s
      else
        var q := Point(s.selected.value.x + dx, s.selected.value.y + dy);
        if q in grid then s.(selected := Some(q)) else s
    case Validate => Validated(grid, s)
    case Reset => Fresh()
  }

  ghost function Fresh(): State {
    State(0, false, map[], None, true, {})
  }

  ghost function Run(grid: Grid, s: State, calls: seq<Call>): State
    decreases |calls|
  {
    if calls == [] then s else Run(grid, Apply(grid, s, calls[0]), calls[1..])
  }

  // ------------------------------------------------------------- the engine

  class CrosswordEngine {
    const grid: Grid
    var score: nat
    var finished: bool
    var user: Grid
    var selected: Option<Point>
    var across: bool
    var locked: set<Point>

    ghost function Now(): State
      reads this
    {
      State(score, finished, user, selected, across, locked)
    }

    constructor (grid: Grid)
      ensures this.grid == grid && Now() == Fresh()
    {
      this.grid := grid;
      score, finished, user, selected, across, locked := 0, false, map[], None, true, {};
    }

    method InputCharacter(letter: Option<char>)
      modifies this
      ensures Now() == Apply(grid, old(Now()), InputChar(letter))
    {
      if finished || selected.None? {
        return;
      }
      var p := selected.value;
      if p !in grid || p in locked {
        return;
      }
      if letter.None? {
        user := user - {p};
        ValidateAll();
        return;
      }
      user := user[p := letter.value];
      var next := Point(p.x + (if across then 1 else 0), p.y + (if across then 0 else 1));
      if next in grid {
        selected := Some(next);
      }
      ValidateAll();
    }

    method Select(p: Point)
      modifies this
      ensures Now() == Apply(grid, old(Now()), SelectCell(p))
    {
      if p !in grid {
        return;
      }
      if selected == Some(p) {
        across := !across;
      } else {
        selected := Some(p);
        var h := Point(p.x + 1, p.y) in grid || Point(p.x - 1, p.y) in grid;
        var v := Point(p.x, p.y + 1) in grid || Point(p.x, p.y - 1) in grid;
        if h && !v {
          across := true;
        }
        if v && !h {
          across := false;
        }
      }
    }

    method Move(dx: int, dy: int)
      modifies this
      ensures Now() == Apply(grid, old(Now()), Navigate(dx, dy))
    {
      if selected.None? {
        return;
      }
      var q := Point(selected.value.x + dx, selected.value.y + dy);
      if q in grid {
        selected := Some(q);
      }
    }

    method ValidateAll()
      modifies this
      ensures Now() == Apply(grid, old(Now()), Validate)
    {
      hide Correct;
      var allCorrect, correctCount, right := CheckCells();
      score := correctCount * 10;
      locked := right;
      if allCorrect && grid != map[] {
        finished := true;
      }
    }

    // The loop over the cells: the correct ones, and whether all are.
    method CheckCells() returns (allCorrect: bool, correctCount: nat, right: set<Point>)
      ensures right == Correct(grid, user) && correctCount == |right|
      ensures allCorrect <==> right == grid.Keys
    {
      hide CorrectAmong, Correct;
      allCorrect, correctCount, right := true, 0, {};
      NoCellsYet(grid, user);
      var rest := grid.Keys;
      ghost var done := {};
      while rest != {}
        invariant done == grid.Keys - rest && rest <= grid.Keys
        invariant right == CorrectAmong(grid, user, done)
        invariant correctCount == |right|
        invariant allCorrect <==> right == done
        decreases |rest|
      {
        var p :| p in rest;
        CorrectOneMore(grid, user, done, p);
        if p in user && user[p] == grid[p] {
          correctCount := correctCount + 1;
          right := right + {p};
        } else {
          allCorrect := false;
        }
        rest, done := rest - {p}, done + {p};
      }
      assert done == grid.Keys;
      AllCells(grid, user);
    }

    method Restart()
      modifies this
      ensures Now() == Apply(grid, old(Now()), Reset)
    {
      user, score, finished, selected, across, locked := map[], 0, false, None, true, {};
    }
  }

  // ------------------------------------------------------- what every run keeps

  ghost predicate Sound(grid: Grid, s: State) {
    && s.user.Keys <= grid.Keys
    && (s.selected.Some? ==> s.selected.value in grid)
    && s.locked == Correct(grid, s.user)
    && s.score == 10 * |s.locked|
    && (s.finished <==> grid != map[] && s.locked == grid.Keys)
  }

  lemma ApplyKeepsSound(grid: Grid, s: State, call: Call)
    requires Sound(grid, s)
    ensures Sound(grid, Apply(grid, s, call))
    ensures !call.Reset? ==> s.locked <= Apply(grid, s, call).locked
  {
  }

  // Whatever is called in whatever order: typed letters lie on the board, exactly the
  // correct cells are locked and paid, and the game is over exactly when all are correct.
  lemma {:induction false} RunKeepsSound(grid: Grid, s: State, calls: seq<Call>)
    requires Sound(grid, s)
    ensures Sound(grid, Run(grid, s, calls))
    decreases |calls|
  {
    if calls != [] {
      ApplyKeepsSound(grid, s, calls[0]);
      RunKeepsSound(grid, Apply(grid, s, calls[0]), calls[1..]);
    }
  }

  lemma FreshIsSound(grid: Grid)
    ensures Sound(grid, Fresh())
  {
    assert grid != map[] ==> grid.Keys != {};
  }

  // Until the next reset no cell is unlocked and the score never drops.
  lemma {:induction false} RunNeverUnlocks(grid: Grid, s: State, calls: seq<Call>)
    requires Sound(grid, s) && forall c :: c in calls ==> !c.Reset?
    ensures s.locked <= Run(grid, s, calls).locked
    ensures s.score <= Run(grid, s, calls).score
    decreases |calls|
  {
    if calls != [] {
      var next := Apply(grid, s, calls[0]);
      ApplyKeepsSound(grid, s, calls[0]);
      RunNeverUnlocks(grid, next, calls[1..]);
      SubsetIsSmaller(s.locked, next.locked);
    }
  }

  // ------------------------------------------------------ the game can be won

  ghost function Answering(grid: Grid, cells: seq<Point>): seq<Call>
    requires forall p :: p in cells ==> p in grid
  {
    if cells == [] then []
    else [SelectCell(cells[0]), InputChar(Some(grid[cells[0]]))] + Answering(grid, cells[1..])
  }

  lemma AnswerOneCell(grid: Grid, s: State, p: Point)
    requires Sound(grid, s) && p in grid
    ensures var t := Apply(grid, Apply(grid, s, SelectCell(p)), InputChar(Some(grid[p])));
            Sound(grid, t) && s.locked + {p} <= t.locked
  {
    var mid := Apply(grid, s, SelectCell(p));
    ApplyKeepsSound(grid, s, SelectCell(p));
    ApplyKeepsSound(grid, mid, InputChar(Some(grid[p])));
    assert mid.selected == Some(p) && mid.locked == s.locked;
  }

  // From any state of any game, choosing each cell in any order and typing its letter
  // ends the game with ten points a cell.
  lemma {:induction false} AnsweringWins(grid: Grid, s: State, cells: seq<Point>)
    requires Sound(grid, s) && grid != map[]
    requires forall p :: p in cells ==> p in grid
    requires grid.Keys <= s.locked + set p | p in cells
    ensures var t := Run(grid, s, Answering(grid, cells)); t.finished && t.score == 10 * |grid|
    decreases |cells|
  {
    if cells == [] {
      assert s.locked == grid.Keys;
      assert |grid.Keys| == |grid|;
    } else {
      var a, b := SelectCell(cells[0]), InputChar(Some(grid[cells[0]]));
      var t := Apply(grid, Apply(grid, s, a), b);
      AnswerOneCell(grid, s, cells[0]);
      AnsweringWins(grid, t, cells[1..]);
      RunTwo(grid, s, a, b, Answering(grid, cells[1..]));
    }
  }

  lemma RunTwo(grid: Grid, s: State, a: Call, b: Call, rest: seq<Call>)
    ensures Run(grid, s, [a, b] + rest) == Run(grid, Apply(grid, Apply(grid, s, a), b), rest)
  {
    assert ([a, b] + rest)[1..] == [b] + rest;
    assert ([b] + rest)[1..] == rest;
  }

  // ------------------------------------------------- where typing moves the selection

  // The i-th cell from p on, to the right or downwards.
  function Ahead(p: Point, across: bool, i: int): Point {
    Point(p.x + (if across then i else 0), p.y + (if across then 0 else i))
  }

  ghost predicate OpenRun(grid: Grid, s: State, p: Point, n: nat) {
    forall i :: 0 <= i < n ==> Ahead(p, s.across, i) in grid && Ahead(p, s.across, i) !in s.locked
  }

  // What one typed letter does: it is written on the selected cell, the selection goes on along
  // its direction when there is a cell, and every other cell keeps its letter.
  lemma TypedLetter(grid: Grid, s: State, p: Point, c: char)
    requires Sound(grid, s) && !s.finished && s.selected == Some(p) && p !in s.locked
    ensures var t, next := Apply(grid, s, InputChar(Some(c))), Ahead(p, s.across, 1);
            && Sound(grid, t) && t.across == s.across
            && t.user == s.user[p := c]
            && t.selected == Some(if next in grid then next else p)
            && t.locked == (if c == grid[p] then s.locked + {p} else s.locked)
  {
    var t := Apply(grid, s, InputChar(Some(c)));
    ApplyKeepsSound(grid, s, InputChar(Some(c)));
    forall q
      ensures q in t.locked <==> q in s.locked || (q == p && c == grid[p])
    {
    }
  }

  // Taking a letter back frees its cell and moves nothing.
  lemma TakenBack(grid: Grid, s: State, p: Point)
    requires Sound(grid, s) && !s.finished && s.selected == Some(p) && p !in s.locked
    ensures Apply(grid, s, InputChar(None)) == s.(user := s.user - {p})
  {
    var t := Apply(grid, s, InputChar(None));
    ApplyKeepsSound(grid, s, InputChar(None));
    forall q
      ensures q in t.locked <==> q in s.locked
    {
    }
    assert t.locked == s.locked;
  }

  ghost function Typing(grid: Grid, p: Point, across: bool, n: nat): seq<Call>
    requires forall i :: 0 <= i < n ==> Ahead(p, across, i) in grid
  {
    seq(n, i requires 0 <= i < n => InputChar(Some(grid[Ahead(p, across, i)])))
  }

  function CellsAhead(p: Point, across: bool, n: nat): set<Point> {
    set i | 0 <= i < n :: Ahead(p, across, i)
  }

  lemma FirstOfCells(p: Point, across: bool, n: nat)
    requires n > 0
    ensures CellsAhead(p, across, n) == {p} + CellsAhead(Ahead(p, across, 1), across, n - 1)
  {
    var q := Ahead(p, across, 1);
    assert Ahead(p, across, 0) == p;
    forall i | 0 < i < n
      ensures Ahead(p, across, i) in CellsAhead(q, across, n - 1)
    {
      assert Ahead(p, across, i) == Ahead(q, across, i - 1);
    }
    forall i | 0 <= i < n - 1
      ensures Ahead(q, across, i) in CellsAhead(p, across, n)
    {
      assert Ahead(q, across, i) == Ahead(p, across, i + 1);
    }
  }

  // All cells of the run are locked and paid, no other cell changes, and the selection stands
  // behind the run when cells go on there, else on its last cell.
  ghost predicate Answers(grid: Grid, s: State, t: State, p: Point, n: nat) {
    && t.locked == s.locked + CellsAhead(p, s.across, n)
    && t.score == s.score + 10 * n
    && t.selected == Some(if Ahead(p, s.across, n) in grid then Ahead(p, s.across, n) else Ahead(p, s.across, n - 1))
    && t.across == s.across && Sound(grid, t)
  }

  // Typing a word's letters in order from its first cell on answers it.
  lemma {:induction false} TypingARunAnswersIt(grid: Grid, s: State, p: Point, n: nat)
    requires Sound(grid, s) && !s.finished && s.selected == Some(p) && n > 0 && OpenRun(grid, s, p, n)
    ensures Answers(grid, s, Run(grid, s, Typing(grid, p, s.across, n)), p, n)
    decreases n
  {
    TypingFirst(grid, p, s.across, n);
    var call := InputChar(Some(grid[p]));
    var u, q := Apply(grid, s, call), Ahead(p, s.across, 1);
    FirstAnswer(grid, s, p, n);
    hide *;
    RunOne(grid, s, call, Typing(grid, q, s.across, n - 1));
    if n == 1 {
      NothingTyped(grid, u, q);
    } else {
      RunStaysOpen(grid, s, u, p, n);
      TypingARunAnswersIt(grid, u, q, n - 1);
      AnswersBoth(grid, s, u, Run(grid, u, Typing(grid, q, u.across, n - 1)), p, n);
    }
  }

  lemma FirstAnswer(grid: Grid, s: State, p: Point, n: nat)
    requires Sound(grid, s) && !s.finished && s.selected == Some(p) && n > 0 && OpenRun(grid, s, p, n)
    requires p == Ahead(p, s.across, 0)
    ensures p in grid
    ensures var u := Apply(grid, s, InputChar(Some(grid[p])));
            && Answers(grid, s, u, p, 1) && u.across == s.across
            && u.locked == s.locked + {p} && Sound(grid, u)
            && (n > 1 ==> u.selected == Some(Ahead(p, s.across, 1)))
  {
    TypedLetter(grid, s, p, grid[p]);
    FirstOfCells(p, s.across, 1);
    hide Apply;
    var u := Apply(grid, s, InputChar(Some(grid[p])));
    assert |u.locked| == |s.locked| + 1;
    assert CellsAhead(Ahead(p, s.across, 1), s.across, 0) == {};
  }

  lemma AnswersBoth(grid: Grid, s: State, u: State, t: State, p: Point, n: nat)
    requires n > 1 && Answers(grid, s, u, p, 1) && Answers(grid, u, t, Ahead(p, s.across, 1), n - 1)
    ensures Answers(grid, s, t, p, n)
  {
    var q := Ahead(p, s.across, 1);
    FirstOfCells(p, s.across, 1);
    FirstOfCells(p, s.across, n);
    assert CellsAhead(q, s.across, 0) == {};
    assert Ahead(q, s.across, n - 1) == Ahead(p, s.across, n);
    assert Ahead(q, s.across, n - 2) == Ahead(p, s.across, n - 1);
    hide CellsAhead, Sound;
  }

  lemma NothingTyped(grid: Grid, s: State, q: Point)
    ensures Run(grid, s, Typing(grid, q, s.across, 0)) == s && CellsAhead(q, s.across, 0) == {}
  {
  }

  lemma TypingFirst(grid: Grid, p: Point, across: bool, n: nat)
    requires n > 0 && forall i :: 0 <= i < n ==> Ahead(p, across, i) in grid
    ensures Ahead(p, across, 0) == p && forall i :: 0 <= i < n - 1 ==> Ahead(Ahead(p, across, 1), across, i) in grid
    ensures Typing(grid, p, across, n) == [InputChar(Some(grid[p]))] + Typing(grid, Ahead(p, across, 1), across, n - 1)
  {
    var q := Ahead(p, across, 1);
    assert forall i :: 0 <= i < n - 1 ==> Ahead(q, across, i) == Ahead(p, across, i + 1);
  }

  lemma RunOne(grid: Grid, s: State, call: Call, rest: seq<Call>)
    ensures Run(grid, s, [call] + rest) == Run(grid, Apply(grid, s, call), rest)
  {
    assert ([call] + rest)[1..] == rest;
  }

  lemma RunStaysOpen(grid: Grid, s: State, u: State, p: Point, n: nat)
    requires OpenRun(grid, s, p, n) && n > 1 && u.across == s.across && u.locked == s.locked + {p} && Sound(grid, u)
    ensures var q := Ahead(p, s.across, 1); q in grid && OpenRun(grid, u, q, n - 1) && !u.finished
  {
    var q := Ahead(p, s.across, 1);
    assert forall i :: 0 <= i < n - 1 ==> Ahead(q, s.across, i) == Ahead(p, s.across, i + 1) != p;
    assert q in grid && q !in u.locked;
  }

  predicate HasNeighbour(grid: Grid, p: Point, across: bool) {
    Ahead(p, across, 1) in grid || Ahead(p, across, -1) in grid
  }

  // Choosing another cell takes its only direction, if it has only one, and keeps the old
  // direction otherwise; choosing it again turns it; both leave letters and score alone.
  lemma ChosenDirection(grid: Grid, s: State, p: Point)
    requires Sound(grid, s) && p in grid && s.selected != Some(p)
    ensures var t, h, v := Apply(grid, s, SelectCell(p)), HasNeighbour(grid, p, true), HasNeighbour(grid, p, false);
            && t.selected == Some(p)
            && (h && !v ==> t.across) && (v && !h ==> !t.across) && (h == v ==> t.across == s.across)
            && t.user == s.user && t.locked == s.locked && t.score == s.score && t.finished == s.finished
            && Apply(grid, t, SelectCell(p)) == t.(across := !t.across)
  {
  }

  // So choosing a cell with neighbours in one direction only and typing goes on in that
  // direction; choosing it twice and typing goes the other way, where there is no cell.
  lemma TypingFollowsTheOnlyDirection(grid: Grid, s: State, p: Point, across: bool, c: char)
    requires Sound(grid, s) && !s.finished && p in grid && p !in s.locked && s.selected != Some(p)
    requires HasNeighbour(grid, p, across) && !HasNeighbour(grid, p, !across)
    ensures var next := Ahead(p, across, 1);
            Run(grid, s, [SelectCell(p), InputChar(Some(c))]).selected == Some(if next in grid then next else p)
    ensures Run(grid, s, [SelectCell(p), SelectCell(p), InputChar(Some(c))]).selected == Some(p)
  {
    ChosenDirection(grid, s, p);
    var t := Apply(grid, s, SelectCell(p));
    var u := Apply(grid, t, SelectCell(p));
    ApplyKeepsSound(grid, s, SelectCell(p));
    ApplyKeepsSound(grid, t, SelectCell(p));
    TypedLetter(grid, t, p, c);
    TypedLetter(grid, u, p, c);
    RunTwo(grid, s, SelectCell(p), InputChar(Some(c)), []);
    RunTwo(grid, s, SelectCell(p), SelectCell(p), [InputChar(Some(c))]);
    hide Apply;
    assert [SelectCell(p), InputChar(Some(c))] + [] == [SelectCell(p), InputChar(Some(c))];
    assert [SelectCell(p), SelectCell(p)] + [InputChar(Some(c))] == [SelectCell(p), SelectCell(p), InputChar(Some(c))];
    assert [InputChar(Some(c))][1..] == [];
  }

  // Moving goes exactly where it is told as long as there is a cell, so moving back undoes it.
  lemma NavigatingBack(grid: Grid, s: State, p: Point, dx: int, dy: int)
    requires Sound(grid, s) && s.selected == Some(p)
    ensures var t, q := Apply(grid, s, Navigate(dx, dy)), Point(p.x + dx, p.y + dy);
            && t == (if q in grid then s.(selected := Some(q)) else s)
            && (q in grid ==> Apply(grid, t, Navigate(-dx, -dy)) == s)
  {
  }

  // Whatever is typed where it does not belong changes nothing.
  lemma IgnoredTyping(grid: Grid, s: State, letter: Option<char>)
    requires Sound(grid, s)
    ensures s.finished || s.selected.None? || s.selected.value in s.locked ==> Apply(grid, s, InputChar(letter)) == s
  {
  }

  // Starting over from anywhere leaves a game as at the start.
  lemma ResetStartsOver(grid: Grid, s: State)
    ensures Apply(grid, s, Reset) == State(0, false, map[], None, true, {})
  {
  }
}
