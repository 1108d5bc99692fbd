// The player's builder: the same search over a grid keyed by "x,y" strings, followed by
// the shift that brings the board to the origin.
module CrosswordTs {
  import opened Wrappers
  import opened Text
  import opened CrosswordBoard
  import opened CrosswordRuns
  import opened CrosswordSearch

  datatype Cell = Cell(x: int, y: int, letter: char)
  type KeyedGrid = map<string, Cell>

  // A word of the level: its normalised answer and its trimmed clue.
  datatype Entry = Entry(answer: string, clue: string)

  datatype TsLayout = TsLayout(grid: KeyedGrid, placed: seq<Word>, unplaced: seq<Entry>, maxX: int, maxY: int)

  function Key(p: Point): string {
    CellKey(p.x, p.y)
  }

  ghost predicate Represents(cells: KeyedGrid, g: Grid) {
    && (forall p :: p in g ==> Key(p) in cells && cells[Key(p)] == Cell(p.x, p.y, g[p]))
    && (forall k :: k in cells ==> Point(cells[k].x, cells[k].y) in g && k == CellKey(cells[k].x, cells[k].y))
  }

  // Looking a key up tells about that one cell only, because keys are injective.
  lemma KeysMeanCells(cells: KeyedGrid, g: Grid)
    requires Represents(cells, g)
    ensures forall p :: Key(p) in cells <==> p in g
    ensures forall p :: p in g ==> cells[Key(p)].letter == g[p]
  {
    forall p | Key(p) in cells
      ensures p in g
    {
      var c := cells[Key(p)];
      CellKeyInjective(p.x, p.y, c.x, c.y);
    }
  }

  method CanPlaceWord(letters: string, start: Point, vertical: bool, cells: KeyedGrid, ghost g: Grid)
    returns (ok: bool)
    requires Represents(cells, g)
    ensures ok <==> Legal(letters, start, vertical, g)
  {
    hide CellKey;
    KeysMeanCells(cells, g);
    var intersections := 0;
    for i := 0 to |letters|
      invariant forall j :: 0 <= j < i ==> FitsAt(letters[j], Step(start, vertical, j), vertical, g)
      invariant intersections > 0 <==> exists j :: 0 <= j < i && Step(start, vertical, j) in g
      invariant intersections >= 0
    {
      var p := Step(start, vertical, i);
      if Key(p) in cells {
        if cells[Key(p)].letter != letters[i] {
          assert !FitsAt(letters[i], p, vertical, g);
          return false;
        }
        intersections := intersections + 1;
        continue;
      }
      if Key(Step(p, !vertical, -1)) in cells || Key(Step(p, !vertical, 1)) in cells {
        assert !FitsAt(letters[i], p, vertical, g);
        return false;
      }
    }
    if Key(Step(start, vertical, -1)) in cells || Key(Step(start, vertical, |letters|)) in cells {
      return false;
    }
    return intersections > 0;
  }

  method FindBestPlacement(letters: string, cells: KeyedGrid, placed: seq<Word>, ghost g: Grid)
    returns (best: Option<Placement>)
    requires Represents(cells, g)
    ensures Best(letters, Layout(g, placed), best) && Nearest(letters, Layout(g, placed), best)
  {
    hide LegalCrossing, Represents, Nearest;
    ghost var l := Layout(g, placed);
    best := None;
    BoundStarts(letters, l);
    for wi := 0 to |letters|
      invariant BestBefore(letters, l, Crossing(wi, 0, 0), best)
    {
      for k := 0 to |placed|
        invariant BestBefore(letters, l, Crossing(wi, k, 0), best)
      {
        for pi := 0 to |placed[k].answer|
          invariant BestBefore(letters, l, Crossing(wi, k, pi), best)
        {
          best := Consider(letters, cells, placed, Crossing(wi, k, pi), best, g);
        }
        BoundEndsWord(letters, l, wi, k, best);
      }
      BoundEndsLetter(letters, l, wi, best);
    }
    BestIsNearest(letters, l, best);
  }

  // The body of the innermost loop.
  method Consider(
      letters: string, cells: KeyedGrid, placed: seq<Word>, here: Crossing, best: Option<Placement>, ghost g: Grid)
    returns (next: Option<Placement>)
    requires Represents(cells, g)
    requires here.wi < |letters| && here.k < |placed| && here.pi < |placed[here.k].answer|
    requires BestBefore(letters, Layout(g, placed), here, best)
    ensures BestBefore(letters, Layout(g, placed), here.(pi := here.pi + 1), next)
  {
    ghost var l := Layout(g, placed);
    if placed[here.k].answer[here.pi] == letters[here.wi] {
      var p := Spot(here, placed[here.k]);
      var ok := CanPlaceWord(letters, p.at, p.vertical, cells, g);
      if ok {
        BoundTakes(letters, l, here, best);
        return if best.None? || p.score < best.value.score then Some(p) else best;
      }
    }
    BoundPasses(letters, l, here, best);
    return best;
  }

  class KeyedBoard {
    var cells: KeyedGrid
    var placed: seq<Word>
    ghost var grid: Grid

    ghost predicate Valid()
      reads this
    {
      Represents(cells, grid)
    }

    ghost function Now(): Layout
      reads this
    {
      Layout(grid, placed)
    }

    constructor ()
      ensures Valid() && Now() == EMPTY_LAYOUT
    {
      cells, placed, grid := map[], [], map[];
    }

    method PlaceWord(answer: string, at: Point, vertical: bool)
      requires Valid()
      modifies this
      ensures Valid() && Now() == Placed(old(Now()), answer, at, vertical)
    {
      hide CellKey;
      placed := placed + [Word(answer, at, vertical)];
      for i := 0 to |answer|
        invariant placed == old(placed) + [Word(answer, at, vertical)]
        invariant grid == Written(old(grid), answer[..i], at, vertical)
        invariant Valid()
      {
        var p := Step(at, vertical, i);
        WriteKeepsMeaning(cells, grid, p, answer[i]);
        cells := cells[Key(p) := Cell(p.x, p.y, answer[i])];
        grid := grid[p := answer[i]];
        assert answer[..i + 1][..i] == answer[..i];
      }
      assert answer[..|answer|] == answer;
    }
  }

  lemma WriteKeepsMeaning(cells: KeyedGrid, g: Grid, p: Point, letter: char)
    requires Represents(cells, g)
    ensures Represents(cells[Key(p) := Cell(p.x, p.y, letter)], g[p := letter])
  {
    forall q | Key(q) == Key(p)
      ensures q == p
    {
      CellKeyInjective(q.x, q.y, p.x, p.y);
    }
  }

  // ------------------------------------------------------ bringing it to the origin

  ghost predicate TouchesX(g: Grid, x: int) {
    exists p :: p in g && p.x == x
  }

  ghost predicate TouchesY(g: Grid, y: int) {
    exists p :: p in g && p.y == y
  }

  ghost predicate Within(g: Grid, minX: int, minY: int, maxX: int, maxY: int) {
    forall p :: p in g ==> minX <= p.x <= maxX && minY <= p.y <= maxY
  }

  // All cells lie in the box and every side of the box is touched.
  ghost predicate InFrame(g: Grid, minX: int, minY: int, maxX: int, maxY: int) {
    && Within(g, minX, minY, maxX, maxY)
    && TouchesX(g, minX) && TouchesX(g, maxX) && TouchesY(g, minY) && TouchesY(g, maxY)
  }

  // The same of the string-keyed cells, with the corner at the origin.
  ghost predicate Fills(cells: KeyedGrid, maxX: int, maxY: int) {
    && (forall k :: k in cells ==> 0 <= cells[k].x <= maxX && 0 <= cells[k].y <= maxY)
    && (exists k :: k in cells && cells[k].x == 0) && (exists k :: k in cells && cells[k].x == maxX)
    && (exists k :: k in cells && cells[k].y == 0) && (exists k :: k in cells && cells[k].y == maxY)
  }

  lemma FramedFills(cells: KeyedGrid, g: Grid, maxX: int, maxY: int)
    requires Represents(cells, g) && InFrame(g, 0, 0, maxX, maxY)
    ensures Fills(cells, maxX, maxY)
  {
    KeyAtX(cells, g, 0);
    KeyAtX(cells, g, maxX);
    KeyAtY(cells, g, 0);
    KeyAtY(cells, g, maxY);
    forall k | k in cells
      ensures 0 <= cells[k].x <= maxX && 0 <= cells[k].y <= maxY
    {
      assert Point(cells[k].x, cells[k].y) in g;
    }
  }

  lemma KeyAtX(cells: KeyedGrid, g: Grid, x: int)
    requires Represents(cells, g) && TouchesX(g, x)
    ensures exists k :: k in cells && cells[k].x == x
  {
    var p :| p in g && p.x == x;
    assert Key(p) in cells && cells[Key(p)].x == x;
  }

  lemma KeyAtY(cells: KeyedGrid, g: Grid, y: int)
    requires Represents(cells, g) && TouchesY(g, y)
    ensures exists k :: k in cells && cells[k].y == y
  {
    var p :| p in g && p.y == y;
    assert Key(p) in cells && cells[Key(p)].y == y;
  }

  method Corner(cells: KeyedGrid, ghost g: Grid) returns (minX: int, minY: int, maxX: int, maxY: int)
    requires Represents(cells, g) && cells != map[]
    ensures InFrame(g, minX, minY, maxX, maxY)
  {
    hide CellKey;
    var first :| first in cells;
    minX, minY, maxX, maxY := cells[first].x, cells[first].y, cells[first].x, cells[first].y;
    var rest := cells.Keys - {first};
    assert Point(minX, minY) in g;
    while rest != {}
      invariant rest <= cells.Keys
      invariant forall k :: k in cells && k !in rest ==> minX <= cells[k].x <= maxX && minY <= cells[k].y <= maxY
      invariant TouchesX(g, minX) && TouchesX(g, maxX) && TouchesY(g, minY) && TouchesY(g, maxY)
      decreases |rest|
    {
      var k :| k in rest;
      rest := rest - {k};
      var c := cells[k];
      assert Point(c.x, c.y) in g;
      minX, minY := if c.x < minX then c.x else minX, if c.y < minY then c.y else minY;
      maxX, maxY := if maxX < c.x then c.x else maxX, if maxY < c.y then c.y else maxY;
    }
    forall p | p in g
      ensures minX <= p.x <= maxX && minY <= p.y <= maxY
    {
      assert Key(p) in cells;
    }
  }

  function MovedCell(c: Cell, dx: int, dy: int): Cell {
    Cell(c.x + dx, c.y + dy, c.letter)
  }

  function KeyOf(c: Cell): string {
    CellKey(c.x, c.y)
  }

  // out holds the moved copy of every cell of `cells` whose key is in `done`, and nothing else.
  ghost predicate MovedSoFar(cells: KeyedGrid, out: KeyedGrid, done: set<string>, dx: int, dy: int) {
    && (forall k :: k in cells && k in done ==>
         var c := MovedCell(cells[k], dx, dy);
         KeyOf(c) in out && out[KeyOf(c)] == c)
    && (forall k :: k in out ==>
         exists j :: j in cells && j in done && out[k] == MovedCell(cells[j], dx, dy) && k == KeyOf(out[k]))
  }

  lemma MoveOneMore(cells: KeyedGrid, out: KeyedGrid, done: set<string>, k: string, dx: int, dy: int)
    requires MovedSoFar(cells, out, done, dx, dy) && k in cells
    requires forall j :: j in cells ==> j == KeyOf(cells[j])
    ensures
      var c := MovedCell(cells[k], dx, dy);
      MovedSoFar(cells, out[KeyOf(c) := c], done + {k}, dx, dy)
  {
    hide CellKey;
    var c := MovedCell(cells[k], dx, dy);
    forall j | j in cells && KeyOf(MovedCell(cells[j], dx, dy)) == KeyOf(c)
      ensures j == k
    {
      var d := MovedCell(cells[j], dx, dy);
      CellKeyInjective(c.x, c.y, d.x, d.y);
      assert KeyOf(cells[j]) == KeyOf(cells[k]);
    }
  }

  lemma MovedIsRepresented(cells: KeyedGrid, out: KeyedGrid, g: Grid, dx: int, dy: int)
    requires Represents(cells, g) && MovedSoFar(cells, out, cells.Keys, dx, dy)
    ensures Represents(out, MovedGrid(g, dx, dy))
  {
    hide CellKey, MovedGrid, MovedSoFar;
    forall p | p in MovedGrid(g, dx, dy)
      ensures Key(p) in out && out[Key(p)] == Cell(p.x, p.y, MovedGrid(g, dx, dy)[p])
    {
      MovedPointIsKeyed(cells, out, g, dx, dy, p);
    }
    forall k | k in out
      ensures Point(out[k].x, out[k].y) in MovedGrid(g, dx, dy) && k == CellKey(out[k].x, out[k].y)
    {
      MovedKeyIsPoint(cells, out, g, dx, dy, k);
    }
  }

  lemma MovedPointIsKeyed(cells: KeyedGrid, out: KeyedGrid, g: Grid, dx: int, dy: int, p: Point)
    requires Represents(cells, g) && MovedSoFar(cells, out, cells.Keys, dx, dy)
    requires p in MovedGrid(g, dx, dy)
    ensures Key(p) in out && out[Key(p)] == Cell(p.x, p.y, MovedGrid(g, dx, dy)[p])
  {
    hide CellKey, MovedGrid;
    var q := Move(p, -dx, -dy);
    assert q in g && cells[Key(q)] == Cell(q.x, q.y, g[q]);
    assert MovedCell(cells[Key(q)], dx, dy) == Cell(p.x, p.y, g[q]);
  }

  lemma MovedKeyIsPoint(cells: KeyedGrid, out: KeyedGrid, g: Grid, dx: int, dy: int, k: string)
    requires Represents(cells, g) && MovedSoFar(cells, out, cells.Keys, dx, dy)
    requires k in out
    ensures Point(out[k].x, out[k].y) in MovedGrid(g, dx, dy) && k == CellKey(out[k].x, out[k].y)
  {
    hide CellKey, MovedGrid;
    var j :| j in cells && out[k] == MovedCell(cells[j], dx, dy) && k == KeyOf(out[k]);
    MovedIn(g, dx, dy, Point(cells[j].x, cells[j].y));
  }

  lemma MovedIn(g: Grid, dx: int, dy: int, p: Point)
    requires p in g
    ensures Move(p, dx, dy) in MovedGrid(g, dx, dy)
  {
    assert Move(Move(p, dx, dy), -dx, -dy) == p;
  }

  lemma MovedIsFramed(g: Grid, dx: int, dy: int, minX: int, minY: int, maxX: int, maxY: int)
    requires InFrame(g, minX, minY, maxX, maxY)
    ensures InFrame(MovedGrid(g, dx, dy), minX + dx, minY + dy, maxX + dx, maxY + dy)
  {
    MovedTouches(g, dx, dy, minX, minY);
    MovedTouches(g, dx, dy, maxX, maxY);
    forall p | p in MovedGrid(g, dx, dy)
      ensures minX + dx <= p.x <= maxX + dx && minY + dy <= p.y <= maxY + dy
    {
      assert Move(p, -dx, -dy) in g;
    }
  }

  lemma MovedTouches(g: Grid, dx: int, dy: int, x: int, y: int)
    requires TouchesX(g, x) && TouchesY(g, y)
    ensures TouchesX(MovedGrid(g, dx, dy), x + dx) && TouchesY(MovedGrid(g, dx, dy), y + dy)
  {
    hide MovedGrid;
    var a :| a in g && a.x == x;
    var b :| b in g && b.y == y;
    MovedIn(g, dx, dy, a);
    MovedIn(g, dx, dy, b);
  }

  // Builds the shifted copy cell by cell; the shift brings both minima to 0.
  method NormalizeLayout(cells: KeyedGrid, placed: seq<Word>, ghost g: Grid)
    returns (out: KeyedGrid, words: seq<Word>, maxX: int, maxY: int, ghost dx: int, ghost dy: int)
    requires Represents(cells, g)
    ensures Represents(out, MovedGrid(g, dx, dy)) && words == MovedWords(placed, dx, dy)
    ensures cells != map[] ==> InFrame(MovedGrid(g, dx, dy), 0, 0, maxX, maxY) && Fills(out, maxX, maxY)
    ensures cells == map[] ==> dx == dy == maxX == maxY == 0 && out == map[]
  {
    hide *;
    if cells == map[] {
      EmptyGridStays(cells, g, placed);
      return cells, placed, 0, 0, 0, 0;
    }
    var minX, minY, farX, farY := Corner(cells, g);
    out := ShiftCells(cells, -minX, -minY, g);
    MovedIsFramed(g, -minX, -minY, minX, minY, farX, farY);
    FramedFills(out, MovedGrid(g, -minX, -minY), farX - minX, farY - minY);
    return out, MovedWords(placed, -minX, -minY), farX - minX, farY - minY, -minX, -minY;
  }

  method ShiftCells(cells: KeyedGrid, dx: int, dy: int, ghost g: Grid) returns (out: KeyedGrid)
    requires Represents(cells, g)
    ensures Represents(out, MovedGrid(g, dx, dy))
  {
    hide CellKey, MovedGrid;
    assert forall k :: k in cells ==> k == KeyOf(cells[k]);
    out := map[];
    var rest := cells.Keys;
    while rest != {}
      invariant rest <= cells.Keys
      invariant MovedSoFar(cells, out, cells.Keys - rest, dx, dy)
      decreases |rest|
    {
      hide MovedSoFar;
      var k :| k in rest;
      var c := MovedCell(cells[k], dx, dy);
      MoveOneMore(cells, out, cells.Keys - rest, k, dx, dy);
      assert cells.Keys - rest + {k} == cells.Keys - (rest - {k});
      out := out[KeyOf(c) := c];
      rest := rest - {k};
    }
    assert cells.Keys - {} == cells.Keys;
    MovedIsRepresented(cells, out, g, dx, dy);
  }

  lemma EmptyGridStays(cells: KeyedGrid, g: Grid, placed: seq<Word>)
    requires Represents(cells, g) && cells == map[]
    ensures Represents(cells, MovedGrid(g, 0, 0)) && placed == MovedWords(placed, 0, 0)
  {
    hide MovedGrid;
    assert forall p :: p in g ==> Key(p) in cells;
  }
}
