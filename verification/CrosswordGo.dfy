// The server's builder: a grid keyed by points, searched and filled by nested loops.
module CrosswordGo {
  import opened Wrappers
  import opened CrosswordBoard
  import opened CrosswordSearch

  method CanPlaceCrosswordWord(letters: string, start: Point, vertical: bool, grid: Grid) returns (ok: bool)
    ensures ok <==> Legal(letters, start, vertical, grid)
  {
    var intersections := 0;
    for i := 0 to |letters|
      invariant forall j :: 0 <= j < i ==> FitsAt(letters[j], Step(start, vertical, j), vertical, grid)
      invariant intersections > 0 <==> exists j :: 0 <= j < i && Step(start, vertical, j) in grid
      invariant intersections >= 0
    {
      var point := Step(start, vertical, i);
      if point in grid {
        if grid[point] != letters[i] {
          assert !FitsAt(letters[i], point, vertical, grid);
          return false;
        }
        intersections := intersections + 1;
        continue;
      }
      if Step(point, !vertical, -1) in grid {
        assert !FitsAt(letters[i], point, vertical, grid);
        return false;
      }
      if Step(point, !vertical, 1) in grid {
        assert !FitsAt(letters[i], point, vertical, grid);
        return false;
      }
    }
    if Step(start, vertical, -1) in grid {
      return false;
    }
    if Step(start, vertical, |letters|) in grid {
      return false;
    }
    return intersections > 0;
  }

  method FindCrosswordPlacement(letters: string, grid: Grid, placed: seq<Word>) returns (best: Option<Placement>)
    ensures Best(letters, Layout(grid, placed), best) && Nearest(letters, Layout(grid, placed), best)
  {
    hide LegalCrossing, Nearest;
    ghost var l := Layout(grid, placed);
    best := None;
    BoundStarts(letters, l);
    for wi := 0 to |letters|
      invariant BestBefore(letters, l, Crossing(wi, 0, 0), best)
    {
      for k := 0 to |placed|
        invariant BestBefore(letters, l, Crossing(wi, k, 0), best)
      {
        for pi := 0 to |placed[k].answer|
          invariant BestBefore(letters, l, Crossing(wi, k, pi), best)
        {
          best := Consider(letters, grid, placed, Crossing(wi, k, pi), best);
        }
        BoundEndsWord(letters, l, wi, k, best);
      }
      BoundEndsLetter(letters, l, wi, best);
    }
    BestIsNearest(letters, l, best);
  }

  // The body of the innermost loop.
  method Consider(letters: string, grid: Grid, placed: seq<Word>, here: Crossing, best: Option<Placement>)
    returns (next: Option<Placement>)
    requires here.wi < |letters| && here.k < |placed| && here.pi < |placed[here.k].answer|
    requires BestBefore(letters, Layout(grid, placed), here, best)
    ensures BestBefore(letters, Layout(grid, placed), here.(pi := here.pi + 1), next)
  {
    ghost var l := Layout(grid, placed);
    if placed[here.k].answer[here.pi] == letters[here.wi] {
      var p := Spot(here, placed[here.k]);
      var ok := CanPlaceCrosswordWord(letters, p.at, p.vertical, grid);
      if ok {
        BoundTakes(letters, l, here, best);
        return if best.None? || p.score < best.value.score then Some(p) else best;
      }
    }
    BoundPasses(letters, l, here, best);
    return best;
  }

  class Board {
    var grid: Grid
    var placed: seq<Word>

    ghost function Now(): Layout
      reads this
    {
      Layout(grid, placed)
    }

    constructor ()
      ensures Now() == EMPTY_LAYOUT
    {
      grid, placed := map[], [];
    }

    method PlaceCrosswordWord(answer: string, at: Point, vertical: bool)
      modifies this
      ensures Now() == Placed(old(Now()), answer, at, vertical)
    {
      placed := placed + [Word(answer, at, vertical)];
      for i := 0 to |answer|
        invariant placed == old(placed) + [Word(answer, at, vertical)]
        invariant grid == Written(old(grid), answer[..i], at, vertical)
      {
        grid := grid[Step(at, vertical, i) := answer[i]];
        assert answer[..i + 1][..i] == answer[..i];
      }
      assert answer[..|answer|] == answer;
    }
  }

  // The board that the build leaves is returned as a ghost beside the source's count.
  method BuildConnectedCrosswordCount(words: seq<string>) returns (count: nat, ghost final: Layout)
    ensures words == [] ==> count == 0
    ensures words != [] ==> Built(words, final) && count == |final.placed|
  {
    final := EMPTY_LAYOUT;
    if |words| == 0 {
      return 0, final;
    }
    var board := new Board();
    board.PlaceCrosswordWord(words[0], Point(0, 0), false);
    ghost var t := [board.Now()];
    for n := 1 to |words|
      invariant Trace(words, t) && |t| == n && t[n - 1] == board.Now()
    {
      var placement := FindCrosswordPlacement(words[n], board.grid, board.placed);
      if placement.Some? {
        board.PlaceCrosswordWord(words[n], placement.value.at, placement.value.vertical);
      }
      TraceOneMore(words, t, placement);
      t := t + [board.Now()];
    }
    return |board.placed|, board.Now();
  }

  function Rotated(sorted: seq<string>, first: nat): seq<string>
    requires first < |sorted|
  {
    [sorted[first]] + sorted[..first] + sorted[first + 1..]
  }

  // Some choice of the first word lets the greedy build place every word.
  ghost predicate SomeOrderPlacesAll(sorted: seq<string>) {
    exists i: nat, l :: i < |sorted| && Built(Rotated(sorted, i), l) && |l.placed| == |sorted|
  }

  // The list comes in already ordered by falling length, as sort.Slice leaves it.
  method CanBuildConnectedCrossword(sorted: seq<string>) returns (ok: bool)
    ensures ok <==> |sorted| >= 2 && SomeOrderPlacesAll(sorted)
  {
    if |sorted| < 2 {
      return false;
    }
    for first := 0 to |sorted|
      invariant forall i: nat, l :: i < first && Built(Rotated(sorted, i), l) ==> |l.placed| != |sorted|
    {
      var count, final := BuildConnectedCrosswordCount(Rotated(sorted, first));
      forall l | Built(Rotated(sorted, first), l)
        ensures l == final
      {
        BuiltIsUnique(Rotated(sorted, first), l, final);
      }
      if count == |sorted| {
        return true;
      }
    }
    return false;
  }
}
