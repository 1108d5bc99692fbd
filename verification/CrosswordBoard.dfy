// The crossword board: points, the letter grid, placed words, and the facts that
// make a layout a proper crossword.  Both builders are proved against this module.
module CrosswordBoard {
  datatype Point = Point(x: int, y: int)
  datatype Word = Word(answer: string, at: Point, vertical: bool)
  datatype Layout = Layout(grid: Grid, placed: seq<Word>)

  type Grid = map<Point, char>

  // ---------------------------------------------------------------- geometry

  function Step(p: Point, vertical: bool, k: int): Point {
    if vertical then Point(p.x, p.y + k) else Point(p.x + k, p.y)
  }

  // How far p lies from `at` along the given direction.
  function Offset(at: Point, vertical: bool, p: Point): int {
    if vertical then p.y - at.y else p.x - at.x
  }

  // p is one of the n cells that start at `at`.
  predicate Covers(at: Point, vertical: bool, n: nat, p: Point) {
    && (if vertical then p.x == at.x else p.y == at.y)
    && 0 <= Offset(at, vertical, p) < n
  }

  predicate CoveredBy(w: Word, p: Point) {
    Covers(w.at, w.vertical, |w.answer|, p)
  }

  // The grid after the letters have been written over it.
  function Written(g: Grid, letters: string, at: Point, vertical: bool): (r: Grid)
    ensures forall p :: p in r <==> p in g || Covers(at, vertical, |letters|, p)
    ensures forall p :: p in r ==>
              r[p] == if Covers(at, vertical, |letters|, p) then letters[Offset(at, vertical, p)] else g[p]
  {
    if letters == "" then g
    else
      var last := |letters| - 1;
      Written(g, letters[..last], at, vertical)[Step(at, vertical, last) := letters[last]]
  }

  function Placed(l: Layout, answer: string, at: Point, vertical: bool): Layout {
    Layout(Written(l.grid, answer, at, vertical), l.placed + [Word(answer, at, vertical)])
  }

  // ------------------------------------------------------- legality of a spot

  // Every letter either agrees with the letter already there or lands on a free cell
  // with free cells on both sides; the cells just before and after the word are free.
  ghost predicate Fits(letters: string, at: Point, vertical: bool, g: Grid) {
    && (forall i :: 0 <= i < |letters| ==> FitsAt(letters[i], Step(at, vertical, i), vertical, g))
    && Step(at, vertical, -1) !in g
    && Step(at, vertical, |letters|) !in g
  }

  predicate FitsAt(letter: char, p: Point, vertical: bool, g: Grid) {
    if p in g then g[p] == letter
    else Step(p, !vertical, -1) !in g && Step(p, !vertical, 1) !in g
  }

  ghost predicate Legal(letters: string, at: Point, vertical: bool, g: Grid) {
    && Fits(letters, at, vertical, g)
    && exists i :: 0 <= i < |letters| && Step(at, vertical, i) in g
  }

  // ------------------------------------------------------ what a crossword is

  ghost predicate Run(g: Grid, at: Point, vertical: bool, n: nat) {
    forall i :: 0 <= i < n ==> Step(at, vertical, i) in g
  }

  ghost predicate MaximalRun(g: Grid, at: Point, vertical: bool, n: nat) {
    Run(g, at, vertical, n) && Step(at, vertical, -1) !in g && Step(at, vertical, n) !in g
  }

  ghost predicate ReadsBack(g: Grid, w: Word) {
    forall i :: 0 <= i < |w.answer| ==>
      Step(w.at, w.vertical, i) in g && g[Step(w.at, w.vertical, i)] == w.answer[i]
  }

  ghost predicate IsSpan(w: Word, at: Point, vertical: bool, n: nat) {
    w.at == at && w.vertical == vertical && |w.answer| == n
  }

  // Whatever reads as a word on the board is one of the placed words.
  ghost predicate NoAccidentalWords(l: Layout) {
    forall at, vertical, n: nat :: n >= 2 && MaximalRun(l.grid, at, vertical, n) ==>
      exists w :: w in l.placed && IsSpan(w, at, vertical, n)
  }

  ghost predicate NoStrayCells(l: Layout) {
    forall p :: p in l.grid ==> exists w :: w in l.placed && CoveredBy(w, p)
  }

  ghost predicate WellBuilt(l: Layout) {
    && (forall w :: w in l.placed ==> ReadsBack(l.grid, w))
    && NoStrayCells(l)
    && NoAccidentalWords(l)
    && Connected(l.grid)
  }

  // ------------------------------------------------------------- connectivity

  predicate Adjacent(p: Point, q: Point) {
    || (p.x == q.x && (p.y - q.y == 1 || q.y - p.y == 1))
    || (p.y == q.y && (p.x - q.x == 1 || q.x - p.x == 1))
  }

  ghost predicate IsPath(g: Grid, path: seq<Point>) {
    && path != []
    && (forall i :: 0 <= i < |path| ==> path[i] in g)
    && (forall i :: 0 < i < |path| ==> Adjacent(path[i - 1], path[i]))
  }

  ghost predicate Linked(g: Grid, p: Point, q: Point) {
    exists path :: IsPath(g, path) && path[0] == p && path[|path| - 1] == q
  }

  ghost predicate Connected(g: Grid) {
    forall p, q :: p in g && q in g ==> Linked(g, p, q)
  }

  function Reversed<T>(s: seq<T>): (r: seq<T>)
    ensures |r| == |s|
    ensures forall i :: 0 <= i < |s| ==> r[i] == s[|s| - 1 - i]
  {
    if s == [] then [] else Reversed(s[1..]) + [s[0]]
  }

  lemma LinkedSymmetric(g: Grid, p: Point, q: Point)
    requires Linked(g, p, q)
    ensures Linked(g, q, p)
  {
    var path :| IsPath(g, path) && path[0] == p && path[|path| - 1] == q;
    var back := Reversed(path);
    assert IsPath(g, back) && back[0] == q && back[|back| - 1] == p;
  }

  lemma LinkedTransitive(g: Grid, p: Point, q: Point, r: Point)
    requires Linked(g, p, q) && Linked(g, q, r)
    ensures Linked(g, p, r)
  {
    var first :| IsPath(g, first) && first[0] == p && first[|first| - 1] == q;
    var second :| IsPath(g, second) && second[0] == q && second[|second| - 1] == r;
    var path := first + second[1..];
    assert IsPath(g, path) && path[0] == p && path[|path| - 1] == r;
  }

  lemma LinkedInLargerGrid(g: Grid, h: Grid, p: Point, q: Point)
    requires g.Keys <= h.Keys && Linked(g, p, q)
    ensures Linked(h, p, q)
  {
    var path :| IsPath(g, path) && path[0] == p && path[|path| - 1] == q;
    assert IsPath(h, path);
  }

  // Walking along a run of filled cells.
  lemma {:induction false} LinkedAlongRun(g: Grid, at: Point, vertical: bool, n: nat, i: nat, j: nat)
    requires Run(g, at, vertical, n) && i <= j < n
    ensures Linked(g, Step(at, vertical, i), Step(at, vertical, j))
    decreases j
  {
    var p := Step(at, vertical, j);
    if i == j {
      assert IsPath(g, [p]);
    } else {
      LinkedAlongRun(g, at, vertical, n, i, j - 1);
      var q := Step(at, vertical, j - 1);
      assert IsPath(g, [q, p]) && [q, p][0] == q;
      assert Linked(g, q, p);
      LinkedTransitive(g, Step(at, vertical, i), q, p);
    }
  }

  // ------------------------------------------- one placement keeps everything

  // The heart of the matter: a local test on the cells of one word keeps the global
  // fact that no accidental word ever appears.
  lemma PlacementKeepsRuns(l: Layout, answer: string, at: Point, vertical: bool)
    requires Fits(answer, at, vertical, l.grid) && NoAccidentalWords(l)
    ensures NoAccidentalWords(Placed(l, answer, at, vertical))
  {
    var after := Placed(l, answer, at, vertical);
    forall a, v, n: nat | n >= 2 && MaximalRun(after.grid, a, v, n)
      ensures exists w :: w in after.placed && IsSpan(w, a, v, n)
    {
      if v == vertical && exists i :: 0 <= i < n && Covers(at, vertical, |answer|, Step(a, v, i)) {
        var i :| 0 <= i < n && Covers(at, vertical, |answer|, Step(a, v, i));
        OverlappingRunIsTheWord(l.grid, answer, at, vertical, a, n, i);
        assert IsSpan(after.placed[|l.placed|], a, v, n);
      } else {
        forall i | 0 <= i < n
          ensures Step(a, v, i) in l.grid
        {
          NewCellsLieInNoCrossRun(l.grid, answer, at, vertical, a, v, n, i);
        }
        assert MaximalRun(l.grid, a, v, n);
        var w :| w in l.placed && IsSpan(w, a, v, n);
        assert w in after.placed;
      }
    }
  }

  lemma OverlappingRunIsTheWord(
      g: Grid, answer: string, at: Point, vertical: bool, a: Point, n: nat, i: nat)
    requires Fits(answer, at, vertical, g)
    requires MaximalRun(Written(g, answer, at, vertical), a, vertical, n)
    requires i < n && Covers(at, vertical, |answer|, Step(a, vertical, i))
    ensures a == at && n == |answer|
  {
    var m: nat, o := |answer|, Offset(at, vertical, a);
    assert a == Step(at, vertical, o) && 0 <= o + i < m;
    assert o < 0 ==> Step(a, vertical, -1 - o) == Step(at, vertical, -1);
    assert Covers(at, vertical, m, Step(a, vertical, -1)) || o <= 0;
    assert n > m ==> Step(a, vertical, m) == Step(at, vertical, m);
    assert Covers(at, vertical, m, Step(a, vertical, n)) || m <= n;
  }

  // The cells on both sides of a newly filled cell stay free.
  lemma SidesOfNewCell(g: Grid, answer: string, at: Point, vertical: bool, p: Point)
    requires Fits(answer, at, vertical, g)
    requires p !in g && Covers(at, vertical, |answer|, p)
    ensures Step(p, !vertical, -1) !in Written(g, answer, at, vertical)
    ensures Step(p, !vertical, 1) !in Written(g, answer, at, vertical)
  {
    var o := Offset(at, vertical, p);
    assert p == Step(at, vertical, o) && FitsAt(answer[o], p, vertical, g);
  }

  // A newly filled cell has free cells on both sides across the word, so a run that
  // does not lie along the word is made of old cells only.
  lemma NewCellsLieInNoCrossRun(
      g: Grid, answer: string, at: Point, vertical: bool, a: Point, v: bool, n: nat, i: nat)
    requires Fits(answer, at, vertical, g)
    requires n >= 2 && i < n && Run(Written(g, answer, at, vertical), a, v, n)
    requires v == vertical ==> !Covers(at, vertical, |answer|, Step(a, v, i))
    ensures Step(a, v, i) in g
  {
    var p := Step(a, v, i);
    var j := if i == 0 then 1 else i - 1;
    assert Step(a, v, j) == Step(p, v, j - i) && Step(a, v, j) in Written(g, answer, at, vertical);
    if p !in g {
      SidesOfNewCell(g, answer, at, vertical, p);
      assert false;
    }
  }

  lemma PlacementReadsBack(l: Layout, answer: string, at: Point, vertical: bool)
    requires Fits(answer, at, vertical, l.grid)
    requires forall w :: w in l.placed ==> ReadsBack(l.grid, w)
    ensures forall w :: w in Placed(l, answer, at, vertical).placed ==>
              ReadsBack(Placed(l, answer, at, vertical).grid, w)
  {
    forall w | w in Placed(l, answer, at, vertical).placed
      ensures ReadsBack(Written(l.grid, answer, at, vertical), w)
    {
      if w in l.placed {
        OldWordReadsBack(l.grid, answer, at, vertical, w);
      } else {
        NewWordReadsBack(l.grid, answer, at, vertical);
      }
    }
  }

  lemma NewWordReadsBack(g: Grid, answer: string, at: Point, vertical: bool)
    ensures ReadsBack(Written(g, answer, at, vertical), Word(answer, at, vertical))
  {
    forall i | 0 <= i < |answer|
      ensures Covers(at, vertical, |answer|, Step(at, vertical, i))
    {
    }
  }

  lemma OldWordReadsBack(g: Grid, answer: string, at: Point, vertical: bool, w: Word)
    requires Fits(answer, at, vertical, g) && ReadsBack(g, w)
    ensures ReadsBack(Written(g, answer, at, vertical), w)
  {
    var h := Written(g, answer, at, vertical);
    forall i | 0 <= i < |w.answer|
      ensures Step(w.at, w.vertical, i) in h && h[Step(w.at, w.vertical, i)] == w.answer[i]
    {
      var p := Step(w.at, w.vertical, i);
      if Covers(at, vertical, |answer|, p) {
        var o := Offset(at, vertical, p);
        assert p == Step(at, vertical, o) && FitsAt(answer[o], p, vertical, g);
      }
    }
  }

  lemma PlacementCoversCells(l: Layout, answer: string, at: Point, vertical: bool)
    requires NoStrayCells(l)
    ensures NoStrayCells(Placed(l, answer, at, vertical))
  {
    var after := Placed(l, answer, at, vertical);
    forall p | p in after.grid
      ensures exists w :: w in after.placed && CoveredBy(w, p)
    {
      if Covers(at, vertical, |answer|, p) {
        assert CoveredBy(after.placed[|l.placed|], p);
      } else {
        var w :| w in l.placed && CoveredBy(w, p);
        assert w in after.placed;
      }
    }
  }

  lemma PlacementKeepsConnected(l: Layout, answer: string, at: Point, vertical: bool)
    requires Connected(l.grid)
    requires l.grid != map[] ==> exists i :: 0 <= i < |answer| && Step(at, vertical, i) in l.grid
    ensures Connected(Placed(l, answer, at, vertical).grid)
  {
    var g, h := l.grid, Placed(l, answer, at, vertical).grid;
    assert Run(h, at, vertical, |answer|);
    if h != map[] && answer != "" {
      var hub: nat :| hub < |answer| && (g != map[] ==> Step(at, vertical, hub) in g);
      var c := Step(at, vertical, hub);
      forall p | p in h
        ensures Linked(h, p, c)
      {
        LinkedToHub(g, answer, at, vertical, hub, p);
      }
      forall p, q | p in h && q in h
        ensures Linked(h, p, q)
      {
        LinkedSymmetric(h, q, c);
        LinkedTransitive(h, p, c, q);
      }
    }
  }

  lemma LinkedToHub(g: Grid, answer: string, at: Point, vertical: bool, hub: nat, p: Point)
    requires Connected(g) && hub < |answer|
    requires g != map[] ==> Step(at, vertical, hub) in g
    requires p in Written(g, answer, at, vertical)
    ensures Linked(Written(g, answer, at, vertical), p, Step(at, vertical, hub))
  {
    var h := Written(g, answer, at, vertical);
    var c := Step(at, vertical, hub);
    if Covers(at, vertical, |answer|, p) {
      var o := Offset(at, vertical, p);
      assert p == Step(at, vertical, o);
      if o <= hub {
        LinkedAlongRun(h, at, vertical, |answer|, o, hub);
      } else {
        LinkedAlongRun(h, at, vertical, |answer|, hub, o);
        LinkedSymmetric(h, c, p);
      }
    } else {
      assert p in g;
      assert Linked(g, p, c);
      LinkedInLargerGrid(g, h, p, c);
    }
  }

  // Every legal placement of a word keeps a layout well built.
  lemma PlacementKeepsWellBuilt(l: Layout, answer: string, at: Point, vertical: bool)
    requires WellBuilt(l) && Legal(answer, at, vertical, l.grid)
    ensures WellBuilt(Placed(l, answer, at, vertical))
  {
    PlacementReadsBack(l, answer, at, vertical);
    PlacementCoversCells(l, answer, at, vertical);
    PlacementKeepsRuns(l, answer, at, vertical);
    PlacementKeepsConnected(l, answer, at, vertical);
  }

  const EMPTY_LAYOUT := Layout(map[], [])

  lemma FirstWordIsWellBuilt(answer: string, at: Point, vertical: bool)
    ensures WellBuilt(Placed(EMPTY_LAYOUT, answer, at, vertical))
  {
    forall a, v, n: nat | n >= 2
      ensures !MaximalRun(EMPTY_LAYOUT.grid, a, v, n)
    {
      assert Step(a, v, 0) !in EMPTY_LAYOUT.grid;
    }
    PlacementReadsBack(EMPTY_LAYOUT, answer, at, vertical);
    PlacementCoversCells(EMPTY_LAYOUT, answer, at, vertical);
    PlacementKeepsRuns(EMPTY_LAYOUT, answer, at, vertical);
    PlacementKeepsConnected(EMPTY_LAYOUT, answer, at, vertical);
  }

  // -------------------------------------------------- a new word adds something

  // A legal spot whose cells are all taken already holds a placed copy of the answer.
  lemma FullSpotHoldsTheAnswer(l: Layout, answer: string, at: Point, vertical: bool)
    requires WellBuilt(l) && Fits(answer, at, vertical, l.grid)
    requires |answer| >= 2 && Run(l.grid, at, vertical, |answer|)
    ensures exists w :: w in l.placed && w == Word(answer, at, vertical)
  {
    assert MaximalRun(l.grid, at, vertical, |answer|);
    var w :| w in l.placed && IsSpan(w, at, vertical, |answer|);
    assert ReadsBack(l.grid, w);
    forall i | 0 <= i < |answer|
      ensures w.answer[i] == answer[i]
    {
      assert FitsAt(answer[i], Step(at, vertical, i), vertical, l.grid);
    }
    assert w.answer == answer;
  }

  // So every accepted placement of an answer that is not on the board fills a new cell.
  lemma NewAnswerFillsNewCell(l: Layout, answer: string, at: Point, vertical: bool)
    requires WellBuilt(l) && Legal(answer, at, vertical, l.grid)
    requires |answer| >= 2 && forall w :: w in l.placed ==> w.answer != answer
    ensures exists i :: 0 <= i < |answer| && Step(at, vertical, i) !in l.grid
  {
    if Run(l.grid, at, vertical, |answer|) {
      FullSpotHoldsTheAnswer(l, answer, at, vertical);
      assert false;
    }
  }

  // ------------------------------------------------- the legal spots are the right ones

  lemma {:induction false} RunFits(g: Grid, at: Point, vertical: bool, n: nat)
    requires Run(g, at, vertical, n)
    ensures n <= |g|
  {
    if n > 0 {
      var last := Step(at, vertical, n - 1);
      RunFits(g - {last}, at, vertical, n - 1);
      assert |g - {last}| == |g| - 1 by {
        assert g == (g - {last})[last := g[last]];
      }
    }
  }

  // Every run lies in a maximal one.
  lemma {:induction false} RunGrows(g: Grid, at: Point, vertical: bool, n: nat) returns (from: Point, m: nat)
    requires Run(g, at, vertical, n) && n > 0
    ensures MaximalRun(g, from, vertical, m) && m >= n
    ensures forall i :: 0 <= i < n ==> Covers(from, vertical, m, Step(at, vertical, i))
    decreases |g| - n
  {
    RunFits(g, at, vertical, n);
    var before := Step(at, vertical, -1);
    if before in g {
      assert forall i :: 0 < i <= n ==> Step(before, vertical, i) == Step(at, vertical, i - 1);
      assert Step(before, vertical, 0) == before;
      RunFits(g, before, vertical, n + 1);
      from, m := RunGrows(g, before, vertical, n + 1);
      forall i | 0 <= i < n
        ensures Covers(from, vertical, m, Step(at, vertical, i))
      {
        assert Step(before, vertical, i + 1) == Step(at, vertical, i);
      }
    } else if Step(at, vertical, n) in g {
      RunFits(g, at, vertical, n + 1);
      from, m := RunGrows(g, at, vertical, n + 1);
    } else {
      from, m := at, n;
    }
  }

  lemma SharedLetterAgrees(l: Layout, answer: string, at: Point, vertical: bool, i: nat)
    requires WellBuilt(l) && WellBuilt(Placed(l, answer, at, vertical))
    requires i < |answer| && Step(at, vertical, i) in l.grid
    ensures l.grid[Step(at, vertical, i)] == answer[i]
  {
    var p, after := Step(at, vertical, i), Placed(l, answer, at, vertical);
    var w :| w in l.placed && CoveredBy(w, p);
    var o := Offset(w.at, w.vertical, p);
    assert p == Step(w.at, w.vertical, o);
    assert w in after.placed && ReadsBack(l.grid, w) && ReadsBack(after.grid, w);
    assert Covers(at, vertical, |answer|, p);
  }

  // Two filled cells side by side belong to a placed word.
  lemma NeighboursShareWord(l: Layout, start: Point, vertical: bool) returns (w: Word)
    requires NoAccidentalWords(l) && start in l.grid && Step(start, vertical, 1) in l.grid
    ensures w in l.placed && w.vertical == vertical
    ensures CoveredBy(w, start) && CoveredBy(w, Step(start, vertical, 1))
  {
    assert Step(start, vertical, 0) == start;
    var from, n := RunGrows(l.grid, start, vertical, 2);
    w :| w in l.placed && IsSpan(w, from, vertical, n);
  }

  lemma WordFillsCell(g: Grid, w: Word, p: Point)
    requires ReadsBack(g, w) && CoveredBy(w, p)
    ensures p in g
  {
    assert p == Step(w.at, w.vertical, Offset(w.at, w.vertical, p));
  }

  lemma FreeCellHasFreeSides(l: Layout, answer: string, at: Point, vertical: bool, i: nat, side: int)
    requires (forall w :: w in l.placed ==> ReadsBack(l.grid, w)) && NoAccidentalWords(Placed(l, answer, at, vertical))
    requires i < |answer| && Step(at, vertical, i) !in l.grid && (side == 1 || side == -1)
    ensures Step(Step(at, vertical, i), !vertical, side) !in l.grid
  {
    var p, after := Step(at, vertical, i), Placed(l, answer, at, vertical);
    var q := Step(p, !vertical, side);
    hide NoAccidentalWords, ReadsBack;
    if q in l.grid {
      assert Covers(at, vertical, |answer|, p) && p in after.grid && q in after.grid;
      var w := NeighboursShareWord(after, if side == 1 then p else q, !vertical);
      assert w in l.placed && CoveredBy(w, p);
      WordFillsCell(l.grid, w, p);
      assert false;
    }
  }

  ghost predicate Shares(l: Layout, answer: string, at: Point, vertical: bool) {
    exists p :: p in l.grid && Covers(at, vertical, |answer|, p)
  }

  // On a well built board the spots that pass the test are exactly those that share a cell and
  // leave a well built board on which the new word is a maximal run.
  lemma LegalIff(l: Layout, answer: string, at: Point, vertical: bool)
    requires WellBuilt(l)
    ensures Legal(answer, at, vertical, l.grid) <==>
            && Shares(l, answer, at, vertical)
            && WellBuilt(Placed(l, answer, at, vertical))
            && MaximalRun(Placed(l, answer, at, vertical).grid, at, vertical, |answer|)
  {
    hide *;
    var after := Placed(l, answer, at, vertical);
    if Legal(answer, at, vertical, l.grid) {
      PlacementKeepsWellBuilt(l, answer, at, vertical);
      LegalMakesRun(l, answer, at, vertical);
    }
    if Shares(l, answer, at, vertical) && WellBuilt(after) && MaximalRun(after.grid, at, vertical, |answer|) {
      GoodSpotIsLegal(l, answer, at, vertical);
    }
  }

  lemma LegalMakesRun(l: Layout, answer: string, at: Point, vertical: bool)
    requires Legal(answer, at, vertical, l.grid)
    ensures Shares(l, answer, at, vertical)
    ensures MaximalRun(Placed(l, answer, at, vertical).grid, at, vertical, |answer|)
  {
    var i :| 0 <= i < |answer| && Step(at, vertical, i) in l.grid;
    assert Covers(at, vertical, |answer|, Step(at, vertical, i));
    forall j | 0 <= j < |answer|
      ensures Step(at, vertical, j) in Written(l.grid, answer, at, vertical)
    {
      assert Covers(at, vertical, |answer|, Step(at, vertical, j));
    }
  }

  lemma GoodSpotIsLegal(l: Layout, answer: string, at: Point, vertical: bool)
    requires WellBuilt(l) && WellBuilt(Placed(l, answer, at, vertical)) && Shares(l, answer, at, vertical)
    requires MaximalRun(Placed(l, answer, at, vertical).grid, at, vertical, |answer|)
    ensures Legal(answer, at, vertical, l.grid)
  {
    hide WellBuilt, FitsAt;
    forall i | 0 <= i < |answer|
      ensures FitsAt(answer[i], Step(at, vertical, i), vertical, l.grid)
    {
      CellFits(l, answer, at, vertical, i);
    }
    var p :| p in l.grid && Covers(at, vertical, |answer|, p);
    assert p == Step(at, vertical, Offset(at, vertical, p));
  }

  lemma CellFits(l: Layout, answer: string, at: Point, vertical: bool, i: nat)
    requires WellBuilt(l) && WellBuilt(Placed(l, answer, at, vertical)) && i < |answer|
    ensures FitsAt(answer[i], Step(at, vertical, i), vertical, l.grid)
  {
    hide NoAccidentalWords, ReadsBack, NoStrayCells, Connected;
    if Step(at, vertical, i) in l.grid {
      SharedLetterAgrees(l, answer, at, vertical, i);
    } else {
      FreeCellHasFreeSides(l, answer, at, vertical, i, 1);
      FreeCellHasFreeSides(l, answer, at, vertical, i, -1);
    }
  }
}
