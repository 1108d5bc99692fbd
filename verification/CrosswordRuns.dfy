// What the finished board says about each placed word, and why moving the whole board
// changes nothing.
module CrosswordRuns {
  import opened CrosswordBoard

  // ------------------------------------------------ which words stay whole runs

  // u's cells are a proper part of w's, along the same line.
  predicate Swallows(w: Word, u: Word) {
    && w.vertical == u.vertical
    && (if w.vertical then w.at.x == u.at.x else w.at.y == u.at.y)
    && var o := Offset(w.at, w.vertical, u.at);
       0 <= o && o + |u.answer| <= |w.answer| && |u.answer| < |w.answer|
  }

  ghost predicate IsWholeRun(l: Layout, u: Word) {
    MaximalRun(l.grid, u.at, u.vertical, |u.answer|)
  }

  lemma {:induction false} RunIsNoLongerThanGrid(cells: set<Point>, at: Point, vertical: bool, n: nat)
    requires forall i :: 0 <= i < n ==> Step(at, vertical, i) in cells
    ensures n <= |cells|
    decreases n
  {
    if n > 0 {
      RunIsNoLongerThanGrid(cells - {Step(at, vertical, n - 1)}, at, vertical, n - 1);
    }
  }

  lemma {:induction false} MaximalRunAround(g: Grid, at: Point, vertical: bool, n: nat)
    returns (lo: nat, hi: nat)
    requires n > 0 && Run(g, at, vertical, n)
    ensures MaximalRun(g, Step(at, vertical, 0 - lo), vertical, lo + n + hi)
    decreases |g.Keys| - n
  {
    RunIsNoLongerThanGrid(g.Keys, at, vertical, n);
    var before := Step(at, vertical, -1);
    if before in g {
      assert forall i {:trigger Step(before, vertical, i)} ::
          Step(before, vertical, i) == Step(at, vertical, i - 1);
      RunIsNoLongerThanGrid(g.Keys, before, vertical, n + 1);
      lo, hi := MaximalRunAround(g, before, vertical, n + 1);
      assert Step(before, vertical, 0 - lo) == Step(at, vertical, 0 - (lo + 1));
      lo := lo + 1;
    } else if Step(at, vertical, n) in g {
      RunIsNoLongerThanGrid(g.Keys, at, vertical, n + 1);
      lo, hi := MaximalRunAround(g, at, vertical, n + 1);
      hi := hi + 1;
    } else {
      lo, hi := 0, 0;
    }
  }

  lemma SwallowedIsNotWhole(g: Grid, w: Word, u: Word)
    requires ReadsBack(g, w) && Swallows(w, u)
    ensures !MaximalRun(g, u.at, u.vertical, |u.answer|)
  {
    var o := Offset(w.at, w.vertical, u.at);
    assert o > 0 ==> Step(w.at, w.vertical, o - 1) == Step(u.at, u.vertical, -1);
    assert o == 0 ==> Step(w.at, w.vertical, |u.answer|) == Step(u.at, u.vertical, |u.answer|);
  }

  lemma NotWholeIsSwallowed(l: Layout, u: Word)
    requires NoAccidentalWords(l) && ReadsBack(l.grid, u) && |u.answer| >= 2
    requires !IsWholeRun(l, u)
    ensures exists w :: w in l.placed && Swallows(w, u)
  {
    var lo, hi := MaximalRunAround(l.grid, u.at, u.vertical, |u.answer|);
    var at := Step(u.at, u.vertical, 0 - lo);
    var w :| w in l.placed && IsSpan(w, at, u.vertical, lo + |u.answer| + hi);
    assert lo + hi == 0 ==> at == u.at;
    assert Swallows(w, u);
  }

  // A placed word reads as a word of its own exactly when no longer placed word
  // runs over it along the same line.
  lemma WholeRunIffNotSwallowed(l: Layout, u: Word)
    requires WellBuilt(l) && u in l.placed && |u.answer| >= 2
    ensures IsWholeRun(l, u) <==> forall w :: w in l.placed ==> !Swallows(w, u)
  {
    forall w | w in l.placed && Swallows(w, u)
      ensures !IsWholeRun(l, u)
    {
      SwallowedIsNotWhole(l.grid, w, u);
    }
    if !IsWholeRun(l, u) {
      NotWholeIsSwallowed(l, u);
    }
  }

  ghost predicate OccursIn(a: string, b: string) {
    exists k: nat :: OccursAt(a, b, k)
  }

  predicate OccursAt(a: string, b: string, k: nat) {
    k + |a| <= |b| && b[k..k + |a|] == a
  }

  lemma SwallowedAnswerOccurs(l: Layout, w: Word, u: Word)
    requires w in l.placed && u in l.placed && Swallows(w, u)
    requires ReadsBack(l.grid, w) && ReadsBack(l.grid, u)
    ensures OccursIn(u.answer, w.answer)
  {
    var o := Offset(w.at, w.vertical, u.at);
    forall i | 0 <= i < |u.answer|
      ensures w.answer[o + i] == u.answer[i]
    {
      assert Step(w.at, w.vertical, o + i) == Step(u.at, u.vertical, i);
    }
    assert OccursAt(u.answer, w.answer, o);
  }

  // When no answer is part of another, the words on the board and its runs of two or
  // more letters are the same thing, in both directions.
  lemma WordsAreExactlyTheRuns(l: Layout, at: Point, vertical: bool, n: nat)
    requires WellBuilt(l) && n >= 2
    requires forall w, u :: w in l.placed && u in l.placed && OccursIn(u.answer, w.answer) ==> w.answer == u.answer
    ensures MaximalRun(l.grid, at, vertical, n) <==> exists w :: w in l.placed && IsSpan(w, at, vertical, n)
  {
    forall u | u in l.placed && IsSpan(u, at, vertical, n)
      ensures MaximalRun(l.grid, at, vertical, n)
    {
      forall w | w in l.placed
        ensures !Swallows(w, u)
      {
        if Swallows(w, u) {
          SwallowedAnswerOccurs(l, w, u);
          assert false;
        }
      }
      WholeRunIffNotSwallowed(l, u);
    }
  }

  // ---------------------------------------------------------- moving the board

  function Move(p: Point, dx: int, dy: int): Point {
    Point(p.x + dx, p.y + dy)
  }

  function MovedGrid(g: Grid, dx: int, dy: int): (r: Grid)
    ensures forall p {:trigger p in r} :: p in r <==> Move(p, -dx, -dy) in g
    ensures forall p {:trigger r[p]} :: p in r ==> r[p] == g[Move(p, -dx, -dy)]
  {
    var cells := set q | q in g :: Move(q, dx, dy);
    assert forall p {:trigger p in cells} :: p in cells <==> Move(p, -dx, -dy) in g by {
      forall p | Move(p, -dx, -dy) in g
        ensures p in cells
      {
        assert Move(Move(p, -dx, -dy), dx, dy) == p;
      }
    }
    map p | p in cells :: g[Move(p, -dx, -dy)]
  }

  function MovedWord(w: Word, dx: int, dy: int): Word {
    w.(at := Move(w.at, dx, dy))
  }

  function MovedWords(ws: seq<Word>, dx: int, dy: int): (r: seq<Word>)
    ensures |r| == |ws| && forall i :: 0 <= i < |ws| ==> r[i] == MovedWord(ws[i], dx, dy)
  {
    seq(|ws|, i requires 0 <= i < |ws| => MovedWord(ws[i], dx, dy))
  }

  function Moved(l: Layout, dx: int, dy: int): Layout {
    Layout(MovedGrid(l.grid, dx, dy), MovedWords(l.placed, dx, dy))
  }

  lemma MovedCell(g: Grid, dx: int, dy: int, at: Point, vertical: bool, k: int)
    ensures Step(Move(at, -dx, -dy), vertical, k) in g <==> Step(at, vertical, k) in MovedGrid(g, dx, dy)
    ensures Step(at, vertical, k) in MovedGrid(g, dx, dy) ==>
              MovedGrid(g, dx, dy)[Step(at, vertical, k)] == g[Step(Move(at, -dx, -dy), vertical, k)]
  {
    assert Step(Move(at, -dx, -dy), vertical, k) == Move(Step(at, vertical, k), -dx, -dy);
  }

  lemma MovedLinked(g: Grid, dx: int, dy: int, p: Point, q: Point)
    requires Linked(g, p, q)
    ensures Linked(MovedGrid(g, dx, dy), Move(p, dx, dy), Move(q, dx, dy))
  {
    var path :| IsPath(g, path) && path[0] == p && path[|path| - 1] == q;
    var moved := seq(|path|, i requires 0 <= i < |path| => Move(path[i], dx, dy));
    forall i | 0 <= i < |moved|
      ensures moved[i] in MovedGrid(g, dx, dy)
    {
      assert Move(moved[i], -dx, -dy) == path[i];
    }
    assert IsPath(MovedGrid(g, dx, dy), moved);
  }

  // A move keeps the letters, the runs and the paths, so it keeps a well built layout.
  lemma MoveKeepsWellBuilt(l: Layout, dx: int, dy: int)
    requires WellBuilt(l)
    ensures WellBuilt(Moved(l, dx, dy))
  {
    var m := Moved(l, dx, dy);
    forall k | 0 <= k < |l.placed|
      ensures ReadsBack(m.grid, m.placed[k])
    {
      MovedReadsBack(l.grid, l.placed[k], dx, dy);
    }
    forall p | p in m.grid
      ensures exists w :: w in m.placed && CoveredBy(w, p)
    {
      var k :| 0 <= k < |l.placed| && CoveredBy(l.placed[k], Move(p, -dx, -dy));
      assert m.placed[k] in m.placed && CoveredBy(m.placed[k], p);
    }
    MoveKeepsRuns(l, dx, dy);
    MoveKeepsConnected(l.grid, dx, dy);
  }

  lemma MovedReadsBack(g: Grid, w: Word, dx: int, dy: int)
    requires ReadsBack(g, w)
    ensures ReadsBack(MovedGrid(g, dx, dy), MovedWord(w, dx, dy))
  {
    var at := Move(w.at, dx, dy);
    assert Move(at, -dx, -dy) == w.at;
    forall i | 0 <= i < |w.answer|
      ensures Step(at, w.vertical, i) in MovedGrid(g, dx, dy)
      ensures MovedGrid(g, dx, dy)[Step(at, w.vertical, i)] == w.answer[i]
    {
      MovedCell(g, dx, dy, at, w.vertical, i);
    }
  }

  lemma MoveKeepsConnected(g: Grid, dx: int, dy: int)
    requires Connected(g)
    ensures Connected(MovedGrid(g, dx, dy))
  {
    forall p, q | p in MovedGrid(g, dx, dy) && q in MovedGrid(g, dx, dy)
      ensures Linked(MovedGrid(g, dx, dy), p, q)
    {
      MovedLinked(g, dx, dy, Move(p, -dx, -dy), Move(q, -dx, -dy));
    }
  }

  lemma MoveKeepsRuns(l: Layout, dx: int, dy: int)
    requires NoAccidentalWords(l)
    ensures NoAccidentalWords(Moved(l, dx, dy))
  {
    forall at, vertical, n: nat | n >= 2 && MaximalRun(Moved(l, dx, dy).grid, at, vertical, n)
      ensures exists w :: w in Moved(l, dx, dy).placed && IsSpan(w, at, vertical, n)
    {
      MovedRunBack(l.grid, dx, dy, at, vertical, n);
      SpanMoved(l.placed, dx, dy, at, vertical, n);
    }
  }

  lemma SpanMoved(ws: seq<Word>, dx: int, dy: int, at: Point, vertical: bool, n: nat)
    requires exists w :: w in ws && IsSpan(w, Move(at, -dx, -dy), vertical, n)
    ensures exists w :: w in MovedWords(ws, dx, dy) && IsSpan(w, at, vertical, n)
  {
    var back := Move(at, -dx, -dy);
    var w :| w in ws && IsSpan(w, back, vertical, n);
    var k :| 0 <= k < |ws| && ws[k] == w;
    var moved := MovedWords(ws, dx, dy);
    assert moved[k] in moved && IsSpan(moved[k], at, vertical, n);
  }

  lemma MovedRunBack(g: Grid, dx: int, dy: int, at: Point, vertical: bool, n: nat)
    requires MaximalRun(MovedGrid(g, dx, dy), at, vertical, n)
    ensures MaximalRun(g, Move(at, -dx, -dy), vertical, n)
  {
    var back := Move(at, -dx, -dy);
    MovedCell(g, dx, dy, at, vertical, -1);
    MovedCell(g, dx, dy, at, vertical, n);
    forall i | 0 <= i < n
      ensures Step(back, vertical, i) in g
    {
      MovedCell(g, dx, dy, at, vertical, i);
    }
  }
}
