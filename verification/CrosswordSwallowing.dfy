// A placed word can be run over by a longer word along the same line.  Which word that can
// be, and a list of three words whose returned layout shows it.
module CrosswordSwallowing {
  import opened Wrappers
  import opened LengthSort
  import opened CrosswordBoard
  import opened CrosswordRuns
  import opened CrosswordSearch
  import opened CrosswordGo
  import opened CrosswordTs
  import opened CrosswordLayout

  // --------------------------------------------------- who can be run over by whom

  // A word does not fit inside a longer word that already lies along its line: one of its
  // ends would touch that word.
  lemma NoFitInside(g: Grid, w: Word, u: Word)
    requires ReadsBack(g, w) && Swallows(w, u)
    ensures !Fits(u.answer, u.at, u.vertical, g)
  {
    var o := Offset(w.at, w.vertical, u.at);
    assert o > 0 ==> Step(w.at, w.vertical, o - 1) == Step(u.at, u.vertical, -1);
    assert o == 0 ==> Step(w.at, w.vertical, |u.answer|) == Step(u.at, u.vertical, |u.answer|);
  }

  lemma TriedAdds(l: Layout, answer: string, m: Layout) returns (w: Word)
    requires Tried(l, answer, m)
    ensures w.answer == answer
    ensures m.placed == l.placed ||
            (m.placed == l.placed + [w] && Fits(answer, w.at, w.vertical, l.grid))
  {
    var r :| Best(answer, l, r) && m == After(l, answer, r);
    w := Word(answer, Point(0, 0), false);
    if r.Some? {
      BestIsLegal(answer, l, r);
      w := Word(answer, r.value.at, r.value.vertical);
    }
  }

  ghost predicate AllReadBack(l: Layout) {
    forall k :: 0 <= k < |l.placed| ==> ReadsBack(l.grid, l.placed[k])
  }

  lemma WellBuiltReadsBack(l: Layout)
    requires WellBuilt(l)
    ensures AllReadBack(l)
  {
  }

  lemma TraceStep(answers: seq<string>, t: seq<Layout>, i: nat) returns (w: Word)
    requires Trace(answers, t) && 0 < i < |t|
    ensures w.answer == answers[i] && AllReadBack(t[i - 1])
    ensures t[i].placed == t[i - 1].placed ||
            (t[i].placed == t[i - 1].placed + [w] && Fits(w.answer, w.at, w.vertical, t[i - 1].grid))
  {
    hide WellBuilt, Fits, ReadsBack, Tried;
    TraceIsWellBuilt(answers, t, i - 1);
    WellBuiltReadsBack(t[i - 1]);
    assert Tried(t[i - 1], answers[i], t[i]);
    w := TriedAdds(t[i - 1], answers[i], t[i]);
  }

  lemma TraceStart(answers: seq<string>, t: seq<Layout>)
    requires Trace(answers, t) && t != []
    ensures 0 < |t| <= |answers|
    ensures t[0].placed == [Word(answers[0], Point(0, 0), false)]
  {
  }

  lemma {:induction false} SwallowerIsLater(answers: seq<string>, t: seq<Layout>, i: nat, a: nat, b: nat)
    requires Trace(answers, t) && i < |t| && a < |t[i].placed| && b < |t[i].placed|
    requires Swallows(t[i].placed[a], t[i].placed[b])
    ensures a > b
  {
    hide Trace, Fits, ReadsBack, Swallows;
    if i == 0 {
      TraceStart(answers, t);
      NotInsideItself(t[0].placed[0]);
    } else {
      var w := TraceStep(answers, t, i);
      var l := t[i - 1];
      NotInsideItself(w);
      if b < |l.placed| && a < |l.placed| {
        SwallowerIsLater(answers, t, i - 1, a, b);
      } else if a < |l.placed| {
        NoFitInside(l.grid, l.placed[a], w);
      }
    }
  }

  lemma NotInsideItself(w: Word)
    ensures !Swallows(w, w)
  {
  }

  // After the first word, no word is longer than one before it or shorter than `least`.
  ghost predicate FallsAfterFirst(placed: seq<Word>, least: nat) {
    && (forall a :: 0 < a < |placed| ==> |placed[a].answer| >= least)
    && forall a, b :: 0 < b < a < |placed| ==> |placed[a].answer| <= |placed[b].answer|
  }

  lemma OneMoreFalls(placed: seq<Word>, least: nat, w: Word)
    requires FallsAfterFirst(placed, least) && |w.answer| <= least
    ensures FallsAfterFirst(placed + [w], |w.answer|) && FallsAfterFirst(placed, |w.answer|)
  {
  }

  lemma {:induction false} LaterIsNoLonger(answers: seq<string>, t: seq<Layout>, i: nat) returns (least: nat)
    requires Trace(answers, t) && i < |t| && Falling(answers[1..])
    ensures t[i].placed != [] && t[i].placed[0] == Word(answers[0], Point(0, 0), false)
    ensures FallsAfterFirst(t[i].placed, least)
    ensures forall j :: i < j < |answers| ==> |answers[j]| <= least
  {
    hide Trace, Falling, FallsAfterFirst, Fits, ReadsBack;
    TraceStart(answers, t);
    if i == 0 {
      least := LongestAfterFirst(answers);
      OneWordFalls(t[0].placed[0], least);
    } else {
      var before := LaterIsNoLonger(answers, t, i - 1);
      var w := TraceStep(answers, t, i);
      OneMoreFalls(t[i - 1].placed, before, w);
      ShorterFromHere(answers, i);
      least := |answers[i]|;
    }
  }

  lemma LongestAfterFirst(answers: seq<string>) returns (least: nat)
    requires answers != [] && Falling(answers[1..])
    ensures forall j :: 0 < j < |answers| ==> |answers[j]| <= least
  {
    assert forall j :: 1 <= j < |answers| ==> answers[1..][j - 1] == answers[j];
    least := if |answers| > 1 then |answers[1]| else 0;
  }

  lemma ShorterFromHere(answers: seq<string>, i: nat)
    requires answers != [] && Falling(answers[1..]) && 0 < i < |answers|
    ensures forall j :: i < j < |answers| ==> |answers[j]| <= |answers[i]|
  {
    assert forall j :: 1 <= j < |answers| ==> answers[1..][j - 1] == answers[j];
  }

  lemma OneWordFalls(w: Word, least: nat)
    ensures FallsAfterFirst([w], least)
  {
  }

  lemma RotatedFalls(sorted: seq<string>, first: nat)
    requires Falling(sorted) && first < |sorted|
    ensures Falling(Rotated(sorted, first)[1..]) && Rotated(sorted, first)[0] == sorted[first]
  {
    assert Rotated(sorted, first)[1..] == sorted[..first] + sorted[first + 1..];
  }

  // The list comes in falling order, some word is moved to the front, and the list is built
  // greedily: only that word can be run over, by a longer word placed later.
  lemma OnlyFirstIsSwallowed(sorted: seq<string>, first: nat, l: Layout, a: nat, b: nat)
    requires Falling(sorted) && first < |sorted| && Built(Rotated(sorted, first), l)
    requires a < |l.placed| && b < |l.placed| && Swallows(l.placed[a], l.placed[b])
    ensures a > b == 0 && l.placed[0] == Word(sorted[first], Point(0, 0), false)
    ensures |l.placed[a].answer| > |sorted[first]|
    ensures OccursIn(sorted[first], l.placed[a].answer)
  {
    hide *;
    var answers := Rotated(sorted, first);
    RotatedFalls(sorted, first);
    BuiltIsWellBuilt(answers, l);
    var t := TraceOf(answers, l);
    SwallowerIsLater(answers, t, |t| - 1, a, b);
    var least := LaterIsNoLonger(answers, t, |t| - 1);
    SwallowedIsShorter(l.placed[a], l.placed[b]);
    FirstIsShorter(l.placed, least, a, b);
    PlacedReadsBack(l, a);
    PlacedReadsBack(l, b);
    SwallowedAnswerOccurs(l, l.placed[a], l.placed[b]);
  }

  lemma TraceOf(answers: seq<string>, l: Layout) returns (t: seq<Layout>)
    requires Built(answers, l)
    ensures Trace(answers, t) && |t| == |answers| > 0 && t[|t| - 1] == l
  {
    t :| Trace(answers, t) && |t| == |answers| > 0 && t[|t| - 1] == l;
  }

  lemma FirstIsShorter(placed: seq<Word>, least: nat, a: nat, b: nat)
    requires FallsAfterFirst(placed, least) && b < a < |placed| && |placed[a].answer| > |placed[b].answer|
    ensures b == 0
  {
  }

  lemma PlacedReadsBack(l: Layout, k: nat)
    requires WellBuilt(l) && k < |l.placed|
    ensures l.placed[k] in l.placed && ReadsBack(l.grid, l.placed[k])
  {
    hide ReadsBack;
  }

  lemma SwallowedIsShorter(w: Word, u: Word)
    requires Swallows(w, u)
    ensures |w.answer| > |u.answer|
  {
  }

  // For the returned layout of a proper list: every placed word reads as a word of its own,
  // except perhaps the word that was chosen to be first; and that one does so as well when it
  // is part of no longer answer, in particular when it is a longest one.
  lemma OnlyChosenWordIsLost(entries: seq<Entry>, first: nat, raw: Layout, u: Word)
    requires Proper(entries) && Returned(entries, first, raw) && u in raw.placed
    requires !IsWholeRun(raw, u)
    ensures var sorted := ByLength(UsableAnswers(entries));
            && first < |sorted| && u == Word(sorted[first], Point(0, 0), false) == raw.placed[0]
            && exists e :: e in entries && |e.answer| > |u.answer| && OccursIn(u.answer, e.answer)
  {
    hide UsableAnswers, ByLength, Rotated, IsWholeRun, Built, WellBuilt, Swallows, OccursIn, Complete;
    var sorted := ByLength(UsableAnswers(entries));
    ReturnedMeans(entries, first, raw);
    ByLengthSorts(UsableAnswers(entries));
    OrderIsUsable(entries, first);
    BuiltIsWellBuilt(Rotated(sorted, first), raw);
    BuiltPlacesOwn(Rotated(sorted, first), raw);
    WholeRunIffNotSwallowed(raw, u);
    var w :| w in raw.placed && Swallows(w, u);
    var a :| 0 <= a < |raw.placed| && raw.placed[a] == w;
    var b :| 0 <= b < |raw.placed| && raw.placed[b] == u;
    OnlyFirstIsSwallowed(sorted, first, raw, a, b);
  }

  // ------------------------------------------------------------ three words that show it

  lemma BestIs(letters: string, l: Layout, c: Crossing)
    requires LegalCrossing(letters, l, c)
    requires forall d :: LegalCrossing(letters, l, d) ==>
               ScoreOf(l, c) <= ScoreOf(l, d) && (Earlier(d, c) ==> ScoreOf(l, c) < ScoreOf(l, d))
    ensures Best(letters, l, Some(Spot(c, l.placed[c.k])))
  {
    assert WinsBefore(letters, l, Crossing(|letters|, 0, 0), c);
  }

  lemma NoneIsBest(letters: string, l: Layout)
    requires forall d :: !LegalCrossing(letters, l, d)
    ensures Best(letters, l, None)
  {
  }

  // A letter of the word at the spot meets another letter there.
  lemma Clashes(letters: string, at: Point, vertical: bool, g: Grid, i: nat)
    requires i < |letters| && !FitsAt(letters[i], Step(at, vertical, i), vertical, g)
    ensures !Legal(letters, at, vertical, g)
  {
  }

  lemma CrossingMeans(letters: string, l: Layout, d: Crossing)
    requires LegalCrossing(letters, l, d)
    ensures d.wi < |letters| && d.k < |l.placed| && d.pi < |l.placed[d.k].answer|
    ensures l.placed[d.k].answer[d.pi] == letters[d.wi]
    ensures Legal(letters, Spot(d, l.placed[d.k]).at, Spot(d, l.placed[d.k]).vertical, l.grid)
  {
  }

  predicate ThreeWords(dab: string, acd: string, ac: string) {
    dab == "DAB" && acd == "ACD" && ac == "AC"
  }

  function Across(answer: string): Layout {
    Placed(EMPTY_LAYOUT, answer, Point(0, 0), false)
  }

  lemma AcrossMeans(answer: string)
    ensures Across(answer).placed == [Word(answer, Point(0, 0), false)]
    ensures forall p :: p in Across(answer).grid <==> p.y == 0 && 0 <= p.x < |answer|
    ensures forall p :: p in Across(answer).grid ==> Across(answer).grid[p] == answer[p.x]
  {
  }

  // The board of two words, the second hung from the first.
  function Hung(answer: string, second: string, x: int, y: int): Layout {
    Placed(Across(answer), second, Point(x, y), true)
  }

  // What such a board holds, when they cross in cell (x, 0).
  ghost predicate IsHung(l: Layout, answer: string, second: string, x: int, y: int) {
    && 0 <= x < |answer| && y <= 0 && y + |second| > 0
    && l.placed == [Word(answer, Point(0, 0), false), Word(second, Point(x, y), true)]
    && (forall p :: p in l.grid <==>
          (p.y == 0 && 0 <= p.x < |answer|) || (p.x == x && y <= p.y < y + |second|))
    && forall p :: p in l.grid ==>
         l.grid[p] == if p.x == x && y <= p.y < y + |second| then second[p.y - y] else answer[p.x]
  }

  lemma HungMeans(answer: string, second: string, x: int, y: int)
    requires 0 <= x < |answer| && y <= 0 && y + |second| > 0
    ensures IsHung(Hung(answer, second, x, y), answer, second, x, y)
  {
    AcrossMeans(answer);
    hide Across;
  }

  lemma HangingIsLegal(answer: string, second: string, x: int, y: int)
    requires 0 <= x < |answer| && y <= 0 && y + |second| > 0 && second[-y] == answer[x]
    ensures Legal(second, Point(x, y), true, Across(answer).grid)
  {
    AcrossMeans(answer);
    hide Across;
    assert Step(Point(x, y), true, -y) in Across(answer).grid;
    forall i | 0 <= i < |second|
      ensures FitsAt(second[i], Step(Point(x, y), true, i), true, Across(answer).grid)
    {
      if i != -y {
        assert Step(Point(x, y), true, i) !in Across(answer).grid;
      }
    }
  }

  lemma SpotOnAcross(answer: string, d: Crossing)
    ensures Spot(d, Word(answer, Point(0, 0), false)) == Placement(Point(d.pi, -(d.wi as int)), true, d.wi + d.pi)
  {
  }

  lemma CrossingOnAcross(answer: string, second: string, d: Crossing)
    requires LegalCrossing(second, Across(answer), d)
    ensures d.wi < |second| && d.k == 0 && d.pi < |answer| && second[d.wi] == answer[d.pi]
    ensures ScoreOf(Across(answer), d) == d.wi + d.pi
  {
    AcrossMeans(answer);
    hide Across, Legal, Spot;
    CrossingMeans(second, Across(answer), d);
    SpotOnAcross(answer, d);
  }

  // Any two other equal letters lie further in.
  ghost predicate Nearest(answer: string, second: string, wi: nat, pi: nat) {
    && wi < |second| && pi < |answer| && second[wi] == answer[pi]
    && forall i, j :: 0 <= i < |second| && 0 <= j < |answer| && second[i] == answer[j] ==>
         (i == wi && j == pi) || i + j > wi + pi
  }

  lemma CostsMore(answer: string, second: string, wi: nat, pi: nat, d: Crossing)
    requires Nearest(answer, second, wi, pi) && LegalCrossing(second, Across(answer), d)
    ensures d == Crossing(wi, 0, pi) || wi + pi < ScoreOf(Across(answer), d)
  {
    CrossingOnAcross(answer, second, d);
    hide Across, ScoreOf, LegalCrossing;
  }

  lemma NearestIsLegal(answer: string, second: string, wi: nat, pi: nat)
    requires Nearest(answer, second, wi, pi)
    ensures LegalCrossing(second, Across(answer), Crossing(wi, 0, pi))
    ensures Spot(Crossing(wi, 0, pi), Across(answer).placed[0]) == Placement(Point(pi, -(wi as int)), true, wi + pi)
  {
    AcrossMeans(answer);
    HangingIsLegal(answer, second, pi, -(wi as int));
    SpotOnAcross(answer, Crossing(wi, 0, pi));
    hide Across, Legal, Spot;
  }

  // On a board of one word, the second hangs from the crossing of least score.
  lemma HangsBest(answer: string, second: string, wi: nat, pi: nat)
    requires Nearest(answer, second, wi, pi)
    ensures Best(second, Across(answer), Some(Placement(Point(pi, -(wi as int)), true, wi + pi)))
  {
    hide Across, Legal, Spot, ScoreOf, Best, Nearest;
    var l, c := Across(answer), Crossing(wi, 0, pi);
    AcrossMeans(answer);
    NearestIsLegal(answer, second, wi, pi);
    CrossingOnAcross(answer, second, c);
    NotBeforeItself(c);
    forall d | LegalCrossing(second, l, d)
      ensures ScoreOf(l, c) <= ScoreOf(l, d) && (Earlier(d, c) ==> ScoreOf(l, c) < ScoreOf(l, d))
    {
      CrossingOnAcross(answer, second, d);
      CostsMore(answer, second, wi, pi, d);
    }
    BestIs(second, l, c);
  }

  lemma NotBeforeItself(c: Crossing)
    ensures !Earlier(c, c)
  {
  }

  // Where a third word can cross two.
  lemma SpotOnHung(l: Layout, answer: string, second: string, x: int, y: int, d: Crossing)
    requires IsHung(l, answer, second, x, y)
    ensures d.k == 0 ==> Spot(d, l.placed[0]) == Placement(Point(d.pi, -(d.wi as int)), true, d.wi + d.pi)
    ensures d.k == 1 ==>
              Spot(d, l.placed[1]) == Placement(Point(x - d.wi, y + d.pi), false, Abs(x - d.wi) + Abs(y + d.pi))
  {
  }

  lemma CrossingOnHung(l: Layout, answer: string, second: string, x: int, y: int, third: string, d: Crossing)
    requires IsHung(l, answer, second, x, y) && LegalCrossing(third, l, d)
    ensures d.wi < |third| && d.k < 2 == |l.placed|
    ensures d.k == 0 ==>
              && d.pi < |answer| && third[d.wi] == answer[d.pi]
              && Legal(third, Point(d.pi, -(d.wi as int)), true, l.grid)
              && ScoreOf(l, d) == d.wi + d.pi
    ensures d.k == 1 ==>
              && d.pi < |second| && third[d.wi] == second[d.pi]
              && Legal(third, Point(x - d.wi, y + d.pi), false, l.grid)
              && ScoreOf(l, d) == Abs(x - d.wi) + Abs(y + d.pi)
  {
    SpotOnHung(l, answer, second, x, y, d);
    hide Legal, Spot;
    CrossingMeans(third, l, d);
  }

  lemma TouchesEnd(letters: string, at: Point, vertical: bool, g: Grid)
    requires Step(at, vertical, |letters|) in g
    ensures !Legal(letters, at, vertical, g)
  {
  }

  // Where the three words share letters.
  lemma LettersOfAc(dab: string, acd: string, ac: string, wi: nat, pi: nat)
    requires ThreeWords(dab, acd, ac) && wi < 2 && pi < 3
    ensures ac[wi] == dab[pi] ==> wi == 0 && pi == 1
    ensures ac[wi] == acd[pi] ==> (wi == 0 && pi == 0) || (wi == 1 && pi == 1)
  {
  }

  lemma LettersOfAcd(dab: string, acd: string, ac: string, wi: nat, pi: nat)
    requires ThreeWords(dab, acd, ac) && wi < 3
    ensures pi < |ac| && acd[wi] == ac[pi] ==> (wi == 0 && pi == 0) || (wi == 1 && pi == 1)
    ensures pi < |dab| && acd[wi] == dab[pi] ==> (wi == 0 && pi == 1) || (wi == 2 && pi == 0)
  {
  }

  lemma Lengths(dab: string, acd: string, ac: string)
    requires ThreeWords(dab, acd, ac)
    ensures |dab| == |acd| == 3 && |ac| == 2 && dab[1] == acd[0]
  {
  }

  // With ACD hung from the A of DAB, AC finds no place.
  lemma IllegalOnDab(l: Layout, dab: string, acd: string, ac: string)
    requires ThreeWords(dab, acd, ac) && IsHung(l, dab, acd, 1, 0)
    ensures !Legal(ac, Point(1, 0), true, l.grid)
            && !Legal(ac, Point(1, 0), false, l.grid)
            && !Legal(ac, Point(0, 1), false, l.grid)
  {
    TouchesEnd(ac, Point(1, 0), true, l.grid);
    Clashes(ac, Point(1, 0), false, l.grid, 1);
    Clashes(ac, Point(0, 1), false, l.grid, 0);
  }

  // With DAB hung from the A of ACD, AC finds no place either.
  lemma IllegalOnAcd(l: Layout, dab: string, acd: string, ac: string)
    requires ThreeWords(dab, acd, ac) && IsHung(l, acd, dab, 0, -1)
    ensures !Legal(ac, Point(0, 0), false, l.grid)
            && !Legal(ac, Point(0, 0), true, l.grid)
            && !Legal(ac, Point(1, -1), true, l.grid)
  {
    TouchesEnd(ac, Point(0, 0), false, l.grid);
    Clashes(ac, Point(0, 0), true, l.grid, 1);
    Clashes(ac, Point(1, -1), true, l.grid, 0);
  }

  // With DAB hung from the A of AC, ACD goes over AC.
  lemma LegalOverAc(l: Layout, dab: string, acd: string, ac: string)
    requires ThreeWords(dab, acd, ac) && IsHung(l, ac, dab, 0, -1)
    ensures Legal(acd, Point(0, 0), false, l.grid) && !Legal(acd, Point(0, 0), true, l.grid)
  {
    hide IsHung, ThreeWords, Legal, FitsAt;
    CellsOfAc(l, dab, acd, ac);
    Lengths(dab, acd, ac);
    FitsAcross(acd, l.grid);
    ClashesBelow(acd, l.grid);
  }

  lemma ClashesBelow(word: string, g: Grid)
    requires |word| == 3 && Point(0, 1) in g && g[Point(0, 1)] != word[1]
    ensures !Legal(word, Point(0, 0), true, g)
  {
    Clashes(word, Point(0, 0), true, g, 1);
  }

  lemma FitsAcross(word: string, g: Grid)
    requires |word| == 3
    requires Point(0, 0) in g && g[Point(0, 0)] == word[0] && Point(1, 0) in g && g[Point(1, 0)] == word[1]
    requires Point(-1, 0) !in g && Point(3, 0) !in g
    requires Point(2, 0) !in g && Point(2, -1) !in g && Point(2, 1) !in g
    ensures Legal(word, Point(0, 0), false, g)
  {
    assert FitsAt(word[0], Point(0, 0), false, g) && FitsAt(word[1], Point(1, 0), false, g) && FitsAt(word[2], Point(2, 0), false, g);
    hide FitsAt;
    FitsOfThree(word, Point(0, 0), g);
  }

  lemma CellsOfAc(l: Layout, dab: string, acd: string, ac: string)
    requires ThreeWords(dab, acd, ac) && IsHung(l, ac, dab, 0, -1)
    ensures Point(0, 0) in l.grid && l.grid[Point(0, 0)] == acd[0]
    ensures Point(1, 0) in l.grid && l.grid[Point(1, 0)] == acd[1]
    ensures Point(0, 1) in l.grid && l.grid[Point(0, 1)] != acd[1]
    ensures Point(-1, 0) !in l.grid && Point(3, 0) !in l.grid
    ensures Point(2, 0) !in l.grid && Point(2, -1) !in l.grid && Point(2, 1) !in l.grid
  {
  }

  lemma FitsOfThree(word: string, at: Point, g: Grid)
    requires |word| == 3 && at in g
    requires FitsAt(word[0], at, false, g) && FitsAt(word[1], Step(at, false, 1), false, g)
    requires FitsAt(word[2], Step(at, false, 2), false, g)
    requires Step(at, false, -1) !in g && Step(at, false, 3) !in g
    ensures Legal(word, at, false, g)
  {
    hide FitsAt;
    assert Step(at, false, 0) == at;
  }

  lemma MakesCrossing(letters: string, l: Layout, d: Crossing)
    requires d.wi < |letters| && d.k < |l.placed| && d.pi < |l.placed[d.k].answer|
    requires l.placed[d.k].answer[d.pi] == letters[d.wi]
    requires Legal(letters, Spot(d, l.placed[d.k]).at, Spot(d, l.placed[d.k]).vertical, l.grid)
    ensures LegalCrossing(letters, l, d)
  {
  }

  lemma CrossingOverAc(l: Layout, dab: string, acd: string, ac: string)
    requires ThreeWords(dab, acd, ac) && IsHung(l, ac, dab, 0, -1)
    ensures LegalCrossing(acd, l, Crossing(0, 1, 1))
    ensures Spot(Crossing(0, 1, 1), l.placed[1]) == Placement(Point(0, 0), false, 0)
  {
    hide Legal, Spot, ThreeWords, LegalCrossing;
    Lengths(dab, acd, ac);
    LegalOverAc(l, dab, acd, ac);
    SpotOnHung(l, ac, dab, 0, -1, Crossing(0, 1, 1));
    MakesCrossing(acd, l, Crossing(0, 1, 1));
  }

  lemma OtherCrossings(l: Layout, dab: string, acd: string, ac: string, d: Crossing)
    requires ThreeWords(dab, acd, ac) && IsHung(l, ac, dab, 0, -1) && LegalCrossing(acd, l, d)
    ensures d.k < |l.placed| == 2 && ScoreOf(l, Crossing(0, 1, 1)) == 0
    ensures d == Crossing(0, 1, 1) || ScoreOf(l, d) > 0
  {
    hide Legal, Spot, ScoreOf, ThreeWords, LegalCrossing, IsHung;
    CrossingOverAc(l, dab, acd, ac);
    LegalOverAc(l, dab, acd, ac);
    Lengths(dab, acd, ac);
    CrossingOnHung(l, ac, dab, 0, -1, acd, Crossing(0, 1, 1));
    CrossingOnHung(l, ac, dab, 0, -1, acd, d);
    LettersOfAcd(dab, acd, ac, d.wi, d.pi);
  }

  lemma AcdGoesOverAc(l: Layout, dab: string, acd: string, ac: string)
    requires ThreeWords(dab, acd, ac) && IsHung(l, ac, dab, 0, -1)
    ensures Best(acd, l, Some(Placement(Point(0, 0), false, 0)))
  {
    var c := Crossing(0, 1, 1);
    CrossingOverAc(l, dab, acd, ac);
    NotBeforeItself(c);
    hide Legal, Spot, ScoreOf, Best, ThreeWords, Earlier, IsHung;
    forall d | LegalCrossing(acd, l, d)
      ensures ScoreOf(l, c) <= ScoreOf(l, d) && (Earlier(d, c) ==> ScoreOf(l, c) < ScoreOf(l, d))
    {
      OtherCrossings(l, dab, acd, ac, d);
    }
    BestIs(acd, l, c);
  }

  // ------------------------------------------------------------------ the whole layout

  lemma BuiltOfThree(a: string, b: string, c: string, l: Layout, m: Layout, n: Layout)
    requires l == Across(a) && Tried(l, b, m) && Tried(m, c, n)
    ensures Built([a, b, c], n)
  {
    hide Tried;
    var t := [l, m, n];
    assert Trace([a, b, c], t);
    assert t[|t| - 1] == n;
  }

  lemma TriedBy(l: Layout, answer: string, r: Option<Placement>)
    requires Best(answer, l, r)
    ensures Tried(l, answer, After(l, answer, r))
  {
  }

  lemma NearestLetters(dab: string, acd: string, ac: string)
    requires ThreeWords(dab, acd, ac)
    ensures Nearest(dab, acd, 0, 1) && Nearest(acd, dab, 1, 0) && Nearest(ac, dab, 1, 0)
  {
  }

  lemma StartingWithDab(dab: string, acd: string, ac: string)
    requires ThreeWords(dab, acd, ac)
    ensures Built([dab, acd, ac], Hung(dab, acd, 1, 0))
  {
    hide Nearest, Best, Tried, Built, ThreeWords, IsHung, Legal, LegalCrossing, Spot, ScoreOf, Abs, Written;
    NearestLetters(dab, acd, ac);
    HangsBest(dab, acd, 0, 1);
    Lengths(dab, acd, ac);
    HungMeans(dab, acd, 1, 0);
    IllegalOnDab(Hung(dab, acd, 1, 0), dab, acd, ac);
    forall d
      ensures !LegalCrossing(ac, Hung(dab, acd, 1, 0), d)
    {
      if LegalCrossing(ac, Hung(dab, acd, 1, 0), d) {
        CrossingOnHung(Hung(dab, acd, 1, 0), dab, acd, 1, 0, ac, d);
        LettersOfAc(dab, acd, ac, d.wi, d.pi);
      }
    }
    NoneIsBest(ac, Hung(dab, acd, 1, 0));
    TriedBy(Across(dab), acd, Some(Placement(Point(1, 0), true, 1)));
    TriedBy(Hung(dab, acd, 1, 0), ac, None);
    BuiltOfThree(dab, acd, ac, Across(dab), Hung(dab, acd, 1, 0), Hung(dab, acd, 1, 0));
  }

  lemma StartingWithAcd(dab: string, acd: string, ac: string)
    requires ThreeWords(dab, acd, ac)
    ensures Built([acd, dab, ac], Hung(acd, dab, 0, -1))
  {
    hide Nearest, Best, Tried, Built, ThreeWords, IsHung, Legal, LegalCrossing, Spot, ScoreOf, Abs, Written;
    NearestLetters(dab, acd, ac);
    HangsBest(acd, dab, 1, 0);
    Lengths(dab, acd, ac);
    HungMeans(acd, dab, 0, -1);
    IllegalOnAcd(Hung(acd, dab, 0, -1), dab, acd, ac);
    forall d
      ensures !LegalCrossing(ac, Hung(acd, dab, 0, -1), d)
    {
      if LegalCrossing(ac, Hung(acd, dab, 0, -1), d) {
        CrossingOnHung(Hung(acd, dab, 0, -1), acd, dab, 0, -1, ac, d);
        LettersOfAc(dab, acd, ac, d.wi, d.pi);
      }
    }
    NoneIsBest(ac, Hung(acd, dab, 0, -1));
    TriedBy(Across(acd), dab, Some(Placement(Point(0, -1), true, 1)));
    TriedBy(Hung(acd, dab, 0, -1), ac, None);
    BuiltOfThree(acd, dab, ac, Across(acd), Hung(acd, dab, 0, -1), Hung(acd, dab, 0, -1));
  }

  lemma StartingWithAc(dab: string, acd: string, ac: string)
    requires ThreeWords(dab, acd, ac)
    ensures Built([ac, dab, acd], Placed(Hung(ac, dab, 0, -1), acd, Point(0, 0), false))
  {
    hide Nearest, Best, Tried, Built, ThreeWords, IsHung, Legal, LegalCrossing, Spot, ScoreOf, Abs, Written;
    NearestLetters(dab, acd, ac);
    HangsBest(ac, dab, 1, 0);
    Lengths(dab, acd, ac);
    HungMeans(ac, dab, 0, -1);
    AcdGoesOverAc(Hung(ac, dab, 0, -1), dab, acd, ac);
    TriedBy(Across(ac), dab, Some(Placement(Point(0, -1), true, 1)));
    TriedBy(Hung(ac, dab, 0, -1), acd, Some(Placement(Point(0, 0), false, 0)));
    BuiltOfThree(ac, dab, acd, Across(ac), Hung(ac, dab, 0, -1), Placed(Hung(ac, dab, 0, -1), acd, Point(0, 0), false));
  }

  ghost predicate ThreeEntries(entries: seq<Entry>) {
    && |entries| == 3 && ThreeWords(entries[0].answer, entries[1].answer, entries[2].answer)
    && entries[0].clue != "" && entries[1].clue != "" && entries[2].clue != ""
  }

  lemma SortedOfThree(entries: seq<Entry>)
    requires ThreeEntries(entries)
    ensures UsableAnswers(entries) == [entries[0].answer, entries[1].answer, entries[2].answer]
    ensures ByLength(UsableAnswers(entries)) == [entries[0].answer, entries[1].answer, entries[2].answer]
  {
    var a, b, c := entries[0].answer, entries[1].answer, entries[2].answer;
    assert entries[..2][..1] == entries[..1] && entries[..1][..0] == [];
    assert UsableAnswers(entries[..1]) == [a];
    assert UsableAnswers(entries[..2]) == [a, b];
    assert UsableAnswers(entries) == [a, b, c];
    hide UsableAnswers;
    SortedThree(a, b, c);
  }

  // A word no longer than the last goes to the end.
  lemma GoesToTheEnd(front: seq<string>, a: string)
    requires ByLength(front) == front && (front == [] || |front[|front| - 1]| >= |a|)
    ensures ByLength(front + [a]) == front + [a]
  {
    assert (front + [a])[..|front|] == front;
  }

  lemma SortedThree(a: string, b: string, c: string)
    requires |a| >= |b| >= |c|
    ensures ByLength([a, b, c]) == [a, b, c]
  {
    assert ByLength([]) == [];
    hide ByLength;
    GoesToTheEnd([], a);
    assert [] + [a] == [a];
    GoesToTheEnd([a], b);
    assert [a] + [b] == [a, b];
    GoesToTheEnd([a, b], c);
    assert [a, b] + [c] == [a, b, c];
  }

  lemma RotationsOfThree(a: string, b: string, c: string)
    ensures var s := [a, b, c];
            Rotated(s, 0) == [a, b, c] && Rotated(s, 1) == [b, a, c] && Rotated(s, 2) == [c, a, b]
  {
  }

  lemma MissingIsIncomplete(entries: seq<Entry>, l: Layout, e: Entry)
    requires e in entries && !IsOnBoard(l, e.answer)
    ensures !Complete(entries, l)
  {
    LeftOverMeans(entries, l.placed, l);
    assert e in LeftOver(entries, l.placed);
  }

  lemma AllThereIsComplete(entries: seq<Entry>, l: Layout)
    requires forall e :: e in entries ==> IsOnBoard(l, e.answer)
    ensures Complete(entries, l)
  {
    var left := LeftOver(entries, l.placed);
    assert left == [] || left[0] in left;
    LeftOverMeans(entries, l.placed, l);
  }

  // Starting with AC, everything is placed, ACD over AC.
  function Overrun(entries: seq<Entry>): Layout
    requires |entries| == 3
  {
    Placed(Hung(entries[2].answer, entries[0].answer, 0, -1), entries[1].answer, Point(0, 0), false)
  }

  lemma OverrunMeans(entries: seq<Entry>)
    requires ThreeEntries(entries)
    ensures Overrun(entries).placed ==
            [Word(entries[2].answer, Point(0, 0), false), Word(entries[0].answer, Point(0, -1), true),
             Word(entries[1].answer, Point(0, 0), false)]
    ensures ReadsBack(Overrun(entries).grid, Word(entries[1].answer, Point(0, 0), false))
  {
    hide Written;
    assert Hung(entries[2].answer, entries[0].answer, 0, -1).placed ==
      [Word(entries[2].answer, Point(0, 0), false), Word(entries[0].answer, Point(0, -1), true)];
    NewWordReadsBack(Hung(entries[2].answer, entries[0].answer, 0, -1).grid, entries[1].answer, Point(0, 0), false);
  }

  lemma OverrunIsComplete(entries: seq<Entry>)
    requires ThreeEntries(entries)
    ensures Complete(entries, Overrun(entries))
    ensures Word(entries[2].answer, Point(0, 0), false) in Overrun(entries).placed
  {
    var l := Overrun(entries);
    OverrunMeans(entries);
    hide Overrun, ReadsBack, Complete, IsOnBoard;
    OnBoardAt(l, 0);
    OnBoardAt(l, 1);
    OnBoardAt(l, 2);
    EachOfThree(entries, l);
    AllThereIsComplete(entries, l);
  }

  lemma EachOfThree(entries: seq<Entry>, l: Layout)
    requires |entries| == 3
    requires IsOnBoard(l, entries[0].answer) && IsOnBoard(l, entries[1].answer) && IsOnBoard(l, entries[2].answer)
    ensures forall e :: e in entries ==> IsOnBoard(l, e.answer)
  {
  }

  lemma OverrunLosesAc(entries: seq<Entry>)
    requires ThreeEntries(entries)
    ensures !IsWholeRun(Overrun(entries), Word(entries[2].answer, Point(0, 0), false))
  {
    OverrunMeans(entries);
    hide Overrun, ReadsBack;
    SwallowedIsNotWhole(
      Overrun(entries).grid, Word(entries[1].answer, Point(0, 0), false), Word(entries[2].answer, Point(0, 0), false));
  }

  lemma OnBoardAt(l: Layout, k: nat)
    requires k < |l.placed|
    ensures IsOnBoard(l, l.placed[k].answer) && l.placed[k] in l.placed
  {
  }

  lemma HungIsIncomplete(entries: seq<Entry>, answer: string, second: string, x: int, y: int)
    requires ThreeEntries(entries) && answer != entries[2].answer && second != entries[2].answer
    ensures !Complete(entries, Hung(answer, second, x, y))
  {
    MissingIsIncomplete(entries, Hung(answer, second, x, y), entries[2]);
  }

  // The layout returned for DAB, ACD and AC starts with AC, the only choice that leaves
  // nothing over, and has ACD run over it.
  lemma SwallowingExample(entries: seq<Entry>, first: nat, raw: Layout)
    requires ThreeEntries(entries) && Returned(entries, first, raw)
    ensures Complete(entries, raw) && Word(entries[2].answer, Point(0, 0), false) in raw.placed
    ensures !IsWholeRun(raw, Word(entries[2].answer, Point(0, 0), false))
  {
    var dab, acd, ac := entries[0].answer, entries[1].answer, entries[2].answer;
    SortedOfThree(entries);
    RotationsOfThree(dab, acd, ac);
    StartingWithDab(dab, acd, ac);
    StartingWithAcd(dab, acd, ac);
    StartingWithAc(dab, acd, ac);
    OverrunIsComplete(entries);
    OverrunLosesAc(entries);
    HungIsIncomplete(entries, dab, acd, 1, 0);
    HungIsIncomplete(entries, acd, dab, 0, -1);
    hide Built, Complete, Hung, IsWholeRun, Rotated, UsableAnswers, ByLength, BestOf;
    var sorted := [dab, acd, ac];
    forall i: nat, m | i < 2 && Built(Rotated(sorted, i), m)
      ensures !Complete(entries, m)
    {
      BuiltIsUnique(Rotated(sorted, i), m, if i == 0 then Hung(dab, acd, 1, 0) else Hung(acd, dab, 0, -1));
    }
    assert FirstComplete(entries, sorted, 2, Overrun(entries));
    ReturnedIsUnique(entries, first, raw, 2, Overrun(entries));
  }
}
