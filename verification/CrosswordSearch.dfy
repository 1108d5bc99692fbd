// What the placement search must return, and what a whole greedy build is.  Both the Go
// and the TypeScript builder are proved to meet this one description.
module CrosswordSearch {
  import opened Wrappers
  import opened LengthSort
  import opened CrosswordBoard

  datatype Placement = Placement(at: Point, vertical: bool, score: nat)

  // Letter wi of the new word lies on letter pi of placed word k.
  datatype Crossing = Crossing(wi: nat, k: nat, pi: nat)

  function Abs(x: int): nat {
    if x < 0 then -x else x
  }

  function Spot(c: Crossing, w: Word): Placement {
    var at := Step(Step(w.at, w.vertical, c.pi), !w.vertical, 0 - c.wi);
    Placement(at, !w.vertical, Abs(at.x) + Abs(at.y))
  }

  // The order in which the three nested loops meet the crossings.
  predicate Earlier(a: Crossing, b: Crossing) {
    || a.wi < b.wi
    || (a.wi == b.wi && a.k < b.k)
    || (a.wi == b.wi && a.k == b.k && a.pi < b.pi)
  }

  ghost predicate LegalCrossing(letters: string, l: Layout, c: Crossing) {
    && c.wi < |letters|
    && c.k < |l.placed|
    && c.pi < |l.placed[c.k].answer|
    && l.placed[c.k].answer[c.pi] == letters[c.wi]
    && var p := Spot(c, l.placed[c.k]);
       Legal(letters, p.at, p.vertical, l.grid)
  }

  function ScoreOf(l: Layout, c: Crossing): nat
    requires c.k < |l.placed|
  {
    Spot(c, l.placed[c.k]).score
  }

  // c is a legal crossing of least score among those met before `bound`, and the first
  // of that score.
  ghost predicate WinsBefore(letters: string, l: Layout, bound: Crossing, c: Crossing) {
    && LegalCrossing(letters, l, c) && Earlier(c, bound)
    && forall d :: LegalCrossing(letters, l, d) && Earlier(d, bound) ==>
         ScoreOf(l, c) <= ScoreOf(l, d) && (Earlier(d, c) ==> ScoreOf(l, c) < ScoreOf(l, d))
  }

  ghost predicate BestBefore(letters: string, l: Layout, bound: Crossing, r: Option<Placement>) {
    match r
    case None => forall d :: LegalCrossing(letters, l, d) ==> !Earlier(d, bound)
    case Some(p) => exists c :: WinsBefore(letters, l, bound, c) && Spot(c, l.placed[c.k]) == p
  }

  // The search's answer: nothing exactly when no legal crossing exists, otherwise the
  // first legal crossing of least |x| + |y|.
  ghost predicate Best(letters: string, l: Layout, r: Option<Placement>) {
    BestBefore(letters, l, Crossing(|letters|, 0, 0), r)
  }

  lemma BestIsUnique(letters: string, l: Layout, r: Option<Placement>, s: Option<Placement>)
    requires Best(letters, l, r) && Best(letters, l, s)
    ensures r == s
  {
    var bound := Crossing(|letters|, 0, 0);
    if r.Some? && s.Some? {
      var c :| WinsBefore(letters, l, bound, c) && Spot(c, l.placed[c.k]) == r.value;
      var d :| WinsBefore(letters, l, bound, d) && Spot(d, l.placed[d.k]) == s.value;
      assert Earlier(c, d) || Earlier(d, c) || c == d;
    }
  }

  // ------------------------------------------------- the answer in plain coordinates

  function Distance(p: Point): nat {
    (if p.x < 0 then -p.x else p.x) + if p.y < 0 then -p.y else p.y
  }

  // A word that starts at `at` runs across the placed word w, and its letter i lies on the
  // equal letter j of w.
  predicate Crosses(letters: string, at: Point, vertical: bool, w: Word, i: nat, j: nat) {
    && i < |letters| && j < |w.answer| && letters[i] == w.answer[j] && vertical != w.vertical
    && if vertical then at.x == w.at.x + j && at.y + i == w.at.y else at.x + i == w.at.x && at.y == w.at.y + j
  }

  ghost predicate LegalAt(letters: string, l: Layout, at: Point, vertical: bool, i: nat, k: nat, j: nat) {
    k < |l.placed| && Crosses(letters, at, vertical, l.placed[k], i, j) && Legal(letters, at, vertical, l.grid)
  }

  // Of all legal crossings none starts nearer to the origin than this one, and none that the
  // loops meet before it starts as near.
  ghost predicate NearestFirst(letters: string, l: Layout, p: Placement, i: nat, k: nat, j: nat) {
    && LegalAt(letters, l, p.at, p.vertical, i, k, j) && p.score == Distance(p.at)
    && forall at, vertical, a: nat, b: nat, c: nat :: LegalAt(letters, l, at, vertical, a, b, c) ==>
         && Distance(p.at) <= Distance(at)
         && (a < i || (a == i && (b < k || (b == k && c < j))) ==> Distance(p.at) < Distance(at))
  }

  // What the search returns: nothing when no legal spot crosses a placed word, otherwise the
  // nearest.
  ghost predicate Nearest(letters: string, l: Layout, r: Option<Placement>) {
    match r
    case None => forall at, vertical, i: nat, k: nat, j: nat :: !LegalAt(letters, l, at, vertical, i, k, j)
    case Some(p) => exists i: nat, k: nat, j: nat :: NearestFirst(letters, l, p, i, k, j)
  }

  lemma SpotIsTheCrossing(letters: string, l: Layout, c: Crossing, at: Point, vertical: bool)
    requires c.k < |l.placed|
    ensures LegalAt(letters, l, at, vertical, c.wi, c.k, c.pi) <==>
            LegalCrossing(letters, l, c) && Spot(c, l.placed[c.k]) == Placement(at, vertical, Distance(at))
    ensures ScoreOf(l, c) == Distance(Spot(c, l.placed[c.k]).at)
  {
    hide Legal;
  }

  lemma WinnerIsNearest(letters: string, l: Layout, c: Crossing)
    requires WinsBefore(letters, l, Crossing(|letters|, 0, 0), c)
    ensures var p := Spot(c, l.placed[c.k]); NearestFirst(letters, l, p, c.wi, c.k, c.pi)
  {
    hide LegalAt, LegalCrossing, Spot, ScoreOf, Distance;
    CrossingIsThere(letters, l, c);
    var p := Spot(c, l.placed[c.k]);
    SpotIsTheCrossing(letters, l, c, p.at, p.vertical);
    SpotShape(letters, l, c);
    forall at, vertical, a: nat, b: nat, d: nat | LegalAt(letters, l, at, vertical, a, b, d)
      ensures Distance(p.at) <= Distance(at)
      ensures Earlier(Crossing(a, b, d), c) ==> Distance(p.at) < Distance(at)
    {
      assert a < |letters| && b < |l.placed| by { LegalAtIsThere(letters, l, at, vertical, a, b, d); }
      SpotIsTheCrossing(letters, l, Crossing(a, b, d), at, vertical);
    }
  }

  lemma CrossingIsThere(letters: string, l: Layout, c: Crossing)
    requires LegalCrossing(letters, l, c)
    ensures c.wi < |letters| && c.k < |l.placed|
  {
    hide Legal;
  }

  lemma LegalAtIsThere(letters: string, l: Layout, at: Point, vertical: bool, i: nat, k: nat, j: nat)
    requires LegalAt(letters, l, at, vertical, i, k, j)
    ensures i < |letters| && k < |l.placed|
  {
    hide Legal;
  }

  lemma SpotShape(letters: string, l: Layout, c: Crossing)
    requires c.k < |l.placed|
    ensures var p := Spot(c, l.placed[c.k]); p == Placement(p.at, p.vertical, Distance(p.at))
  {
  }

  lemma Winner(letters: string, l: Layout, p: Placement) returns (c: Crossing)
    requires Best(letters, l, Some(p))
    ensures WinsBefore(letters, l, Crossing(|letters|, 0, 0), c) && c.k < |l.placed| && Spot(c, l.placed[c.k]) == p
  {
    hide Spot;
    c :| WinsBefore(letters, l, Crossing(|letters|, 0, 0), c) && Spot(c, l.placed[c.k]) == p;
  }

  // The answer is the nearest legal crossing, and there is one answer only.
  lemma BestIsNearest(letters: string, l: Layout, r: Option<Placement>)
    requires Best(letters, l, r)
    ensures Nearest(letters, l, r)
  {
    hide LegalAt, LegalCrossing, Spot, ScoreOf, Distance, NearestFirst;
    if r.Some? {
      var c := Winner(letters, l, r.value);
      WinnerIsNearest(letters, l, c);
    } else {
      forall at, vertical, i: nat, k: nat, j: nat
        ensures !LegalAt(letters, l, at, vertical, i, k, j)
      {
        if LegalAt(letters, l, at, vertical, i, k, j) {
          LegalAtIsThere(letters, l, at, vertical, i, k, j);
          SpotIsTheCrossing(letters, l, Crossing(i, k, j), at, vertical);
          assert false;
        }
      }
    }
  }

  lemma NearestIsUnique(letters: string, l: Layout, r: Option<Placement>, s: Option<Placement>)
    requires Nearest(letters, l, r) && Nearest(letters, l, s)
    ensures r == s
  {
    hide LegalAt, Distance;
    if r.Some? && s.Some? {
      var i: nat, k: nat, j: nat :| NearestFirst(letters, l, r.value, i, k, j);
      var a: nat, b: nat, c: nat :| NearestFirst(letters, l, s.value, a, b, c);
      assert i == a && k == b && j == c;
      OneSpotForACrossing(letters, l, r.value.at, r.value.vertical, s.value.at, s.value.vertical, i, k, j);
    }
  }

  // There is always an answer, so the nearest one is what the search finds.
  lemma NearestIsBest(letters: string, l: Layout, r: Option<Placement>)
    requires Nearest(letters, l, r)
    ensures Best(letters, l, r)
  {
    var s := SomeBest(letters, l);
    BestIsNearest(letters, l, s);
    NearestIsUnique(letters, l, r, s);
  }

  lemma OneSpotForACrossing(
      letters: string, l: Layout, at: Point, v: bool, bt: Point, w: bool, i: nat, k: nat, j: nat)
    requires LegalAt(letters, l, at, v, i, k, j) && LegalAt(letters, l, bt, w, i, k, j)
    ensures at == bt && v == w
  {
    hide Legal;
  }

  // Moving the bound over crossings that are not legal changes nothing.
  lemma BoundMoves(letters: string, l: Layout, a: Crossing, b: Crossing, r: Option<Placement>)
    requires BestBefore(letters, l, a, r)
    requires forall d :: LegalCrossing(letters, l, d) ==> (Earlier(d, a) <==> Earlier(d, b))
    ensures BestBefore(letters, l, b, r)
  {
    if r.Some? {
      var c :| WinsBefore(letters, l, a, c) && Spot(c, l.placed[c.k]) == r.value;
      assert WinsBefore(letters, l, b, c);
    }
  }

  lemma BoundStarts(letters: string, l: Layout)
    ensures BestBefore(letters, l, Crossing(0, 0, 0), None)
  {
  }

  lemma BoundPasses(letters: string, l: Layout, a: Crossing, r: Option<Placement>)
    requires BestBefore(letters, l, a, r) && !LegalCrossing(letters, l, a)
    ensures BestBefore(letters, l, a.(pi := a.pi + 1), r)
  {
    var b := a.(pi := a.pi + 1);
    forall d | LegalCrossing(letters, l, d)
      ensures Earlier(d, a) <==> Earlier(d, b)
    {
      EarlierThanNext(d, a);
    }
    BoundMoves(letters, l, a, b, r);
  }

  lemma EarlierThanNext(d: Crossing, a: Crossing)
    ensures Earlier(d, a.(pi := a.pi + 1)) <==> Earlier(d, a) || d == a
  {
  }

  lemma BoundEndsWord(letters: string, l: Layout, wi: nat, k: nat, r: Option<Placement>)
    requires k < |l.placed| && BestBefore(letters, l, Crossing(wi, k, |l.placed[k].answer|), r)
    ensures BestBefore(letters, l, Crossing(wi, k + 1, 0), r)
  {
    BoundMoves(letters, l, Crossing(wi, k, |l.placed[k].answer|), Crossing(wi, k + 1, 0), r);
  }

  lemma BoundEndsLetter(letters: string, l: Layout, wi: nat, r: Option<Placement>)
    requires BestBefore(letters, l, Crossing(wi, |l.placed|, 0), r)
    ensures BestBefore(letters, l, Crossing(wi + 1, 0, 0), r)
  {
    BoundMoves(letters, l, Crossing(wi, |l.placed|, 0), Crossing(wi + 1, 0, 0), r);
  }

  // Taking a legal crossing into account: it wins only with a strictly smaller score.
  lemma BoundTakes(letters: string, l: Layout, a: Crossing, r: Option<Placement>)
    requires BestBefore(letters, l, a, r) && LegalCrossing(letters, l, a)
    ensures
      var p := Spot(a, l.placed[a.k]);
      BestBefore(letters, l, a.(pi := a.pi + 1), if r.None? || p.score < r.value.score then Some(p) else r)
  {
    var b := a.(pi := a.pi + 1);
    forall d
      ensures Earlier(d, b) <==> Earlier(d, a) || d == a
    {
      EarlierThanNext(d, a);
    }
    hide LegalCrossing, Spot;
    if r.None? {
      assert WinsBefore(letters, l, b, a);
    } else {
      var c :| WinsBefore(letters, l, a, c) && Spot(c, l.placed[c.k]) == r.value;
      if ScoreOf(l, a) < ScoreOf(l, c) {
        assert WinsBefore(letters, l, b, a);
      } else {
        assert WinsBefore(letters, l, b, c);
      }
    }
  }

  // Every search has an answer.
  lemma SomeBest(letters: string, l: Layout) returns (r: Option<Placement>)
    ensures Best(letters, l, r)
  {
    hide LegalCrossing, BestBefore, Spot;
    r := None;
    BoundStarts(letters, l);
    for wi := 0 to |letters|
      invariant BestBefore(letters, l, Crossing(wi, 0, 0), r)
    {
      for k := 0 to |l.placed|
        invariant BestBefore(letters, l, Crossing(wi, k, 0), r)
      {
        for pi := 0 to |l.placed[k].answer|
          invariant BestBefore(letters, l, Crossing(wi, k, pi), r)
        {
          var here := Crossing(wi, k, pi);
          if LegalCrossing(letters, l, here) {
            BoundTakes(letters, l, here, r);
            var p := Spot(here, l.placed[k]);
            r := if r.None? || p.score < r.value.score then Some(p) else r;
          } else {
            BoundPasses(letters, l, here, r);
          }
        }
        BoundEndsWord(letters, l, wi, k, r);
      }
      BoundEndsLetter(letters, l, wi, r);
    }
  }

  // ------------------------------------------------------------ a greedy build

  function After(l: Layout, answer: string, r: Option<Placement>): Layout {
    match r
    case None => l
    case Some(p) => Placed(l, answer, p.at, p.vertical)
  }

  ghost predicate Tried(l: Layout, answer: string, m: Layout) {
    exists r :: Best(answer, l, r) && m == After(l, answer, r)
  }

  // The boards after each answer of the list: the first word lies across at the origin,
  // every later one goes where the search says.
  ghost predicate Trace(answers: seq<string>, t: seq<Layout>) {
    && |t| <= |answers|
    && (t != [] ==> t[0] == Placed(EMPTY_LAYOUT, answers[0], Point(0, 0), false))
    && forall i :: 0 < i < |t| ==> Tried(t[i - 1], answers[i], t[i])
  }

  ghost predicate Built(answers: seq<string>, l: Layout) {
    exists t :: Trace(answers, t) && |t| == |answers| > 0 && t[|t| - 1] == l
  }

  lemma TraceOneMore(answers: seq<string>, t: seq<Layout>, r: Option<Placement>)
    requires Trace(answers, t) && 0 < |t| < |answers| && Best(answers[|t|], t[|t| - 1], r)
    ensures Trace(answers, t + [After(t[|t| - 1], answers[|t|], r)])
  {
    hide Best, After;
    assert Tried(t[|t| - 1], answers[|t|], After(t[|t| - 1], answers[|t|], r));
  }

  lemma TriedIsUnique(l: Layout, answer: string, m: Layout, k: Layout)
    requires Tried(l, answer, m) && Tried(l, answer, k)
    ensures m == k
  {
    var r :| Best(answer, l, r) && m == After(l, answer, r);
    var s :| Best(answer, l, s) && k == After(l, answer, s);
    BestIsUnique(answer, l, r, s);
  }

  lemma {:induction false} TracesAgree(answers: seq<string>, t: seq<Layout>, u: seq<Layout>, i: nat)
    requires Trace(answers, t) && Trace(answers, u) && i < |t| && i < |u|
    ensures t[i] == u[i]
  {
    if i > 0 {
      TracesAgree(answers, t, u, i - 1);
      TriedIsUnique(t[i - 1], answers[i], t[i], u[i]);
    }
  }

  // Two builders that follow the rules make the same board from the same list.
  lemma BuiltIsUnique(answers: seq<string>, l: Layout, m: Layout)
    requires Built(answers, l) && Built(answers, m)
    ensures l == m
  {
    var t :| Trace(answers, t) && |t| == |answers| > 0 && t[|t| - 1] == l;
    var u :| Trace(answers, u) && |u| == |answers| > 0 && u[|u| - 1] == m;
    TracesAgree(answers, t, u, |t| - 1);
  }

  // What a build is, word by word: the first word goes across from the origin, and every later
  // one to the nearest legal crossing with the words before it, or nowhere if there is none.
  lemma BuiltOfOne(a: string, m: Layout)
    ensures Built([a], m) <==> m == Placed(EMPTY_LAYOUT, a, Point(0, 0), false)
  {
    if m == Placed(EMPTY_LAYOUT, a, Point(0, 0), false) {
      assert Trace([a], [m]);
    }
  }

  ghost predicate PutNearest(l: Layout, a: string, m: Layout) {
    exists r :: Nearest(a, l, r) && m == if r.Some? then Placed(l, a, r.value.at, r.value.vertical) else l
  }

  lemma BuiltOneMore(answers: seq<string>, a: string, m: Layout)
    requires answers != []
    ensures Built(answers + [a], m) <==> exists l :: Built(answers, l) && PutNearest(l, a, m)
  {
    hide Nearest, Best, Placed;
    var all, n := answers + [a], |answers|;
    if Built(all, m) {
      var t :| Trace(all, t) && |t| == |all| > 0 && t[|t| - 1] == m;
      var l := t[n - 1];
      assert Trace(answers, t[..n]) && t[..n][n - 1] == l;
      assert Built(answers, l);
      assert Tried(l, all[n], t[n]);
      TriedIsNearest(l, a, m);
    }
    if l :| Built(answers, l) && PutNearest(l, a, m) {
      var t :| Trace(answers, t) && |t| == n && t[n - 1] == l;
      NearestIsTried(l, a, m);
      var u := t + [m];
      assert Trace(all, u) && u[|u| - 1] == m;
    }
  }

  lemma TriedIsNearest(l: Layout, a: string, m: Layout)
    requires Tried(l, a, m)
    ensures PutNearest(l, a, m)
  {
    var r :| Best(a, l, r) && m == After(l, a, r);
    BestIsNearest(a, l, r);
    hide Best, Nearest;
  }

  lemma NearestIsTried(l: Layout, a: string, m: Layout)
    requires PutNearest(l, a, m)
    ensures Tried(l, a, m)
  {
    hide Best, Nearest;
    var r :| Nearest(a, l, r) && m == if r.Some? then Placed(l, a, r.value.at, r.value.vertical) else l;
    NearestIsBest(a, l, r);
  }

  lemma BestIsLegal(answer: string, l: Layout, r: Option<Placement>)
    requires Best(answer, l, r) && r.Some?
    ensures Legal(answer, r.value.at, r.value.vertical, l.grid)
  {
    var c :| WinsBefore(answer, l, Crossing(|answer|, 0, 0), c) && Spot(c, l.placed[c.k]) == r.value;
  }

  lemma {:induction false} TraceIsWellBuilt(answers: seq<string>, t: seq<Layout>, i: nat)
    requires Trace(answers, t) && i < |t|
    ensures WellBuilt(t[i])
  {
    if i == 0 {
      FirstWordIsWellBuilt(answers[0], Point(0, 0), false);
    } else {
      TraceIsWellBuilt(answers, t, i - 1);
      TriedKeepsWellBuilt(t[i - 1], answers[i], t[i]);
    }
  }

  lemma TriedKeepsWellBuilt(l: Layout, answer: string, m: Layout)
    requires WellBuilt(l) && Tried(l, answer, m)
    ensures WellBuilt(m)
  {
    var r :| Best(answer, l, r) && m == After(l, answer, r);
    if r.Some? {
      BestIsLegal(answer, l, r);
      PlacementKeepsWellBuilt(l, answer, r.value.at, r.value.vertical);
    }
  }

  // Every board the builders can reach is a proper crossword.
  lemma BuiltIsWellBuilt(answers: seq<string>, l: Layout)
    requires Built(answers, l)
    ensures WellBuilt(l)
  {
    var t :| Trace(answers, t) && |t| == |answers| > 0 && t[|t| - 1] == l;
    TraceIsWellBuilt(answers, t, |t| - 1);
  }

  // ------------------------------------------------------ placed and left over

  ghost predicate IsOnBoard(l: Layout, answer: string) {
    exists w :: w in l.placed && w.answer == answer
  }

  // The placed words come from the list, each at most once; they are the whole list
  // exactly when as many words were placed as were given.
  ghost predicate PlacesEachOnce(answers: seq<string>, l: Layout) {
    && (forall w :: w in l.placed ==> w.answer in answers)
    && (forall i, j :: 0 <= i < j < |l.placed| ==> l.placed[i].answer != l.placed[j].answer)
    && 1 <= |l.placed| <= |answers|
    && (|l.placed| == |answers| <==> forall a :: a in answers ==> IsOnBoard(l, a))
  }

  lemma {:induction false} TracePlacesEachOnce(answers: seq<string>, t: seq<Layout>, i: nat)
    requires Trace(answers, t) && i < |t| && Distinct(answers)
    requires forall a :: a in answers ==> |a| >= 2
    ensures PlacesEachOnce(answers[..i + 1], t[i])
    ensures |t[i].grid| > |t[i].placed|
  {
    hide WellBuilt, PlacesEachOnce, Tried, Placed;
    if i == 0 {
      FirstWordPlacesOnce(answers[..1], t[0]);
    } else {
      TracePlacesEachOnce(answers, t, i - 1);
      TraceIsWellBuilt(answers, t, i - 1);
      assert answers[..i + 1] == answers[..i] + [answers[i]];
      TriedPlacesOnce(answers[..i], answers[i], t[i - 1], t[i]);
    }
  }

  lemma TriedPlacesOnce(rest: seq<string>, last: string, p: Layout, l: Layout)
    requires last !in rest && |last| >= 2
    requires WellBuilt(p) && PlacesEachOnce(rest, p) && |p.grid| > |p.placed|
    requires Tried(p, last, l)
    ensures PlacesEachOnce(rest + [last], l)
    ensures |l.grid| > |l.placed|
  {
    var r :| Best(last, p, r) && l == After(p, last, r);
    StepPlacesOnce(rest, last, p, l, r);
    AcceptedWordGrowsGrid(p, last, r);
  }

  // With distinct answers of two letters or more, each word is placed at most once and
  // every word after the first fills a cell of its own.
  lemma BuiltPlacesEachOnce(answers: seq<string>, l: Layout)
    requires Built(answers, l) && Distinct(answers)
    requires forall a :: a in answers ==> |a| >= 2
    ensures PlacesEachOnce(answers, l)
    ensures |l.grid| > |l.placed|
  {
    var t :| Trace(answers, t) && |t| == |answers| > 0 && t[|t| - 1] == l;
    TracePlacesEachOnce(answers, t, |t| - 1);
    assert answers[..|answers|] == answers;
  }

  lemma FirstWordPlacesOnce(answers: seq<string>, l: Layout)
    requires |answers| == 1 && |answers[0]| >= 2
    requires l == Placed(EMPTY_LAYOUT, answers[0], Point(0, 0), false)
    ensures PlacesEachOnce(answers, l) && |l.grid| > |l.placed|
  {
    FirstWordFillsTwo(answers[0]);
    assert l.placed == [Word(answers[0], Point(0, 0), false)];
    hide Placed, Written;
    assert l.placed[0] in l.placed;
    assert IsOnBoard(l, answers[0]);
  }

  lemma AcceptedWordGrowsGrid(l: Layout, answer: string, r: Option<Placement>)
    requires WellBuilt(l) && Best(answer, l, r) && |answer| >= 2
    requires forall w :: w in l.placed ==> w.answer != answer
    ensures r.Some? ==> |After(l, answer, r).grid| > |l.grid|
  {
    if r.Some? {
      BestIsLegal(answer, l, r);
      NewAnswerFillsNewCell(l, answer, r.value.at, r.value.vertical);
      GridGrows(l, answer, r.value.at, r.value.vertical);
    }
  }

  lemma StepPlacesOnce(rest: seq<string>, last: string, p: Layout, l: Layout, r: Option<Placement>)
    requires last !in rest && PlacesEachOnce(rest, p)
    requires l == After(p, last, r)
    ensures PlacesEachOnce(rest + [last], l)
  {
    OnBoardAfter(rest, last, p, l, r);
  }

  lemma OnBoardAfter(rest: seq<string>, last: string, p: Layout, l: Layout, r: Option<Placement>)
    requires l == After(p, last, r)
    requires last !in rest && forall w :: w in p.placed ==> w.answer in rest
    ensures (forall a :: a in rest + [last] ==> IsOnBoard(l, a)) <==>
            (r.Some? && forall a :: a in rest ==> IsOnBoard(p, a))
  {
    assert last in rest + [last];
    if r.Some? {
      var added := Word(last, r.value.at, r.value.vertical);
      assert forall w :: w in l.placed <==> w in p.placed || w == added;
      assert added in l.placed;
      assert IsOnBoard(l, last);
      forall a | a in rest
        ensures IsOnBoard(l, a) <==> IsOnBoard(p, a)
      {
      }
    }
  }

  lemma FirstWordFillsTwo(answer: string)
    requires |answer| >= 2
    ensures |Placed(EMPTY_LAYOUT, answer, Point(0, 0), false).grid| >= 2
  {
    var p, q := Point(0, 0), Point(1, 0);
    var g := Placed(EMPTY_LAYOUT, answer, p, false).grid;
    assert Covers(p, false, |answer|, p) && Covers(p, false, |answer|, q);
    SubsetIsSmaller({p, q}, g.Keys);
  }

  lemma GridGrows(l: Layout, answer: string, at: Point, vertical: bool)
    requires exists i :: 0 <= i < |answer| && Step(at, vertical, i) !in l.grid
    ensures |Placed(l, answer, at, vertical).grid| > |l.grid|
  {
    var i :| 0 <= i < |answer| && Step(at, vertical, i) !in l.grid;
    var p := Step(at, vertical, i);
    assert Covers(at, vertical, |answer|, p);
    SubsetIsSmaller(l.grid.Keys + {p}, Written(l.grid, answer, at, vertical).Keys);
  }
}
