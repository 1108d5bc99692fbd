// The player's whole layout: keep the usable words, longest first, try every word as the
// first one, keep the best greedy board, and say which words were left over.
module CrosswordLayout {
  import opened LengthSort
  import opened CrosswordBoard
  import opened CrosswordRuns
  import opened CrosswordSearch
  import opened CrosswordGo
  import opened CrosswordTs

  // ------------------------------------------------------- the list to be built

  function UsableAnswers(entries: seq<Entry>): seq<string> {
    if entries == [] then []
    else
      var e, rest := entries[|entries| - 1], UsableAnswers(entries[..|entries| - 1]);
      if |e.answer| >= 2 && e.clue != "" then rest + [e.answer] else rest
  }

  ghost predicate Rising(places: seq<nat>) {
    forall i, j :: 0 <= i < j < |places| ==> places[i] < places[j]
  }

  // The usable answers are those of two letters or more with a clue, in their order.
  lemma {:induction false} UsableMeans(entries: seq<Entry>) returns (places: seq<nat>)
    ensures Rising(places) && |places| == |UsableAnswers(entries)|
    ensures forall i :: 0 <= i < |places| ==> places[i] < |entries| && UsableAnswers(entries)[i] == entries[places[i]].answer
    ensures forall k :: 0 <= k < |entries| ==> (k in places <==> |entries[k].answer| >= 2 && entries[k].clue != "")
  {
    places := [];
    if entries != [] {
      var n := |entries| - 1;
      places := UsableMeans(entries[..n]);
      if |entries[n].answer| >= 2 && entries[n].clue != "" {
        places := places + [n];
      }
    }
  }

  lemma RotatedKeepsAnswers(sorted: seq<string>, first: nat)
    requires first < |sorted|
    ensures multiset(Rotated(sorted, first)) == multiset(sorted)
    ensures |Rotated(sorted, first)| == |sorted|
  {
    assert sorted == sorted[..first] + [sorted[first]] + sorted[first + 1..];
  }

  // --------------------------------------------------------- what is left over

  function LeftOver(entries: seq<Entry>, placed: seq<Word>): seq<Entry> {
    if entries == [] then []
    else
      var e, rest := entries[|entries| - 1], LeftOver(entries[..|entries| - 1], placed);
      if exists i :: 0 <= i < |placed| && placed[i].answer == e.answer then rest else rest + [e]
  }

  lemma {:induction false} LeftOverMeans(entries: seq<Entry>, placed: seq<Word>, l: Layout)
    requires |placed| == |l.placed|
    requires forall i :: 0 <= i < |placed| ==> placed[i].answer == l.placed[i].answer
    ensures forall e :: e in LeftOver(entries, placed) <==> e in entries && !IsOnBoard(l, e.answer)
  {
    if entries != [] {
      var front, last := entries[..|entries| - 1], entries[|entries| - 1];
      LeftOverMeans(front, placed, l);
      assert entries == front + [last];
      if IsOnBoard(l, last.answer) {
        var k :| 0 <= k < |l.placed| && l.placed[k].answer == last.answer;
        assert placed[k].answer == last.answer;
      } else {
        forall i | 0 <= i < |placed|
          ensures placed[i].answer != last.answer
        {
          assert l.placed[i] in l.placed;
        }
      }
    }
  }

  // The left over words are the given ones whose answers no placed word has, in their order.
  lemma {:induction false} LeftOverInOrder(entries: seq<Entry>, placed: seq<Word>) returns (places: seq<nat>)
    ensures Rising(places) && |places| == |LeftOver(entries, placed)|
    ensures forall i :: 0 <= i < |places| ==> places[i] < |entries| && LeftOver(entries, placed)[i] == entries[places[i]]
    ensures forall k :: 0 <= k < |entries| ==>
              (k in places <==> forall i :: 0 <= i < |placed| ==> placed[i].answer != entries[k].answer)
  {
    places := [];
    if entries != [] {
      var n := |entries| - 1;
      places := LeftOverInOrder(entries[..n], placed);
      if forall i :: 0 <= i < |placed| ==> placed[i].answer != entries[n].answer {
        places := places + [n];
      }
    }
  }

  // ---------------------------------------------------------------- the layout

  // The returned layout is the built board, moved so that both minima are 0.
  ghost predicate Shows(l: TsLayout, raw: Layout, dx: int, dy: int) {
    && Represents(l.grid, MovedGrid(raw.grid, dx, dy))
    && l.placed == MovedWords(raw.placed, dx, dy)
    && (l.grid != map[] ==> InFrame(MovedGrid(raw.grid, dx, dy), 0, 0, l.maxX, l.maxY))
  }

  method BuildGreedyLayout(words: seq<string>, entries: seq<Entry>)
    returns (l: TsLayout, ghost raw: Layout, ghost dx: int, ghost dy: int)
    requires words != []
    ensures Built(words, raw) && Shows(l, raw, dx, dy)
    ensures l.unplaced == LeftOver(entries, l.placed)
  {
    hide LegalCrossing, Represents, MovedGrid, WinsBefore;
    var board := new KeyedBoard();
    board.PlaceWord(words[0], Point(0, 0), false);
    ghost var t := [board.Now()];
    for n := 1 to |words|
      invariant board.Valid()
      invariant Trace(words, t) && |t| == n && t[n - 1] == board.Now()
    {
      var placement := FindBestPlacement(words[n], board.cells, board.placed, board.grid);
      if placement.Some? {
        board.PlaceWord(words[n], placement.value.at, placement.value.vertical);
      }
      TraceOneMore(words, t, placement);
      t := t + [board.Now()];
    }
    raw := board.Now();
    var grid, placed, maxX, maxY;
    grid, placed, maxX, maxY, dx, dy := NormalizeLayout(board.cells, board.placed, board.grid);
    l := TsLayout(grid, placed, LeftOver(entries, placed), maxX, maxY);
    if board.cells == map[] {
      assert grid == map[] by { EmptyMoves(board.cells, board.grid, grid, dx, dy); }
    }
  }

  // Both builders, run on one ordered list: the server counts the words the player sees.
  method BuildersAgree(words: seq<string>, entries: seq<Entry>) returns (count: nat, l: TsLayout)
    requires words != []
    ensures count == |l.placed| >= 1
  {
    hide *;
    ghost var onServer;
    count, onServer := BuildConnectedCrosswordCount(words);
    ghost var raw, dx, dy;
    l, raw, dx, dy := BuildGreedyLayout(words, entries);
    BuiltIsUnique(words, onServer, raw);
    ShownAndPlaced(words, l, raw, dx, dy);
  }

  lemma EmptyMoves(cells: KeyedGrid, g: Grid, out: KeyedGrid, dx: int, dy: int)
    requires Represents(cells, g) && cells == map[] && Represents(out, MovedGrid(g, dx, dy))
    ensures out == map[]
  {
    hide MovedGrid;
    assert forall p :: p in g ==> Key(p) in cells;
    assert forall p :: p in MovedGrid(g, dx, dy) ==> Move(p, -dx, -dy) in g;
  }

  // What is left over depends on the answers only, not on where the words lie.
  lemma {:induction false} LeftOverOfMoved(entries: seq<Entry>, placed: seq<Word>, raw: seq<Word>)
    requires |placed| == |raw| && forall i :: 0 <= i < |placed| ==> placed[i].answer == raw[i].answer
    ensures LeftOver(entries, placed) == LeftOver(entries, raw)
  {
    if entries != [] {
      LeftOverOfMoved(entries[..|entries| - 1], placed, raw);
    }
  }

  ghost predicate Complete(entries: seq<Entry>, l: Layout) {
    LeftOver(entries, l.placed) == []
  }

  // Starting with word i leaves something over and places no more than `size` words.
  ghost predicate Draws(entries: seq<Entry>, sorted: seq<string>, i: nat, size: nat) {
    forall m :: i < |sorted| && Built(Rotated(sorted, i), m) ==> !Complete(entries, m) && |m.placed| <= size
  }

  // Starting with word i leaves something over and places fewer than `size` words.
  ghost predicate Loses(entries: seq<Entry>, sorted: seq<string>, i: nat, size: nat) {
    forall m :: i < |sorted| && Built(Rotated(sorted, i), m) ==> !Complete(entries, m) && |m.placed| < size
  }

  // None of the first n choices of the first word leaves nothing over, and `raw`, the board
  // of choice `first`, is the first of those that place the most words.
  ghost predicate BestOf(entries: seq<Entry>, sorted: seq<string>, n: nat, first: nat, raw: Layout) {
    && first < n <= |sorted| && Built(Rotated(sorted, first), raw)
    && (forall i: nat :: i < n ==> Draws(entries, sorted, i, |raw.placed|))
    && (forall i: nat :: i < first ==> Loses(entries, sorted, i, |raw.placed|))
  }

  // The board of the first choice that leaves nothing over.
  ghost predicate FirstComplete(entries: seq<Entry>, sorted: seq<string>, first: nat, raw: Layout) {
    && first < |sorted| && Built(Rotated(sorted, first), raw) && Complete(entries, raw)
    && forall i: nat, m :: i < first && Built(Rotated(sorted, i), m) ==> !Complete(entries, m)
  }

  // The board the layout returns.
  ghost predicate Returned(entries: seq<Entry>, first: nat, raw: Layout) {
    var sorted := ByLength(UsableAnswers(entries));
    || FirstComplete(entries, sorted, first, raw)
    || BestOf(entries, sorted, |sorted|, first, raw)
  }

  // In other words: no earlier choice leaves nothing over, and either this one does, or none
  // does and this one is the first of those that place the most words.
  ghost predicate FirstOrLargest(entries: seq<Entry>, sorted: seq<string>, first: nat, raw: Layout) {
    && first < |sorted| && Built(Rotated(sorted, first), raw)
    && (forall i: nat, m :: i < first && Built(Rotated(sorted, i), m) ==> LeftOver(entries, m.placed) != [])
    && (LeftOver(entries, raw.placed) != [] ==>
          forall i: nat, m :: i < |sorted| && Built(Rotated(sorted, i), m) ==>
            && LeftOver(entries, m.placed) != []
            && |m.placed| <= |raw.placed| && (i < first ==> |m.placed| < |raw.placed|))
  }

  lemma ReturnedIff(entries: seq<Entry>, first: nat, raw: Layout)
    ensures Returned(entries, first, raw) <==>
            FirstOrLargest(entries, ByLength(UsableAnswers(entries)), first, raw)
  {
    hide Built, Rotated, ByLength, UsableAnswers, LeftOver;
    var sorted := ByLength(UsableAnswers(entries));
    if BestOf(entries, sorted, |sorted|, first, raw) {
      LargestIsFirst(entries, sorted, first, raw);
    }
    if FirstOrLargest(entries, sorted, first, raw) {
      if LeftOver(entries, raw.placed) == [] {
        assert FirstComplete(entries, sorted, first, raw);
      } else {
        assert BestOf(entries, sorted, |sorted|, first, raw);
      }
    }
    if FirstComplete(entries, sorted, first, raw) {
      assert LeftOver(entries, raw.placed) == [] by {
        assert Complete(entries, raw);
      }
      forall i: nat, m | i < first && Built(Rotated(sorted, i), m)
        ensures LeftOver(entries, m.placed) != []
      {
        assert !Complete(entries, m);
      }
      assert FirstOrLargest(entries, sorted, first, raw);
    }
  }

  lemma LargestIsFirst(entries: seq<Entry>, sorted: seq<string>, first: nat, raw: Layout)
    requires BestOf(entries, sorted, |sorted|, first, raw)
    ensures FirstOrLargest(entries, sorted, first, raw)
  {
    hide Built, Rotated, LeftOver;
    forall i: nat, m | i < |sorted| && Built(Rotated(sorted, i), m)
      ensures LeftOver(entries, m.placed) != [] && |m.placed| <= |raw.placed|
      ensures i < first ==> |m.placed| < |raw.placed|
    {
      assert Draws(entries, sorted, i, |raw.placed|);
      assert i < first ==> Loses(entries, sorted, i, |raw.placed|);
    }
  }

  lemma NotBefore(entries: seq<Entry>, i: nat, l: Layout, j: nat, m: Layout)
    requires Returned(entries, i, l) && Returned(entries, j, m)
    ensures i >= j
  {
    hide Built, Complete, UsableAnswers, ByLength, Rotated;
    var sorted := ByLength(UsableAnswers(entries));
    assert FirstComplete(entries, sorted, i, l) ==> !Draws(entries, sorted, i, |m.placed|);
    assert FirstComplete(entries, sorted, j, m) ==> !Draws(entries, sorted, j, |l.placed|);
    assert BestOf(entries, sorted, |sorted|, i, l) ==> Draws(entries, sorted, j, |l.placed|);
    assert BestOf(entries, sorted, |sorted|, j, m) ==> i >= j || Loses(entries, sorted, i, |m.placed|);
  }

  lemma ReturnedIsUnique(entries: seq<Entry>, i: nat, l: Layout, j: nat, m: Layout)
    requires Returned(entries, i, l) && Returned(entries, j, m)
    ensures i == j && l == m
  {
    hide Built, Complete, UsableAnswers, ByLength, Rotated;
    var sorted := ByLength(UsableAnswers(entries));
    NotBefore(entries, i, l, j, m);
    NotBefore(entries, j, m, i, l);
    BuiltIsUnique(Rotated(sorted, i), l, m);
  }

  method BuildCrosswordLayout(entries: seq<Entry>)
    returns (l: TsLayout, ghost first: nat, ghost raw: Layout, ghost dx: int, ghost dy: int)
    ensures UsableAnswers(entries) == [] ==> l == TsLayout(map[], [], entries, 0, 0)
    ensures UsableAnswers(entries) != [] ==>
              && Shows(l, raw, dx, dy) && WellBuilt(raw) && WellBuilt(Moved(raw, dx, dy))
              && l.unplaced == LeftOver(entries, raw.placed)
              && Returned(entries, first, raw)
  {
    hide *;
    var usable := UsableAnswers(entries);
    l, first, raw, dx, dy := TsLayout(map[], [], entries, 0, 0), 0, Layout(map[], []), 0, 0;
    if |usable| == 0 {
      return;
    }
    var sorted := ByLength(usable);
    ByLengthKeepsSize(usable);
    for choice := 0 to |sorted|
      invariant choice == 0 ==> l.placed == []
      invariant choice > 0 ==>
                  && Shows(l, raw, dx, dy) && l.unplaced == LeftOver(entries, raw.placed)
                  && BestOf(entries, sorted, choice, first, raw) && |l.placed| == |raw.placed|
    {
      assert |Rotated(sorted, choice)| == |sorted| by { RotatedKeepsAnswers(sorted, choice); }
      var layout, board, mx, my := BuildGreedyLayout(Rotated(sorted, choice), entries);
      ShownAndPlaced(Rotated(sorted, choice), layout, board, mx, my);
      ShownLeftOver(entries, layout, board, mx, my);
      if layout.unplaced == [] {
        CompleteAtLast(entries, sorted, choice, first, raw, board);
        ReturnedIsWellBuilt(entries, choice, board, mx, my);
        return layout, choice, board, mx, my;
      }
      BestOfOneMore(entries, sorted, choice, first, raw, board);
      if |layout.placed| > |l.placed| {
        l, first, raw, dx, dy := layout, choice, board, mx, my;
      }
    }
    BestOfAll(entries, first, raw);
    ReturnedIsWellBuilt(entries, first, raw, dx, dy);
  }

  lemma BestOfAll(entries: seq<Entry>, first: nat, raw: Layout)
    requires var sorted := ByLength(UsableAnswers(entries)); BestOf(entries, sorted, |sorted|, first, raw)
    ensures Returned(entries, first, raw)
  {
    hide BestOf;
  }

  lemma CompleteAtLast(entries: seq<Entry>, sorted: seq<string>, n: nat, first: nat, raw: Layout, board: Layout)
    requires sorted == ByLength(UsableAnswers(entries))
    requires n == 0 || BestOf(entries, sorted, n, first, raw)
    requires n < |sorted| && Built(Rotated(sorted, n), board) && Complete(entries, board)
    ensures Returned(entries, n, board)
  {
    hide Built, Complete, Rotated, UsableAnswers, ByLength;
    forall i: nat, m | i < n && Built(Rotated(sorted, i), m)
      ensures !Complete(entries, m)
    {
      assert Draws(entries, sorted, i, |raw.placed|);
    }
    assert FirstComplete(entries, sorted, n, board);
  }

  lemma BestOfOneMore(entries: seq<Entry>, sorted: seq<string>, n: nat, first: nat, raw: Layout, board: Layout)
    requires n == 0 || BestOf(entries, sorted, n, first, raw)
    requires n < |sorted| && Built(Rotated(sorted, n), board) && !Complete(entries, board)
    ensures n == 0 || |board.placed| > |raw.placed| ==> BestOf(entries, sorted, n + 1, n, board)
    ensures n > 0 && |board.placed| <= |raw.placed| ==> BestOf(entries, sorted, n + 1, first, raw)
  {
    hide Built, Complete, Rotated;
    BoardDraws(entries, sorted, n, board);
    if n > 0 && |board.placed| > |raw.placed| {
      forall i: nat | i < n
        ensures Draws(entries, sorted, i, |board.placed|) && Loses(entries, sorted, i, |board.placed|)
      {
        DrawsMore(entries, sorted, i, |raw.placed|, |board.placed|);
      }
    }
    if n > 0 && |board.placed| <= |raw.placed| {
      DrawsMore(entries, sorted, n, |board.placed|, |raw.placed|);
    }
    hide Loses, Draws;
  }

  lemma BoardDraws(entries: seq<Entry>, sorted: seq<string>, n: nat, board: Layout)
    requires n < |sorted| && Built(Rotated(sorted, n), board) && !Complete(entries, board)
    ensures Draws(entries, sorted, n, |board.placed|)
  {
    hide Built, Complete, Rotated;
    forall m | Built(Rotated(sorted, n), m)
      ensures m == board
    {
      BuiltIsUnique(Rotated(sorted, n), m, board);
    }
  }

  lemma DrawsMore(entries: seq<Entry>, sorted: seq<string>, i: nat, size: nat, more: nat)
    requires Draws(entries, sorted, i, size) && size <= more
    ensures Draws(entries, sorted, i, more)
    ensures size < more ==> Loses(entries, sorted, i, more)
  {
    hide Built, Complete, Rotated;
  }

  lemma ShownLeftOver(entries: seq<Entry>, l: TsLayout, raw: Layout, dx: int, dy: int)
    requires Shows(l, raw, dx, dy) && l.unplaced == LeftOver(entries, l.placed)
    ensures l.unplaced == LeftOver(entries, raw.placed)
    ensures l.unplaced == [] <==> Complete(entries, raw)
  {
    PlacedOfShows(l, raw, dx, dy);
    LeftOverOfMoved(entries, l.placed, raw.placed);
  }

  lemma ReturnedIsWellBuilt(entries: seq<Entry>, first: nat, raw: Layout, dx: int, dy: int)
    requires Returned(entries, first, raw)
    ensures WellBuilt(raw) && WellBuilt(Moved(raw, dx, dy))
  {
    hide WellBuilt, Complete, Built;
    BuiltIsWellBuilt(Rotated(ByLength(UsableAnswers(entries)), first), raw);
    MoveKeepsWellBuilt(raw, dx, dy);
  }

  lemma ShownAndPlaced(words: seq<string>, l: TsLayout, raw: Layout, dx: int, dy: int)
    requires Built(words, raw) && Shows(l, raw, dx, dy)
    ensures |l.placed| == |raw.placed| >= 1
  {
    var t :| Trace(words, t) && |t| == |words| > 0 && t[|t| - 1] == raw;
    TraceHoldsFirst(words, t, |t| - 1);
  }

  lemma {:induction false} TraceHoldsFirst(words: seq<string>, t: seq<Layout>, i: nat)
    requires Trace(words, t) && i < |t|
    ensures |t[i].placed| >= 1
  {
    if i > 0 {
      TraceHoldsFirst(words, t, i - 1);
      assert Tried(t[i - 1], words[i], t[i]);
    }
  }

  // ------------------------------------------------- when the layout is complete

  // What the editor and the server's validator ask of each word and its neighbours; both
  // also ask for two words.
  ghost predicate Proper(entries: seq<Entry>) {
    && (forall e :: e in entries ==> |e.answer| >= 2 && e.clue != "")
    && (forall i, j :: 0 <= i < j < |entries| ==> entries[i].answer != entries[j].answer)
  }

  lemma {:induction false} ProperAnswers(entries: seq<Entry>)
    requires Proper(entries)
    ensures var u := UsableAnswers(entries);
            && |u| == |entries| && (forall i :: 0 <= i < |u| ==> u[i] == entries[i].answer)
            && Distinct(u) && (forall a :: a in u ==> |a| >= 2)
  {
    if entries != [] {
      ProperAnswers(entries[..|entries| - 1]);
      assert entries[|entries| - 1] in entries;
    }
  }

  // For a proper list, the placed words and the left over words split the list, and nothing
  // is left over exactly when some choice of the first word places every word.
  lemma CompleteExactly(entries: seq<Entry>, first: nat, raw: Layout)
    requires Proper(entries) && Returned(entries, first, raw)
    ensures forall e :: e in LeftOver(entries, raw.placed) <==> e in entries && !IsOnBoard(raw, e.answer)
    ensures forall w :: w in raw.placed ==> exists e :: e in entries && e.answer == w.answer
    ensures Complete(entries, raw) <==> |raw.placed| == |entries|
    ensures Complete(entries, raw) <==> SomeOrderPlacesAll(ByLength(UsableAnswers(entries)))
  {
    hide *;
    var sorted := ByLength(UsableAnswers(entries));
    LeftOverMeans(entries, raw.placed, raw);
    ReturnedMeans(entries, first, raw);
    CompleteMeansAll(entries, first, raw);
    OrderIsUsable(entries, first);
    BuiltPlacesOwn(Rotated(sorted, first), raw);
    if Complete(entries, raw) {
      PlacesAllBy(sorted, first, raw);
    }
    if SomeOrderPlacesAll(sorted) {
      var i, m := AllPlacedBy(sorted);
      CompleteMeansAll(entries, i, m);
      CompleteIsReturned(entries, first, raw, i, m);
    }
  }

  lemma BuiltPlacesOwn(answers: seq<string>, l: Layout)
    requires Built(answers, l) && Distinct(answers) && forall a :: a in answers ==> |a| >= 2
    ensures forall w :: w in l.placed ==> w.answer in answers
  {
    BuiltPlacesEachOnce(answers, l);
  }

  lemma ReturnedMeans(entries: seq<Entry>, first: nat, raw: Layout)
    requires Returned(entries, first, raw)
    ensures var sorted := ByLength(UsableAnswers(entries)); first < |sorted| && Built(Rotated(sorted, first), raw)
  {
  }

  lemma PlacesAllBy(sorted: seq<string>, i: nat, l: Layout)
    requires i < |sorted| && Built(Rotated(sorted, i), l) && |l.placed| == |sorted|
    ensures SomeOrderPlacesAll(sorted)
  {
  }

  lemma AllPlacedBy(sorted: seq<string>) returns (i: nat, l: Layout)
    requires SomeOrderPlacesAll(sorted)
    ensures i < |sorted| && Built(Rotated(sorted, i), l) && |l.placed| == |sorted|
  {
    i, l :| i < |sorted| && Built(Rotated(sorted, i), l) && |l.placed| == |sorted|;
  }

  // When some choice leaves nothing over, the returned board leaves nothing over.
  lemma CompleteIsReturned(entries: seq<Entry>, first: nat, raw: Layout, i: nat, m: Layout)
    requires Returned(entries, first, raw)
    requires i < |ByLength(UsableAnswers(entries))| && Built(Rotated(ByLength(UsableAnswers(entries)), i), m)
    requires Complete(entries, m)
    ensures Complete(entries, raw)
  {
    hide Built, Complete, Rotated, UsableAnswers, ByLength;
    assert !Draws(entries, ByLength(UsableAnswers(entries)), i, |raw.placed|);
  }

  // Whichever word goes first, nothing is left over exactly when all words are placed.
  lemma CompleteMeansAll(entries: seq<Entry>, i: nat, m: Layout)
    requires Proper(entries) && i < |ByLength(UsableAnswers(entries))|
    requires Built(Rotated(ByLength(UsableAnswers(entries)), i), m)
    ensures |ByLength(UsableAnswers(entries))| == |entries|
    ensures Complete(entries, m) <==> |m.placed| == |entries|
  {
    hide Built, WellBuilt, UsableAnswers, ByLength, Rotated;
    var order := Rotated(ByLength(UsableAnswers(entries)), i);
    OrderIsUsable(entries, i);
    BuiltPlacesEachOnce(order, m);
    LeftOverMeans(entries, m.placed, m);
    NothingLeftIffAllOnBoard(entries, LeftOver(entries, m.placed), m, order);
  }

  // The client's own test; it builds the whole layout.
  method CanBuildOnClient(entries: seq<Entry>) returns (ok: bool)
    ensures UsableAnswers(entries) == [] ==> (ok <==> entries == [])
    ensures UsableAnswers(entries) != [] ==>
              exists first, raw :: Returned(entries, first, raw) &&
                (ok <==> Complete(entries, raw) && |raw.placed| == |entries|)
    ensures Proper(entries) ==>
              (ok <==> entries == [] || SomeOrderPlacesAll(ByLength(UsableAnswers(entries))))
  {
    hide *;
    var layout, first, raw, dx, dy := BuildCrosswordLayout(entries);
    ok := layout.unplaced == [] && |layout.placed| == |entries|;
    if UsableAnswers(entries) != [] {
      PlacedOfShows(layout, raw, dx, dy);
      CompleteIsNothingLeft(entries, raw);
      assert Returned(entries, first, raw) && (ok <==> Complete(entries, raw) && |raw.placed| == |entries|);
      if Proper(entries) {
        CompleteExactly(entries, first, raw);
        ProperAnswers(entries);
      }
    } else if Proper(entries) {
      ProperAnswers(entries);
    }
  }

  lemma CompleteIsNothingLeft(entries: seq<Entry>, raw: Layout)
    ensures Complete(entries, raw) <==> LeftOver(entries, raw.placed) == []
  {
  }

  lemma OneWordPlacesAll(a: string)
    ensures SomeOrderPlacesAll([a])
  {
    var l := Placed(EMPTY_LAYOUT, a, Point(0, 0), false);
    assert Rotated([a], 0) == [a];
    var t := [l];
    assert Trace([a], t) && |t| == |[a]| && t[|t| - 1] == l;
    assert Built([a], l);
  }

  // Client and server give the same answer about a proper list, in the order in which the
  // client's stable sort leaves it, exactly when it holds two words or more.
  method BothDecide(entries: seq<Entry>) returns (client: bool, server: bool)
    requires Proper(entries)
    ensures client == server <==> |entries| >= 2
  {
    hide *;
    var sorted := ByLength(UsableAnswers(entries));
    client := CanBuildOnClient(entries);
    server := CanBuildConnectedCrossword(sorted);
    ProperAnswers(entries);
    ByLengthKeepsSize(UsableAnswers(entries));
    if |entries| == 1 {
      assert sorted == [sorted[0]];
      OneWordPlacesAll(sorted[0]);
    }
  }

  lemma PlacedOfShows(l: TsLayout, raw: Layout, dx: int, dy: int)
    requires Shows(l, raw, dx, dy)
    ensures |l.placed| == |raw.placed|
    ensures forall i :: 0 <= i < |l.placed| ==> l.placed[i].answer == raw.placed[i].answer
    ensures forall w :: w in l.placed ==> IsOnBoard(raw, w.answer)
  {
    forall k | 0 <= k < |l.placed|
      ensures IsOnBoard(raw, l.placed[k].answer)
    {
      assert raw.placed[k] in raw.placed;
    }
  }

  lemma OrderIsUsable(entries: seq<Entry>, i: nat)
    requires Proper(entries) && i < |ByLength(UsableAnswers(entries))|
    ensures var r := Rotated(ByLength(UsableAnswers(entries)), i);
            && Distinct(r) && |r| == |ByLength(UsableAnswers(entries))| == |entries|
            && (forall a :: a in r ==> |a| >= 2)
            && (forall a :: a in r <==> exists e :: e in entries && e.answer == a)
  {
    hide *;
    var usable := UsableAnswers(entries);
    ProperAnswers(entries);
    ByLengthSorts(usable);
    OrderKeepsAnswers(usable, ByLength(usable), i);
    AnswersOfEntries(entries, usable);
  }

  lemma OrderKeepsAnswers(usable: seq<string>, sorted: seq<string>, i: nat)
    requires Distinct(usable) && (forall a :: a in usable ==> |a| >= 2)
    requires multiset(sorted) == multiset(usable) && i < |sorted|
    ensures var r := Rotated(sorted, i);
            && Distinct(r) && |r| == |sorted| == |usable|
            && (forall a :: a in r ==> |a| >= 2)
            && (forall a :: a in r <==> a in usable)
  {
    hide *;
    RotatedKeepsAnswers(sorted, i);
    SameAnswersStayUsable(usable, Rotated(sorted, i));
  }

  lemma AnswersOfEntries(entries: seq<Entry>, answers: seq<string>)
    requires |answers| == |entries| && forall i :: 0 <= i < |answers| ==> answers[i] == entries[i].answer
    ensures forall a :: a in answers <==> exists e :: e in entries && e.answer == a
  {
    forall a
      ensures a in answers <==> exists e :: e in entries && e.answer == a
    {
      if e :| e in entries && e.answer == a {
        var k :| 0 <= k < |entries| && entries[k] == e;
        assert answers[k] == a;
      }
    }
  }

  lemma NothingLeftIffAllOnBoard(entries: seq<Entry>, left: seq<Entry>, raw: Layout, order: seq<string>)
    requires forall e :: e in left <==> e in entries && !IsOnBoard(raw, e.answer)
    requires forall a :: a in order <==> exists e :: e in entries && e.answer == a
    ensures left == [] <==> forall a :: a in order ==> IsOnBoard(raw, a)
  {
    if left != [] {
      assert left[0] in left && left[0].answer in order;
    } else {
      forall a | a in order
        ensures IsOnBoard(raw, a)
      {
        var e :| e in entries && e.answer == a;
        assert e !in left;
      }
    }
  }
}
