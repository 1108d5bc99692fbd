// The phrase puzzle: a phrase cut into pieces, shuffled, and put in order again by moving
// one piece at a time.
module Puzzle {
  import opened Wrappers
  import opened Draws

  datatype Piece = Piece(text: string, originalIndex: nat)

  // ------------------------------------------------------------- cutting the phrase

  // Where the i-th piece begins: the first pieces take one letter more each until the
  // remainder is used up.
  function Cut(length: nat, n: nat, i: nat): nat
    requires n > 0
  {
    i * (length / n) + if i < length % n then i else length % n
  }

  lemma CutsRise(length: nat, n: nat, i: nat)
    requires n > 0 && i < n
    ensures Cut(length, n, i + 1) - Cut(length, n, i) == length / n + if i < length % n then 1 else 0
    ensures Cut(length, n, i) <= Cut(length, n, i + 1) <= length
    ensures Cut(length, n, 0) == 0 && Cut(length, n, n) == length
  {
    var base, rest := length / n, length % n;
    assert length == n * base + rest;
    assert (i + 1) * base == i * base + base;
    TimesGrows(i + 1, n, base);
  }

  function Original(phrase: string, n: nat): (pieces: seq<Piece>)
    requires n > 0
    ensures |pieces| == n
  {
    seq(n, i requires 0 <= i < n =>
      CutsRise(|phrase|, n, i);
      Piece(phrase[Cut(|phrase|, n, i)..Cut(|phrase|, n, i + 1)], i))
  }

  function Joined(pieces: seq<Piece>): string {
    if pieces == [] then "" else Joined(pieces[..|pieces| - 1]) + pieces[|pieces| - 1].text
  }

  lemma JoinedOneMore(pieces: seq<Piece>, k: nat)
    requires k < |pieces|
    ensures Joined(pieces[..k + 1]) == Joined(pieces[..k]) + pieces[k].text
  {
    assert pieces[..k + 1][..k] == pieces[..k];
  }

  lemma JoinedNothing(phrase: string, n: nat)
    requires n > 0
    ensures Cut(|phrase|, n, 0) == 0 && Joined([]) == ""
  {
    CutsRise(|phrase|, n, 0);
  }

  lemma PieceText(phrase: string, n: nat, k: nat)
    requires n > 0 && k < n
    ensures Cut(|phrase|, n, k) <= Cut(|phrase|, n, k + 1) <= |phrase|
    ensures Original(phrase, n)[k].text == phrase[Cut(|phrase|, n, k)..Cut(|phrase|, n, k + 1)]
  {
    CutsRise(|phrase|, n, k);
    hide Cut;
  }

  lemma {:induction false} JoinedUpTo(phrase: string, n: nat, k: nat)
    requires 0 < n && k <= n
    ensures Cut(|phrase|, n, k) <= |phrase|
    ensures Joined(Original(phrase, n)[..k]) == phrase[..Cut(|phrase|, n, k)]
  {
    hide *;
    JoinedNothing(phrase, n);
    var all := Original(phrase, n);
    if k == 0 {
      assert all[..0] == [];
    } else {
      JoinedUpTo(phrase, n, k - 1);
      PieceText(phrase, n, k - 1);
      JoinedOneMore(all, k - 1);
      var a, b := Cut(|phrase|, n, k - 1), Cut(|phrase|, n, k);
      assert phrase[..b] == phrase[..a] + phrase[a..b];
    }
  }

  lemma PieceLength(phrase: string, n: nat, i: nat)
    requires n > 0 && i < n
    ensures |Original(phrase, n)[i].text| == |phrase| / n + if i < |phrase| % n then 1 else 0
  {
    CutsRise(|phrase|, n, i);
    hide Cut;
  }

  // In their original order the pieces spell the phrase, and no two lengths differ by more
  // than one.
  lemma PiecesSpellThePhrase(phrase: string, n: nat)
    requires n > 0
    ensures Joined(Original(phrase, n)) == phrase
    ensures forall i, j :: 0 <= i < j < n ==>
              0 <= |Original(phrase, n)[i].text| - |Original(phrase, n)[j].text| <= 1
  {
    JoinedUpTo(phrase, n, n);
    CutsRise(|phrase|, n, n - 1);
    hide Cut, Original;
    var all := Original(phrase, n);
    assert all[..n] == all && phrase[..|phrase|] == phrase;
    forall i, j | 0 <= i < j < n
      ensures 0 <= |all[i].text| - |all[j].text| <= 1
    {
      PieceLength(phrase, n, i);
      PieceLength(phrase, n, j);
    }
  }

  // ------------------------------------------------------------------- the round

  datatype Round = Round(pieces: seq<Piece>, finished: bool, score: int, moves: nat)

  predicate Solved(pieces: seq<Piece>) {
    forall i :: 0 <= i < |pieces| ==> pieces[i].originalIndex == i
  }

  ghost predicate Shuffling(pieces: seq<Piece>, all: seq<Piece>) {
    multiset(pieces) == multiset(all)
  }

  // Take one piece out and put it back elsewhere.
  function Spliced(pieces: seq<Piece>, from: nat, to: nat): seq<Piece>
    requires from < |pieces| && to < |pieces|
  {
    var rest := pieces[..from] + pieces[from + 1..];
    rest[..to] + [pieces[from]] + rest[to..]
  }

  function ScoreAfter(moves: nat): int {
    if 1000 - moves * 10 < 100 then 100 else 1000 - moves * 10
  }

  // A move in a finished round, or from or to a place that is not there, does nothing.
  function Reordered(p: Round, from: int, to: int): Round {
    if p.finished || !(0 <= from < |p.pieces| && 0 <= to < |p.pieces|) then p
    else
      var pieces, moves := Spliced(p.pieces, from, to), p.moves + 1;
      Round(pieces, Solved(pieces), if Solved(pieces) then ScoreAfter(moves) else p.score, moves)
  }

  function Play(p: Round, moves: seq<(int, int)>): Round
    decreases |moves|
  {
    if moves == [] then p else Play(Reordered(p, moves[0].0, moves[0].1), moves[1..])
  }

  // ----------------------------------------------------------------- shuffling

  function Swapped(pieces: seq<Piece>, i: nat, j: nat): (swapped: seq<Piece>)
    requires i < |pieces| && j < |pieces|
    ensures |swapped| == |pieces|
  {
    pieces[i := pieces[j]][j := pieces[i]]
  }

  // Fisher and Yates: from the last place down, swap with a place drawn from those up to it.
  function Shuffled(pieces: seq<Piece>, i: nat, seed: nat): (seq<Piece>, nat)
    requires i == 0 || i < |pieces|
    decreases i
  {
    if i == 0 then (pieces, seed)
    else
      var s := NextSeed(seed);
      ScaledIsInRange(s, i + 1);
      Shuffled(Swapped(pieces, i, Scaled(s, i + 1)), i - 1, s)
  }

  lemma {:induction false} ShuffleKeepsPieces(pieces: seq<Piece>, i: nat, seed: nat)
    requires i == 0 || i < |pieces|
    ensures multiset(Shuffled(pieces, i, seed).0) == multiset(pieces)
    ensures |Shuffled(pieces, i, seed).0| == |pieces|
    decreases i
  {
    hide NextSeed, Scaled, Swapped;
    if i > 0 {
      var s := NextSeed(seed);
      ScaledIsInRange(s, i + 1);
      SwapKeepsPieces(pieces, i, Scaled(s, i + 1));
      ShuffleKeepsPieces(Swapped(pieces, i, Scaled(s, i + 1)), i - 1, s);
    }
  }

  lemma SwapKeepsPieces(pieces: seq<Piece>, i: nat, j: nat)
    requires i < |pieces| && j < |pieces|
    ensures multiset(Swapped(pieces, i, j)) == multiset(pieces) && |Swapped(pieces, i, j)| == |pieces|
  {
  }

  // Shuffle again while the pieces come out in order, up to so many times.
  function Mixed(pieces: seq<Piece>, seed: nat, tries: nat): (seq<Piece>, nat)
    requires pieces != []
    decreases tries
  {
    if tries == 0 then (pieces, seed)
    else
      var once := Shuffled(pieces, |pieces| - 1, seed);
      ShuffleKeepsPieces(pieces, |pieces| - 1, seed);
      if Solved(once.0) then Mixed(once.0, once.1, tries - 1) else once
  }

  lemma {:induction false} MixedKeepsPieces(pieces: seq<Piece>, seed: nat, tries: nat)
    requires pieces != []
    ensures multiset(Mixed(pieces, seed, tries).0) == multiset(pieces)
    decreases tries
  {
    hide Shuffled, Solved;
    if tries > 0 {
      ShuffleKeepsPieces(pieces, |pieces| - 1, seed);
      var once := Shuffled(pieces, |pieces| - 1, seed);
      MixedKeepsPieces(once.0, once.1, tries - 1);
    }
  }

  // ------------------------------------------------------------- what moves keep

  lemma TakeOut(pieces: seq<Piece>, i: nat)
    requires i < |pieces|
    ensures multiset(pieces[..i] + pieces[i + 1..]) + multiset{pieces[i]} == multiset(pieces)
  {
    assert pieces == pieces[..i] + [pieces[i]] + pieces[i + 1..];
  }

  lemma SpliceKeepsPieces(pieces: seq<Piece>, from: nat, to: nat)
    requires from < |pieces| && to < |pieces|
    ensures multiset(Spliced(pieces, from, to)) == multiset(pieces)
  {
    var rest := pieces[..from] + pieces[from + 1..];
    var once := Spliced(pieces, from, to);
    TakeOut(pieces, from);
    TakeOut(once, to);
    assert once[..to] + once[to + 1..] == rest;
  }

  // Moving a piece there and back restores the order.
  lemma SpliceBack(pieces: seq<Piece>, from: nat, to: nat)
    requires from < |pieces| && to < |pieces|
    ensures |Spliced(pieces, from, to)| == |pieces|
    ensures Spliced(Spliced(pieces, from, to), to, from) == pieces
  {
    var rest := pieces[..from] + pieces[from + 1..];
    var once := Spliced(pieces, from, to);
    assert once[..to] + once[to + 1..] == rest;
    assert rest[..from] == pieces[..from] && rest[from..] == pieces[from + 1..];
  }

  // The pieces stay those of the phrase, and a finished round shows the phrase and the score
  // of its number of moves.
  ghost predicate Sound(p: Round, phrase: string, n: nat)
    requires n > 0
  {
    && Shuffling(p.pieces, Original(phrase, n))
    && (p.finished ==> Solved(p.pieces) && p.score == if p.moves <= 90 then 1000 - 10 * p.moves else 100)
    && (!p.finished ==> p.score == 0)
  }

  // A piece that is moved lands where it is told, and the pieces between close up by one place.
  lemma SpliceShifts(pieces: seq<Piece>, from: nat, to: nat, i: nat)
    requires from < |pieces| && to < |pieces| && i < |pieces|
    ensures |Spliced(pieces, from, to)| == |pieces|
    ensures Spliced(pieces, from, to)[i] ==
            if i == to then pieces[from]
            else if from <= i < to then pieces[i + 1]
            else if to < i <= from then pieces[i - 1]
            else pieces[i]
  {
  }

  // A move counts once, and looks whether the pieces are in order, exactly when it is one.
  lemma MoveMeans(p: Round, from: int, to: int, phrase: string, n: nat)
    requires n > 0 && Sound(p, phrase, n)
    ensures var q := Reordered(p, from, to);
            if p.finished || from < 0 || from >= n || to < 0 || to >= n then q == p
            else q.moves == p.moves + 1 && (q.finished <==> Joined(q.pieces) == phrase && q.pieces == Original(phrase, n))
  {
    SameSize(p.pieces, Original(phrase, n));
    MoveKeepsSound(p, from, to, phrase, n);
    var q := Reordered(p, from, to);
    SolvedSpells(q.pieces, phrase, n);
    hide Original, Solved, Spliced, Joined;
  }

  lemma MoveKeepsSound(p: Round, from: int, to: int, phrase: string, n: nat)
    requires n > 0 && Sound(p, phrase, n)
    ensures Sound(Reordered(p, from, to), phrase, n)
    ensures p.moves <= Reordered(p, from, to).moves <= p.moves + 1
  {
    if !p.finished && 0 <= from < |p.pieces| && 0 <= to < |p.pieces| {
      SpliceKeepsPieces(p.pieces, from, to);
    }
  }

  lemma {:induction false} PlayKeepsSound(p: Round, moves: seq<(int, int)>, phrase: string, n: nat)
    requires n > 0 && Sound(p, phrase, n)
    ensures Sound(Play(p, moves), phrase, n)
    ensures p.moves <= Play(p, moves).moves <= p.moves + |moves|
    decreases |moves|
  {
    if moves != [] {
      MoveKeepsSound(p, moves[0].0, moves[0].1, phrase, n);
      PlayKeepsSound(Reordered(p, moves[0].0, moves[0].1), moves[1..], phrase, n);
    }
  }

  lemma SameSize(pieces: seq<Piece>, all: seq<Piece>)
    requires Shuffling(pieces, all)
    ensures |pieces| == |all|
  {
    assert |multiset(pieces)| == |pieces| && |multiset(all)| == |all|;
  }

  // In order means in the original order: a finished round spells the phrase.
  lemma SolvedSpells(pieces: seq<Piece>, phrase: string, n: nat)
    requires n > 0 && Shuffling(pieces, Original(phrase, n))
    ensures Solved(pieces) <==> pieces == Original(phrase, n)
    ensures Solved(pieces) ==> Joined(pieces) == phrase
  {
    var all := Original(phrase, n);
    SameSize(pieces, all);
    PiecesSpellThePhrase(phrase, n);
    if Solved(pieces) {
      forall i | 0 <= i < n
        ensures pieces[i] == all[i]
      {
        assert pieces[i] in multiset(pieces);
        assert pieces[i] in multiset(all);
        var j :| 0 <= j < n && all[j] == pieces[i];
      }
    }
  }

  // --------------------------------------------------------------- solving it

  // The first k pieces are already those of the phrase.
  ghost predicate Begun(pieces: seq<Piece>, all: seq<Piece>, k: nat) {
    |pieces| == |all| && k <= |all| && pieces[..k] == all[..k]
  }

  lemma NextPiece(pieces: seq<Piece>, phrase: string, n: nat, k: nat) returns (from: nat)
    requires n > 0 && k < n
    requires Shuffling(pieces, Original(phrase, n)) && Begun(pieces, Original(phrase, n), k)
    ensures k <= from < n && pieces[from] == Original(phrase, n)[k]
  {
    var all := Original(phrase, n);
    assert all[k] in multiset(all);
    assert all[k] in multiset(pieces);
    from :| 0 <= from < n && pieces[from] == all[k];
    assert forall i :: 0 <= i < k ==> pieces[i] == pieces[..k][i] == all[..k][i] == all[i];
  }

  lemma PutNext(pieces: seq<Piece>, all: seq<Piece>, from: nat, k: nat)
    requires Begun(pieces, all, k) && k <= from < |pieces| && pieces[from] == all[k]
    ensures Begun(Spliced(pieces, from, k), all, k + 1)
    ensures from == k ==> Begun(pieces, all, k + 1)
  {
    var once := Spliced(pieces, from, k);
    assert once[..k + 1] == pieces[..k] + [pieces[from]];
    assert all[..k + 1] == all[..k] + [all[k]];
    assert pieces[..k + 1] == pieces[..k] + [pieces[k]];
  }

  lemma LastIsRight(pieces: seq<Piece>, phrase: string, n: nat)
    requires n > 0 && Begun(pieces, Original(phrase, n), n)
    ensures Solved(pieces)
  {
    assert pieces[..n] == pieces;
  }

  // One move at most for each place but the last, which then is right of itself.
  lemma {:induction false} SolveFrom(p: Round, phrase: string, n: nat, k: nat) returns (moves: seq<(int, int)>)
    requires 0 < n && k < n && Sound(p, phrase, n) && Begun(p.pieces, Original(phrase, n), k)
    ensures |moves| <= n - 1 - k
    ensures Solved(Play(p, moves).pieces) && (moves != [] ==> Play(p, moves).finished)
    decreases n - k
  {
    hide Spliced, Original, Solved, Begun, Sound, Shuffling;
    if p.finished {
      moves := [];
      FinishedIsSolved(p, phrase, n);
      return;
    }
    SoundShuffles(p, phrase, n);
    var all := Original(phrase, n);
    var from := NextPiece(p.pieces, phrase, n, k);
    SameSize(p.pieces, all);
    PutNext(p.pieces, all, from, k);
    if k == n - 1 {
      moves := [];
      assert from == k;
      LastIsRight(p.pieces, phrase, n);
    } else if from == k {
      moves := SolveFrom(p, phrase, n, k + 1);
    } else {
      var q := Reordered(p, from, k);
      MoveKeepsSound(p, from, k, phrase, n);
      var rest := SolveFrom(q, phrase, n, k + 1);
      moves := [(from as int, k as int)] + rest;
      assert moves[1..] == rest;
    }
  }

  lemma SoundShuffles(p: Round, phrase: string, n: nat)
    requires n > 0 && Sound(p, phrase, n)
    ensures Shuffling(p.pieces, Original(phrase, n))
  {
  }

  lemma FinishedIsSolved(p: Round, phrase: string, n: nat)
    requires n > 0 && Sound(p, phrase, n) && p.finished
    ensures Solved(p.pieces)
  {
  }

  // Every round with its pieces in any order can be finished in max(1, n - 1) moves; a fresh
  // one then scores at least 1000 - 10 * max(1, n - 1), which is 810 for twenty pieces.
  lemma AlwaysSolvable(p: Round, phrase: string, n: nat) returns (moves: seq<(int, int)>)
    requires 3 <= n <= 20 && Sound(p, phrase, n)
    ensures |moves| <= n - 1
    ensures Play(p, moves).finished && Joined(Play(p, moves).pieces) == phrase
    ensures p.moves == 0 ==> Play(p, moves).score >= 810
  {
    SameSize(p.pieces, Original(phrase, n));
    moves := SolveFrom(p, phrase, n, 0);
    hide Spliced, Original, Solved, Shuffling;
    if moves == [] && !p.finished {
      moves := [(0, 0)];
      OneMoveFinishes(p);
    }
    PlayKeepsSound(p, moves, phrase, n);
    SolvedSpells(Play(p, moves).pieces, phrase, n);
    hide Play;
  }

  // Putting a piece back where it was makes the engine look at the order.
  lemma OneMoveFinishes(p: Round)
    requires !p.finished && Solved(p.pieces) && p.pieces != []
    ensures Play(p, [(0, 0)]).finished && Solved(Play(p, [(0, 0)]).pieces)
  {
    hide Solved;
    assert Spliced(p.pieces, 0, 0) == p.pieces;
    assert Play(p, [(0, 0)]) == Play(Reordered(p, 0, 0), []);
  }

  // ---------------------------------------------------------------------- the engine

  class PuzzleEngine {
    const phrase: string
    const piecesCount: nat
    var pieces: seq<Piece>
    var finished: bool
    var score: int
    var moves: nat
    var seed: nat

    ghost predicate Valid()
      reads this
    {
      3 <= piecesCount <= 20 && phrase != "" && Sound(Now(), phrase, piecesCount)
    }

    function Now(): Round
      reads this
    {
      Round(pieces, finished, score, moves)
    }

    // None stands for the exception of a wrong number of pieces or an empty phrase.
    static method Create(phrase: string, piecesCount: int, seed: nat) returns (r: Option<PuzzleEngine>)
      ensures r.Some? <==> 3 <= piecesCount <= 20 && phrase != ""
      ensures r.Some? ==> r.value.Valid() && r.value.phrase == phrase && r.value.piecesCount == piecesCount
      ensures r.Some? ==> r.value.pieces == Mixed(Original(phrase, piecesCount), seed, 100).0
      ensures r.Some? ==> r.value.moves == 0 && !r.value.finished && fresh(r.value)
    {
      if piecesCount < 3 || piecesCount > 20 || phrase == "" {
        return None;
      }
      var engine := new PuzzleEngine(phrase, piecesCount, seed);
      return Some(engine);
    }

    constructor (phrase: string, piecesCount: nat, seed: nat)
      requires 3 <= piecesCount <= 20 && phrase != ""
      ensures Valid() && this.phrase == phrase && this.piecesCount == piecesCount
      ensures moves == 0 && !finished
      ensures pieces == Mixed(Original(phrase, piecesCount), seed, 100).0
    {
      this.phrase, this.piecesCount, this.seed := phrase, piecesCount, seed;
      pieces, finished, score, moves := [], false, 0, 0;
      new;
      GeneratePieces();
    }

    // floor(random() * n).
    method RandomIndex(n: nat) returns (k: nat)
      requires n > 0
      modifies this`seed
      ensures seed == NextSeed(old(seed)) && k == Scaled(seed, n) < n
    {
      seed := NextSeed(seed);
      ScaledIsInRange(seed, n);
      return Scaled(seed, n);
    }

    method SplitPhrase() returns (all: seq<Piece>)
      requires piecesCount > 0
      ensures all == Original(phrase, piecesCount)
    {
      var baseLength, remainder := |phrase| / piecesCount, |phrase| % piecesCount as int;
      var startIndex := 0;
      all := [];
      for i := 0 to piecesCount
        invariant remainder == |phrase| % piecesCount - i
        invariant startIndex == Cut(|phrase|, piecesCount, i)
        invariant all == Original(phrase, piecesCount)[..i]
      {
        CutsRise(|phrase|, piecesCount, i);
        var length := baseLength + if remainder > 0 then 1 else 0;
        remainder := remainder - 1;
        all := all + [Piece(phrase[startIndex..startIndex + length], i)];
        startIndex := startIndex + length;
      }
    }

    method ShuffleInPlace(a: array<Piece>)
      requires a.Length > 0
      modifies this`seed, a
      ensures (a[..], seed) == Shuffled(old(a[..]), a.Length - 1, old(seed))
    {
      hide NextSeed, Scaled, Swapped;
      var i := a.Length - 1;
      while i > 0
        invariant 0 <= i < a.Length
        invariant Shuffled(a[..], i, seed) == Shuffled(old(a[..]), a.Length - 1, old(seed))
      {
        var j := RandomIndex(i + 1);
        SwapInArray(a, i, j);
        i := i - 1;
      }
    }

    method SwapInArray(a: array<Piece>, i: nat, j: nat)
      requires i < a.Length && j < a.Length
      modifies a
      ensures a[..] == Swapped(old(a[..]), i, j)
    {
      a[i], a[j] := a[j], a[i];
    }

    // The pieces end up in the order that the seed gives; in the original one only when a
    // hundred shuffles in a row gave it.
    method GeneratePieces()
      requires piecesCount > 0
      modifies this`pieces, this`seed
      ensures (pieces, seed) == Mixed(Original(phrase, piecesCount), old(seed), 100)
      ensures Shuffling(pieces, Original(phrase, piecesCount))
    {
      var all := SplitPhrase();
      var shuffled := new Piece[|all|](i requires 0 <= i < |all| => all[i]);
      assert shuffled[..] == all;
      MixedKeepsPieces(all, seed, 100);
      hide Mixed, Original;
      MixInPlace(shuffled);
      pieces := shuffled[..];
    }

    // Shuffles until the pieces are out of order, at most a hundred times.
    method MixInPlace(a: array<Piece>)
      requires a.Length > 0
      modifies this`seed, a
      ensures (a[..], seed) == Mixed(old(a[..]), old(seed), 100)
    {
      hide Shuffled, Solved;
      var isSolved, maxAttempts := true, 100;
      while isSolved && maxAttempts > 0
        invariant Mixed(old(a[..]), old(seed), 100) == if isSolved then Mixed(a[..], seed, maxAttempts) else (a[..], seed)
        decreases maxAttempts
      {
        maxAttempts := maxAttempts - 1;
        ShuffleInPlace(a);
        isSolved := Solved(a[..]);
      }
    }

    method ReorderPieces(fromIndex: int, toIndex: int)
      requires Valid()
      modifies this`pieces, this`moves, this`finished, this`score
      ensures Now() == Reordered(old(Now()), fromIndex, toIndex)
      ensures Valid()
    {
      hide Sound;
      MoveKeepsSound(Now(), fromIndex, toIndex, phrase, piecesCount);
      if finished {
        return;
      }
      if fromIndex < 0 || fromIndex >= |pieces| || toIndex < 0 || toIndex >= |pieces| {
        return;
      }
      var movedPiece := pieces[fromIndex];
      var newPieces := pieces[..fromIndex] + pieces[fromIndex + 1..];
      newPieces := newPieces[..toIndex] + [movedPiece] + newPieces[toIndex..];
      pieces, moves := newPieces, moves + 1;
      CheckCompletion();
    }

    method CheckCompletion()
      modifies this`finished, this`score
      ensures finished == Solved(pieces)
      ensures score == if finished then ScoreAfter(moves) else old(score)
    {
      finished := Solved(pieces);
      if finished {
        score := 1000 - moves * 10;
        if score < 100 {
          score := 100;
        }
      }
    }

    method Reset()
      requires Valid()
      modifies this
      ensures Valid() && moves == 0 && !finished
      ensures (pieces, seed) == Mixed(Original(phrase, piecesCount), old(seed), 100)
    {
      moves, score, finished := 0, 0, false;
      GeneratePieces();
    }
  }
}
