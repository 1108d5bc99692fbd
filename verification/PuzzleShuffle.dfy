// The shuffle: every order of the pieces comes from exactly one sequence of draws.
module PuzzleShuffle {
  import opened Draws
  import opened Puzzle

  // Draws for the places i, i - 1, ..., 1, each of a place no later than its own.
  predicate AreDraws(draws: seq<nat>, i: nat) {
    |draws| == i && forall k :: 0 <= k < i ==> draws[k] <= i - k
  }

  function ShuffledBy(pieces: seq<Piece>, i: nat, draws: seq<nat>): seq<Piece>
    requires (i == 0 || i < |pieces|) && AreDraws(draws, i)
    decreases i
  {
    if i == 0 then pieces else ShuffledBy(Swapped(pieces, i, draws[0]), i - 1, draws[1..])
  }

  // The draws that a seed gives: each from one new number of the generator.
  function DrawsOf(i: nat, seed: nat): (draws: seq<nat>)
    ensures AreDraws(draws, i)
    decreases i
  {
    if i == 0 then []
    else
      var s := NextSeed(seed);
      ScaledIsInRange(s, i + 1);
      [Scaled(s, i + 1)] + DrawsOf(i - 1, s)
  }

  lemma {:induction false} ShuffledByItsDraws(pieces: seq<Piece>, i: nat, seed: nat)
    requires i == 0 || i < |pieces|
    ensures Shuffled(pieces, i, seed).0 == ShuffledBy(pieces, i, DrawsOf(i, seed))
    decreases i
  {
    hide NextSeed, Scaled, Swapped;
    if i > 0 {
      var s := NextSeed(seed);
      ScaledIsInRange(s, i + 1);
      ShuffledByItsDraws(Swapped(pieces, i, Scaled(s, i + 1)), i - 1, s);
      assert DrawsOf(i, seed)[1..] == DrawsOf(i - 1, s);
    }
  }

  ghost predicate NoTwice(pieces: seq<Piece>) {
    forall i, j :: 0 <= i < j < |pieces| ==> pieces[i] != pieces[j]
  }

  lemma PiecesOfAPhraseDiffer(phrase: string, n: nat)
    requires n > 0
    ensures NoTwice(Original(phrase, n))
  {
    forall i, j | 0 <= i < j < n
      ensures Original(phrase, n)[i] != Original(phrase, n)[j]
    {
      assert Original(phrase, n)[i].originalIndex == i && Original(phrase, n)[j].originalIndex == j;
    }
  }

  // Places behind i are not touched any more.
  lemma {:induction false} LaterPlacesStay(pieces: seq<Piece>, i: nat, draws: seq<nat>, k: nat)
    requires (i == 0 || i < |pieces|) && AreDraws(draws, i) && i < k < |pieces|
    ensures |ShuffledBy(pieces, i, draws)| == |pieces| && ShuffledBy(pieces, i, draws)[k] == pieces[k]
    decreases i
  {
    if i > 0 {
      LaterPlacesStay(Swapped(pieces, i, draws[0]), i - 1, draws[1..], k);
    }
  }

  // So place i is settled by the first draw.
  lemma FirstDrawSettles(pieces: seq<Piece>, i: nat, draws: seq<nat>)
    requires 0 < i < |pieces| && AreDraws(draws, i)
    ensures |ShuffledBy(pieces, i, draws)| == |pieces| && ShuffledBy(pieces, i, draws)[i] == pieces[draws[0]]
  {
    LaterPlacesStay(Swapped(pieces, i, draws[0]), i - 1, draws[1..], i);
  }

  // The two orders hold the same pieces up to place i and agree behind it.
  ghost predicate AgreeBehind(pieces: seq<Piece>, target: seq<Piece>, i: nat) {
    && |target| == |pieces| && i < |pieces|
    && multiset(pieces[..i + 1]) == multiset(target[..i + 1])
    && pieces[i + 1..] == target[i + 1..]
  }

  lemma PlaceFor(pieces: seq<Piece>, target: seq<Piece>, i: nat) returns (j: nat)
    requires AgreeBehind(pieces, target, i)
    ensures j <= i && pieces[j] == target[i]
  {
    assert target[..i + 1][i] == target[i];
    assert target[i] in multiset(target[..i + 1]);
    assert target[i] in multiset(pieces[..i + 1]);
    j :| j < |pieces[..i + 1]| && pieces[..i + 1][j] == target[i];
  }

  lemma LastTaken(a: seq<Piece>)
    requires a != []
    ensures multiset(a) == multiset(a[..|a| - 1]) + multiset{a[|a| - 1]}
  {
    assert a == a[..|a| - 1] + [a[|a| - 1]];
  }

  lemma WithoutLast(a: seq<Piece>, b: seq<Piece>)
    requires |a| == |b| > 0 && multiset(a) == multiset(b) && a[|a| - 1] == b[|b| - 1]
    ensures multiset(a[..|a| - 1]) == multiset(b[..|b| - 1])
  {
    LastTaken(a);
    LastTaken(b);
    SameRest(multiset(a[..|a| - 1]), multiset(b[..|b| - 1]), a[|a| - 1]);
  }

  lemma SameRest(a: multiset<Piece>, b: multiset<Piece>, p: Piece)
    requires a + multiset{p} == b + multiset{p}
    ensures a == b
  {
    assert a == a + multiset{p} - multiset{p};
    assert b == b + multiset{p} - multiset{p};
  }

  lemma SwappedParts(pieces: seq<Piece>, i: nat, j: nat)
    requires j <= i < |pieces|
    ensures Swapped(pieces, i, j)[..i + 1] == Swapped(pieces[..i + 1], i, j)
    ensures Swapped(pieces, i, j)[i..] == [pieces[j]] + pieces[i + 1..]
  {
  }

  lemma SwapSettles(pieces: seq<Piece>, target: seq<Piece>, i: nat, j: nat)
    requires AgreeBehind(pieces, target, i) && 0 < i && j <= i && pieces[j] == target[i]
    ensures AgreeBehind(Swapped(pieces, i, j), target, i - 1)
  {
    SwappedParts(pieces, i, j);
    var next := Swapped(pieces, i, j);
    SwapKeepsPieces(pieces[..i + 1], i, j);
    hide Swapped;
    assert target[i..] == [target[i]] + target[i + 1..];
    assert next[i] == next[i..][0];
    WithoutLast(next[..i + 1], target[..i + 1]);
    assert next[..i + 1][..i] == next[..i] && target[..i + 1][..i] == target[..i];
  }

  lemma LastPlaceAgrees(pieces: seq<Piece>, target: seq<Piece>)
    requires AgreeBehind(pieces, target, 0)
    ensures pieces == target
  {
    assert pieces[..1] == [pieces[0]] && target[..1] == [target[0]];
    assert pieces[0] in multiset(pieces[..1]);
    assert pieces[0] in multiset(target[..1]);
    assert pieces == pieces[..1] + pieces[1..] && target == target[..1] + target[1..];
  }

  lemma {:induction false} SomeDrawsGive(pieces: seq<Piece>, target: seq<Piece>, i: nat) returns (draws: seq<nat>)
    requires AgreeBehind(pieces, target, i)
    ensures AreDraws(draws, i) && ShuffledBy(pieces, i, draws) == target
    decreases i
  {
    hide Swapped;
    draws := [];
    if i == 0 {
      LastPlaceAgrees(pieces, target);
    } else {
      var j := PlaceFor(pieces, target, i);
      SwapSettles(pieces, target, i, j);
      hide AgreeBehind;
      var rest := SomeDrawsGive(Swapped(pieces, i, j), target, i - 1);
      draws := [j] + rest;
      assert draws[1..] == rest;
    }
  }

  // Every order of the pieces comes from some draws.
  lemma EveryOrderIsDrawn(pieces: seq<Piece>, target: seq<Piece>) returns (draws: seq<nat>)
    requires pieces != [] && multiset(pieces) == multiset(target)
    ensures AreDraws(draws, |pieces| - 1) && ShuffledBy(pieces, |pieces| - 1, draws) == target
  {
    var n := |pieces| - 1;
    assert |multiset(pieces)| == |multiset(target)|;
    assert pieces[..n + 1] == pieces && target[..n + 1] == target;
    draws := SomeDrawsGive(pieces, target, n);
  }

  // And, as no two pieces are alike, from no others: with fair draws all orders are equally likely.
  lemma {:induction false} EveryOrderIsDrawnOnce(pieces: seq<Piece>, i: nat, a: seq<nat>, b: seq<nat>)
    requires (i == 0 || i < |pieces|) && AreDraws(a, i) && AreDraws(b, i) && NoTwice(pieces)
    requires ShuffledBy(pieces, i, a) == ShuffledBy(pieces, i, b)
    ensures a == b
    decreases i
  {
    if i > 0 {
      FirstDrawSettles(pieces, i, a);
      FirstDrawSettles(pieces, i, b);
      assert a[0] == b[0];
      SwappedDiffer(pieces, i, a[0]);
      EveryOrderIsDrawnOnce(Swapped(pieces, i, a[0]), i - 1, a[1..], b[1..]);
      assert a == [a[0]] + a[1..] && b == [b[0]] + b[1..];
    }
  }

  lemma SwappedDiffer(pieces: seq<Piece>, i: nat, j: nat)
    requires i < |pieces| && j < |pieces| && NoTwice(pieces)
    ensures NoTwice(Swapped(pieces, i, j))
  {
  }

  // ------------------------------------------------------------------ shuffling again

  // The pieces and the seed after k shuffles.
  function AfterShuffles(pieces: seq<Piece>, seed: nat, k: nat): (r: (seq<Piece>, nat))
    requires pieces != []
    ensures |r.0| == |pieces|
    decreases k
  {
    if k == 0 then (pieces, seed)
    else
      ShuffleKeepsPieces(pieces, |pieces| - 1, seed);
      var once := Shuffled(pieces, |pieces| - 1, seed);
      AfterShuffles(once.0, once.1, k - 1)
  }

  // A round starts from the first shuffle that does not put the pieces in order, or from the
  // hundredth.
  lemma {:induction false} MixedMeans(pieces: seq<Piece>, seed: nat, tries: nat) returns (k: nat)
    requires pieces != [] && tries > 0
    ensures 1 <= k <= tries && Mixed(pieces, seed, tries) == AfterShuffles(pieces, seed, k)
    ensures forall j :: 1 <= j < k ==> Solved(AfterShuffles(pieces, seed, j).0)
    ensures k < tries ==> !Solved(AfterShuffles(pieces, seed, k).0)
    decreases tries
  {
    hide Shuffled, Solved;
    ShuffleKeepsPieces(pieces, |pieces| - 1, seed);
    var once := Shuffled(pieces, |pieces| - 1, seed);
    assert AfterShuffles(once.0, once.1, 0) == once;
    assert AfterShuffles(pieces, seed, 1) == once;
    k := 1;
    if Solved(once.0) && tries > 1 {
      k := MixedMeans(once.0, once.1, tries - 1);
      forall j | 1 <= j <= k
        ensures AfterShuffles(pieces, seed, j + 1) == AfterShuffles(once.0, once.1, j)
      {
      }
      forall j | 1 <= j < k + 1
        ensures Solved(AfterShuffles(pieces, seed, j).0)
      {
        if j > 1 {
          assert AfterShuffles(pieces, seed, (j - 1) + 1) == AfterShuffles(once.0, once.1, j - 1);
        }
      }
      k := k + 1;
    } else if Solved(once.0) {
      assert Mixed(once.0, once.1, 0) == once;
    }
  }

  lemma StartOfARound(phrase: string, n: nat, seed: nat) returns (k: nat)
    requires n > 0
    ensures 1 <= k <= 100 && Mixed(Original(phrase, n), seed, 100) == AfterShuffles(Original(phrase, n), seed, k)
    ensures forall j :: 1 <= j < k ==> Solved(AfterShuffles(Original(phrase, n), seed, j).0)
    ensures k < 100 ==> !Solved(AfterShuffles(Original(phrase, n), seed, k).0)
  {
    k := MixedMeans(Original(phrase, n), seed, 100);
  }

  // Of the numbers that a seed gives, the first draws any place.
  lemma AnyPlaceIsDrawn(i: nat, j: nat) returns (seed: nat)
    requires j <= i < 20 && i > 0
    ensures DrawsOf(i, seed)[0] == j
  {
    seed := SeedFor(j, i + 1);
  }
}
