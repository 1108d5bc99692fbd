// The library's stable sort by falling length, which both word games use, and lists of
// distinct words.
module LengthSort {
  ghost predicate Distinct(words: seq<string>) {
    forall i, j :: 0 <= i < j < |words| ==> words[i] != words[j]
  }

  // The stable sort by falling length.
  function ByLength(answers: seq<string>): seq<string> {
    if answers == [] then []
    else InsertByLength(ByLength(answers[..|answers| - 1]), answers[|answers| - 1])
  }

  function InsertByLength(sorted: seq<string>, a: string): seq<string> {
    var last := |sorted| - 1;
    if sorted == [] || |sorted[last]| >= |a| then sorted + [a]
    else InsertByLength(sorted[..last], a) + [sorted[last]]
  }

  ghost predicate Falling(s: seq<string>) {
    forall i, j :: 0 <= i < j < |s| ==> |s[i]| >= |s[j]|
  }

  function OfLength(s: seq<string>, n: nat): seq<string> {
    if s == [] then []
    else
      var rest := OfLength(s[..|s| - 1], n);
      if |s[|s| - 1]| == n then rest + [s[|s| - 1]] else rest
  }

  lemma OfLengthOneMore(s: seq<string>, a: string, n: nat)
    ensures OfLength(s + [a], n) == OfLength(s, n) + if |a| == n then [a] else []
  {
    assert (s + [a])[..|s|] == s;
  }

  lemma {:induction false} InsertKeepsContents(sorted: seq<string>, a: string, n: nat)
    requires Falling(sorted)
    ensures multiset(InsertByLength(sorted, a)) == multiset(sorted) + multiset{a}
    ensures OfLength(InsertByLength(sorted, a), n) == OfLength(sorted + [a], n)
  {
    var last := |sorted| - 1;
    if sorted != [] && |sorted[last]| < |a| {
      var front := sorted[..last];
      assert sorted == front + [sorted[last]];
      InsertKeepsContents(front, a, n);
      hide OfLength, Falling;
      OfLengthOneMore(sorted, a, n);
      OfLengthOneMore(front, a, n);
      OfLengthOneMore(front, sorted[last], n);
      OfLengthOneMore(InsertByLength(front, a), sorted[last], n);
    }
  }

  lemma {:induction false} InsertKeepsFalling(sorted: seq<string>, a: string)
    requires Falling(sorted)
    ensures Falling(InsertByLength(sorted, a))
    ensures forall x :: x in InsertByLength(sorted, a) ==> x in sorted || x == a
  {
    var last := |sorted| - 1;
    if sorted != [] && |sorted[last]| < |a| {
      var front := sorted[..last];
      InsertKeepsFalling(front, a);
      forall x | x in InsertByLength(front, a)
        ensures |x| >= |sorted[last]|
      {
        if x in front {
          var i :| 0 <= i < last && front[i] == x;
          assert sorted[i] == x;
        }
      }
    }
  }

  lemma ByLengthOneMore(front: seq<string>, a: string)
    ensures ByLength(front + [a]) == InsertByLength(ByLength(front), a)
    ensures multiset(front + [a]) == multiset(front) + multiset{a}
  {
    assert (front + [a])[..|front|] == front;
  }

  // The sort orders the list and loses and invents nothing ...
  lemma {:induction false} ByLengthSorts(answers: seq<string>)
    ensures Falling(ByLength(answers))
    ensures multiset(ByLength(answers)) == multiset(answers)
  {
    if answers != [] {
      hide *;
      var front, a := answers[..|answers| - 1], answers[|answers| - 1];
      assert answers == front + [a];
      ByLengthSorts(front);
      ByLengthOneMore(front, a);
      InsertKeepsFalling(ByLength(front), a);
      InsertKeepsContents(ByLength(front), a, 0);
    }
  }

  // ... and keeps words of equal length in their order.
  lemma {:induction false} ByLengthIsStable(answers: seq<string>, n: nat)
    ensures OfLength(ByLength(answers), n) == OfLength(answers, n)
  {
    if answers != [] {
      hide *;
      var front, a := answers[..|answers| - 1], answers[|answers| - 1];
      assert answers == front + [a];
      ByLengthIsStable(front, n);
      ByLengthSorts(front);
      ByLengthOneMore(front, a);
      InsertKeepsContents(ByLength(front), a, n);
      OfLengthOneMore(front, a, n);
      OfLengthOneMore(ByLength(front), a, n);
    }
  }

  lemma DistinctByCount(s: seq<string>)
    ensures Distinct(s) <==> forall x :: multiset(s)[x] <= 1
  {
    if s != [] {
      var front, last := s[..|s| - 1], s[|s| - 1];
      DistinctByCount(front);
      assert s == front + [last];
      if Distinct(s) {
        assert Distinct(front) && last !in front;
      } else if Distinct(front) {
        var i, j :| 0 <= i < j < |s| && s[i] == s[j];
        assert j == |front| && front[i] in multiset(front);
        assert multiset(s)[last] >= 2;
      } else {
        var x :| multiset(front)[x] > 1;
        assert multiset(s)[x] > 1;
      }
    }
  }

  lemma SameAnswersStayUsable(a: seq<string>, b: seq<string>)
    requires multiset(a) == multiset(b)
    requires Distinct(a) && forall x :: x in a ==> |x| >= 2
    ensures Distinct(b) && |a| == |b| && forall x :: x in b <==> x in a
  {
    DistinctByCount(a);
    DistinctByCount(b);
    assert |multiset(a)| == |multiset(b)|;
    forall x
      ensures x in b <==> x in a
    {
      assert x in multiset(a) <==> x in multiset(b);
    }
  }

  lemma ByLengthKeepsSize(answers: seq<string>)
    ensures |ByLength(answers)| == |answers|
  {
    ByLengthSorts(answers);
    assert |multiset(ByLength(answers))| == |multiset(answers)|;
  }
}
