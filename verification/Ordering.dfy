// Sorting strings: a sorted list is determined by its elements.
module Ordering {
  predicate LessEq(a: string, b: string) {
    a == "" || (b != "" && (a[0] < b[0] || (a[0] == b[0] && LessEq(a[1..], b[1..]))))
  }

  // The order of a dictionary: the first difference decides, and a beginning comes first.
  ghost predicate Before(a: string, b: string, k: nat) {
    && k <= |a| && k <= |b| && a[..k] == b[..k]
    && (k == |a| || (k < |b| && a[k] < b[k]))
  }

  lemma {:induction false} LessEqMeans(a: string, b: string)
    ensures LessEq(a, b) <==> exists k: nat :: Before(a, b, k)
  {
    if a == "" {
      assert Before(a, b, 0);
    } else if b == "" {
      assert forall k: nat :: !Before(a, b, k);
    } else {
      LessEqMeans(a[1..], b[1..]);
      if a[0] < b[0] {
        assert Before(a, b, 0);
      } else if a[0] == b[0] {
        FirstLetterApart(a, b);
      } else {
        forall k: nat
          ensures !Before(a, b, k)
        {
          assert k > 0 && k <= |a| && k <= |b| ==> a[..k][0] == a[0] && b[..k][0] == b[0];
        }
      }
    }
  }

  lemma FirstLetterApart(a: string, b: string)
    requires a != "" && b != "" && a[0] == b[0]
    ensures (exists k: nat :: Before(a, b, k)) <==> exists k: nat :: Before(a[1..], b[1..], k)
  {
    if k: nat :| Before(a, b, k) {
      assert k > 0;
      assert a[1..][..k - 1] == a[..k][1..] && b[1..][..k - 1] == b[..k][1..];
      assert Before(a[1..], b[1..], k - 1);
    }
    if k: nat :| Before(a[1..], b[1..], k) {
      assert a[..k + 1] == [a[0]] + a[1..][..k] && b[..k + 1] == [b[0]] + b[1..][..k];
      assert Before(a, b, k + 1);
    }
  }

  lemma {:induction false} LessEqTotal(a: string, b: string)
    ensures LessEq(a, b) || LessEq(b, a)
  {
    if a != "" && b != "" && a[0] == b[0] {
      LessEqTotal(a[1..], b[1..]);
    }
  }

  lemma {:induction false} LessEqAntisymmetric(a: string, b: string)
    requires LessEq(a, b) && LessEq(b, a)
    ensures a == b
  {
    if a != "" && b != "" {
      LessEqAntisymmetric(a[1..], b[1..]);
      assert a == [a[0]] + a[1..] && b == [b[0]] + b[1..];
    }
  }

  lemma {:induction false} LessEqTransitive(a: string, b: string, c: string)
    requires LessEq(a, b) && LessEq(b, c)
    ensures LessEq(a, c)
  {
    if a != "" && a[0] == b[0] && b[0] == c[0] {
      LessEqTransitive(a[1..], b[1..], c[1..]);
    }
  }

  function Insert(x: string, s: seq<string>): seq<string> {
    if s == [] || LessEq(x, s[0]) then [x] + s else [s[0]] + Insert(x, s[1..])
  }

  function Sort(s: seq<string>): seq<string> {
    if s == [] then [] else Insert(s[0], Sort(s[1..]))
  }

  ghost predicate Sorted(s: seq<string>) {
    s != [] ==> Sorted(s[1..]) && forall x :: x in s ==> LessEq(s[0], x)
  }

  lemma {:induction false} InsertSorts(x: string, s: seq<string>)
    requires Sorted(s)
    ensures Sorted(Insert(x, s))
    ensures multiset(Insert(x, s)) == multiset{x} + multiset(s)
    ensures forall y :: y in Insert(x, s) <==> y == x || y in s
  {
    LessEqTotal(x, x);
    if s != [] {
      assert s == [s[0]] + s[1..];
      LessEqTotal(x, s[0]);
      if LessEq(x, s[0]) {
        forall y | y in s
          ensures LessEq(x, y)
        {
          LessEqTransitive(x, s[0], y);
        }
        assert ([x] + s)[1..] == s;
      } else {
        InsertSorts(x, s[1..]);
        var rest := Insert(x, s[1..]);
        assert ([s[0]] + rest)[1..] == rest;
      }
    } else {
      assert [x][1..] == [];
      assert Insert(x, s) == [x];
    }
  }

  lemma {:induction false} SortSorts(s: seq<string>)
    ensures Sorted(Sort(s)) && multiset(Sort(s)) == multiset(s)
  {
    if s != [] {
      SortSorts(s[1..]);
      InsertSorts(s[0], Sort(s[1..]));
      assert s == [s[0]] + s[1..];
    }
  }

  lemma {:induction false} SortedIsUnique(a: seq<string>, b: seq<string>)
    requires Sorted(a) && Sorted(b) && multiset(a) == multiset(b)
    ensures a == b
  {
    if a == [] {
      assert |multiset(b)| == 0;
    } else {
      assert a[0] in multiset(b);
      assert b[0] in multiset(a);
      LessEqAntisymmetric(a[0], b[0]);
      SameTails(a, b);
      SortedIsUnique(a[1..], b[1..]);
    }
  }

  lemma SameTails(a: seq<string>, b: seq<string>)
    requires a != [] && b != [] && a[0] == b[0] && multiset(a) == multiset(b)
    ensures multiset(a[1..]) == multiset(b[1..])
  {
    assert a == [a[0]] + a[1..] && b == [b[0]] + b[1..];
    assert multiset(a[1..]) == multiset(a) - multiset{a[0]};
    assert multiset(b[1..]) == multiset(b) - multiset{b[0]};
  }

  // Sorting forgets the order and nothing else.
  lemma SortForgetsOrderOnly(a: seq<string>, b: seq<string>)
    ensures Sort(a) == Sort(b) <==> multiset(a) == multiset(b)
  {
    SortSorts(a);
    SortSorts(b);
    if multiset(a) == multiset(b) {
      SortedIsUnique(Sort(a), Sort(b));
    }
  }

  lemma SortKeepsMembers(s: seq<string>)
    ensures |Sort(s)| == |s| && forall x :: x in Sort(s) <==> x in s
  {
    SortSorts(s);
    assert |multiset(Sort(s))| == |multiset(s)|;
    forall x
      ensures x in Sort(s) <==> x in s
    {
      assert x in multiset(Sort(s)) <==> x in multiset(s);
    }
  }
}
