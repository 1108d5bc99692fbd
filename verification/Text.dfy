// Decimal printing and joining with a separator, and why both can be undone.
module Text {
  // ---------------------------------------------------------------- decimals

  predicate IsDigit(c: char) {
    '0' <= c <= '9'
  }

  function Digit(d: nat): char
    requires d < 10
  {
    ('0' as int + d) as char
  }

  function PrintNat(n: nat): string {
    if n < 10 then [Digit(n)] else PrintNat(n / 10) + [Digit(n % 10)]
  }

  function PrintInt(i: int): string {
    if i < 0 then "-" + PrintNat(-i) else PrintNat(i)
  }

  function ReadNat(s: string): int {
    if s == "" then 0 else ReadNat(s[..|s| - 1]) * 10 + (s[|s| - 1] as int - '0' as int)
  }

  function ReadInt(s: string): int {
    if s != "" && s[0] == '-' then -ReadNat(s[1..]) else ReadNat(s)
  }

  lemma {:induction false} ReadPrintedNat(n: nat)
    ensures ReadNat(PrintNat(n)) == n
    ensures PrintNat(n) != "" && forall c :: c in PrintNat(n) ==> IsDigit(c)
    ensures if n == 0 then |PrintNat(n)| == 1 else PrintNat(n)[0] != '0'
  {
    if n >= 10 {
      ReadPrintedNat(n / 10);
      var s := PrintNat(n);
      assert s[..|s| - 1] == PrintNat(n / 10);
    } else {
      assert PrintNat(n)[..0] == "";
    }
  }

  lemma ReadPrintedInt(i: int)
    ensures ReadInt(PrintInt(i)) == i
    ensures PrintInt(i) != "" && forall c :: c in PrintInt(i) ==> IsDigit(c) || c == '-'
    ensures PrintInt(i)[0] == '-' <==> i < 0
    ensures i > 0 ==> PrintInt(i)[0] != '0'
  {
    ReadPrintedNat(if i < 0 then -i else i);
    assert PrintInt(i)[0] in PrintInt(i);
    assert i < 0 ==> PrintInt(i)[1..] == PrintNat(-i);
  }

  // ------------------------------------------------------------------ joining

  function Join(parts: seq<string>, sep: char): string {
    if parts == [] then ""
    else if |parts| == 1 then parts[0]
    else parts[0] + [sep] + Join(parts[1..], sep)
  }

  predicate Free(s: string, sep: char) {
    sep !in s
  }

  ghost predicate AllFree(parts: seq<string>, sep: char) {
    forall p :: p in parts ==> Free(p, sep)
  }

  function FirstIndex(s: string, sep: char): nat {
    if s == "" || s[0] == sep then 0 else 1 + FirstIndex(s[1..], sep)
  }

  lemma {:induction false} FirstIndexAfterFree(a: string, b: string, sep: char)
    requires Free(a, sep)
    ensures FirstIndex(a + [sep] + b, sep) == |a|
  {
    if a != "" {
      FirstIndexAfterFree(a[1..], b, sep);
      assert (a + [sep] + b)[1..] == a[1..] + [sep] + b;
    }
  }

  // The first separator marks where the first part ends.
  lemma SplitAtFirst(a: string, b: string, c: string, d: string, sep: char)
    requires Free(a, sep) && Free(c, sep)
    requires a + [sep] + b == c + [sep] + d
    ensures a == c && b == d
  {
    FirstIndexAfterFree(a, b, sep);
    FirstIndexAfterFree(c, d, sep);
    var s := a + [sep] + b;
    assert a == s[..|a|] && c == s[..|a|];
    assert b == s[|a| + 1..] && d == s[|a| + 1..];
  }

  lemma {:induction false} JoinIsFree(parts: seq<string>, sep: char, other: char)
    requires AllFree(parts, other) && sep != other
    ensures Free(Join(parts, sep), other)
  {
    if |parts| > 1 {
      JoinIsFree(parts[1..], sep, other);
      assert Free(parts[0], other) && Free([sep], other);
    }
  }

  lemma JoinHoldsSeparator(parts: seq<string>, sep: char)
    requires AllFree(parts, sep)
    ensures sep in Join(parts, sep) <==> |parts| > 1
  {
    if |parts| > 1 {
      assert Join(parts, sep)[|parts[0]|] == sep;
    } else if |parts| == 1 {
      assert parts[0] in parts;
    }
  }

  // Joining loses nothing when no part holds the separator, except that the empty list
  // and the list of one empty part look alike.
  lemma {:induction false} JoinInjective(a: seq<string>, b: seq<string>, sep: char)
    requires AllFree(a, sep) && AllFree(b, sep)
    requires Join(a, sep) == Join(b, sep)
    requires (a == [] ==> "" !in b) && (b == [] ==> "" !in a)
    ensures a == b
  {
    JoinHoldsSeparator(a, sep);
    JoinHoldsSeparator(b, sep);
    if |a| > 1 {
      SplitAtFirst(a[0], Join(a[1..], sep), b[0], Join(b[1..], sep), sep);
      JoinInjective(a[1..], b[1..], sep);
      assert a == [a[0]] + a[1..] && b == [b[0]] + b[1..];
    }
  }

  // ------------------------------------------------------------------ splitting

  lemma {:induction false} FirstIndexMeans(s: string, sep: char)
    requires sep in s
    ensures FirstIndex(s, sep) < |s| && s[FirstIndex(s, sep)] == sep && Free(s[..FirstIndex(s, sep)], sep)
  {
    if s[0] != sep {
      assert s == [s[0]] + s[1..];
      FirstIndexMeans(s[1..], sep);
      assert s[..FirstIndex(s, sep)] == [s[0]] + s[1..][..FirstIndex(s[1..], sep)];
    }
  }

  // The text cut at every separator.
  function Split(s: string, sep: char): seq<string>
    decreases |s|
  {
    if sep !in s then [s]
    else
      FirstIndexMeans(s, sep);
      var i := FirstIndex(s, sep);
      [s[..i]] + Split(s[i + 1..], sep)
  }

  lemma {:induction false} JoinConcat(a: seq<string>, b: seq<string>, sep: char)
    requires a != [] && b != []
    ensures Join(a + b, sep) == Join(a, sep) + [sep] + Join(b, sep)
  {
    if |a| == 1 {
      assert (a + b)[1..] == b;
    } else {
      JoinConcat(a[1..], b, sep);
      assert (a + b)[1..] == a[1..] + b;
      assert Join(a + b, sep) == a[0] + [sep] + Join(a[1..] + b, sep);
    }
  }

  lemma {:induction false} SplitJoins(s: string, sep: char)
    ensures Split(s, sep) != [] && AllFree(Split(s, sep), sep) && Join(Split(s, sep), sep) == s
    decreases |s|
  {
    if sep in s {
      FirstIndexMeans(s, sep);
      var i := FirstIndex(s, sep);
      SplitJoins(s[i + 1..], sep);
      JoinConcat([s[..i]], Split(s[i + 1..], sep), sep);
      assert s == s[..i] + [sep] + s[i + 1..];
    }
  }

  // All pieces of a list of texts, each text cut at every separator.
  function Pieces(parts: seq<string>, sep: char): seq<string> {
    if |parts| <= 1 then Split(if parts == [] then "" else parts[0], sep)
    else Split(parts[0], sep) + Pieces(parts[1..], sep)
  }

  lemma {:induction false} PiecesJoin(parts: seq<string>, sep: char)
    ensures Pieces(parts, sep) != [] && AllFree(Pieces(parts, sep), sep)
    ensures Join(Pieces(parts, sep), sep) == Join(parts, sep)
  {
    if |parts| <= 1 {
      SplitJoins(if parts == [] then "" else parts[0], sep);
    } else {
      SplitJoins(parts[0], sep);
      PiecesJoin(parts[1..], sep);
      JoinConcat(Split(parts[0], sep), Pieces(parts[1..], sep), sep);
    }
  }

  // Two lists join to the same text exactly when they have the same pieces.
  lemma JoinedAlikeIff(a: seq<string>, b: seq<string>, sep: char)
    ensures Join(a, sep) == Join(b, sep) <==> Pieces(a, sep) == Pieces(b, sep)
  {
    PiecesJoin(a, sep);
    PiecesJoin(b, sep);
    hide Pieces, Join;
    if Join(a, sep) == Join(b, sep) {
      JoinInjective(Pieces(a, sep), Pieces(b, sep), sep);
    }
  }

  // ------------------------------------------------------------ the "x,y" keys

  function CellKey(x: int, y: int): string {
    PrintInt(x) + "," + PrintInt(y)
  }

  // Two cells share a key only if they are the same cell.
  lemma CellKeyInjective(x: int, y: int, u: int, v: int)
    requires CellKey(x, y) == CellKey(u, v)
    ensures x == u && y == v
  {
    ReadPrintedInt(x); ReadPrintedInt(y); ReadPrintedInt(u); ReadPrintedInt(v);
    SplitAtFirst(PrintInt(x), PrintInt(y), PrintInt(u), PrintInt(v), ',');
  }
}
