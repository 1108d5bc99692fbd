// Why five hundred tries are enough for the first word: within them, whatever the seed, the
// generator's numbers draw the diagonal, in which every drawn spot lies on the board.
module WordSearchLuck {
  import opened Wrappers
  import opened Draws
  import opened LengthSort
  import opened WordSearch

  // ------------------------------------------------------- jumping ahead in the draws

  // The n-th number after x.
  function Iterated(x: nat, n: nat): nat {
    if n == 0 then x else NextSeed(Iterated(x, n - 1))
  }

  lemma {:induction false} IteratedTwice(x: nat, n: nat, m: nat)
    ensures Iterated(x, n + m) == Iterated(Iterated(x, n), m)
  {
    if m > 0 {
      IteratedTwice(x, n, m - 1);
    }
  }

  lemma SameRemainder(a: int, b: int, k: int)
    requires a == b + MODULUS * k
    ensures a % MODULUS == b % MODULUS
  {
  }

  // n numbers later is one multiplication and one addition later.
  ghost predicate Jumps(n: nat, factor: nat, offset: nat) {
    forall x: nat :: Iterated(x, n) % MODULUS == (factor * x + offset) % MODULUS
  }

  lemma JumpsMean(n: nat, factor: nat, offset: nat, x: nat)
    requires Jumps(n, factor, offset)
    ensures Iterated(x, n) % MODULUS == (factor * x + offset) % MODULUS
  {
  }

  lemma RemainderOf(a: int) returns (k: int)
    ensures a == a % MODULUS + MODULUS * k
  {
    k := a / MODULUS;
  }

  lemma TimesRemainder(f: int, a: int, o: int)
    ensures (f * (a % MODULUS) + o) % MODULUS == (f * a + o) % MODULUS
  {
    var k := RemainderOf(a);
    var r := a % MODULUS;
    assert f * a == f * r + MODULUS * (f * k) by {
      assert f * (r + MODULUS * k) == f * r + f * (MODULUS * k);
    }
    SameRemainder(f * a + o, f * r + o, f * k);
  }

  lemma ComposedRemainder(f: int, o: int, g: int, p: int, x: int)
    ensures (((f * g) % MODULUS) * x + (f * p + o) % MODULUS) % MODULUS == (f * (g * x + p) + o) % MODULUS
  {
    var a := RemainderOf(f * g);
    var b := RemainderOf(f * p + o);
    var u, v := (f * g) % MODULUS, (f * p + o) % MODULUS;
    assert f * g * x == u * x + MODULUS * (a * x) by {
      assert (u + MODULUS * a) * x == u * x + MODULUS * a * x;
    }
    assert f * (g * x + p) == f * g * x + f * p;
    SameRemainder(f * (g * x + p) + o, u * x + v, a * x + b);
  }

  lemma JumpsTwice(n: nat, g: nat, p: nat, m: nat, f: nat, o: nat)
    requires Jumps(n, g, p) && Jumps(m, f, o)
    ensures Jumps(n + m, (f * g) % MODULUS, (f * p + o) % MODULUS)
  {
    forall x: nat
      ensures Iterated(x, n + m) % MODULUS == (((f * g) % MODULUS) * x + (f * p + o) % MODULUS) % MODULUS
    {
      hide Iterated;
      var y := Iterated(x, n);
      IteratedTwice(x, n, m);
      JumpsMean(n, g, p, x);
      JumpsMean(m, f, o, y);
      hide Jumps;
      TimesRemainder(f, y, o);
      TimesRemainder(f, g * x + p, o);
      ComposedRemainder(f, o, g, p, x);
    }
  }

  // The same with the remainders worked out.
  lemma JumpsOn(n: nat, g: nat, p: nat, m: nat, f: nat, o: nat, factor: nat, offset: nat, a: nat, b: nat)
    requires Jumps(n, g, p) && Jumps(m, f, o)
    requires f * g == factor + MODULUS * a && factor < MODULUS
    requires f * p + o == offset + MODULUS * b && offset < MODULUS
    ensures Jumps(n + m, factor, offset)
  {
    hide Jumps;
    JumpsTwice(n, g, p, m, f, o);
    RemainderIs(f * g, a, factor);
    RemainderIs(f * p + o, b, offset);
  }

  lemma OneJump()
    ensures Jumps(1, 9301, 49297)
  {
    forall x: nat
      ensures Iterated(x, 1) % MODULUS == (9301 * x + 49297) % MODULUS
    {
      assert Iterated(x, 0) == x;
      assert Iterated(x, 1) == NextSeed(x);
    }
  }

  // Twenty-seven tries of three numbers each.
  lemma JumpOf81()
    ensures Jumps(81, 53461, 221697)
  {
    hide Jumps;
    OneJump();
    JumpsOn(1, 9301, 49297, 1, 9301, 49297, 195001, 165494, 370, 1965);
    JumpsOn(2, 195001, 165494, 1, 9301, 49297, 185581, 127551, 7774, 6598);
    JumpsOn(3, 185581, 127551, 3, 185581, 127551, 14761, 14802, 147635, 101471);
    JumpsOn(6, 14761, 14802, 3, 185581, 127551, 187381, 225513, 11742, 11775);
    JumpsOn(9, 187381, 225513, 9, 187381, 225513, 199801, 37926, 150512, 181143);
    JumpsOn(18, 199801, 37926, 9, 187381, 225513, 37261, 195399, 160489, 30464);
    JumpsOn(27, 37261, 195399, 27, 37261, 195399, 132841, 55458, 5951, 31211);
    JumpsOn(54, 132841, 55458, 27, 37261, 195399, 53461, 221697, 21218, 8858);
  }

  function Factor(j: nat): nat {
    if j == 0 then 1 else (53461 * Factor(j - 1)) % MODULUS
  }

  function Offset(j: nat): nat {
    if j == 0 then 0 else (53461 * Offset(j - 1) + 221697) % MODULUS
  }

  lemma {:induction false} JumpOf81Times(j: nat)
    ensures Jumps(81 * j, Factor(j), Offset(j))
  {
    if j == 0 {
      assert forall x: nat :: Iterated(x, 0) == x;
    } else {
      hide Jumps;
      JumpOf81();
      JumpOf81Times(j - 1);
      JumpsTwice(81 * (j - 1), Factor(j - 1), Offset(j - 1), 81, 53461, 221697);
    }
  }

  // The factors are 1 but for multiples of 4860, a forty-eighth of the modulus.
  lemma {:induction false} FactorIsNearOne(j: nat) returns (u: nat)
    ensures Factor(j) == 1 + 4860 * u
  {
    if j == 0 {
      u := 0;
    } else {
      var v := FactorIsNearOne(j - 1);
      var k := RemainderOf(53461 * Factor(j - 1));
      u := StillNearOne(Factor(j - 1), v, k, Factor(j));
    }
  }

  lemma StillNearOne(f: nat, v: nat, k: int, r: nat) returns (u: nat)
    requires f == 1 + 4860 * v && 53461 * f == r + MODULUS * k
    ensures r == 1 + 4860 * u
  {
    u := 11 + 53461 * v - 48 * k;
  }

  // So numbers of one class modulo 48 all move by the same distance.
  function Shift(r: nat, j: nat): nat {
    ((Factor(j) - 1) * r + Offset(j)) % MODULUS
  }

  lemma ClassesShift(x: nat, j: nat)
    ensures Iterated(x, 81 * j) % MODULUS == (x + Shift(x % 48, j)) % MODULUS
  {
    JumpOf81Times(j);
    JumpsMean(81 * j, Factor(j), Offset(j), x);
    var u := FactorIsNearOne(j);
    ShiftedRemainder(u, Offset(j), x);
    hide Factor, Offset, Jumps, Iterated;
  }

  lemma Multiples(k: int, u: int, x: int)
    ensures (1 + k * u) * x == x + k * (u * x) && (k * u) * x == k * (u * x)
  {
    Products(1, k * u, x);
    Regrouped(k, u, x);
  }

  lemma Products(a: int, b: int, x: int)
    ensures (a + b) * x == a * x + b * x
  {
  }

  lemma Regrouped(k: int, u: int, x: int)
    ensures (k * u) * x == k * (u * x)
  {
  }

  lemma ShiftedRemainder(u: nat, o: int, x: nat)
    ensures ((1 + 4860 * u) * x + o) % MODULUS == (x + ((4860 * u) * (x % 48) + o) % MODULUS) % MODULUS
  {
    var r, q := x % 48, x / 48;
    Multiples(4860, u, x);
    Multiples(4860, u, r);
    Products(r, 48 * q, u);
    Regrouped(48, q, u);
    assert x * u == u * x && r * u == u * r;
    SameRemainder((1 + 4860 * u) * x + o, x + ((4860 * u) * r + o), q * u);
    TimesRemainder(1, (4860 * u) * r + o, x);
  }

  // ------------------------------------------------- every class reaches the top third

  // Around the circle of the modulus, 0 and these three leave no gap of more than a third.
  predicate Spread(a: nat, b: nat, c: nat) {
    a <= 77760 && a <= b <= a + 77760 && b <= c <= b + 77760 && 155520 <= c < MODULUS
  }

  lemma SpreadReachesTop(x: nat, a: nat, b: nat, c: nat)
    requires x < MODULUS && Spread(a, b, c)
    ensures x >= 155520 || (x + a) % MODULUS >= 155520 || (x + b) % MODULUS >= 155520 || (x + c) % MODULUS >= 155520
  {
  }

  // The first factors and offsets.
  lemma Constants()
    ensures Factor(1) == 53461 && Offset(1) == 221697
    ensures Factor(2) == 165241 && Offset(2) == 108054
    ensures Factor(3) == 102061 && Offset(3) == 183951
    ensures Factor(4) == 97201 && Offset(4) == 41148
    ensures Factor(5) == 150661 && Offset(5) == 204525
    ensures Factor(6) == 29161 && Offset(6) == 32562
    ensures Factor(7) == 199261 && Offset(7) == 50139
    ensures Factor(8) == 194401 && Offset(8) == 82296
    ensures Factor(9) == 14581 && Offset(9) == 187353
    ensures Factor(10) == 126361 && Offset(10) == 190350
    ensures Factor(11) == 63181 && Offset(11) == 149607
    ensures Factor(12) == 58321 && Offset(12) == 123444
    ensures Factor(13) == 111781 && Offset(13) == 170181
    ensures Factor(14) == 223561 && Offset(14) == 114858
    ensures Factor(15) == 160381 && Offset(15) == 15795
    ensures Factor(16) == 155521 && Offset(16) == 164592
  {
    hide Factor, Offset;
    FirstConstant();
    NextConstant(0, 53461, 221697, 0, 0);
    NextConstant(1, 165241, 108054, 12251, 50807);
    NextConstant(2, 102061, 183951, 37868, 24763);
    NextConstant(3, 97201, 41148, 23389, 42157);
    NextConstant(4, 150661, 204525, 22275, 9430);
    NextConstant(5, 29161, 32562, 34527, 46872);
    NextConstant(6, 199261, 50139, 6682, 7463);
    NextConstant(7, 194401, 82296, 45664, 11491);
    NextConstant(8, 14581, 187353, 44551, 18860);
    NextConstant(9, 126361, 190350, 3341, 42936);
    NextConstant(10, 63181, 149607, 28958, 43623);
    NextConstant(11, 58321, 123444, 14479, 34286);
    NextConstant(12, 111781, 170181, 13365, 28290);
    NextConstant(13, 223561, 114858, 25616, 39001);
    NextConstant(14, 160381, 15795, 51233, 26323);
    NextConstant(15, 155521, 164592, 36754, 3620);
  }

  lemma FirstConstant()
    ensures Factor(0) == 1 && Offset(0) == 0
  {
  }

  lemma NextConstant(j: nat, f: nat, o: nat, a: nat, b: nat)
    requires 53461 * Factor(j) == f + MODULUS * a && f < MODULUS
    requires 53461 * Offset(j) + 221697 == o + MODULUS * b && o < MODULUS
    ensures Factor(j + 1) == f && Offset(j + 1) == o
  {
    hide Factor, Offset;
    OneMoreConstant(j);
    RemainderIs(53461 * Factor(j), a, f);
    RemainderIs(53461 * Offset(j) + 221697, b, o);
  }

  lemma OneMoreConstant(j: nat)
    ensures Factor(j + 1) == (53461 * Factor(j)) % MODULUS && Offset(j + 1) == (53461 * Offset(j) + 221697) % MODULUS
  {
  }

  lemma RemainderIs(a: int, k: int, r: nat)
    requires a == r + MODULUS * k && r < MODULUS
    ensures a % MODULUS == r
  {
  }

  lemma Chain1(r: nat) returns (i: nat, j: nat, k: nat)
    requires 0 <= r < 6
    ensures i <= 16 && j <= 16 && k <= 16 && Spread(Shift(r, i), Shift(r, j), Shift(r, k))
  {
    Constants();
    hide Factor, Offset;
    match r
    case 0 => i, j, k := 4, 2, 3; assert Spread(Shift(0, 4), Shift(0, 2), Shift(0, 3));
    case 1 => i, j, k := 6, 4, 9; assert Spread(Shift(1, 6), Shift(1, 4), Shift(1, 9));
    case 2 => i, j, k := 5, 1, 13; assert Spread(Shift(2, 5), Shift(2, 1), Shift(2, 13));
    case 3 => i, j, k := 12, 2, 5; assert Spread(Shift(3, 12), Shift(3, 2), Shift(3, 5));
    case 4 => i, j, k := 2, 3, 1; assert Spread(Shift(4, 2), Shift(4, 3), Shift(4, 1));
    case _ => i, j, k := 4, 7, 6; assert Spread(Shift(5, 4), Shift(5, 7), Shift(5, 6));
  }

  lemma Chain2(r: nat) returns (i: nat, j: nat, k: nat)
    requires 6 <= r < 12
    ensures i <= 16 && j <= 16 && k <= 16 && Spread(Shift(r, i), Shift(r, j), Shift(r, k))
  {
    Constants();
    hide Factor, Offset;
    match r
    case 6 => i, j, k := 1, 3, 2; assert Spread(Shift(6, 1), Shift(6, 3), Shift(6, 2));
    case 7 => i, j, k := 9, 1, 3; assert Spread(Shift(7, 9), Shift(7, 1), Shift(7, 3));
    case 8 => i, j, k := 3, 4, 1; assert Spread(Shift(8, 3), Shift(8, 4), Shift(8, 1));
    case 9 => i, j, k := 6, 9, 5; assert Spread(Shift(9, 6), Shift(9, 9), Shift(9, 5));
    case 10 => i, j, k := 1, 2, 7; assert Spread(Shift(10, 1), Shift(10, 2), Shift(10, 7));
    case _ => i, j, k := 2, 1, 4; assert Spread(Shift(11, 2), Shift(11, 1), Shift(11, 4));
  }

  lemma Chain3(r: nat) returns (i: nat, j: nat, k: nat)
    requires 12 <= r < 18
    ensures i <= 16 && j <= 16 && k <= 16 && Spread(Shift(r, i), Shift(r, j), Shift(r, k))
  {
    Constants();
    hide Factor, Offset;
    match r
    case 12 => i, j, k := 4, 7, 1; assert Spread(Shift(12, 4), Shift(12, 7), Shift(12, 1));
    case 13 => i, j, k := 5, 3, 2; assert Spread(Shift(13, 5), Shift(13, 3), Shift(13, 2));
    case 14 => i, j, k := 1, 2, 9; assert Spread(Shift(14, 1), Shift(14, 2), Shift(14, 9));
    case 15 => i, j, k := 2, 1, 11; assert Spread(Shift(15, 2), Shift(15, 1), Shift(15, 11));
    case 16 => i, j, k := 5, 10, 2; assert Spread(Shift(16, 5), Shift(16, 10), Shift(16, 2));
    case _ => i, j, k := 3, 2, 7; assert Spread(Shift(17, 3), Shift(17, 2), Shift(17, 7));
  }

  lemma Chain4(r: nat) returns (i: nat, j: nat, k: nat)
    requires 18 <= r < 24
    ensures i <= 16 && j <= 16 && k <= 16 && Spread(Shift(r, i), Shift(r, j), Shift(r, k))
  {
    Constants();
    hide Factor, Offset;
    match r
    case 18 => i, j, k := 2, 5, 4; assert Spread(Shift(18, 2), Shift(18, 5), Shift(18, 4));
    case 19 => i, j, k := 1, 6, 11; assert Spread(Shift(19, 1), Shift(19, 6), Shift(19, 11));
    case 20 => i, j, k := 7, 1, 5; assert Spread(Shift(20, 7), Shift(20, 1), Shift(20, 5));
    case 21 => i, j, k := 7, 5, 1; assert Spread(Shift(21, 7), Shift(21, 5), Shift(21, 1));
    case 22 => i, j, k := 5, 3, 8; assert Spread(Shift(22, 5), Shift(22, 3), Shift(22, 8));
    case _ => i, j, k := 1, 8, 2; assert Spread(Shift(23, 1), Shift(23, 8), Shift(23, 2));
  }

  lemma Chain5(r: nat) returns (i: nat, j: nat, k: nat)
    requires 24 <= r < 30
    ensures i <= 16 && j <= 16 && k <= 16 && Spread(Shift(r, i), Shift(r, j), Shift(r, k))
  {
    Constants();
    hide Factor, Offset;
    match r
    case 24 => i, j, k := 3, 1, 7; assert Spread(Shift(24, 3), Shift(24, 1), Shift(24, 7));
    case 25 => i, j, k := 6, 4, 1; assert Spread(Shift(25, 6), Shift(25, 4), Shift(25, 1));
    case 26 => i, j, k := 3, 6, 5; assert Spread(Shift(26, 3), Shift(26, 6), Shift(26, 5));
    case 27 => i, j, k := 5, 2, 8; assert Spread(Shift(27, 5), Shift(27, 2), Shift(27, 8));
    case 28 => i, j, k := 2, 1, 8; assert Spread(Shift(28, 2), Shift(28, 1), Shift(28, 8));
    case _ => i, j, k := 4, 3, 6; assert Spread(Shift(29, 4), Shift(29, 3), Shift(29, 6));
  }

  lemma Chain6(r: nat) returns (i: nat, j: nat, k: nat)
    requires 30 <= r < 36
    ensures i <= 16 && j <= 16 && k <= 16 && Spread(Shift(r, i), Shift(r, j), Shift(r, k))
  {
    Constants();
    hide Factor, Offset;
    match r
    case 30 => i, j, k := 5, 8, 4; assert Spread(Shift(30, 5), Shift(30, 8), Shift(30, 4));
    case 31 => i, j, k := 4, 2, 7; assert Spread(Shift(31, 4), Shift(31, 2), Shift(31, 7));
    case 32 => i, j, k := 1, 4, 3; assert Spread(Shift(32, 1), Shift(32, 4), Shift(32, 3));
    case 33 => i, j, k := 3, 1, 2; assert Spread(Shift(33, 3), Shift(33, 1), Shift(33, 2));
    case 34 => i, j, k := 7, 2, 1; assert Spread(Shift(34, 7), Shift(34, 2), Shift(34, 1));
    case _ => i, j, k := 2, 5, 4; assert Spread(Shift(35, 2), Shift(35, 5), Shift(35, 4));
  }

  lemma Chain7(r: nat) returns (i: nat, j: nat, k: nat)
    requires 36 <= r < 42
    ensures i <= 16 && j <= 16 && k <= 16 && Spread(Shift(r, i), Shift(r, j), Shift(r, k))
  {
    Constants();
    hide Factor, Offset;
    match r
    case 36 => i, j, k := 10, 6, 2; assert Spread(Shift(36, 10), Shift(36, 6), Shift(36, 2));
    case 37 => i, j, k := 8, 1, 2; assert Spread(Shift(37, 8), Shift(37, 1), Shift(37, 2));
    case 38 => i, j, k := 9, 2, 7; assert Spread(Shift(38, 9), Shift(38, 2), Shift(38, 7));
    case 39 => i, j, k := 9, 7, 3; assert Spread(Shift(39, 9), Shift(39, 7), Shift(39, 3));
    case 40 => i, j, k := 1, 7, 5; assert Spread(Shift(40, 1), Shift(40, 7), Shift(40, 5));
    case _ => i, j, k := 4, 2, 3; assert Spread(Shift(41, 4), Shift(41, 2), Shift(41, 3));
  }

  lemma Chain8(r: nat) returns (i: nat, j: nat, k: nat)
    requires 42 <= r < 48
    ensures i <= 16 && j <= 16 && k <= 16 && Spread(Shift(r, i), Shift(r, j), Shift(r, k))
  {
    Constants();
    hide Factor, Offset;
    match r
    case 42 => i, j, k := 2, 6, 4; assert Spread(Shift(42, 2), Shift(42, 6), Shift(42, 4));
    case 43 => i, j, k := 8, 6, 1; assert Spread(Shift(43, 8), Shift(43, 6), Shift(43, 1));
    case 44 => i, j, k := 5, 4, 7; assert Spread(Shift(44, 5), Shift(44, 4), Shift(44, 7));
    case 45 => i, j, k := 1, 3, 6; assert Spread(Shift(45, 1), Shift(45, 3), Shift(45, 6));
    case 46 => i, j, k := 2, 16, 8; assert Spread(Shift(46, 2), Shift(46, 16), Shift(46, 8));
    case _ => i, j, k := 5, 8, 1; assert Spread(Shift(47, 5), Shift(47, 8), Shift(47, 1));
  }

  lemma SomeChain(r: nat) returns (i: nat, j: nat, k: nat)
    requires r < 48
    ensures i <= 16 && j <= 16 && k <= 16 && Spread(Shift(r, i), Shift(r, j), Shift(r, k))
  {
    hide Shift, Spread;
    if r < 6 {
      i, j, k := Chain1(r);
    } else if r < 12 {
      i, j, k := Chain2(r);
    } else if r < 18 {
      i, j, k := Chain3(r);
    } else if r < 24 {
      i, j, k := Chain4(r);
    } else if r < 30 {
      i, j, k := Chain5(r);
    } else if r < 36 {
      i, j, k := Chain6(r);
    } else if r < 42 {
      i, j, k := Chain7(r);
    } else {
      i, j, k := Chain8(r);
    }
  }

  // Of every third number one lies in the top third, within the first 433.
  lemma TopThirdComes(x: nat) returns (k: nat)
    requires x < MODULUS
    ensures k < 500 && Iterated(x, 3 * k) % MODULUS >= 155520
  {
    var a, b, c := SomeChain(x % 48);
    ClassesShift(x, a);
    ClassesShift(x, b);
    ClassesShift(x, c);
    SpreadReachesTop(x, Shift(x % 48, a), Shift(x % 48, b), Shift(x % 48, c));
    hide Shift, Iterated;
    assert 3 * (27 * a) == 81 * a && 3 * (27 * b) == 81 * b && 3 * (27 * c) == 81 * c;
    k := if x >= 155520 then 0
         else if (x + Shift(x % 48, a)) % MODULUS >= 155520 then 27 * a
         else if (x + Shift(x % 48, b)) % MODULUS >= 155520 then 27 * b else 27 * c;
    NoStep(x);
  }

  lemma NoStep(x: nat)
    requires x < MODULUS
    ensures Iterated(x, 0) % MODULUS == x
  {
  }

  // ------------------------------------------------------------------ what a try draws

  // A try draws one of three directions.  The spot it draws lies on the board, except that an
  // upright word may be drawn one column past the last and a level one one row past the last.
  lemma DrawnLiesOnIff(w: string, width: nat, height: nat, seed: nat)
    requires w != ""
    ensures var d := Drawn(w, width, height, seed).0;
            d.Some? ==>
              var l := d.value;
              && ((l.dx == 1 && l.dy == 0) || (l.dx == 0 && l.dy == 1) || (l.dx == 1 && l.dy == 1))
              && 0 <= l.x <= width - |w| * l.dx && 0 <= l.y <= height - |w| * l.dy
              && (Free(BlankGrid(width, height), w, l) <==> (l.dx == 0 ==> l.x < width) && (l.dy == 0 ==> l.y < height))
  {
    var d := Drawn(w, width, height, seed).0;
    if d.Some? {
      DrawnShape(w, width, height, seed);
      var l, g := d.value, BlankGrid(width, height);
      hide Drawn;
      if (l.dx == 0 ==> l.x < width) && (l.dy == 0 ==> l.y < height) {
        assert forall i :: 0 <= i < |w| ==> FreeAt(g, w, l, i);
      } else {
        assert !FreeAt(g, w, l, 0);
      }
    }
  }

  lemma DrawnShape(w: string, width: nat, height: nat, seed: nat)
    requires Drawn(w, width, height, seed).0.Some?
    ensures var l := Drawn(w, width, height, seed).0.value;
            && ((l.dx == 1 && l.dy == 0) || (l.dx == 0 && l.dy == 1) || (l.dx == 1 && l.dy == 1))
            && 0 <= l.x <= width - |w| * l.dx && 0 <= l.y <= height - |w| * l.dy
  {
    var s2 := NextSeed(NextSeed(seed));
    var s3 := NextSeed(s2);
    var l := Drawn(w, width, height, seed).0.value;
    ScaledIsInRange(NextSeed(seed), 3);
    ScaledIsInRange(s2, width - |w| * l.dx + 1);
    ScaledIsInRange(s3, height - |w| * l.dy + 1);
    hide NextSeed, Scaled;
  }

  // All three directions are drawn, each by some seed.
  lemma EveryDirectionOccurs(w: string, width: nat, height: nat, dir: nat) returns (seed: nat)
    requires |w| <= width && |w| <= height && dir < 3
    ensures var d := Drawn(w, width, height, seed).0;
            d.Some? && d.value.dx == (if dir == 1 then 0 else 1) && d.value.dy == (if dir == 0 then 0 else 1)
  {
    seed := SeedFor(dir, 3);
    hide NextSeed, Scaled;
  }

  // Seed 1 on a board of five by five: a level word of two letters from the third column of the
  // third row on.
  lemma DrawnFromSeedOne(w: string)
    requires |w| == 2
    ensures Drawn(w, 5, 5, 1) == (Some(Line(2, 2, 1, 0)), 79852)
  {
    FirstSeeds();
    hide *;
    LevelDraw(w, 5, 5, 1, 58598, 127215, 79852, 2, 2);
  }

  lemma FirstSeeds()
    ensures NextSeed(1) == 58598 && NextSeed(58598) == 127215 && NextSeed(127215) == 79852
    ensures Scaled(58598, 3) == 0 && Scaled(127215, 4) == 2 && Scaled(79852, 6) == 2
  {
  }

  lemma LevelDraw(w: string, width: nat, height: nat, seed: nat, s1: nat, s2: nat, s3: nat, x: nat, y: nat)
    requires NextSeed(seed) == s1 && NextSeed(s1) == s2 && NextSeed(s2) == s3 && Scaled(s1, 3) == 0 && |w| <= width
    requires Scaled(s2, width - |w| + 1) == x && Scaled(s3, height + 1) == y
    ensures Drawn(w, width, height, seed) == (Some(Line(x, y, 1, 0)), s3)
  {
    hide NextSeed, Scaled;
  }

  // A blank cell may get any letter.
  lemma AnyLetterMayFillIn(c: char) returns (seed: nat)
    requires IsLetter(c)
    ensures Filled([[BLANK]], 1, 1, seed).0 == [[c]]
  {
    var k: nat := c as int - 'A' as int;
    seed := SeedFor(k, 26);
    LettersInOrder(k);
    FillOneCell(seed);
  }

  // --------------------------------------------------------------- the first word

  // A spot drawn on the diagonal is on the board, and free if the board is blank.
  lemma DiagonalIsFree(w: string, width: nat, height: nat, seed: nat)
    requires |w| <= width && |w| <= height && NextSeed(seed) >= 155520
    ensures var d := Drawn(w, width, height, seed).0;
            d.Some? && Free(BlankGrid(width, height), w, d.value)
  {
    var s2 := NextSeed(NextSeed(seed));
    var s3 := NextSeed(s2);
    ScaledIsInRange(s2, width - |w| + 1);
    ScaledIsInRange(s3, height - |w| + 1);
    assert Scaled(NextSeed(seed), 3) == 2 by {
      assert NextSeed(seed) * 3 >= 466560;
    }
    hide NextSeed, Scaled;
  }

  // A try on a board whose both sides are long enough takes three numbers.
  lemma TryTakesThree(w: string, width: nat, height: nat, seed: nat)
    requires |w| <= width && |w| <= height
    ensures Drawn(w, width, height, seed).1 == NextSeed(NextSeed(NextSeed(seed)))
  {
    hide NextSeed, Scaled;
  }

  lemma {:induction false} SomeTryIsFree(w: string, width: nat, height: nat, seed: nat, k: nat, tries: nat)
    requires |w| <= width && |w| <= height && k < tries && Iterated(NextSeed(seed), 3 * k) >= 155520
    ensures FirstFree(BlankGrid(width, height), w, width, height, seed, tries).0.Some?
    decreases tries
  {
    hide NextSeed, Free, Drawn, BlankGrid;
    if k == 0 {
      DiagonalIsFree(w, width, height, seed);
    } else {
      var d := Drawn(w, width, height, seed);
      TryTakesThree(w, width, height, seed);
      IteratedTwice(NextSeed(seed), 3, 3 * (k - 1));
      ThreeSteps(seed);
      SomeTryIsFree(w, width, height, d.1, k - 1, tries - 1);
    }
  }

  lemma ThreeSteps(seed: nat)
    ensures Iterated(NextSeed(seed), 3) == NextSeed(NextSeed(NextSeed(NextSeed(seed))))
  {
    hide NextSeed;
    var x := NextSeed(seed);
    assert Iterated(x, 0) == x && Iterated(x, 1) == NextSeed(x) && Iterated(x, 2) == NextSeed(NextSeed(x));
  }

  lemma {:induction false} IteratedIsSmall(x: nat, n: nat)
    requires x < MODULUS
    ensures Iterated(x, n) < MODULUS
  {
  }

  lemma FirstTryFinds(w: string, width: nat, height: nat, seed: nat)
    requires |w| <= width && |w| <= height
    ensures FirstFree(BlankGrid(width, height), w, width, height, seed, 500).0.Some?
  {
    var k := TopThirdComes(NextSeed(seed));
    IteratedIsSmall(NextSeed(seed), 3 * k);
    hide *;
    SomeTryIsFree(w, width, height, seed, k, 500);
  }

  // Whatever the seed, the first word that is tried is placed if it is no longer than either
  // side of the board; so such a round has at least one word to find.
  lemma FirstWordIsPlaced(given: seq<string>, width: nat, height: nat, seed: nat)
    requires given != []
    ensures var sorted := ByLength(Unique(given));
            && sorted != []
            && (|sorted[0]| <= width && |sorted[0]| <= height ==>
                  var required := Required(given, width, height, seed); required != [] && required[0] == sorted[0])
  {
    var sorted := ByLength(Unique(given));
    UniqueKeeps(given);
    ByLengthKeepsSize(Unique(given));
    assert given[0] in Unique(given);
    hide Unique, ByLength, PlacedAll, FirstFree, BlankGrid, Distinct;
    if |sorted[0]| <= width && |sorted[0]| <= height {
      FirstTryFinds(sorted[0], width, height, seed);
      FirstStays(Board(BlankGrid(width, height), [], [], seed), width, height, sorted, |sorted|);
    }
  }

  // What has been placed first stays first.
  lemma {:induction false} FirstStays(b: Board, width: nat, height: nat, words: seq<string>, n: nat)
    requires 1 <= n <= |words| && b.placed == []
    requires FirstFree(b.grid, words[0], width, height, b.seed, 500).0.Some?
    ensures var p := PlacedAll(b, width, height, words[..n]).placed; p != [] && p[0] == words[0]
    ensures n == |words| ==> words[..n] == words
    decreases n
  {
    hide FirstFree, Stamped;
    assert words[..n][..n - 1] == words[..n - 1];
    if n == 1 {
      assert words[..1][..0] == [];
      assert PlacedAll(b, width, height, []) == b;
    } else {
      FirstStays(b, width, height, words, n - 1);
    }
  }
}
