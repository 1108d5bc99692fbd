// The pseudo-random numbers of the word search and the puzzle, and the arithmetic of
// scaling a random fraction to an index.
module Draws {
  const MODULUS: nat := 233280

  lemma TimesGrows(a: int, b: int, n: nat)
    requires a <= b
    ensures a * n <= b * n
  {
    assert (b - a) * n >= 0;
    assert b * n == a * n + (b - a) * n;
  }

  function NextSeed(seed: nat): (next: nat)
    ensures next < MODULUS
  {
    (seed * 9301 + 49297) % MODULUS
  }

  // floor(random() * n) for a seed that has just been drawn.
  function Scaled(seed: nat, n: nat): nat {
    seed * n / MODULUS
  }

  lemma ScaledIsInRange(seed: nat, n: nat)
    requires seed < MODULUS && n > 0
    ensures Scaled(seed, n) < n
  {
    var product := seed * n;
    TimesGrows(seed, MODULUS - 1, n);
    assert product <= 233279 * n;
  }

  // ------------------------------------------------------------- everything is drawn

  // The seed before a seed; 123901 * 9301 leaves 1 over the modulus.
  function PreviousSeed(seed: nat): (previous: nat)
    ensures previous < MODULUS
  {
    ((seed + MODULUS - 49297) * 123901) % MODULUS
  }

  // The generator meets every number below the modulus.
  lemma NextOfPrevious(seed: nat)
    requires seed < MODULUS
    ensures NextSeed(PreviousSeed(seed)) == seed
  {
    var a := seed + MODULUS - 49297;
    var k := a * 123901 / MODULUS;
    var previous := PreviousSeed(seed);
    assert a * 123901 == previous + MODULUS * k;
    assert previous * 9301 + 49297 == seed + MODULUS * (1 + 4940 * a - 9301 * k);
  }

  // And every index of every range up to the modulus can be drawn.
  lemma SeedFor(k: nat, n: nat) returns (seed: nat)
    requires k < n <= MODULUS
    ensures Scaled(NextSeed(seed), n) == k
  {
    var drawn := (k * MODULUS + n - 1) / n;
    var rest := (k * MODULUS + n - 1) % n;
    assert drawn * n == k * MODULUS + n - 1 - rest;
    InRangeOf(drawn, k, n);
    NextOfPrevious(drawn);
    seed := PreviousSeed(drawn);
  }

  lemma InRangeOf(drawn: nat, k: nat, n: nat)
    requires k < n <= MODULUS && k * MODULUS <= drawn * n < (k + 1) * MODULUS
    ensures drawn < MODULUS && Scaled(drawn, n) == k
  {
    if drawn >= MODULUS {
      TimesGrows(MODULUS, drawn, n);
    }
  }
}
