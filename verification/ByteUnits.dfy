// Choosing the unit in which a size is shown.
module ByteUnits {

  const UNITS: string := "KMGTPE"

  // b in bytes, or b / div in the unit of one of UNITS' letters
  datatype Shown = Plain(b: int) | Scaled(b: int, div: int, unit: char)

  function Pow1024(k: nat): (p: nat)
    ensures p >= 1
  {
    if k == 0 then 1 else 1024 * Pow1024(k - 1)
  }

  // k truncating divisions by 1024, one after the other
  function Shift(b: nat, k: nat): nat {
    if k == 0 then b else Shift(b, k - 1) / 1024
  }

  // Together they bracket b as one division by the power would.
  lemma {:induction false} ShiftBrackets(b: nat, k: nat)
    ensures Pow1024(k) * Shift(b, k) <= b < Pow1024(k) * (Shift(b, k) + 1)
  {
    if k > 0 {
      ShiftBrackets(b, k - 1);
      Coarser(Pow1024(k - 1), Shift(b, k - 1), Shift(b, k), b);
    }
  }

  lemma Coarser(p: nat, m: nat, n: nat, b: nat)
    requires p * m <= b < p * (m + 1) && 1024 * n <= m < 1024 * (n + 1)
    ensures (1024 * p) * n <= b < (1024 * p) * (n + 1)
  {
    Scale(p, 1024 * n, m);
    Scale(p, m + 1, 1024 * (n + 1));
    Assoc(p, n);
    Assoc(p, n + 1);
  }

  lemma Assoc(p: nat, n: nat)
    ensures (1024 * p) * n == p * (1024 * n)
  {
  }

  lemma Scale(p: nat, x: nat, y: nat)
    requires x <= y
    ensures p * x <= p * y
  {
  }

  lemma ShiftIsQuotient(b: nat, k: nat)
    ensures Shift(b, k) == b / Pow1024(k)
  {
    ShiftBrackets(b, k);
    QuotientIs(b, Pow1024(k), Shift(b, k), b - Pow1024(k) * Shift(b, k));
  }

  lemma QuotientIs(b: nat, m: nat, q: nat, r: nat)
    requires m >= 1 && b == m * q + r && r < m
    ensures b / m == q
  {
    var k := b / m;
    assert b == m * k + b % m;
    assert k < q ==> m * (k + 1) <= m * q;
    assert k > q ==> m * (q + 1) <= m * k;
  }

  lemma {:induction false} Pow1024Monotone(j: nat, k: nat)
    requires j <= k
    ensures Pow1024(j) <= Pow1024(k)
  {
    if j < k {
      Pow1024Monotone(j, k - 1);
    }
  }

  lemma PowerBelow(b: nat, k: nat)
    ensures Shift(b, k) >= 1 ==> Pow1024(k) <= b
    ensures Shift(b, k) < 1024 ==> b < 1024 * Pow1024(k)
  {
    ShiftBrackets(b, k);
    if Shift(b, k) >= 1 {
      Scale(Pow1024(k), 1, Shift(b, k));
    }
    if Shift(b, k) < 1024 {
      Scale(Pow1024(k), Shift(b, k) + 1, 1024);
    }
  }

  // An int64 is below 1024 to the 7th.
  lemma LetterExists(b: nat, k: nat)
    requires Pow1024(k + 1) <= b < 0x8000_0000_0000_0000
    ensures k < |UNITS|
  {
    assert Pow1024(7) == 0x40_0000_0000_0000_0000;
    if k >= 6 {
      Pow1024Monotone(7, k + 1);
    }
  }

  // The customary letters: kibi, mebi, gibi, tebi, pebi, exbi
  function Letter(b: nat): char {
    if b < 0x10_0000 then 'K'
    else if b < 0x4000_0000 then 'M'
    else if b < 0x100_0000_0000 then 'G'
    else if b < 0x4_0000_0000_0000 then 'T'
    else if b < 0x1000_0000_0000_0000 then 'P'
    else 'E'
  }

  lemma LetterIs(b: nat, k: nat)
    requires k < |UNITS| && Pow1024(k + 1) <= b < 1024 * Pow1024(k + 1)
    ensures UNITS[k] == Letter(b)
  {
    assert Pow1024(1) == 0x400 && Pow1024(2) == 0x10_0000 && Pow1024(3) == 0x4000_0000;
    assert Pow1024(4) == 0x100_0000_0000 && Pow1024(5) == 0x4_0000_0000_0000 && Pow1024(6) == 0x1000_0000_0000_0000;
  }

  // For every int64 the letter exists, and the divisor is the power of 1024 just below the size; the loop's
  // products never pass b, so they do not overflow.
  method FormatBytes(b: int) returns (s: Shown)
    requires -0x8000_0000_0000_0000 <= b < 0x8000_0000_0000_0000
    ensures b < 1024 ==> s == Plain(b)
    ensures b >= 1024 ==> s.Scaled? && s.b == b && s.div <= b < 1024 * s.div
    ensures b >= 1024 ==> exists k: nat :: k < |UNITS| && s.unit == UNITS[k] && s.div == Pow1024(k + 1)
    ensures b >= 1024 ==> s.unit == Letter(b)
  {
    if b < 1024 {
      return Plain(b);
    }
    var div, exp := 1024, 0;
    assert Pow1024(1) == 1024 && Shift(b, 1) == Shift(b, 0) / 1024;
    var n := b / 1024;
    while n >= 1024
      invariant exp >= 0 && div == Pow1024(exp + 1) && n == Shift(b, exp + 1) && 1 <= n && div <= b
      decreases n
    {
      n := n / 1024;
      PowerBelow(b, exp + 2);
      div := div * 1024;
      exp := exp + 1;
    }
    PowerBelow(b, exp + 1);
    LetterExists(b, exp);
    LetterIs(b, exp);
    return Scaled(b, div, UNITS[exp]);
  }

  // The choice is the only one possible: no other power of 1024 fits.
  lemma UnitUnique(b: nat, j: nat, k: nat)
    requires Pow1024(j) <= b < 1024 * Pow1024(j) && Pow1024(k) <= b < 1024 * Pow1024(k)
    ensures j == k
  {
    NotAbove(b, j, k);
    NotAbove(b, k, j);
  }

  lemma NotAbove(b: nat, j: nat, k: nat)
    requires Pow1024(k) <= b < 1024 * Pow1024(j)
    ensures k <= j
  {
    if j < k {
      Pow1024Monotone(j + 1, k);
    }
  }
}
