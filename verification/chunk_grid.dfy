/** Which residues the multiples of a chunk size reach modulo a power of two. */
module ChunkGrid {
  import Arith

  function Pow2(n: nat): (p: nat)
    ensures p > 0
  {
    if n == 0 then 1 else 2 * Pow2(n - 1)
  }

  /** The largest power of two that divides c. */
  function LowBit(c: nat): (g: nat)
    requires c > 0
    ensures 0 < g <= c
  {
    if c % 2 == 1 then 1 else 2 * LowBit(c / 2)
  }

  function OddPart(c: nat): (o: nat)
    requires c > 0
    ensures o % 2 == 1
  {
    if c % 2 == 1 then c else OddPart(c / 2)
  }

  function Twos(c: nat): nat
    requires c > 0
  {
    if c % 2 == 1 then 0 else 1 + Twos(c / 2)
  }

  /** The low bit is a power of two, and what remains after dividing by it is odd. */
  lemma {:induction false} Factored(c: nat)
    requires c > 0
    ensures LowBit(c) == Pow2(Twos(c)) && c == LowBit(c) * OddPart(c)
  {
    if c % 2 == 1 {
    } else {
      Factored(c / 2);
      Doubled(LowBit(c / 2), OddPart(c / 2));
    }
  }

  lemma Doubled(g: nat, o: nat)
    ensures 2 * (g * o) == 2 * g * o
  {
  }

  lemma {:induction false} TwosBelow(c: nat, n: nat)
    requires 0 < c < Pow2(n)
    ensures Twos(c) < n
  {
    if c % 2 == 1 {
    } else {
      TwosBelow(c / 2, n - 1);
    }
  }

  lemma {:induction false} Pow2Adds(a: nat, b: nat)
    ensures Pow2(a + b) == Pow2(a) * Pow2(b)
  {
    if a == 0 {
    } else {
      Pow2Adds(a - 1, b);
    }
  }

  /** Every power of two divides one more than some multiple of an odd number. */
  lemma {:induction false} OddReaches(o: nat, b: nat) returns (k: nat, m: nat)
    requires o % 2 == 1
    ensures k * o + 1 == Pow2(b) * m
  {
    if b == 0 {
      k, m := 0, 1;
    } else {
      k, m := OddReaches(o, b - 1);
      k, m := NextBit(o, Pow2(b - 1), k, m);
    }
  }

  lemma NextBit(o: nat, p: nat, k: nat, m: nat) returns (k': nat, m': nat)
    requires o % 2 == 1 && k * o + 1 == p * m
    ensures k' * o + 1 == 2 * p * m'
  {
    if m % 2 == 0 {
      k', m' := k, m / 2;
    } else {
      k', m' := k + p, (m + o) / 2;
      assert k' * o == k * o + p * o;
    }
    Halved(p, m + if m % 2 == 0 then 0 else o, m');
  }

  lemma Halved(p: nat, x: nat, half: nat)
    requires x == 2 * half
    ensures p * x == 2 * p * half
  {
  }

  /** A modulus that is a multiple of the low bit. */
  lemma GridFits(c: nat, n: nat) returns (cells: nat)
    requires 0 < c < Pow2(n)
    ensures Twos(c) < n && cells == Pow2(n - Twos(c)) && Pow2(n) == LowBit(c) * cells
  {
    Factored(c);
    TwosBelow(c, n);
    Pow2Adds(Twos(c), n - Twos(c));
    cells := Pow2(n - Twos(c));
  }

  /** Some multiple of c lies exactly one low bit below a multiple of the modulus. */
  lemma Reaches(c: nat, n: nat) returns (k: nat, m: nat)
    requires 0 < c < Pow2(n)
    ensures k * c + LowBit(c) == Pow2(n) * m && m > 0
  {
    var cells := GridFits(c, n);
    Factored(c);
    k, m := OddReaches(OddPart(c), n - Twos(c));
    Spread(k, OddPart(c), cells, m, LowBit(c));
  }

  lemma Spread(k: nat, o: nat, cells: nat, m: nat, g: nat)
    requires k * o + 1 == cells * m
    ensures k * (g * o) + g == g * cells * m && m > 0
  {
    assert k * (g * o) + g == g * (k * o + 1);
    assert g * cells * m == g * (cells * m);
  }
}
