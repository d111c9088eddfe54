/** The EVM's 256-bit arithmetic, as Solidity 0.7 uses it: no operation traps,
    every result is reduced modulo 2^256. */
module Arithmetic {

  const MOD: nat := 0x1_0000_0000_0000_0000_0000_0000_0000_0000_0000_0000_0000_0000_0000_0000_0000_0000
  // the first value that no longer converts to a u64
  const U64: nat := 0x1_0000_0000_0000_0000

  type uint256 = x: int | 0 <= x < MOD witness 0

  function Add(a: int, b: int): uint256 { (a + b) % MOD }

  function Sub(a: int, b: int): uint256 { (a - b) % MOD }

  function Mul(a: int, b: int): uint256 { (a * b) % MOD }

  lemma ModExact(a: nat)
    requires a < MOD
    ensures a % MOD == a
  {
  }

  lemma AddExact(a: int, b: int)
    requires 0 <= a + b < MOD
    ensures Add(a, b) == a + b
  {
  }

  lemma AddWraps(a: int, b: int)
    requires MOD <= a + b < 2 * MOD
    ensures Add(a, b) == a + b - MOD
  {
  }

  lemma SubExact(a: int, b: int)
    requires 0 <= a - b < MOD
    ensures Sub(a, b) == a - b
  {
  }

  lemma MulExact(a: nat, b: nat)
    requires a * b < MOD
    ensures Mul(a, b) == a * b
  {
  }

  /** A sum of sums wraps as a whole. */
  lemma AddMod(a: nat, b: nat)
    ensures Add(a, b % MOD) == (a + b) % MOD
    ensures (a + b) % MOD == a + b <==> a + b < MOD
  {
    var q, r := b / MOD, b % MOD;
    assert a + b == (a + r) + MOD * q;
  }

  lemma AddModLeft(a: nat, b: nat)
    ensures Add(a % MOD, b) == (a + b) % MOD
  {
    AddMod(b, a);
    assert Add(b, a % MOD) == Add(a % MOD, b);
  }

  lemma SumMod(a: nat, b: nat)
    ensures Add(a % MOD, b % MOD) == (a + b) % MOD
  {
    AddMod(a % MOD, b);
    AddModLeft(a, b);
  }

  function Pow(b: nat, e: nat): nat
  {
    if e == 0 then 1 else b * Pow(b, e - 1)
  }

  function Pow2(e: nat): (p: nat)
    ensures p >= 1
  {
    if e == 0 then 1 else 2 * Pow2(e - 1)
  }

  function Times(a: nat, b: nat): nat { a * b }

  lemma MulMono(a: nat, b: nat, k: nat)
    requires a <= b
    ensures a * k <= b * k
  {
  }

  lemma DivUnique(x: nat, d: nat, q: nat, r: nat)
    requires d > 0 && x == q * d + r && r < d
    ensures x / d == q
  {
    var q', r' := x / d, x % d;
    assert x == q' * d + r';
    if q' < q { MulMono(q' + 1, q, d); }
    if q < q' { MulMono(q + 1, q', d); }
  }

  lemma {:induction false} Pow2Add(a: nat, b: nat)
    ensures Pow2(a + b) == Pow2(a) * Pow2(b)
  {
    if a == 0 {
    } else {
      Pow2Add(a - 1, b);
      assert Pow2(a + b) == 2 * Pow2(a - 1 + b);
    }
  }

  lemma {:induction false} Pow2Mono(a: nat, b: nat)
    requires a <= b
    ensures Pow2(a) <= Pow2(b)
    decreases b
  {
    if a < b { Pow2Mono(a, b - 1); }
  }

  lemma Pow2Square(n: nat, k: nat, v: nat)
    requires n == 2 * k && Pow2(k) == v
    ensures Pow2(n) == v * v
  {
    Pow2Add(k, k);
  }

  /** 2^64 and 2^256, reached by squaring. */
  lemma Pow2Word(half: nat, word: nat)
    requires half == 64 && word == 256
    ensures Pow2(half) == U64
    ensures Pow2(word) == MOD
  {
    Pow2Square(half / 16, half / 32, 4);
    Pow2Square(half / 8, half / 16, 0x10);
    Pow2Square(half / 4, half / 8, 0x100);
    Pow2Square(half / 2, half / 4, 0x1_0000);
    Pow2Square(half, half / 2, 0x1_0000_0000);
    Pow2Square(word / 2, half, U64);
    Pow2Square(word, word / 2, U64 * U64);
  }

  lemma {:induction false} PowPositive(b: nat, e: nat)
    requires b >= 1
    ensures Pow(b, e) >= 1
  {
    if e > 0 { PowPositive(b, e - 1); }
  }

  lemma {:induction false} PowMonoBase(b: nat, c: nat, e: nat)
    requires b <= c
    ensures Pow(b, e) <= Pow(c, e)
  {
    if e > 0 {
      PowMonoBase(b, c, e - 1);
      MulMono(Pow(b, e - 1), Pow(c, e - 1), b);
      MulMono(b, c, Pow(c, e - 1));
    }
  }

  lemma {:induction false} PowMonoExp(b: nat, d: nat, e: nat)
    requires b >= 1 && d <= e
    ensures Pow(b, d) <= Pow(b, e)
    decreases e
  {
    if d < e {
      PowMonoExp(b, d, e - 1);
      MulMono(1, b, Pow(b, e - 1));
    }
  }

  // ----- log2OverTwo -----

  /** The number of bits of x. */
  function BitLength(x: nat): nat
  {
    if x == 0 then 0 else 1 + BitLength(x / 2)
  }

  /** What log2OverTwo computes: the floor of log base 4, except that x == 0 wraps. */
  function Log2OverTwo(x: nat): nat
  {
    if x == 0 then (MOD - 1) / 2 else (BitLength(x) - 1) / 2
  }

  lemma {:induction false} BitLengthBounds(x: nat)
    requires x > 0
    ensures BitLength(x) >= 1
    ensures Pow2(BitLength(x) - 1) <= x < Pow2(BitLength(x))
  {
    if x > 1 { BitLengthBounds(x / 2); }
  }

  lemma {:induction false} BitLengthMono(x: nat, y: nat)
    requires x <= y
    ensures BitLength(x) <= BitLength(y)
  {
    if x > 0 { BitLengthMono(x / 2, y / 2); }
  }

  lemma BitLengthFits(x: uint256)
    ensures BitLength(x) <= 256
  {
    if x > 0 {
      BitLengthBounds(x);
      var word := 256;
      Pow2Word(64, word);
      if BitLength(x) > word { Pow2Mono(word, BitLength(x) - 1); }
    }
  }

  lemma {:induction false} Pow4(y: nat)
    ensures Pow(4, y) == Pow2(2 * y)
  {
    if y > 0 {
      Pow4(y - 1);
      assert Pow2(2 * y) == 2 * Pow2(2 * y - 1) == 4 * Pow2(2 * (y - 1));
    }
  }

  lemma {:induction false} Pow32(y: nat)
    ensures Pow(32, y) == Pow2(5 * y)
  {
    if y > 0 {
      Pow32(y - 1);
      assert Pow2(5 * y) == 2 * Pow2(5 * y - 1) == 4 * Pow2(5 * y - 2) == 8 * Pow2(5 * y - 3)
        == 16 * Pow2(5 * y - 4) == 32 * Pow2(5 * (y - 1));
    }
  }

  /** log2OverTwo is the floor of log base 4, on every positive word. */
  lemma Log2OverTwoIsLog4(x: nat)
    requires x > 0
    ensures Pow(4, Log2OverTwo(x)) <= x < Pow(4, Log2OverTwo(x) + 1)
  {
    var y := Log2OverTwo(x);
    BitLengthBounds(x);
    Pow4(y);
    Pow4(y + 1);
    Pow2Mono(2 * y, BitLength(x) - 1);
    Pow2Mono(BitLength(x), 2 * (y + 1));
  }

  /** The loop of the source, on wrapping words. */
  method ComputeLog2OverTwo(x: uint256) returns (y: uint256)
    ensures y == Log2OverTwo(x)
  {
    var rest: uint256 := x;
    var leading: uint256 := 256;
    BitLengthFits(x);
    while rest != 0
      invariant 0 <= leading <= 256
      invariant leading + BitLength(x) == 256 + BitLength(rest)
      decreases rest
    {
      SubExact(leading, 1);
      rest := rest / 2;
      leading := Sub(leading, 1);
    }
    if x != 0 { SubExact(255, leading); }
    y := Sub(255, leading) / 2;
  }
}
