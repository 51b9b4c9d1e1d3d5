/** Bit masks on unsigned numbers, as remainders and quotients of powers of two. */
module Bits {

  /** The bitwise and of two unsigned numbers. */
  function BitAnd(a: nat, b: nat): nat {
    if a == 0 || b == 0 then 0 else a % 2 * (b % 2) + 2 * BitAnd(a / 2, b / 2)
  }

  predicate IsPowerOfTwo(n: nat) {
    n == 1 || (n > 0 && n % 2 == 0 && IsPowerOfTwo(n / 2))
  }

  /** is_pow2. */
  lemma {:induction false} PowerOfTwoTest(n: nat)
    ensures n >= 1 ==> (BitAnd(n, n - 1) == 0 <==> IsPowerOfTwo(n))
  {
    if n >= 2 {
      PowerOfTwoTest(n / 2);
      if n % 2 == 0 {
        assert (n - 1) / 2 == n / 2 - 1;
      } else {
        assert (n - 1) / 2 == n / 2;
        AndSelf(n / 2);
      }
    }
  }

  lemma {:induction false} AndSelf(n: nat)
    ensures BitAnd(n, n) == n
  {
    if n > 0 {
      AndSelf(n / 2);
    }
  }

  /** `pos & mask` is the slot `pos % cap`, because the capacity is a power of two. */
  lemma {:induction false} MaskIsModulo(pos: nat, cap: nat)
    requires IsPowerOfTwo(cap)
    ensures BitAnd(pos, cap - 1) == pos % cap
  {
    if cap >= 2 {
      var c := cap / 2;
      MaskIsModulo(pos / 2, c);
      assert (cap - 1) / 2 == c - 1 && (cap - 1) % 2 == 1;
      HalvedModulo(pos, c);
    }
  }

  lemma HalvedModulo(pos: nat, c: nat)
    requires c > 0
    ensures pos % (2 * c) == pos % 2 + 2 * (pos / 2 % c)
  {
    var half := pos / 2;
    var q, r := half / c, half % c;
    assert half == q * c + r;
    assert q * (2 * c) == 2 * (q * c);
    ModUnique(pos, 2 * c, q, pos % 2 + 2 * r);
  }

  /** x << k and x >> k. */
  function ShiftLeft(x: nat, k: nat): nat {
    if k == 0 then x else 2 * ShiftLeft(x, k - 1)
  }

  function ShiftRight(x: nat, k: nat): nat {
    if k == 0 then x else ShiftRight(x / 2, k - 1)
  }

  /** A mask whose ones stand above the lowest bits. */
  lemma {:induction false} HighMask(a: nat, high: nat, k: nat)
    ensures BitAnd(a, ShiftLeft(high, k)) == ShiftLeft(BitAnd(ShiftRight(a, k), high), k)
    decreases k
  {
    hide BitAnd;
    if k > 0 {
      AndEven(a, ShiftLeft(high, k - 1));
      HighMask(a / 2, high, k - 1);
    }
  }

  lemma AndEven(a: nat, b: nat)
    ensures BitAnd(a, 2 * b) == 2 * BitAnd(a / 2, b)
  {
  }

  lemma {:induction false} ShiftIsQuotient(a: nat, k: nat)
    ensures ShiftLeft(1, k) > 0 && ShiftRight(a, k) == a / ShiftLeft(1, k) && IsPowerOfTwo(ShiftLeft(1, k))
    decreases k
  {
    if k > 0 {
      ShiftIsQuotient(a / 2, k - 1);
      HalvedQuotient(a, ShiftLeft(1, k - 1));
    }
  }

  lemma {:induction false} ShiftTwice(x: nat, j: nat, k: nat)
    ensures ShiftLeft(x, j + k) == ShiftLeft(ShiftLeft(x, j), k)
  {
    if k > 0 {
      ShiftTwice(x, j, k - 1);
    }
  }

  lemma ShiftSeven(x: nat)
    ensures ShiftLeft(x, 7) == 128 * x
  {
    assert ShiftLeft(x, 1) == 2 * x;
    assert ShiftLeft(x, 2) == 4 * x;
    assert ShiftLeft(x, 3) == 8 * x;
    assert ShiftLeft(x, 4) == 16 * x;
    assert ShiftLeft(x, 5) == 32 * x;
    assert ShiftLeft(x, 6) == 64 * x;
  }

  lemma Shift28(x: nat)
    ensures ShiftLeft(x, 28) == 0x1000_0000 * x
  {
    hide ShiftLeft;
    ShiftSeven(x);
    ShiftTwice(x, 7, 7);
    ShiftSeven(128 * x);
    ShiftTwice(x, 14, 7);
    ShiftSeven(128 * (128 * x));
    ShiftTwice(x, 21, 7);
    ShiftSeven(128 * (128 * (128 * x)));
  }

  lemma HalvedQuotient(a: nat, d: nat)
    requires d > 0
    ensures a / 2 / d == a / (2 * d)
  {
    var half := a / 2;
    var q, r := half / d, half % d;
    assert half == q * d + r;
    assert q * (2 * d) == 2 * (q * d);
    ModUnique(a, 2 * d, q, a % 2 + 2 * r);
  }

  lemma Multiples(a: int, b: int, cap: int)
    requires cap > 0
    ensures a > b ==> a * cap >= b * cap + cap
    decreases a - b
  {
    if a > b + 1 {
      Multiples(a - 1, b, cap);
      assert a * cap == (a - 1) * cap + cap;
    }
  }

  lemma ModUnique(a: int, cap: int, q: int, r: int)
    requires 0 <= r < cap && a == q * cap + r
    ensures a % cap == r && a / cap == q
  {
    var q', r' := a / cap, a % cap;
    assert a == q' * cap + r';
    Multiples(q, q', cap);
    Multiples(q', q, cap);
  }
}
