/** Go's `int8` and the two's-complement wrap-around of its `+ 1`. */
module Int8 {

  /** A Go `int8`: a signed 8-bit integer. */
  newtype int8 = x: int | -128 <= x < 128

  /** The int8 that an unbounded integer wraps to, found by adding or
      subtracting 256 until the value lies in [-128, 128). */
  function Wrap(n: int): int8
    decreases if n >= 128 then n else if n < -128 then -n else 0
  {
    if n >= 128 then Wrap(n - 256)
    else if n < -128 then Wrap(n + 256)
    else n as int8
  }

  /** Go's `uid = uid + 1` on an int8: the sum is reduced modulo 256, so
      127 + 1 is -128. */
  function Inc(u: int8): (r: int8)
    ensures u < 127 ==> r as int == u as int + 1
    ensures u == 127 ==> r == -128
  {
    if u == 127 then -128 else u + 1
  }

  /** Wrap(n) is congruent to n modulo 256. */
  lemma {:induction false} WrapCongruent(n: int)
    ensures (Wrap(n) as int - n) % 256 == 0
    decreases if n >= 128 then n else if n < -128 then -n else 0
  {
    if n >= 128 {
      WrapCongruent(n - 256);
      assert Wrap(n) as int - n == (Wrap(n - 256) as int - (n - 256)) - 256;
    } else if n < -128 {
      WrapCongruent(n + 256);
      assert Wrap(n) as int - n == (Wrap(n + 256) as int - (n + 256)) + 256;
    }
  }

  /** Wrap is determined by congruence: any int8 congruent to n is Wrap(n). */
  lemma WrapUnique(n: int, r: int8)
    requires (r as int - n) % 256 == 0
    ensures r == Wrap(n)
  {
    WrapCongruent(n);
    var w := Wrap(n);
    var d := r as int - w as int;
    assert -256 < d < 256;
    assert d % 256 == 0 by {
      assert d == (r as int - n) - (w as int - n);
    }
  }

  /** The increment is the two's-complement one: Inc(u) == Wrap(u + 1). */
  lemma IncIsWrap(u: int8)
    ensures Inc(u) == Wrap(u as int + 1)
  {
    WrapUnique(u as int + 1, Inc(u));
  }

  /** Wrapping an intermediate sum does not change the final int8. */
  lemma WrapAdd(a: int, b: int)
    ensures Wrap(Wrap(a) as int + b) == Wrap(a + b)
  {
    var w := Wrap(a);
    WrapCongruent(a);
    WrapCongruent(w as int + b);
    assert ((w as int - a) + (Wrap(w as int + b) as int - (w as int + b))) % 256 == 0;
    assert (Wrap(w as int + b) as int - (a + b)) % 256 == 0;
    WrapUnique(a + b, Wrap(w as int + b));
  }

  /** Two integers that wrap to the same int8 differ by a multiple of 256. */
  lemma WrapEqOnlyIfCongruent(a: int, b: int)
    requires Wrap(a) == Wrap(b)
    ensures (a - b) % 256 == 0
  {
    WrapCongruent(a);
    WrapCongruent(b);
    assert a - b == (Wrap(b) as int - b) - (Wrap(a) as int - a);
  }

  /** Two integers wrap to the same int8 exactly when they differ by a
      multiple of 256: 256 consecutive increments give 256 distinct values,
      and the 257th repeats the first. */
  lemma WrapEq(a: int, b: int)
    ensures Wrap(a) == Wrap(b) <==> (a - b) % 256 == 0
  {
    if Wrap(a) == Wrap(b) {
      WrapEqOnlyIfCongruent(a, b);
    }
    if (a - b) % 256 == 0 {
      WrapCongruent(a);
      assert (Wrap(a) as int - b) == (Wrap(a) as int - a) + (a - b);
      WrapUnique(b, Wrap(a));
    }
  }

  /** The counter after `n` increments in a row. */
  function IncTimes(u: int8, n: nat): int8
    decreases n
  {
    if n == 0 then u else IncTimes(Inc(u), n - 1)
  }

  /** `n` increments in a row add `n` modulo 256: the same int8 as
      Wrap(u + n). */
  lemma {:induction false} IncTimesIsWrap(u: int8, n: nat)
    ensures IncTimes(u, n) == Wrap(u as int + n)
    decreases n
  {
    if n == 0 {
      WrapUnique(u as int, u);
    } else {
      IncTimesIsWrap(Inc(u), n - 1);
      IncIsWrap(u);
      WrapAdd(u as int + 1, n - 1);
    }
  }
}
