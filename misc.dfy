/** The modulo frame counter used to decimate repaints (src/util/misc.rs). */
module Misc {

  import Arith

  /** The counter value after one `fetch_inc` on a counter of the given modulus. */
  function Next(modulo: nat, counter: nat): (r: nat)
    requires modulo > 0
    ensures r < modulo
  {
    (counter + 1) % modulo
  }

  /** The counter value after `k` calls of `fetch_inc`, starting from `counter`. */
  function After(modulo: nat, counter: nat, k: nat): nat
    requires modulo > 0
  {
    if k == 0 then counter else Next(modulo, After(modulo, counter, k - 1))
  }

  /** The values `k` successive calls return, starting from `counter`. */
  function Returned(modulo: nat, counter: nat, k: nat): (r: seq<nat>)
    requires modulo > 0
    ensures |r| == k
  {
    seq(k, i requires 0 <= i < k => After(modulo, counter, i))
  }

  class FrameCounter {
    var counter: nat
    const modulo: nat

    ghost predicate Valid()
      reads this
    {
      modulo > 0 && counter < modulo
    }

    /** The source asserts a positive modulus. */
    constructor (modulo: nat)
      requires modulo > 0
      ensures Valid()
      ensures this.modulo == modulo && counter == 0
    {
      this.modulo := modulo;
      counter := 0;
    }

    /** Returns the current count and advances it modulo `modulo`. */
    method FetchInc() returns (value: nat)
      requires Valid()
      modifies this
      ensures Valid()
      ensures value == old(counter)
      ensures counter == Next(modulo, old(counter))
    {
      value := counter;
      counter := (counter + 1) % modulo;
    }
  }

  /** After `k` calls from a count below the modulus, the count is `(counter + k) % modulo`. */
  lemma {:induction false} AfterIsShift(modulo: nat, counter: nat, k: nat)
    requires modulo > 0 && counter < modulo
    ensures After(modulo, counter, k) == (counter + k) % modulo
  {
    if k == 0 {
      Arith.DivModUnique(counter, modulo, 0, counter);
    } else {
      AfterIsShift(modulo, counter, k - 1);
      NextOfMod(modulo, counter + k - 1);
    }
  }

  /** Advancing a reduced count by one equals reducing the advanced count. */
  lemma NextOfMod(m: nat, x: nat)
    requires m > 0
    ensures Next(m, x % m) == (x + 1) % m
  {
    var a, q := x % m, x / m;
    assert x == q * m + a;
    if a + 1 == m {
      Arith.DivModUnique(a + 1, m, 1, 0);
      assert x + 1 == (q + 1) * m + 0;
      Arith.DivModUnique(x + 1, m, q + 1, 0);
    } else {
      Arith.DivModUnique(a + 1, m, 0, a + 1);
      Arith.DivModUnique(x + 1, m, q, a + 1);
    }
  }

  /** The only call within a period that returns 0 is call number `(modulo - counter) % modulo`. */
  lemma ZeroAt(modulo: nat, counter: nat, i: nat)
    requires modulo > 0 && counter < modulo && i < modulo
    requires (counter + i) % modulo == 0
    ensures i == (modulo - counter) % modulo
  {
    var s := counter + i;
    if s < modulo {
      Arith.DivModUnique(s, modulo, 0, s);
      Arith.DivModUnique(modulo - counter, modulo, 1, 0);
    } else {
      Arith.DivModUnique(s, modulo, 1, s - modulo);
      Arith.DivModUnique(modulo - counter, modulo, 0, modulo - counter);
    }
  }

  /** Over any `modulo` consecutive calls, starting from any valid count, at most one call
      returns 0. */
  lemma ZeroOncePerPeriod(modulo: nat, counter: nat, i: nat, j: nat)
    requires modulo > 0 && counter < modulo
    requires i < modulo && j < modulo
    requires Returned(modulo, counter, modulo)[i] == 0
    requires Returned(modulo, counter, modulo)[j] == 0
    ensures i == j
  {
    AfterIsShift(modulo, counter, i);
    AfterIsShift(modulo, counter, j);
    ZeroAt(modulo, counter, i);
    ZeroAt(modulo, counter, j);
  }

  /** Some call among any `modulo` consecutive calls returns 0. */
  lemma ZeroWithinPeriod(modulo: nat, counter: nat)
    requires modulo > 0 && counter < modulo
    ensures 0 in Returned(modulo, counter, modulo)
  {
    var i := if counter == 0 then 0 else modulo - counter;
    AfterIsShift(modulo, counter, i);
    if counter == 0 {
      Arith.DivModUnique(0, modulo, 0, 0);
    } else {
      Arith.DivModUnique(modulo, modulo, 1, 0);
    }
    assert Returned(modulo, counter, modulo)[i] == 0;
  }
}
