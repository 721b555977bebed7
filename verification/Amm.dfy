/** The destination's constant-product market: fee, quote and what every run of swaps keeps. */
module Amm {
  import opened Base

  datatype Reserves = Reserves(input: int, output: int)

  datatype SwapError =
    | NoPool | BadAmount | ZeroAfterFee | BadReserveIn | BadReserveOut | NoLiquidity | BadMinOut | MinOutNotMet

  /** `10_000 - pool.FeeBPS` in uint32 arithmetic: a fee above 10000 wraps around. */
  function FeeMultiplier(feeBPS: U32): nat {
    (10_000 - feeBPS) % TWO_32
  }

  function EffectiveInput(amount: int, feeBPS: U32): int {
    if feeBPS > 0 then amount * FeeMultiplier(feeBPS) / 10_000 else amount
  }

  function Output(r: Reserves, effective: int): int
    requires r.input + effective > 0
  {
    r.output * effective / (r.input + effective)
  }

  /** A quote for a positive amount against positive reserves; the fee never enters the pool. */
  function Quote(r: Reserves, feeBPS: U32, amount: int): Result<(Reserves, int), SwapError>
    requires r.input > 0 && r.output > 0
  {
    if amount <= 0 then Err(BadAmount)
    else
      var e := EffectiveInput(amount, feeBPS);
      if feeBPS > 0 && e <= 0 then Err(ZeroAfterFee)
      else
        EffectiveNonNegative(amount, feeBPS);
        var out := Output(r, e);
        if out <= 0 || out >= r.output then Err(NoLiquidity)
        else Ok((Reserves(r.input + e, r.output - out), out))
  }

  lemma EffectiveNonNegative(amount: int, feeBPS: U32)
    requires amount > 0
    ensures EffectiveInput(amount, feeBPS) >= 0
    ensures feeBPS == 0 ==> EffectiveInput(amount, feeBPS) > 0
  {
    assert amount * FeeMultiplier(feeBPS) >= 0;
  }

  /** A swap without a minimum: a refused one changes nothing and pays nothing. */
  function Swap(r: Reserves, feeBPS: U32, amount: int): (Reserves, int)
    requires r.input > 0 && r.output > 0
  {
    match Quote(r, feeBPS, amount)
    case Ok(done) => done
    case Err(_) => (r, 0)
  }

  lemma DivBounds(a: int, b: int)
    requires b > 0
    ensures a / b * b <= a < a / b * b + b
  {
  }

  /** x <= a / b when x * b <= a. */
  lemma DivAtLeast(a: int, b: int, x: int)
    requires b > 0 && x * b <= a
    ensures x <= a / b
  {
    DivBounds(a, b);
    if x > a / b {
      assert x >= a / b + 1;
      MulMono(a / b + 1, x, b);
    }
  }

  lemma MulMono(x: int, y: int, z: int)
    requires x <= y && z >= 0
    ensures x * z <= y * z
  {
  }

  /** Positive reserves stay positive and their product never falls, whatever the fee. */
  lemma SwapKeepsProduct(r: Reserves, feeBPS: U32, amount: int)
    requires r.input > 0 && r.output > 0
    ensures var (r', out) := Swap(r, feeBPS, amount);
      && r'.input > 0 && r'.output > 0
      && r'.input * r'.output >= r.input * r.output
      && 0 <= out == r.output - r'.output
      && r'.input >= r.input
  {
    if Quote(r, feeBPS, amount).Ok? {
      var e := EffectiveInput(amount, feeBPS);
      EffectiveNonNegative(amount, feeBPS);
      var out := Output(r, e);
      DivBounds(r.output * e, r.input + e);
      ProductGrows(r.input, r.output, e, out);
    }
  }

  lemma ProductGrows(i: int, o: int, e: int, out: int)
    requires out * (i + e) <= o * e
    ensures (i + e) * (o - out) >= i * o
  {
    calc {
      (i + e) * (o - out);
      i * o + e * o - out * (i + e);
    }
  }

  // ---- splitting an input -------------------------------------------------------------

  /** Consecutive swaps on one pool: the final reserves and the total paid out. */
  function SwapAll(r: Reserves, feeBPS: U32, amounts: seq<int>): (res: (Reserves, int))
    requires r.input > 0 && r.output > 0
    ensures res.0.input > 0 && res.0.output > 0
  {
    if amounts == [] then (r, 0)
    else
      var n := |amounts| - 1;
      var (before, paid) := SwapAll(r, feeBPS, amounts[..n]);
      SwapKeepsProduct(before, feeBPS, amounts[n]);
      var (after, out) := Swap(before, feeBPS, amounts[n]);
      (after, paid + out)
  }

  /** Only positive amounts are ever accepted. */
  function Sum(amounts: seq<int>): int {
    if amounts == [] then 0
    else
      var x := amounts[|amounts| - 1];
      Sum(amounts[..|amounts| - 1]) + (if x > 0 then x else 0)
  }

  /**
    Over every run of swaps both reserves stay positive, their product never falls, and every unit paid left the
    pool.
   */
  lemma {:induction false} RunKeepsProduct(r: Reserves, feeBPS: U32, amounts: seq<int>)
    requires r.input > 0 && r.output > 0
    ensures var (r', paid) := SwapAll(r, feeBPS, amounts);
      && r'.input > 0 && r'.output > 0
      && r'.input * r'.output >= r.input * r.output
      && paid == r.output - r'.output >= 0
  {
    hide Swap;
    if amounts != [] {
      var n := |amounts| - 1;
      RunKeepsProduct(r, feeBPS, amounts[..n]);
      SwapKeepsProduct(SwapAll(r, feeBPS, amounts[..n]).0, feeBPS, amounts[n]);
    }
  }

  lemma {:induction false} SumNonNegative(amounts: seq<int>)
    ensures Sum(amounts) >= 0
  {
    if amounts != [] { SumNonNegative(amounts[..|amounts| - 1]); }
  }

  /** What rounding takes from the parts it never takes from the whole. */
  lemma EffectiveAdds(x: int, y: int, feeBPS: U32)
    requires x >= 0 && y >= 0
    ensures EffectiveInput(x, feeBPS) + EffectiveInput(y, feeBPS) <= EffectiveInput(x + y, feeBPS)
    ensures EffectiveInput(x, feeBPS) >= 0 && EffectiveInput(y, feeBPS) >= 0
  {
    if feeBPS > 0 {
      var m := FeeMultiplier(feeBPS);
      assert (x + y) * m == x * m + y * m;
      assert x * m >= 0 && y * m >= 0;
    }
  }

  /** The pool gains at most the effective input of the sum. */
  lemma {:induction false} InputGained(r: Reserves, feeBPS: U32, amounts: seq<int>)
    requires r.input > 0 && r.output > 0
    ensures r.input <= SwapAll(r, feeBPS, amounts).0.input <= r.input + EffectiveInput(Sum(amounts), feeBPS)
  {
    SumNonNegative(amounts);
    if amounts == [] {
      assert EffectiveInput(0, feeBPS) == 0;
    } else {
      var n := |amounts| - 1;
      var x := amounts[n];
      InputGained(r, feeBPS, amounts[..n]);
      SumNonNegative(amounts[..n]);
      var before := SwapAll(r, feeBPS, amounts[..n]).0;
      SwapKeepsProduct(before, feeBPS, x);
      EffectiveAdds(Sum(amounts[..n]), if x > 0 then x else 0, feeBPS);
      if Quote(before, feeBPS, x).Ok? {
        assert Swap(before, feeBPS, x).0.input == before.input + EffectiveInput(x, feeBPS);
      } else {
        assert Swap(before, feeBPS, x).0.input == before.input;
      }
    }
  }

  /** A pool that gained `g` of input without its product falling paid at most what one swap of `e >= g` pays. */
  lemma PaidAtMost(i: int, o: int, g: int, e: int, left: int)
    requires i > 0 && o > 0 && 0 <= g <= e && 0 < left <= o
    requires (i + g) * left >= i * o
    ensures o - left <= o * e / (i + e)
  {
    var paid := o - left;
    assert paid * (i + g) <= o * g by {
      assert (i + g) * left == (i + g) * o - paid * (i + g);
      assert (i + g) * o == i * o + g * o;
    }
    assert paid * (i + e) <= o * e by {
      MulMono(paid, o, e - g);
      assert paid * (i + e) == paid * (i + g) + paid * (e - g);
      assert o * e == o * g + o * (e - g);
    }
    DivAtLeast(o * e, i + e, paid);
  }

  /** Splitting an input into any number of consecutive swaps never pays more than one swap of the sum. */
  lemma SplittingNeverPays(r: Reserves, feeBPS: U32, amounts: seq<int>)
    requires r.input > 0 && r.output > 0
    ensures SwapAll(r, feeBPS, amounts).1 <= Swap(r, feeBPS, Sum(amounts)).1
  {
    hide Swap, SwapAll, Quote, Output, EffectiveInput, Sum;
    var (r', paid) := SwapAll(r, feeBPS, amounts);
    RunKeepsProduct(r, feeBPS, amounts);
    InputGained(r, feeBPS, amounts);
    SumNonNegative(amounts);
    SwapKeepsProduct(r, feeBPS, Sum(amounts));
    if paid > 0 {
      OneSwapPays(r, feeBPS, Sum(amounts), r'.input - r.input, r'.output);
    }
  }

  /** One swap of an amount whose effective input is at least what a pool gained pays at least what that pool paid. */
  lemma OneSwapPays(r: Reserves, feeBPS: U32, amount: int, gained: int, left: int)
    requires r.input > 0 && r.output > 0 && amount >= 0
    requires 0 <= gained <= EffectiveInput(amount, feeBPS) && 0 < left < r.output
    requires (r.input + gained) * left >= r.input * r.output
    ensures r.output - left <= Swap(r, feeBPS, amount).1
  {
    hide Quote, EffectiveInput;
    var e := EffectiveInput(amount, feeBPS);
    PaidAtMost(r.input, r.output, gained, e, left);
    EffectiveOfZero(feeBPS);
    OutputOfZero(r);
    QuoteGoesThrough(r, feeBPS, amount, r.output - left);
  }

  lemma EffectiveOfZero(feeBPS: U32)
    ensures EffectiveInput(0, feeBPS) == 0
  {
  }

  lemma OutputOfZero(r: Reserves)
    requires r.input > 0
    ensures Output(r, 0) == 0
  {
  }

  lemma DivBelow(a: int, b: int, x: int)
    requires b > 0 && a < x * b
    ensures a / b < x
  {
    DivBounds(a, b);
    if a / b >= x { MulMono(x, a / b, b); }
  }

  lemma QuoteGoesThrough(r: Reserves, feeBPS: U32, amount: int, paid: int)
    requires r.input > 0 && r.output > 0 && amount > 0 && EffectiveInput(amount, feeBPS) > 0
    requires 0 < paid <= Output(r, EffectiveInput(amount, feeBPS))
    ensures Quote(r, feeBPS, amount).Ok? && paid <= Swap(r, feeBPS, amount).1
  {
    hide EffectiveInput;
    var e := EffectiveInput(amount, feeBPS);
    assert r.output * (r.input + e) == r.output * r.input + r.output * e;
    assert r.output * r.input > 0;
    DivBelow(r.output * e, r.input + e, r.output);
  }

  /**
    The fee is a fee exactly up to 10000 basis points; beyond, the wrapped multiplier credits more than was paid in.
   */
  lemma FeeIffWithinRange(feeBPS: U32)
    ensures feeBPS <= 10_000 <==> forall amount: int :: amount > 0 ==> EffectiveInput(amount, feeBPS) <= amount
  {
    var m := FeeMultiplier(feeBPS);
    if feeBPS <= 10_000 {
      forall amount: int | amount > 0 ensures EffectiveInput(amount, feeBPS) <= amount {
        MulMono(m, 10_000, amount);
      }
    } else {
      assert m == TWO_32 + 10_000 - feeBPS > 10_000;
      assert EffectiveInput(10_000, feeBPS) == m;
    }
  }

  // ---- the market by its numbers --------------------------------------------------------------------------

  /** What is left of 10000 parts after the fee; a fee above 10000 basis points wraps around in 32 bits. */
  function PartsLeft(feeBPS: U32): nat {
    if feeBPS <= 10_000 then 10_000 - feeBPS else 10_000 + TWO_32 - feeBPS
  }

  /**
    A fair swap: `e` is all of the amount that the fee leaves, rounded down, and `out` is as much as the pool can
    pay for it without its product falling.
   */
  ghost predicate Fair(r: Reserves, feeBPS: U32, amount: int, e: int, out: int) {
    && amount > 0 && e > 0 && out > 0
    && 10_000 * e <= amount * PartsLeft(feeBPS) < 10_000 * (e + 1)
    && (r.input + e) * (r.output - out) >= r.input * r.output > (r.input + e) * (r.output - out - 1)
  }

  lemma Floor(n: int, d: int, q: int)
    requires d > 0
    ensures q == n / d <==> d * q <= n < d * (q + 1)
  {
    DivBounds(n, d);
    if d * q <= n < d * (q + 1) {
      DivAtLeast(n, d, q);
      DivBelow(n, d, q + 1);
    }
  }

  lemma EffectiveExact(amount: int, feeBPS: U32, e: int)
    ensures e == EffectiveInput(amount, feeBPS) <==> 10_000 * e <= amount * PartsLeft(feeBPS) < 10_000 * (e + 1)
  {
    assert FeeMultiplier(feeBPS) == PartsLeft(feeBPS);
    Floor(amount * PartsLeft(feeBPS), 10_000, e);
  }

  lemma OutputExact(r: Reserves, e: int, out: int)
    requires r.input > 0 && e > 0
    ensures out == Output(r, e) <==>
      (r.input + e) * (r.output - out) >= r.input * r.output > (r.input + e) * (r.output - out - 1)
  {
    Floor(r.output * e, r.input + e, out);
    Expands(r.input, r.output, e, out);
    Expands(r.input, r.output, e, out + 1);
  }

  lemma Expands(i: int, o: int, e: int, out: int)
    ensures (i + e) * (o - out) == i * o + o * e - (i + e) * out
  {
  }

  /** A swap is quoted exactly when it can be fair, and then at exactly the fair numbers. */
  lemma QuoteExact(r: Reserves, feeBPS: U32, amount: int, e: int, out: int)
    requires r.input > 0 && r.output > 0
    ensures Quote(r, feeBPS, amount) == Ok((Reserves(r.input + e, r.output - out), out)) <==>
      Fair(r, feeBPS, amount, e, out)
    ensures Quote(r, feeBPS, amount).Ok? <==> exists x, y :: Fair(r, feeBPS, amount, x, y)
  {
    hide EffectiveInput, Output;
    QuoteFair(r, feeBPS, amount);
    FairQuote(r, feeBPS, amount, e, out);
    if x, y :| Fair(r, feeBPS, amount, x, y) { FairQuote(r, feeBPS, amount, x, y); }
  }

  lemma QuoteFair(r: Reserves, feeBPS: U32, amount: int)
    requires r.input > 0 && r.output > 0
    ensures Quote(r, feeBPS, amount).Ok? ==>
      var (r', out) := Quote(r, feeBPS, amount).value;
      r' == Reserves(r'.input, r.output - out) && Fair(r, feeBPS, amount, r'.input - r.input, out)
  {
    hide Output, EffectiveInput;
    if Quote(r, feeBPS, amount).Ok? {
      var e := EffectiveInput(amount, feeBPS);
      EffectiveNonNegative(amount, feeBPS);
      EffectiveExact(amount, feeBPS, e);
      OutputExact(r, e, Output(r, e));
    }
  }

  lemma FairQuote(r: Reserves, feeBPS: U32, amount: int, e: int, out: int)
    requires r.input > 0 && r.output > 0
    ensures Fair(r, feeBPS, amount, e, out) ==>
      Quote(r, feeBPS, amount) == Ok((Reserves(r.input + e, r.output - out), out))
  {
    hide Output, EffectiveInput;
    if Fair(r, feeBPS, amount, e, out) {
      EffectiveExact(amount, feeBPS, e);
      OutputExact(r, e, out);
      NeverAll(r, e, out);
    }
  }

  lemma NeverAll(r: Reserves, e: int, out: int)
    requires r.input > 0 && r.output > 0 && e > 0 && (r.input + e) * (r.output - out) >= r.input * r.output
    ensures out < r.output
  {
    assert r.input * r.output > 0;
    if out >= r.output { MulMono(r.output - out, 0, r.input + e); }
  }

  /** A pool of 500000000 and 1000000000 at one percent: 25000000 in is 24750000 after the fee, and buys 47165316. */
  lemma QuotedExample()
    ensures Quote(Reserves(500000000, 1000000000), 100, 25000000) == Ok((Reserves(524750000, 952834684), 47165316))
  {
    FairQuote(Reserves(500000000, 1000000000), 100, 25000000, 24750000, 47165316);
  }
}
