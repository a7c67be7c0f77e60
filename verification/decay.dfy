/**
 Exponential decay of threat contributions. Time is counted in ticks of any resolution: `ticks` of
 them make one half-life (300 s), and `r` is the factor of a single tick.
 */
module Decay {
  type Tick = int

  datatype Rate = Rate(ticks: nat, r: real) {
    ghost predicate Valid() {
      ticks > 0 && 0.0 < r < 1.0 && Pow(r, ticks) == 0.5
    }
  }

  type HalfLife = h: Rate | h.Valid() ghost witness Rate(1, 0.5)

  function Pow(r: real, n: nat): real {
    if n == 0 then 1.0 else r * Pow(r, n - 1)
  }

  lemma {:induction false} PowBounds(r: real, n: nat)
    requires 0.0 < r < 1.0
    ensures 0.0 < Pow(r, n) <= 1.0
  {
    if n == 0 {
    } else {
      PowBounds(r, n - 1);
      var p := Pow(r, n - 1);
      assert 0.0 < r * p;
      assert r * p <= 1.0 * p;
    }
  }

  lemma {:induction false} PowPlus(r: real, m: nat, n: nat)
    ensures Pow(r, m + n) == Pow(r, m) * Pow(r, n)
  {
    if m == 0 {
    } else {
      PowPlus(r, m - 1, n);
      var (a, b) := (Pow(r, m - 1), Pow(r, n));
      assert r * (a * b) == (r * a) * b;
    }
  }

  /** exp(-ln 2 * age / 300), also for a negative age. */
  function Factor(h: HalfLife, age: Tick): (f: real)
    ensures f > 0.0
    ensures age >= 0 ==> f <= 1.0
  {
    PowBounds(h.r, if age >= 0 then age else -age);
    if age >= 0 then Pow(h.r, age) else 1.0 / Pow(h.r, -age)
  }

  lemma FactorPlus(h: HalfLife, a: Tick, b: Tick)
    requires a >= 0 && b >= 0
    ensures Factor(h, a + b) == Factor(h, a) * Factor(h, b)
  {
    PowPlus(h.r, a, b);
  }

  /** One half-life halves; anything older is at most halved, anything younger at least. */
  lemma FactorHalves(h: HalfLife, age: Tick)
    requires age >= 0
    ensures age >= h.ticks ==> Factor(h, age) <= 0.5
    ensures age <= h.ticks ==> Factor(h, age) >= 0.5
  {
    hide Factor;
    HalfLifeHalves(h);
    if age >= h.ticks {
      FactorPlus(h, h.ticks, age - h.ticks);
      Shrinks(Factor(h, h.ticks), Factor(h, age - h.ticks), Factor(h, age));
    } else {
      FactorPlus(h, age, h.ticks - age);
      Shrinks(Factor(h, age), Factor(h, h.ticks - age), Factor(h, h.ticks));
    }
  }

  lemma HalfLifeHalves(h: HalfLife)
    ensures Factor(h, h.ticks) == 0.5
  {
  }

  lemma Shrinks(f: real, g: real, product: real)
    requires 0.0 < f && 0.0 < g <= 1.0 && product == f * g
    ensures product <= f
  {
  }

  lemma StrictlyDecays(h: HalfLife, age: Tick)
    requires age > 0
    ensures Factor(h, age) < 1.0
  {
    PowBounds(h.r, age - 1);
    var p := Pow(h.r, age - 1);
    assert h.r * p <= h.r * 1.0;
  }
}
