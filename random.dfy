/** The random source (rand's `RngCore`) as an explicit, deterministic input.

    A generator is an infinite stream of raw draws, read as values in [0, 1),
    and a cursor. Every call the system makes on its generator (`gen_bool`,
    `gen::<f32>`, `gen_range`) consumes exactly one draw and moves the cursor
    by one, except `gen_bool(1.0)`, which consumes nothing; so the order in
    which an operation consumes randomness is visible in the cursor it
    returns. */
module Random {

  /** A draw as the generator hands it out: a value in [0, 1). A raw value
      outside that range (which a real generator never produces) reads as 0. */
  function Unit(x: real): (u: real)
    ensures 0.0 <= u < 1.0
    ensures 0.0 <= x < 1.0 ==> u == x
  {
    if 0.0 <= x < 1.0 then x else 0.0
  }

  datatype Rng = Rng(draws: nat -> real, pos: nat) {

    /** The draw `k` places ahead of the cursor (without consuming it). */
    function Peek(k: nat): (u: real)
      ensures 0.0 <= u < 1.0
    {
      Unit(draws(pos + k))
    }

    /** The generator after `k` draws have been consumed. */
    function Skip(k: nat): (r: Rng)
      ensures r.draws == draws && r.pos == pos + k
    {
      Rng(draws, pos + k)
    }
  }

  /** `rng.gen_bool(p)`, rand's Bernoulli sampler: p = 1 answers true
      without touching the generator; any other p consumes one draw and
      answers true exactly when it falls below p, so p = 0 never does. */
  function GenBool(rng: Rng, p: real): (r: (bool, Rng))
    ensures p == 1.0 ==> r == (true, rng)
    ensures p != 1.0 ==> r.1 == rng.Skip(1) && (r.0 <==> rng.Peek(0) < p)
    ensures p <= 0.0 ==> !r.0
  {
    if p == 1.0 then (true, rng) else (rng.Peek(0) < p, rng.Skip(1))
  }

  /** `rng.gen::<f32>()`: a value in [0, 1). */
  function GenUnit(rng: Rng): (r: (real, Rng))
    ensures 0.0 <= r.0 < 1.0
    ensures r.1 == rng.Skip(1)
  {
    (rng.Peek(0), rng.Skip(1))
  }

  /** The value `gen_range(lo..=hi)` makes of a raw draw `u`. */
  function Scale(lo: real, hi: real, u: real): real
  {
    lo + (hi - lo) * u
  }

  lemma ScaleBounds(lo: real, hi: real, u: real)
    requires lo <= hi && 0.0 <= u < 1.0
    ensures lo <= Scale(lo, hi, u) <= hi
  {
    var w, v := hi - lo, 1.0 - u;
    assert w * u + w * v == w;
    assert w * v >= 0.0;
    assert w * u >= 0.0;
  }

  /** `rng.gen_range(lo..=hi)`: a value in [lo, hi]. */
  function GenRange(rng: Rng, lo: real, hi: real): (r: (real, Rng))
    requires lo <= hi
    ensures lo <= r.0 <= hi
    ensures r.1 == rng.Skip(1)
  {
    var u := rng.Peek(0);
    ScaleBounds(lo, hi, u);
    (Scale(lo, hi, u), rng.Skip(1))
  }
}
