/** `GaussianMutation`: every gene is, with probability `chance`, moved by
    up to `coeff` in a random direction, in place. */
module Mutation {
  import opened Random

  function Abs(x: real): real
  {
    if x < 0.0 then -x else x
  }

  /** `if rng.gen_bool(0.5) { -1.0 } else { 1.0 }` with the coin drawn as `u`. */
  function Sign(u: real): real
  {
    if u < 0.5 then -1.0 else 1.0
  }

  /** The amount `sign * coeff * rng.gen::<f32>()` a touched gene moves by. */
  function Perturbation(sign: real, coeff: real, u: real): real
  {
    sign * coeff * u
  }

  lemma ScaledBound(a: real, u: real)
    requires 0.0 <= a && 0.0 <= u < 1.0
    ensures 0.0 <= a * u <= a
  {
    assert a * u + a * (1.0 - u) == a;
    assert a * (1.0 - u) >= 0.0;
  }

  lemma PerturbationBound(sign: real, coeff: real, u: real)
    requires sign == 1.0 || sign == -1.0
    requires 0.0 <= u < 1.0
    ensures Abs(Perturbation(sign, coeff, u)) <= Abs(coeff)
  {
    var a := Abs(coeff);
    ScaledBound(a, u);
    var p := coeff * u;
    assert Abs(p) == a * u by {
      if coeff < 0.0 {
        assert p == -(a * u);
      } else {
        assert p == a * u;
      }
    }
    if sign == 1.0 {
      assert Perturbation(sign, coeff, u) == p;
    } else {
      assert Perturbation(sign, coeff, u) == -p;
    }
  }

  datatype GaussianMutation = GaussianMutation(chance: real, coeff: real) {

    /** `GaussianMutation::new`: the chance must be a probability; the
        coefficient is not checked (negative values are allowed). */
    static function New(chance: real, coeff: real): (m: GaussianMutation)
      requires 0.0 <= chance <= 1.0
      ensures m.chance == chance && m.coeff == coeff
    {
      GaussianMutation(chance, coeff)
    }

    /** Whether the gene whose draws start at `rng` is touched:
        `gen_bool(chance)`, always true at chance 1 without a draw, and
        otherwise decided by the gene's second draw. */
    predicate Touches(rng: Rng)
    {
      chance == 1.0 || rng.Peek(1) < chance
    }

    /** The number of draws a touched gene consumes: the sign, the touch
        decision unless the chance is 1, and the magnitude, which is the last. */
    function TouchedDraws(): (n: nat)
      ensures n == 2 || n == 3
      ensures n == 2 <==> chance == 1.0
    {
      if chance == 1.0 then 2 else 3
    }

    /** One iteration of the loop in `mutate`: the sign is always drawn, then
        the touch decision (with no draw at chance 1), and the magnitude only
        when the gene is touched. */
    function MutateGene(rng: Rng, gene: real): (r: (real, Rng))
      ensures !Touches(rng) ==> r.0 == gene && r.1 == rng.Skip(2)
      ensures Touches(rng) ==>
                && r.0 == gene + Perturbation(Sign(rng.Peek(0)), coeff, rng.Peek(TouchedDraws() - 1))
                && r.1 == rng.Skip(TouchedDraws())
      ensures Abs(r.0 - gene) <= Abs(coeff)
    {
      var (flip, rng1) := GenBool(rng, 0.5);
      var sign := if flip then -1.0 else 1.0;
      var (touch, rng2) := GenBool(rng1, chance);
      if touch then
        var (u, rng3) := GenUnit(rng2);
        PerturbationBound(sign, coeff, u);
        (gene + Perturbation(sign, coeff, u), rng3)
      else
        (gene, rng2)
    }

    /** The genes after `mutate`, and the generator after it. */
    function Mutated(rng: Rng, genes: seq<real>): (r: (seq<real>, Rng))
      ensures |r.0| == |genes|
      ensures r.1.draws == rng.draws
      decreases |genes|
    {
      if |genes| == 0 then ([], rng)
      else
        var (g, rng1) := MutateGene(rng, genes[0]);
        var (rest, rng2) := Mutated(rng1, genes[1..]);
        ([g] + rest, rng2)
    }

    /** The generator as the loop reaches gene `i`. */
    function Cursor(rng: Rng, genes: seq<real>, i: nat): Rng
      requires i <= |genes|
    {
      Mutated(rng, genes[..i]).1
    }

    /** `GaussianMutation::mutate`: the `for gene in child.iter_mut()` loop
        over the array holding the child's genes. */
    method Mutate(rng: Rng, child: array<real>) returns (rng': Rng)
      modifies child
      ensures child[..] == Mutated(rng, old(child[..])).0
      ensures rng' == Mutated(rng, old(child[..])).1
    {
      ghost var genes := child[..];
      ghost var target := Mutated(rng, genes).0;
      rng' := rng;
      var i := 0;
      while i < child.Length
        invariant 0 <= i <= child.Length
        invariant rng' == Cursor(rng, genes, i)
        invariant |target| == child.Length
        invariant forall k :: 0 <= k < i ==> child[k] == target[k]
        invariant forall k :: i <= k < child.Length ==> child[k] == genes[k]
      {
        ghost var before := rng';
        var gene := child[i];
        var (flip, rng1) := GenBool(rng', 0.5);
        var sign := if flip then -1.0 else 1.0;
        var (touch, rng2) := GenBool(rng1, chance);
        rng' := rng2;
        if touch {
          var (u, rng3) := GenUnit(rng2);
          gene := gene + Perturbation(sign, coeff, u);
          rng' := rng3;
        }
        assert (gene, rng') == MutateGene(before, genes[i]) by {
          assert touch == Touches(before);
          assert sign == Sign(before.Peek(0));
        }
        child[i] := gene;
        assert child[i] == target[i] by {
          MutatedAt(this, rng, genes, i);
        }
        assert rng' == Cursor(rng, genes, i + 1) by {
          CursorStep(this, rng, genes, i);
        }
        i := i + 1;
      }
      assert genes[..i] == genes;
      assert child[..] == target;
    }
  }

  // ---------------------------------------------------------------------------
  // Properties of the specification

  /** Gene `i` of the result depends only on gene `i` and on its own draws,
      which start where the draws of genes 0 .. i - 1 end. */
  lemma {:induction false} MutatedAt(m: GaussianMutation, rng: Rng, genes: seq<real>, i: nat)
    requires i < |genes|
    ensures m.Mutated(rng, genes).0[i] == m.MutateGene(m.Cursor(rng, genes, i), genes[i]).0
    decreases |genes|
  {
    var (g, rng1) := m.MutateGene(rng, genes[0]);
    if i == 0 {
      assert genes[..0] == [];
    } else {
      MutatedAt(m, rng1, genes[1..], i - 1);
      assert genes[..i][0] == genes[0];
      assert genes[..i][1..] == genes[1..][..i - 1];
    }
  }

  /** The cursor after gene `i` is where gene `i`'s own draws end. */
  lemma {:induction false} CursorStep(m: GaussianMutation, rng: Rng, genes: seq<real>, i: nat)
    requires i < |genes|
    ensures m.Cursor(rng, genes, i + 1) == m.MutateGene(m.Cursor(rng, genes, i), genes[i]).1
    decreases i
  {
    var rng1 := m.MutateGene(rng, genes[0]).1;
    var tail := genes[1..];
    assert genes[..i + 1][0] == genes[0] && genes[..i + 1][1..] == tail[..i];
    assert m.Cursor(rng, genes, i + 1) == m.Cursor(rng1, tail, i);
    if i > 0 {
      CursorStep(m, rng1, tail, i - 1);
      assert genes[..i][0] == genes[0] && genes[..i][1..] == tail[..i - 1];
      assert m.Cursor(rng, genes, i) == m.Cursor(rng1, tail, i - 1);
      assert tail[i - 1] == genes[i];
    } else {
      assert tail[..0] == [] && genes[..0] == [];
    }
  }

  /** Chance 0 leaves every gene as it was, for any coefficient; each gene
      still consumes its sign and touch draws. */
  lemma {:induction false} ZeroChanceKeepsGenes(m: GaussianMutation, rng: Rng, genes: seq<real>)
    requires m.chance == 0.0
    ensures m.Mutated(rng, genes) == (genes, rng.Skip(2 * |genes|))
    decreases |genes|
  {
    if |genes| > 0 {
      ZeroChanceKeepsGenes(m, rng.Skip(2), genes[1..]);
      assert [genes[0]] + genes[1..] == genes;
    }
  }

  /** Coefficient 0 leaves every gene as it was, for any chance. */
  lemma {:induction false} ZeroCoefficientKeepsGenes(m: GaussianMutation, rng: Rng, genes: seq<real>)
    requires m.coeff == 0.0
    ensures m.Mutated(rng, genes).0 == genes
    decreases |genes|
  {
    if |genes| > 0 {
      var rng1 := m.MutateGene(rng, genes[0]).1;
      ZeroCoefficientKeepsGenes(m, rng1, genes[1..]);
      assert [genes[0]] + genes[1..] == genes;
    }
  }

  /** Chance 1 touches every gene without drawing for the decision, so each
      gene consumes exactly two draws: its sign and its magnitude. */
  lemma {:induction false} FullChanceCursor(m: GaussianMutation, rng: Rng, genes: seq<real>)
    requires m.chance == 1.0
    ensures m.Mutated(rng, genes).1 == rng.Skip(2 * |genes|)
    decreases |genes|
  {
    if |genes| > 0 {
      FullChanceCursor(m, rng.Skip(2), genes[1..]);
    }
  }

  /** Chance 1 touches every gene: gene `i` moves by sign * coeff * magnitude
      with its sign the draw 2i and its magnitude the draw 2i + 1. */
  lemma FullChanceTouchesAll(m: GaussianMutation, rng: Rng, genes: seq<real>)
    requires m.chance == 1.0
    ensures forall i :: 0 <= i < |genes| ==>
              m.Mutated(rng, genes).0[i]
              == genes[i] + Perturbation(Sign(rng.Peek(2 * i)), m.coeff, rng.Peek(2 * i + 1))
  {
    forall i | 0 <= i < |genes|
      ensures m.Mutated(rng, genes).0[i]
              == genes[i] + Perturbation(Sign(rng.Peek(2 * i)), m.coeff, rng.Peek(2 * i + 1))
    {
      FullChanceGene(m, rng, genes, i);
    }
  }

  /** One gene of `FullChanceTouchesAll`. */
  lemma FullChanceGene(m: GaussianMutation, rng: Rng, genes: seq<real>, i: nat)
    requires m.chance == 1.0 && i < |genes|
    ensures m.Mutated(rng, genes).0[i]
            == genes[i] + Perturbation(Sign(rng.Peek(2 * i)), m.coeff, rng.Peek(2 * i + 1))
  {
    var c := m.Cursor(rng, genes, i);
    assert c.Peek(0) == rng.Peek(2 * i) && c.Peek(1) == rng.Peek(2 * i + 1) by {
      FullChanceCursor(m, rng, genes[..i]);
      assert c == rng.Skip(2 * i);
    }
    assert m.MutateGene(c, genes[i]).0 == genes[i] + Perturbation(Sign(c.Peek(0)), m.coeff, c.Peek(1)) by {
      assert m.Touches(c) && m.TouchedDraws() == 2;
    }
    MutatedAt(m, rng, genes, i);
  }

  /** No gene moves by more than |coeff|. */
  lemma MutationIsBounded(m: GaussianMutation, rng: Rng, genes: seq<real>)
    ensures forall i :: 0 <= i < |genes| ==> Abs(m.Mutated(rng, genes).0[i] - genes[i]) <= Abs(m.coeff)
  {
    forall i | 0 <= i < |genes|
      ensures Abs(m.Mutated(rng, genes).0[i] - genes[i]) <= Abs(m.coeff)
    {
      MutatedAt(m, rng, genes, i);
    }
  }
}
