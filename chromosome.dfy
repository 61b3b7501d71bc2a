/** `Chromosome`: one individual's genome, a flat ordered vector of genes. */
module Chromosomes {

  datatype Chromosome = Chromosome(genes: seq<real>) {

    /** `len`: the number of genes. */
    function Len(): (n: nat)
      ensures n == |genes|
    {
      |genes|
    }

    /** `chromosome[i]`; indexing past the end panics in the source. */
    function Index(i: nat): (g: real)
      requires i < Len()
      ensures g == genes[i]
    {
      genes[i]
    }

    /** `iter`: the genes, in order. */
    function Iter(): (s: seq<real>)
      ensures |s| == Len()
      ensures forall i :: 0 <= i < |s| ==> s[i] == Index(i)
    {
      genes
    }

    /** `into_iter`: gives up the genes, in order. */
    function IntoIter(): (s: seq<real>)
      ensures |s| == Len()
      ensures forall i :: 0 <= i < |s| ==> s[i] == Index(i)
    {
      genes
    }

    /** `from_iter`: collects the values, keeping all of them in order. */
    static function FromIter(s: seq<real>): (c: Chromosome)
      ensures c.Len() == |s|
      ensures forall i :: 0 <= i < |s| ==> c.Index(i) == s[i]
    {
      Chromosome(s)
    }
  }

  /** Collecting values into a chromosome and iterating it back out gives the
      values back, and the other way round. */
  lemma FromIterIntoIter(s: seq<real>, c: Chromosome)
    ensures Chromosome.FromIter(s).IntoIter() == s
    ensures Chromosome.FromIter(c.IntoIter()) == c
  {
  }

  /** `chromosome.iter_mut().for_each(f)`: every gene is updated in place
      through the mutable iterator, here on the array that holds the genes. */
  method UpdateEach(genes: array<real>, f: real -> real)
    modifies genes
    ensures forall i :: 0 <= i < genes.Length ==> genes[i] == f(old(genes[i]))
  {
    var i := 0;
    while i < genes.Length
      invariant 0 <= i <= genes.Length
      invariant forall k :: 0 <= k < i ==> genes[k] == f(old(genes[k]))
      invariant forall k :: i <= k < genes.Length ==> genes[k] == old(genes[k])
    {
      genes[i] := f(genes[i]);
      i := i + 1;
    }
  }

  /** The crate's `iter_mut` example: multiplying every gene of [3, 1, 2] by
      10 in place gives [30, 10, 20]. */
  method UpdateEachExample()
  {
    var a := new real[3];
    a[0], a[1], a[2] := 3.0, 1.0, 2.0;
    UpdateEach(a, g => g * 10.0);
    assert a[..] == [30.0, 10.0, 20.0];
  }
}
