/** The genetic search: generations of samples made by crossover of bit patterns and by mutation. */
module GeneticSearch {
  import opened NdArrays
  import opened Bits
  import opened Fitness

  /** One generation's random draws, before they are reduced to a bit position. */
  datatype Draws = Draws(crossover: seq<nat>, mutateX: seq<nat>, mutateY: seq<nat>)

  /** The upper bits of one parent and the lower bits of the other. */
  function Child(upper: nat, lower: nat, c: nat): nat
    requires c <= 31
  {
    And(upper, if UpperMask(c) < 0 then 0 else UpperMask(c)) + And(lower, LowerMask(c))
  }

  /** The bits from c up are those of one number, and the bits below c those of another. */
  ghost predicate Spliced(child: nat, upper: nat, lower: nat, c: nat)
  {
    child / Pow2(c) == upper / Pow2(c) && child % Pow2(c) == lower % Pow2(c)
  }

  /** The two children of two parents lie in the search space, have the upper bits of one parent and the lower ones
      of the other, and add up to what their parents do. */
  lemma CrossoverPair(p: nat, q: nat, c: nat, bits: nat)
    requires c <= bits <= 31 && p < Pow2(bits) && q < Pow2(bits)
    ensures Child(p, q, c) < Pow2(bits) && Child(q, p, c) < Pow2(bits)
    ensures Spliced(Child(p, q, c), p, q, c) && Spliced(Child(q, p, c), q, p, c)
    ensures Child(p, q, c) + Child(q, p, c) == p + q
  {
    hide And, Low, UpperMask, LowerMask;
    HighAndLow(p, q, c);
    HighAndLow(q, p, c);
    IntMaxIsMask();
    PowOrder(bits, 31);
    AndUpper(p, c);
    AndUpper(q, c);
    AndLower(p, c);
    AndLower(q, c);
    CrossBound(p, q, c, bits);
    CrossBound(q, p, c, bits);
  }

  predicate Below(s: seq<nat>, n: nat)
  {
    forall i | 0 <= i < |s| :: s[i] < n
  }

  /** Crossover of the first half of the parents with the second, in both directions. */
  function Cross(parents: seq<nat>, crossover: seq<nat>, bits: nat): (children: seq<nat>)
    requires |parents| == 2 * |crossover| && 0 < bits <= 31
    ensures |children| == |parents|
  {
    var q := |crossover|;
    seq(q, k requires 0 <= k < q => Child(parents[k], parents[q + k], crossover[k] % bits))
    + seq(q, k requires 0 <= k < q => Child(parents[q + k], parents[k], crossover[k] % bits))
  }

  /** Children k and q + k are those of parents k and q + k, crossed over at bit c. */
  ghost predicate CrossedPair(children: seq<nat>, parents: seq<nat>, q: nat, k: nat, c: nat)
    requires |children| == |parents| == 2 * q && k < q
  {
    && Spliced(children[k], parents[k], parents[q + k], c)
    && Spliced(children[q + k], parents[q + k], parents[k], c)
    && children[k] + children[q + k] == parents[k] + parents[q + k]
  }

  ghost predicate CrossedFrom(children: seq<nat>, parents: seq<nat>, crossover: seq<nat>, bits: nat)
    requires bits > 0
  {
    var q := |crossover|;
    |children| == |parents| == 2 * q
    && forall k: nat | k < q :: CrossedPair(children, parents, q, k, crossover[k] % bits)
  }

  lemma CrossKeeps(parents: seq<nat>, crossover: seq<nat>, bits: nat)
    requires |parents| == 2 * |crossover| && 0 < bits <= 31 && Below(parents, Pow2(bits))
    ensures Below(Cross(parents, crossover, bits), Pow2(bits))
    ensures CrossedFrom(Cross(parents, crossover, bits), parents, crossover, bits)
  {
    hide Child, Pow2, Spliced;
    var q, children := |crossover|, Cross(parents, crossover, bits);
    forall k: nat | k < q ensures CrossedPair(children, parents, q, k, crossover[k] % bits) {
      CrossoverPair(parents[k], parents[q + k], crossover[k] % bits, bits);
    }
    forall i | 0 <= i < |children| ensures children[i] < Pow2(bits) {
      var k := if i < q then i else i - q;
      CrossoverPair(parents[k], parents[q + k], crossover[k] % bits, bits);
    }
  }

  /** One flipped bit per sample. */
  function Mutate(samples: seq<nat>, draws: seq<nat>, bits: nat): (mutants: seq<nat>)
    requires |samples| == |draws| && bits > 0
    ensures |mutants| == |samples|
  {
    seq(|samples|, k requires 0 <= k < |samples| => Xor(samples[k], Pow2(draws[k] % bits)))
  }

  /** A mutant differs from its sample in bit k and in no other. */
  ghost predicate FlippedAt(mutant: nat, sample: nat, k: nat)
  {
    Differing(sample, mutant) == 1 && forall j: nat :: Bit(mutant, j) != Bit(sample, j) <==> j == k
  }

  ghost predicate MutatedFrom(mutants: seq<nat>, samples: seq<nat>, draws: seq<nat>, bits: nat)
    requires bits > 0
  {
    |mutants| == |samples| == |draws|
    && forall k | 0 <= k < |samples| :: FlippedAt(mutants[k], samples[k], draws[k] % bits)
  }

  lemma MutateKeeps(samples: seq<nat>, draws: seq<nat>, bits: nat)
    requires |samples| == |draws| && bits > 0 && Below(samples, Pow2(bits))
    ensures Below(Mutate(samples, draws, bits), Pow2(bits))
    ensures MutatedFrom(Mutate(samples, draws, bits), samples, draws, bits)
  {
    hide Xor, Pow2, Differing, Bit;
    forall k | 0 <= k < |samples|
      ensures Xor(samples[k], Pow2(draws[k] % bits)) < Pow2(bits)
      ensures FlippedAt(Xor(samples[k], Pow2(draws[k] % bits)), samples[k], draws[k] % bits)
    {
      FlipBound(samples[k], draws[k] % bits, bits);
      MutantDiffersOnce(samples[k], draws[k] % bits);
      forall j: nat
        ensures Bit(Xor(samples[k], Pow2(draws[k] % bits)), j) != Bit(samples[k], j) <==> j == draws[k] % bits
      {
        MutantDiffersAt(samples[k], draws[k] % bits, j);
      }
    }
  }

  /** a(selection). */
  function Pick(s: seq<nat>, selection: seq<nat>): (r: seq<nat>)
    requires forall i | 0 <= i < |selection| :: selection[i] < |s|
    ensures |r| == |selection| && forall i | 0 <= i < |selection| :: r[i] == s[selection[i]]
  {
    seq(|selection|, i requires 0 <= i < |selection| => s[selection[i]])
  }

  datatype Generation = Generation(x: seq<nat>, y: seq<nat>, z: seq<real>)

  /** One generation bred from another: the fitter half of the samples are the parents; the first half of the new
      samples are their children, crossed over pair by pair at the bits drawn, and the second half are mutants of
      those children, each in the bit drawn for it. */
  ghost predicate BredFrom(to: Generation, from: Generation, draws: Draws, size: nat, bits: nat)
    requires bits > 0
  {
    && |from.x| == |from.y| == |from.z| == |to.x| == |to.y| == size
    && var parents := SelectFittest(from.z, size);
       && |parents| == size / 2
       && (forall i: nat, j | i < size && i !in parents && j in parents :: from.z[i] <= from.z[j])
       && CrossedFrom(to.x[..size / 2], Pick(from.x, parents), draws.crossover, bits)
       && CrossedFrom(to.y[..size / 2], Pick(from.y, parents), draws.crossover, bits)
       && MutatedFrom(to.x[size / 2..], to.x[..size / 2], draws.mutateX, bits)
       && MutatedFrom(to.y[size / 2..], to.y[..size / 2], draws.mutateY, bits)
  }

  class Search {
    const n: nat
    const bits: nat
    const nSamples: nat
    const searchSpace: NdArray
    var sampleX: seq<nat>
    var sampleY: seq<nat>
    var sampleZ: seq<real>

    /** The grid side is a power of two that an unsigned linear index can address, and samples come in
        quarters. */
    ghost predicate Sized()
    {
      && 0 < bits <= 16 && n == Pow2(bits)
      && nSamples % 4 == 0 && nSamples > 0
      && searchSpace == SearchSpace(n)
    }

    function Now(): Generation
      reads this
    {
      Generation(sampleX, sampleY, sampleZ)
    }

    /** Every sample lies on the grid and its cached value is the objective there. */
    ghost predicate Valid()
      reads this
    {
      && Sized()
      && |sampleX| == |sampleY| == |sampleZ| == nSamples
      && Below(sampleX, n) && Below(sampleY, n)
      && forall i | 0 <= i < nSamples :: sampleZ[i] == Objective(n, sampleX[i], sampleY[i]) as real
    }

    constructor (bits: nat, nSamples: nat, drawX: seq<nat>, drawY: seq<nat>)
      requires 0 < bits <= 16 && nSamples % 4 == 0 && nSamples > 0
      requires |drawX| == |drawY| == nSamples
      ensures Valid() && n == Pow2(bits) && this.nSamples == nSamples
    {
      var side := Pow2(bits);
      this.bits, this.nSamples, n := bits, nSamples, side;
      searchSpace := SearchSpace(side);
      sampleX := seq(nSamples, i requires 0 <= i < nSamples => drawX[i] % side);
      sampleY := seq(nSamples, i requires 0 <= i < nSamples => drawY[i] % side);
      sampleZ := [];
      new;
      Update();
    }

    predicate Sufficient(draws: Draws)
    {
      |draws.crossover| == nSamples / 4 && |draws.mutateX| == |draws.mutateY| == nSamples / 2
    }

    /** Looks up the value of every sample. */
    method Update()
      requires Sized() && |sampleX| == |sampleY| == nSamples && Below(sampleX, n) && Below(sampleY, n)
      modifies this`sampleZ
      ensures Valid()
    {
      hide Objective, Lookup, SearchSpace, Pow2;
      EvenSide(bits);
      forall i | 0 <= i < nSamples
        ensures Lookup(searchSpace, n, sampleX[i], sampleY[i]) == Objective(n, sampleX[i], sampleY[i]) as real
      {
        LookupIsObjective(n, sampleX[i], sampleY[i]);
      }
      sampleZ := seq(nSamples, i requires 0 <= i < nSamples reads this requires |sampleX| == |sampleY| == nSamples =>
        Lookup(searchSpace, n, sampleX[i], sampleY[i]));
    }

    /** The next generation. */
    method Reproduce(draws: Draws)
      requires Valid()
      requires Sufficient(draws)
      modifies this
      ensures Valid() && BredFrom(Now(), old(Now()), draws, nSamples, bits)
    {
      hide Objective, SelectFittest, Cross, Mutate, Pow2, SearchSpace, CrossedPair, FlippedAt;
      var selection := SelectFittest(sampleZ, nSamples);
      SelectedDominate(sampleZ, nSamples);
      var parentsX := Pick(sampleX, selection);
      var parentsY := Pick(sampleY, selection);
      CrossKeeps(parentsX, draws.crossover, bits);
      CrossKeeps(parentsY, draws.crossover, bits);
      var childrenX := Cross(parentsX, draws.crossover, bits);
      var childrenY := Cross(parentsY, draws.crossover, bits);
      MutateKeeps(childrenX, draws.mutateX, bits);
      MutateKeeps(childrenY, draws.mutateY, bits);
      sampleX := childrenX + Mutate(childrenX, draws.mutateX, bits);
      sampleY := childrenY + Mutate(childrenY, draws.mutateY, bits);
      assert sampleX[..nSamples / 2] == childrenX && sampleX[nSamples / 2..] == Mutate(childrenX, draws.mutateX, bits);
      assert sampleY[..nSamples / 2] == childrenY && sampleY[nSamples / 2..] == Mutate(childrenY, draws.mutateY, bits);
      Update();
    }

    /** Reproduces until a generation held a sample within one percent of the best point of the grid, or the
        draws run out.  The last generation is one more than the one that held it. */
    method Find(draws: seq<Draws>) returns (found: bool, maximum: real, generations: nat, ghost run: seq<Generation>)
      requires Valid()
      requires forall g | 0 <= g < |draws| :: Sufficient(draws[g])
      modifies this
      ensures Valid() && generations <= |draws|
      ensures found ==> NearBest(n, maximum)
      ensures !found ==> generations == |draws| && maximum < 0.99 * (n - 2) as real
      ensures |run| == generations + 1 && run[0] == old(Now()) && run[generations] == Now()
      ensures forall g | 0 <= g < generations ::
        BredFrom(run[g + 1], run[g], draws[g], nSamples, bits) && run[g].z != []
      ensures generations > 0 ==> maximum == MaxOf(run[generations - 1].z)
      ensures forall g | 0 <= g < generations - 1 :: MaxOf(run[g].z) < 0.99 * (n - 2) as real
    {
      hide Objective, SelectFittest, Pow2, SearchSpace, Attained, NearBest, MaxOf, BredFrom;
      EvenSide(bits);
      SpaceMaximum(n);
      var trueMax := (n - 2) as real;
      maximum := -trueMax;
      generations := 0;
      run := [Now()];
      while maximum < trueMax * 0.99 && generations < |draws|
        invariant Valid() && generations <= |draws|
        invariant generations > 0 ==> Attained(maximum)
        invariant generations == 0 ==> maximum == -trueMax
        invariant |run| == generations + 1 && run[0] == old(Now()) && run[generations] == Now()
        invariant forall g | 0 <= g < generations ::
          BredFrom(run[g + 1], run[g], draws[g], nSamples, bits) && run[g].z != []
        invariant generations > 0 ==> maximum == MaxOf(run[generations - 1].z)
        invariant forall g | 0 <= g < generations - 1 :: MaxOf(run[g].z) < 0.99 * (n - 2) as real
        decreases |draws| - generations
      {
        maximum := MaxOf(sampleZ);
        MaxAttained();
        Reproduce(draws[generations]);
        generations := generations + 1;
        run := run + [Now()];
      }
      found := maximum >= trueMax * 0.99;
      if found {
        BestFound(maximum);
      }
    }

    lemma MaxAttained()
      requires Valid()
      ensures Attained(MaxOf(sampleZ))
    {
      hide Objective, Pow2, SearchSpace;
      var m := MaxOf(sampleZ);
      var i :| 0 <= i < |sampleZ| && sampleZ[i] == m;
      assert Objective(n, sampleX[i], sampleY[i]) as real == m;
    }

    lemma BestFound(value: real)
      requires n % 2 == 0 && n > 0 && value >= (n - 2) as real * 0.99
      requires Attained(value) || (n == 2 && value == 0.0)
      ensures NearBest(n, value)
    {
      hide Objective;
      SpaceMaximum(n);
    }

    ghost predicate Attained(value: real)
    {
      exists x: nat, y: nat :: x < n && y < n && Objective(n, x, y) as real == value
    }

    /** Any number of generations, whatever is drawn. */
    method Run(draws: seq<Draws>)
      requires Valid()
      requires forall g | 0 <= g < |draws| :: Sufficient(draws[g])
      modifies this
      ensures Valid()
    {
      for g := 0 to |draws|
        invariant Valid()
      {
        Reproduce(draws[g]);
      }
    }
  }

  /** The largest value of a generation. */
  function MaxOf(z: seq<real>): (m: real)
    requires z != []
    ensures m in z && forall v | v in z :: v <= m
  {
    var init, last := z[..|z| - 1], z[|z| - 1];
    assert z == init + [last];
    if init == [] then last
    else
      var rest := MaxOf(init);
      if last > rest then last else rest
  }

  /** The largest value of the search space. */
  lemma SpaceMaximum(n: nat)
    requires n % 2 == 0 && n > 0
    ensures forall x: nat, y: nat | x < n && y < n :: Objective(n, x, y) <= n - 2
    ensures Objective(n, n / 2 - 1, n / 2 - 1) == n - 2
  {
  }

  /** A value attained on the grid, and no less than 99 percent of any other. */
  ghost predicate NearBest(n: nat, value: real)
  {
    && (exists x: nat, y: nat :: x < n && y < n && Objective(n, x, y) as real == value)
    && (forall x: nat, y: nat | x < n && y < n :: value >= 0.99 * Objective(n, x, y) as real)
  }

  lemma EvenSide(bits: nat)
    requires bits > 0
    ensures Pow2(bits) % 2 == 0
  {
  }
}
