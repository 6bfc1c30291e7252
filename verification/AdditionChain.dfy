/** Multiplication of a point by the BN254 seed, through a fixed chain of additions and doublings whose
    formulas are partial: they divide by a difference of abscissas, or by an ordinate. The chain is run
    in any abelian group. When `strict` holds, every use of a formula has to be within its domain. */
module AdditionChain {
  import opened Groups
  import opened Positional
  import Extension
  import LightClient

  const SEED: nat := 4965661367192848881

  /** The seed is that of the curve: the two primes of BN254 are its polynomials. */
  lemma SeedOfTheCurve()
    ensures var x := SEED;
            && Extension.P == 36 * x * x * x * x + 36 * x * x * x + 24 * x * x + 6 * x + 1
            && LightClient.R == 36 * x * x * x * x + 36 * x * x * x + 18 * x * x + 6 * x + 1
  {
  }

  // ---------------------------------------------------------------- the formulas

  function Add<P>(g: Group<P>, ghost strict: bool, a: P, b: P): P
    requires strict ==> Summable(g, a, b)
  {
    g.add(a, b)
  }

  function Double<P>(g: Group<P>, ghost strict: bool, a: P): P
    requires strict ==> Doublable(g, a)
  {
    g.add(a, a)
  }

  /** The fused formula adds `b` and then `a` again. */
  function DoubleAndAdd<P>(g: Group<P>, ghost strict: bool, a: P, b: P): P
    requires strict ==> Summable(g, a, b) && Summable(g, g.add(a, b), a)
  {
    g.add(g.add(a, b), a)
  }

  // ---------------------------------------------------------------- multiples of one point

  /** No multiple of `q` up to the `bound`-th is the point at infinity. */
  ghost predicate OrderAbove<P(!new)>(g: Group<P>, q: P, bound: nat) {
    forall k: nat :: 1 <= k <= bound ==> Times(g, k, q) != g.zero
  }

  /** `p` is the `n`-th multiple of `q`. */
  ghost predicate Is<P>(g: Group<P>, q: P, n: nat, p: P) { p == Times(g, n, q) }

  lemma MultiplesSummable<P(!new)>(g: Group<P>, q: P, m: nat, n: nat)
    requires Abelian(g) && 0 < m && 0 < n && m != n && OrderAbove(g, q, m + n)
    ensures Summable(g, Times(g, m, q), Times(g, n, q))
  {
    hide Abelian, Times;
    TimesAdd(g, m, n, q);
    if m < n { TimesDiffer(g, m, n, q); } else { TimesDiffer(g, n, m, q); }
  }

  method AddMultiples<P(!new)>(g: Group<P>, ghost strict: bool, a: P, b: P, ghost q: P, ghost m: nat, ghost n: nat)
    returns (r: P)
    requires Abelian(g) && Is(g, q, m, a) && Is(g, q, n, b)
    requires strict ==> 0 < m && 0 < n && m != n && OrderAbove(g, q, m + n)
    ensures Is(g, q, m + n, r)
  {
    hide Abelian, Times;
    TimesAdd(g, m, n, q);
    if strict { MultiplesSummable(g, q, m, n); }
    r := Add(g, strict, a, b);
  }

  method DoubleMultiple<P(!new)>(g: Group<P>, ghost strict: bool, a: P, ghost q: P, ghost m: nat) returns (r: P)
    requires Abelian(g) && Is(g, q, m, a)
    requires strict ==> 0 < m && OrderAbove(g, q, m + m)
    ensures Is(g, q, m + m, r)
  {
    hide Abelian, Times;
    TimesAdd(g, m, m, q);
    r := Double(g, strict, a);
  }

  method FuseMultiples<P(!new)>(g: Group<P>, ghost strict: bool, a: P, b: P, ghost q: P, ghost m: nat, ghost n: nat)
    returns (r: P)
    requires Abelian(g) && Is(g, q, m, a) && Is(g, q, n, b)
    requires strict ==> 0 < m && 0 < n && m != n && OrderAbove(g, q, m + n + m)
    ensures Is(g, q, m + n + m, r)
  {
    hide Abelian, Times;
    TimesAdd(g, m, n, q);
    TimesAdd(g, m + n, m, q);
    if strict {
      MultiplesSummable(g, q, m, n);
      MultiplesSummable(g, q, m + n, m);
    }
    r := DoubleAndAdd(g, strict, a, b);
  }

  /** `n` doublings multiply by 2^n, whatever the point. */
  method DoubleN<P(!new)>(g: Group<P>, ghost strict: bool, a: P, n: nat, ghost q: P, ghost m: nat) returns (r: P)
    requires Abelian(g) && Is(g, q, m, a)
    requires strict ==> 0 < m && OrderAbove(g, q, Pow(2, n) * m)
    ensures Is(g, q, Pow(2, n) * m, r)
  {
    hide Abelian, Times;
    r := a;
    var s := 0;
    while s < n
      invariant 0 <= s <= n
      invariant Is(g, q, Pow(2, s) * m, r)
    {
      Doubles(s, n, m);
      r := DoubleMultiple(g, strict, r, q, Pow(2, s) * m);
      s := s + 1;
    }
  }

  lemma Doubles(s: nat, n: nat, m: nat)
    requires s < n
    ensures Pow(2, s) * m + Pow(2, s) * m == Pow(2, s + 1) * m <= Pow(2, n) * m
    ensures 0 < m ==> 0 < Pow(2, s) * m
  {
    PowGrows(2, s + 1, n);
    Monotone(m, Pow(2, s + 1), Pow(2, n));
  }

  lemma SomePowers()
    ensures Pow(2, 13) == 8192 && Pow(2, 15) == 32768 && Pow(2, 16) == 65536
  {
    assert Pow(2, 4) == 16;
    assert Pow(2, 8) == 256;
    assert Pow(2, 12) == 4096;
  }

  lemma OrderBelow<P(!new)>(g: Group<P>, q: P)
    requires OrderAbove(g, q, SEED)
    ensures forall b: nat :: b <= SEED ==> OrderAbove(g, q, b)
  {
  }

  /** In every abelian group the chain computes the multiple by the seed. When the order of the point
      exceeds the seed, it can be run strictly: it never adds equal or opposite points or the point at
      infinity. The trailing arguments name the multiples added. */
  method ScalarMulBySeed<P(!new)>(g: Group<P>, ghost strict: bool, q: P) returns (z: P)
    requires Abelian(g)
    requires strict ==> OrderAbove(g, q, SEED)
    ensures z == Times(g, SEED, q)
  {
    hide Abelian, Times, Pow, OrderAbove;
    TimesOne(g, q);
    SomePowers();
    if strict { OrderBelow(g, q); }
    z := DoubleMultiple(g, strict, q, q, 1);
    var t0 := AddMultiples(g, strict, q, z, q, 1, 2);
    var t2 := AddMultiples(g, strict, q, t0, q, 1, 3);
    var t1 := AddMultiples(g, strict, z, t2, q, 2, 4);
    z := FuseMultiples(g, strict, t1, t0, q, 6, 3);
    t0 := AddMultiples(g, strict, t0, z, q, 3, 15);
    t2 := AddMultiples(g, strict, t2, t0, q, 4, 18);
    t1 := AddMultiples(g, strict, t1, t2, q, 6, 22);
    t0 := AddMultiples(g, strict, t0, t1, q, 18, 28);
    t1 := AddMultiples(g, strict, t1, t0, q, 28, 46);
    t0 := AddMultiples(g, strict, t0, t1, q, 46, 74);
    t2 := AddMultiples(g, strict, t2, t0, q, 22, 120);
    t1 := FuseMultiples(g, strict, t2, t1, q, 142, 74);
    t2 := AddMultiples(g, strict, t2, t1, q, 142, 358);
    z := AddMultiples(g, strict, z, t2, q, 15, 500);
    t2 := AddMultiples(g, strict, t2, z, q, 500, 515);
    z := FuseMultiples(g, strict, t2, z, q, 1015, 515);
    t0 := AddMultiples(g, strict, t0, z, q, 120, 2545);
    t1 := AddMultiples(g, strict, t1, t0, q, 358, 2665);
    var t3 := DoubleMultiple(g, strict, t1, q, 3023);
    t3 := FuseMultiples(g, strict, t3, t1, q, 6046, 3023);
    t2 := AddMultiples(g, strict, t2, t3, q, 1015, 15115);
    t1 := AddMultiples(g, strict, t1, t2, q, 3023, 16130);
    t2 := AddMultiples(g, strict, t2, t1, q, 16130, 19153);
    t2 := DoubleN(g, strict, t2, 16, q, 35283);
    t1 := FuseMultiples(g, strict, t2, t1, q, 2312306688, 19153);
    t1 := DoubleN(g, strict, t1, 13, q, 4624632529);
    t0 := FuseMultiples(g, strict, t1, t0, q, 37884989677568, 2665);
    t0 := DoubleN(g, strict, t0, 15, q, 75769979357801);
    z := FuseMultiples(g, strict, t0, z, q, 2482830683596423168, 2545);
  }
}
