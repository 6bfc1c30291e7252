/** Groups written additively, sums and multiples. */
module Groups {

  /** `generator` stands for a sum of no points where the addition formula has no zero. */
  datatype Group<!P> = Group(add: (P, P) -> P, zero: P, generator: P)

  ghost predicate LeftUnit<P(!new)>(g: Group<P>) { forall x :: g.add(g.zero, x) == x }

  ghost predicate Abelian<P(!new)>(g: Group<P>) {
    && LeftUnit(g)
    && (forall x, y :: g.add(x, y) == g.add(y, x))
    && (forall x, y, z :: g.add(g.add(x, y), z) == g.add(x, g.add(y, z)))
    && (forall x, y, z :: g.add(x, y) == g.add(x, z) ==> y == z)
  }

  /** Two points of the affine plane whose sum the addition formula computes: neither is at infinity,
      and they are neither equal nor opposite. */
  ghost predicate Summable<P>(g: Group<P>, p: P, q: P) {
    p != g.zero && q != g.zero && p != q && g.add(p, q) != g.zero
  }

  ghost predicate Doublable<P>(g: Group<P>, p: P) { p != g.zero && g.add(p, p) != g.zero }

  function GroupSum<P>(g: Group<P>, points: seq<P>): P {
    if points == [] then g.zero else g.add(GroupSum(g, points[..|points| - 1]), points[|points| - 1])
  }

  /** `n` times `p`. */
  function Times<P>(g: Group<P>, n: nat, p: P): P {
    if n == 0 then g.zero else g.add(Times(g, n - 1, p), p)
  }

  lemma {:induction false} TimesAdd<P(!new)>(g: Group<P>, m: nat, n: nat, p: P)
    requires Abelian(g)
    ensures g.add(Times(g, m, p), Times(g, n, p)) == Times(g, m + n, p)
  {
    hide Abelian;
    if n == 0 {
      RightUnit(g, Times(g, m, p));
    } else {
      TimesAdd(g, m, n - 1, p);
      Associates(g, Times(g, m, p), Times(g, n - 1, p), p);
    }
  }

  lemma RightUnit<P(!new)>(g: Group<P>, x: P)
    requires Abelian(g)
    ensures g.add(x, g.zero) == x
  {
  }

  lemma Associates<P(!new)>(g: Group<P>, x: P, y: P, z: P)
    requires Abelian(g)
    ensures g.add(g.add(x, y), z) == g.add(x, g.add(y, z))
  {
  }

  /** Multiples below the order of the point differ. */
  lemma TimesDiffer<P(!new)>(g: Group<P>, m: nat, n: nat, p: P)
    requires Abelian(g) && m < n && Times(g, n - m, p) != g.zero
    ensures Times(g, m, p) != Times(g, n, p)
  {
    hide Abelian, Times;
    TimesAdd(g, m, n - m, p);
    if Times(g, m, p) == Times(g, n, p) {
      AddsNothing(g, Times(g, m, p), Times(g, n - m, p));
    }
  }

  lemma AddsNothing<P(!new)>(g: Group<P>, x: P, y: P)
    requires Abelian(g) && g.add(x, y) == x
    ensures y == g.zero
  {
    assert g.add(x, g.zero) == g.add(g.zero, x) == x;
  }

  lemma TimesOne<P(!new)>(g: Group<P>, p: P)
    requires Abelian(g)
    ensures Times(g, 1, p) == p
  {
  }
}
