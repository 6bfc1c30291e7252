/** The base field of BN254 and its quadratic extension, with the ring laws that the curve formulas use. */
module Extension {
  import opened Fields

  /** The base field prime of BN254. */
  const P: nat := 21888242871839275222246405745257275088696311157297823662689037894645226208583

  type Fp = x: int | 0 <= x < P

  function Reduce(x: int): Fp { x % P }

  /** An element a0 + a1 i of the quadratic extension, i^2 = -1. */
  datatype E2 = E2(a0: Fp, a1: Fp)

  const ZERO := E2(0, 0)
  const ONE := E2(1, 0)

  function Add(x: E2, y: E2): E2 { E2(Reduce(x.a0 + y.a0), Reduce(x.a1 + y.a1)) }

  function Sub(x: E2, y: E2): E2 { E2(Reduce(x.a0 - y.a0), Reduce(x.a1 - y.a1)) }

  function Neg(x: E2): E2 { E2(Reduce(P - x.a0), Reduce(P - x.a1)) }

  /** The two parts of a product of Gaussian integers. */
  function Re(x0: int, x1: int, y0: int, y1: int): int { x0 * y0 - x1 * y1 }

  function Im(x0: int, x1: int, y0: int, y1: int): int { x0 * y1 + x1 * y0 }

  function Mul(x: E2, y: E2): E2 {
    E2(Reduce(Re(x.a0, x.a1, y.a0, y.a1)), Reduce(Im(x.a0, x.a1, y.a0, y.a1)))
  }

  function Square(x: E2): E2 { Mul(x, x) }

  // ---------------------------------------------------------------- residues

  lemma ModOfMultiple(x: int, k: int)
    ensures (x + P * k) % P == x % P
  {
  }

  lemma Unreduced(p: int, a: int, k: int, r: int, x: int)
    requires a == p * k + r
    ensures a * x == p * (k * x) + r * x
  {
  }

  lemma Together(p: int, x: int, y: int)
    ensures p * (x + y) == p * x + p * y && p * (x - y) == p * x - p * y
  {
  }

  /** A product keeps its residues when one factor is reduced. */
  lemma ReducedLeft(a: int, b: int, x: int, y: int)
    ensures Reduce(Re(Reduce(a), Reduce(b), x, y)) == Reduce(Re(a, b, x, y))
    ensures Reduce(Im(Reduce(a), Reduce(b), x, y)) == Reduce(Im(a, b, x, y))
  {
    ReducedFactors(a, x, b, y);
    ReducedFactors(a, y, b, x);
  }

  lemma ReducedFactors(a: int, x: int, b: int, y: int)
    ensures Reduce(Reduce(a) * x + Reduce(b) * y) == Reduce(a * x + b * y)
    ensures Reduce(Reduce(a) * x - Reduce(b) * y) == Reduce(a * x - b * y)
  {
    var k, l := a / P, b / P;
    var r, s: int := Reduce(a), Reduce(b);
    assert a == P * k + r && b == P * l + s;
    Unreduced(P, a, k, r, x);
    Unreduced(P, b, l, s, y);
    Together(P, k * x, l * y);
    ModOfMultiple(r * x + s * y, k * x + l * y);
    ModOfMultiple(r * x - s * y, k * x - l * y);
  }

  lemma Commutes(x0: int, x1: int, y0: int, y1: int)
    ensures Re(x0, x1, y0, y1) == Re(y0, y1, x0, x1) && Im(x0, x1, y0, y1) == Im(y0, y1, x0, x1)
  {
  }

  lemma ReducedSum(a: int, b: int)
    ensures Reduce(Reduce(a) + b) == Reduce(a + b) && Reduce(b + Reduce(a)) == Reduce(b + a)
    ensures Reduce(Reduce(a) + Reduce(b)) == Reduce(a + b)
  {
    ModOfMultiple(Reduce(a) + b, a / P);
    ModOfMultiple(Reduce(a) + Reduce(b), a / P + b / P);
  }

  // ---------------------------------------------------------------- the laws

  lemma AddCommutes(x: E2, y: E2)
    ensures Add(x, y) == Add(y, x)
  {
  }

  lemma AddAssociates(x: E2, y: E2, z: E2)
    ensures Add(Add(x, y), z) == Add(x, Add(y, z))
  {
    hide Reduce;
    ReducedSum(x.a0 + y.a0, z.a0);
    ReducedSum(x.a1 + y.a1, z.a1);
    ReducedSum(y.a0 + z.a0, x.a0);
    ReducedSum(y.a1 + z.a1, x.a1);
  }

  lemma ReducedDifference(a: Fp, b: Fp)
    ensures Reduce(a + Reduce(P - b)) == Reduce(a - b)
  {
    ReducedSum(P - b, a);
    ModOfMultiple(a - b, 1);
  }

  lemma Small(a: Fp)
    ensures Reduce(a) == a && Reduce(a - a) == 0
  {
  }

  lemma AddInverse(x: E2)
    ensures Add(x, ZERO) == x && Add(x, Neg(x)) == ZERO
  {
    hide Reduce;
    Small(x.a0);
    Small(x.a1);
    ReducedDifference(x.a0, x.a0);
    ReducedDifference(x.a1, x.a1);
  }

  lemma SubIsAdd(x: E2, y: E2)
    ensures Sub(x, y) == Add(x, Neg(y))
  {
    hide Reduce;
    ReducedDifference(x.a0, y.a0);
    ReducedDifference(x.a1, y.a1);
  }

  lemma MulCommutes(x: E2, y: E2)
    ensures Mul(x, y) == Mul(y, x)
  {
    hide Reduce, Re, Im;
    Commutes(x.a0, x.a1, y.a0, y.a1);
  }

  lemma MulOne(x: E2)
    ensures Mul(x, ONE) == x
  {
    hide Reduce;
    Small(x.a0);
    Small(x.a1);
  }

  lemma MulAssociates(x: E2, y: E2, z: E2)
    ensures Mul(Mul(x, y), z).a0 == Mul(x, Mul(y, z)).a0
    ensures Mul(Mul(x, y), z).a1 == Mul(x, Mul(y, z)).a1
  {
    hide Reduce, Re, Im;
    var a, b := Re(x.a0, x.a1, y.a0, y.a1), Im(x.a0, x.a1, y.a0, y.a1);
    var c, d := Re(y.a0, y.a1, z.a0, z.a1), Im(y.a0, y.a1, z.a0, z.a1);
    ReducedLeft(a, b, z.a0, z.a1);
    Commutes(x.a0, x.a1, Reduce(c), Reduce(d));
    ReducedLeft(c, d, x.a0, x.a1);
    Gauss(x.a0, x.a1, y.a0, y.a1, z.a0, z.a1);
  }

  /** Multiplication of Gaussian integers is associative, and distributes. */
  lemma Gauss(x0: int, x1: int, y0: int, y1: int, z0: int, z1: int)
    ensures Re(Re(x0, x1, y0, y1), Im(x0, x1, y0, y1), z0, z1) == Re(Re(y0, y1, z0, z1), Im(y0, y1, z0, z1), x0, x1)
    ensures Im(Re(x0, x1, y0, y1), Im(x0, x1, y0, y1), z0, z1) == Im(Re(y0, y1, z0, z1), Im(y0, y1, z0, z1), x0, x1)
  {
  }

  lemma Expands(y0: int, y1: int, z0: int, z1: int, x0: int, x1: int)
    ensures Re(y0 + z0, y1 + z1, x0, x1) == Re(x0, x1, y0, y1) + Re(x0, x1, z0, z1)
    ensures Im(y0 + z0, y1 + z1, x0, x1) == Im(x0, x1, y0, y1) + Im(x0, x1, z0, z1)
  {
  }

  lemma MulOverAdd(x: E2, y: E2, z: E2)
    ensures Mul(x, Add(y, z)).a0 == Add(Mul(x, y), Mul(x, z)).a0
    ensures Mul(x, Add(y, z)).a1 == Add(Mul(x, y), Mul(x, z)).a1
  {
    hide Reduce, Re, Im;
    var a, b := y.a0 + z.a0, y.a1 + z.a1;
    Commutes(x.a0, x.a1, Reduce(a), Reduce(b));
    ReducedLeft(a, b, x.a0, x.a1);
    Expands(y.a0, y.a1, z.a0, z.a1, x.a0, x.a1);
    ReducedSum(Re(x.a0, x.a1, y.a0, y.a1), Re(x.a0, x.a1, z.a0, z.a1));
    ReducedSum(Im(x.a0, x.a1, y.a0, y.a1), Im(x.a0, x.a1, z.a0, z.a1));
  }

  /** The ring of these operations. No use is made of an inverse. */
  function TheRing(): Field<E2> { Field(Add, Mul, Neg, x => x, ZERO, ONE) }

  /** The extension is a commutative ring. */
  lemma RingLaws()
    ensures TheRing().AddLaws() && TheRing().MulLaws() && TheRing().Distributes()
    ensures forall x, y :: TheRing().Sub(x, y) == Sub(x, y)
  {
    hide Add, Mul, Neg, Sub;
    forall x, y ensures Add(x, y) == Add(y, x) && Sub(x, y) == Add(x, Neg(y)) {
      AddCommutes(x, y);
      SubIsAdd(x, y);
    }
    forall x, y ensures Mul(x, y) == Mul(y, x) { MulCommutes(x, y); }
    forall x ensures Add(x, ZERO) == x && Add(x, Neg(x)) == ZERO && Mul(x, ONE) == x {
      AddInverse(x);
      MulOne(x);
    }
    forall x, y, z ensures Add(Add(x, y), z) == Add(x, Add(y, z)) { AddAssociates(x, y, z); }
    forall x, y, z ensures Mul(Mul(x, y), z) == Mul(x, Mul(y, z)) { MulAssociates(x, y, z); }
    forall x, y, z ensures Mul(x, Add(y, z)) == Add(Mul(x, y), Mul(x, z)) { MulOverAdd(x, y, z); }
  }
}
