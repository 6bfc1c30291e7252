/** Fields, given by their operations and laws, and the few algebraic facts the curve formulas need. */
module Fields {

  /** The operations of the extension field that the gadgets use. */
  datatype Field<!F(!new)> = Field(add: (F, F) -> F, mul: (F, F) -> F, neg: F -> F, inv: F -> F, zero: F, one: F)
  {
    function Sub(x: F, y: F): F { add(x, neg(y)) }

    function Square(x: F): F { mul(x, x) }

    function Twice(x: F): F { add(x, x) }

    function Thrice(x: F): F { add(x, add(x, x)) }

    function Div(x: F, y: F): F { mul(x, inv(y)) }

    ghost predicate AddLaws() {
      && (forall x, y :: add(x, y) == add(y, x))
      && (forall x, y, z :: add(add(x, y), z) == add(x, add(y, z)))
      && (forall x :: add(x, zero) == x)
      && (forall x :: add(x, neg(x)) == zero)
    }

    ghost predicate MulLaws() {
      && (forall x, y :: mul(x, y) == mul(y, x))
      && (forall x, y, z :: mul(mul(x, y), z) == mul(x, mul(y, z)))
      && (forall x :: mul(x, one) == x)
    }

    ghost predicate Distributes() {
      forall x, y, z :: mul(x, add(y, z)) == add(mul(x, y), mul(x, z))
    }

    ghost predicate Inverts() {
      forall x :: x != zero ==> mul(x, inv(x)) == one
    }

    ghost predicate Laws() { AddLaws() && MulLaws() && Distributes() && Inverts() && one != zero }

    lemma Parts()
      requires Laws()
      ensures AddLaws() && MulLaws() && Distributes() && Inverts()
    {
    }

    // -------------------------------------------------------------- addition

    lemma Cancel(x: F, y: F, z: F)
      requires AddLaws() && add(x, y) == add(x, z)
      ensures y == z
    {
      assert add(neg(x), add(x, y)) == y;
      assert add(neg(x), add(x, z)) == z;
    }

    lemma NegAdd(x: F, y: F)
      requires AddLaws()
      ensures neg(add(x, y)) == add(neg(x), neg(y))
    {
      assert add(add(x, y), add(neg(x), neg(y))) == add(add(x, neg(x)), add(y, neg(y)));
      Cancel(add(x, y), neg(add(x, y)), add(neg(x), neg(y)));
    }

    lemma NegNeg(x: F)
      requires AddLaws()
      ensures neg(neg(x)) == x
    {
      Cancel(neg(x), neg(neg(x)), x);
    }

    /** The difference of `x` and `a` is what leads from `a` to `x`. */
    lemma SubAdd(x: F, a: F)
      requires AddLaws()
      ensures add(a, Sub(x, a)) == x
    {
    }

    lemma SubNeg(x: F, y: F)
      requires AddLaws()
      ensures Sub(x, y) == neg(Sub(y, x))
    {
      NegAdd(y, neg(x));
      NegNeg(x);
    }

    lemma AddCommutes(x: F, y: F)
      requires AddLaws()
      ensures add(x, y) == add(y, x)
    {
    }

    lemma SubNonzero(x: F, y: F)
      requires AddLaws() && x != y
      ensures Sub(x, y) != zero
    {
      SubAdd(x, y);
    }

    lemma AddSwap(x: F, y: F, z: F)
      requires AddLaws()
      ensures add(add(x, y), z) == add(add(x, z), y)
      ensures add(x, zero) == x && add(zero, x) == x && Sub(x, x) == zero
    {
    }

    lemma Regroup(x: F, y: F, z: F, w: F)
      requires AddLaws()
      ensures add(add(x, add(y, z)), w) == add(add(add(x, w), y), z)
      ensures add(add(x, y), add(z, w)) == add(add(add(x, z), y), w)
    {
    }

    /** `x + y = l + (x - (l - y))`. */
    lemma AroundSum(x: F, y: F, l: F)
      requires AddLaws()
      ensures add(x, y) == add(l, Sub(x, Sub(l, y)))
    {
      SubNeg(x, Sub(l, y));
      NegAdd(l, neg(y));
      NegNeg(y);
      assert add(l, add(x, add(neg(l), y))) == add(add(x, y), add(l, neg(l)));
    }

    lemma SubTwice(x: F, y: F, z: F)
      requires AddLaws()
      ensures Sub(Sub(x, y), z) == Sub(x, add(z, y))
    {
      NegAdd(z, y);
    }

    lemma SplitDifference(x: F, c: F, a: F)
      requires AddLaws()
      ensures Sub(x, a) == add(Sub(c, a), Sub(x, c))
    {
    }

    lemma SubCancel(t: F, y: F, z: F)
      requires AddLaws()
      ensures Sub(add(t, Sub(y, z)), y) == Sub(t, z)
    {
    }

    lemma SubOfSub(y: F, t: F)
      requires AddLaws()
      ensures Sub(y, Sub(neg(t), y)) == add(t, Twice(y))
    {
      NegAdd(neg(t), neg(y));
      NegNeg(t);
      NegNeg(y);
    }

    lemma CancelLeft(x: F, b: F, y: F, z: F, x': F)
      requires AddLaws() && add(x', b) == add(add(x, b), y) && x' == add(x, z)
      ensures y == z
    {
      assert add(add(x, z), b) == add(add(x, b), z);
      Cancel(add(x, b), y, z);
    }

    // -------------------------------------------------------------- multiplication

    lemma MulCommutes(x: F, y: F)
      requires MulLaws()
      ensures mul(x, y) == mul(y, x)
    {
    }

    lemma MulOverAdd(x: F, y: F, z: F)
      requires Distributes()
      ensures mul(x, add(y, z)) == add(mul(x, y), mul(x, z))
    {
    }

    lemma MulZero(x: F)
      requires AddLaws() && Distributes()
      ensures mul(x, zero) == zero
    {
      assert mul(x, add(zero, zero)) == add(mul(x, zero), mul(x, zero));
      assert add(zero, zero) == zero;
      assert add(mul(x, zero), zero) == mul(x, zero);
      Cancel(mul(x, zero), mul(x, zero), zero);
    }

    lemma VanishingTerm(s: F, u: F, v: F, x: F)
      requires AddLaws() && Distributes()
      ensures add(s, mul(u, mul(v, Sub(x, x)))) == s
      ensures add(mul(u, Sub(x, x)), s) == s
    {
      MulZero(u);
      MulZero(v);
      hide Distributes;
      AddSwap(s, x, x);
      AddSwap(x, x, x);
    }

    lemma MulNeg(x: F, y: F)
      requires AddLaws() && Distributes()
      ensures mul(x, neg(y)) == neg(mul(x, y))
    {
      MulZero(x);
      assert mul(x, add(y, neg(y))) == add(mul(x, y), mul(x, neg(y)));
      Cancel(mul(x, y), mul(x, neg(y)), neg(mul(x, y)));
    }

    lemma NegMulNeg(x: F, y: F)
      requires AddLaws() && MulLaws() && Distributes()
      ensures mul(neg(x), neg(y)) == mul(x, y)
    {
      MulNeg(neg(x), y);
      MulNeg(y, x);
      NegNeg(mul(x, y));
    }

    lemma SquareNeg(x: F)
      requires AddLaws() && MulLaws() && Distributes()
      ensures Square(neg(x)) == Square(x)
    {
      MulNeg(neg(x), x);
      MulNeg(x, x);
      NegNeg(mul(x, x));
    }

    /** A nonzero factor can be cancelled. */
    lemma MulCancel(x: F, y: F, z: F)
      requires MulLaws() && Inverts() && x != zero && mul(x, y) == mul(x, z)
      ensures y == z
    {
      assert mul(inv(x), mul(x, y)) == mul(mul(inv(x), x), y) == mul(y, one);
      assert mul(inv(x), mul(x, z)) == mul(mul(inv(x), x), z) == mul(z, one);
    }

    lemma DivMul(x: F, y: F)
      requires MulLaws() && Inverts() && y != zero
      ensures mul(Div(x, y), y) == x
    {
    }

    // -------------------------------------------------------------- polynomial identities

    lemma SquareOfSum(t: F, b: F)
      requires AddLaws() && MulLaws() && Distributes()
      ensures Square(add(t, b)) == add(Square(b), mul(t, add(t, Twice(b))))
    {
    }

    function Cube(x: F): F { mul(mul(x, x), x) }

    /** The quotient of the difference of two cubes. */
    function CubeQuotient(x: F, a: F): F { add(Square(x), add(mul(x, a), Square(a))) }

    lemma DifferenceOfCubes(x: F, a: F, u: F)
      requires AddLaws() && MulLaws() && Distributes() && x == add(a, u)
      ensures Cube(x) == add(Cube(a), mul(u, CubeQuotient(x, a)))
    {
    }

    /** The quotients at `x` and at `c` differ by a multiple of `x - c`. */
    lemma QuotientStep(x: F, a: F, c: F, v: F)
      requires AddLaws() && MulLaws() && Distributes() && x == add(c, v)
      ensures CubeQuotient(x, a) == add(CubeQuotient(c, a), mul(v, add(x, add(a, c))))
    {
    }
  }
}
