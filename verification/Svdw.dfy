/** The algebra behind the map of Shallue and van de Woestijne, for Z = 1, over any commutative ring: what the
    three candidates solve, and why the curve equation takes a square at one of them. */
module Svdw {
  import opened Fields

  ghost predicate Ring<F(!new)>(f: Field<F>) { f.AddLaws() && f.MulLaws() && f.Distributes() }

  lemma Exchange<F(!new)>(f: Field<F>, a: F, b: F, c: F, d: F)
    requires Ring(f)
    ensures f.mul(f.mul(a, b), f.mul(c, d)) == f.mul(f.mul(a, c), f.mul(b, d))
  {
    var bcd := f.mul(b, f.mul(c, d));
    assert f.mul(b, f.mul(c, d)) == f.mul(c, f.mul(b, d));
  }

  lemma Assoc<F(!new)>(f: Field<F>, a: F, b: F, c: F)
    requires Ring(f)
    ensures f.mul(f.mul(a, b), c) == f.mul(a, f.mul(b, c))
    ensures f.mul(f.mul(a, b), c) == f.mul(f.mul(a, c), b)
  {
  }

  lemma Units<F(!new)>(f: Field<F>, a: F, b: F)
    requires Ring(f)
    ensures f.mul(a, f.one) == a && f.mul(f.one, a) == a && f.mul(a, b) == f.mul(b, a)
  {
  }

  lemma SquareOfProduct<F(!new)>(f: Field<F>, a: F, b: F)
    requires Ring(f)
    ensures f.Square(f.mul(a, b)) == f.mul(f.Square(a), f.Square(b))
  {
    Exchange(f, a, b, a, b);
  }

  // ---------------------------------------------------------------- the parameters

  /** The constants of the curve y^2 = x^3 + b for Z = 1: c1 is 1 + b, c2 is minus one half, and with k three
      quarters, c3^2 is minus 4 k c1, and k d^2 is minus c1. */
  ghost predicate Constants<F(!new)>(f: Field<F>, b: F, c1: F, c2: F, c3: F, d: F, k: F) {
    && c1 == f.add(f.one, b)
    && f.add(c2, c2) == f.neg(f.one)
    && k == f.add(f.add(f.Square(c2), c2), f.one)
    && f.Square(c3) == f.neg(f.mul(f.Twice(f.Twice(k)), c1))
    && f.mul(k, f.Square(d)) == f.neg(c1)
  }

  /** `m` is 1 - t and `p` is 1 + t, and `inverse` is the inverse of their product. */
  ghost predicate Inverse<F(!new)>(f: Field<F>, t: F, m: F, p: F, inverse: F) {
    && m == f.Sub(f.one, t) && p == f.add(f.one, t) && f.mul(f.mul(m, p), inverse) == f.one
  }

  lemma PartsOfInverse<F(!new)>(f: Field<F>, t: F, m: F, p: F, inverse: F)
    requires Ring(f) && Inverse(f, t, m, p, inverse)
    ensures f.mul(f.mul(m, inverse), p) == f.one && f.mul(f.mul(p, inverse), m) == f.one
  {
    hide Ring;
    Assoc(f, m, p, inverse);
    Units(f, m, p);
    Assoc(f, p, m, inverse);
  }

  // ---------------------------------------------------------------- what the candidates solve

  /** The offset is u c3 divided by 1 + t. */
  lemma OffsetSolves<F(!new)>(f: Field<F>, u: F, t: F, m: F, p: F, inverse: F, c3: F)
    requires Ring(f) && Inverse(f, t, m, p, inverse)
    ensures var o := f.mul(f.mul(f.mul(u, m), inverse), c3);
            && f.mul(o, p) == f.mul(u, c3)
            && o == f.mul(f.mul(u, c3), f.mul(m, inverse))
  {
    hide Ring;
    PartsOfInverse(f, t, m, p, inverse);
    var s := f.mul(m, inverse);
    Assoc(f, u, m, inverse);
    Assoc(f, u, s, c3);
    Assoc(f, f.mul(u, c3), s, p);
    Units(f, f.mul(u, c3), p);
  }

  /** What is added to Z is c4 times the square of (1 + t) / (1 - t). */
  lemma ThirdSolves<F(!new)>(f: Field<F>, t: F, m: F, p: F, inverse: F, c4: F)
    requires Ring(f) && Inverse(f, t, m, p, inverse)
    ensures var y2 := f.mul(f.Square(f.mul(f.Square(p), inverse)), c4);
            && f.mul(y2, f.Square(m)) == f.mul(c4, f.Square(p))
            && f.mul(f.Square(p), inverse) == f.mul(p, f.mul(p, inverse))
  {
    hide Ring;
    PartsOfInverse(f, t, m, p, inverse);
    var r := f.mul(p, inverse);
    Assoc(f, p, p, inverse);
    SquareOfProduct(f, p, r);
    SquareOfProduct(f, r, m);
    Units(f, f.one, f.one);
    Units(f, f.Square(f.mul(p, r)), c4);
    Assoc(f, c4, f.Square(f.mul(p, r)), f.Square(m));
    Assoc(f, f.Square(p), f.Square(r), f.Square(m));
    Units(f, f.Square(p), f.one);
  }

  lemma CancelUnit<F(!new)>(f: Field<F>, a: F, b: F, p: F, s: F)
    requires Ring(f) && f.mul(s, p) == f.one
    ensures f.mul(a, p) == f.mul(b, p) <==> a == b
  {
    hide Ring;
    Assoc(f, a, p, s);
    Assoc(f, b, p, s);
    Units(f, s, p);
    Units(f, a, p);
    Units(f, b, p);
  }

  lemma SubOfSum<F(!new)>(f: Field<F>, c: F, o: F, x: F)
    requires f.AddLaws()
    ensures f.Sub(x, c) == o <==> x == f.add(c, o)
  {
    hide Field.AddLaws;
    f.SubAdd(x, c);
    SumMinus(f, o, c);
    f.AddCommutes(c, o);
  }

  /** The first two candidates are the only solutions of their equations. */
  lemma FirstIff<F(!new)>(f: Field<F>, u: F, t: F, m: F, p: F, inverse: F, c2: F, c3: F, x: F)
    requires Ring(f) && Inverse(f, t, m, p, inverse)
    ensures var o := f.mul(f.mul(f.mul(u, m), inverse), c3);
            && (x == f.Sub(c2, o) <==> f.mul(f.Sub(x, c2), p) == f.neg(f.mul(u, c3)))
            && (x == f.add(c2, o) <==> f.mul(f.Sub(x, c2), p) == f.mul(u, c3))
  {
    hide Ring, Field.AddLaws, Field.MulLaws, Field.Distributes;
    RingParts(f);
    var o := f.mul(f.mul(f.mul(u, m), inverse), c3);
    OffsetSolves(f, u, t, m, p, inverse, c3);
    PartsOfInverse(f, t, m, p, inverse);
    SubOfSum(f, c2, o, x);
    SubOfSum(f, c2, f.neg(o), x);
    f.MulNeg(p, o);
    Units(f, p, o);
    Units(f, p, f.neg(o));
    CancelUnit(f, f.Sub(x, c2), o, p, f.mul(m, inverse));
    CancelUnit(f, f.Sub(x, c2), f.neg(o), p, f.mul(m, inverse));
  }

  lemma ThirdIff<F(!new)>(f: Field<F>, t: F, m: F, p: F, inverse: F, c4: F, z: F, x: F)
    requires Ring(f) && Inverse(f, t, m, p, inverse)
    ensures x == f.add(f.mul(f.Square(f.mul(f.Square(p), inverse)), c4), z)
            <==> f.mul(f.Sub(x, z), f.Square(m)) == f.mul(c4, f.Square(p))
  {
    hide Ring, Field.AddLaws, Field.MulLaws, Field.Distributes;
    RingParts(f);
    var y2 := f.mul(f.Square(f.mul(f.Square(p), inverse)), c4);
    ThirdSolves(f, t, m, p, inverse, c4);
    PartsOfInverse(f, t, m, p, inverse);
    SquareOfProduct(f, f.mul(p, inverse), m);
    Units(f, f.one, f.one);
    SubOfSum(f, z, y2, x);
    f.AddCommutes(z, y2);
    CancelUnit(f, f.Sub(x, z), y2, f.Square(m), f.Square(f.mul(p, inverse)));
  }

  // ---------------------------------------------------------------- the curve equation at the candidates

  /** x^2 + x + 1. */
  function Quadratic<F(!new)>(f: Field<F>, x: F): F { f.add(f.add(f.Square(x), x), f.one) }

  lemma QuadraticAtCandidate<F(!new)>(f: Field<F>, c2: F, w: F)
    requires Ring(f) && f.add(c2, c2) == f.neg(f.one)
    ensures Quadratic(f, f.add(c2, w)) == f.add(Quadratic(f, c2), f.Square(w))
  {
    var cross := f.mul(c2, w);
    assert f.add(cross, cross) == f.neg(w) by {
      f.MulNeg(w, f.one);
      assert f.add(cross, cross) == f.mul(w, f.add(c2, c2));
    }
    assert f.Square(f.add(c2, w)) == f.add(f.Square(c2), f.add(f.add(cross, cross), f.Square(w)));
    hide Field.Distributes, Field.MulLaws;
    Cancels(f, f.Square(c2), w, f.Square(w), c2);
  }

  lemma SumExchange<F(!new)>(f: Field<F>, a: F, b: F, c: F, d: F)
    requires f.AddLaws()
    ensures f.add(f.add(a, b), f.add(c, d)) == f.add(f.add(a, c), f.add(b, d))
  {
    assert f.add(b, f.add(c, d)) == f.add(c, f.add(b, d));
  }

  lemma NegCancels<F(!new)>(f: Field<F>, w: F, b: F)
    requires f.AddLaws()
    ensures f.add(f.add(f.neg(w), b), w) == b
  {
  }

  lemma Cancels<F(!new)>(f: Field<F>, a: F, w: F, b: F, c: F)
    requires f.AddLaws()
    ensures f.add(f.add(f.add(a, f.add(f.neg(w), b)), f.add(c, w)), f.one) == f.add(f.add(f.add(a, c), f.one), b)
  {
    hide Field.AddLaws;
    SumExchange(f, a, f.add(f.neg(w), b), c, w);
    NegCancels(f, w, b);
    f.AddSwap(f.add(a, c), b, f.one);
  }

  lemma OffsetSquare<F(!new)>(f: Field<F>, u: F, c1: F, c3: F, k: F, s: F)
    requires Ring(f) && f.Square(c3) == f.neg(f.mul(f.Twice(f.Twice(k)), c1))
    ensures f.Square(f.mul(f.mul(u, c3), s))
            == f.neg(f.mul(k, f.Twice(f.Twice(f.mul(f.mul(f.Square(u), c1), f.Square(s))))))
  {
    hide Ring, Field.AddLaws, Field.MulLaws, Field.Distributes;
    var ts := f.mul(f.mul(f.Square(u), c1), f.Square(s));
    SquareOfProduct(f, f.mul(u, c3), s);
    SquareOfProduct(f, u, c3);
    FourTimes(f, k, c1);
    FourTimes(f, k, ts);
    NegOut(f, f.Square(u), f.mul(k, f.Twice(f.Twice(c1))), f.Square(s));
    FourOut(f, f.Square(u), k, c1, f.Square(s));
  }

  lemma FourTimes<F(!new)>(f: Field<F>, k: F, x: F)
    requires Ring(f)
    ensures f.mul(f.Twice(f.Twice(k)), x) == f.mul(k, f.Twice(f.Twice(x)))
    ensures f.mul(k, f.Twice(f.Twice(x))) == f.Twice(f.Twice(f.mul(k, x)))
  {
  }

  lemma NegOut<F(!new)>(f: Field<F>, a: F, x: F, b: F)
    requires Ring(f)
    ensures f.mul(f.mul(a, f.neg(x)), b) == f.neg(f.mul(f.mul(a, x), b))
  {
    f.MulNeg(a, x);
    f.MulNeg(b, f.mul(a, x));
    Units(f, f.neg(f.mul(a, x)), b);
    Units(f, f.mul(a, x), b);
  }

  lemma FourOut<F(!new)>(f: Field<F>, a: F, k: F, x: F, b: F)
    requires Ring(f)
    ensures f.mul(f.mul(a, f.mul(k, f.Twice(f.Twice(x)))), b) == f.mul(k, f.Twice(f.Twice(f.mul(f.mul(a, x), b))))
  {
    hide Ring;
    FourTimes(f, k, x);
    FourTimes(f, f.mul(a, b), f.mul(k, x));
    FourTimes(f, k, f.mul(f.mul(a, x), b));
    Assoc(f, a, f.Twice(f.Twice(f.mul(k, x))), b);
    Units(f, f.Twice(f.Twice(f.mul(k, x))), b);
    Assoc(f, a, b, f.Twice(f.Twice(f.mul(k, x))));
    Rotate(f, a, b, k, x);
  }

  lemma Rotate<F(!new)>(f: Field<F>, a: F, b: F, k: F, x: F)
    requires Ring(f)
    ensures f.mul(f.mul(a, b), f.mul(k, x)) == f.mul(k, f.mul(f.mul(a, x), b))
  {
    hide Ring;
    Exchange(f, a, b, k, x);
    Units(f, a, k);
    Assoc(f, k, a, f.mul(b, x));
    Units(f, b, x);
    Assoc(f, a, x, b);
  }

  /** (1 + t)^2 - 4 t is (1 - t)^2. */
  lemma DifferenceOfSquares<F(!new)>(f: Field<F>, t: F)
    requires Ring(f)
    ensures f.Sub(f.Square(f.add(f.one, t)), f.Twice(f.Twice(t))) == f.Square(f.Sub(f.one, t))
  {
    f.SquareNeg(t);
    f.MulNeg(f.one, t);
    var t2 := f.Square(t);
    assert f.Square(f.add(f.one, t)) == f.add(f.add(f.one, f.Twice(t)), t2);
    assert f.Square(f.add(f.one, f.neg(t))) == f.add(f.add(f.one, f.Twice(f.neg(t))), t2);
    f.NegAdd(t, t);
    f.NegAdd(f.Twice(t), f.Twice(t));
    hide Field.MulLaws, Field.Distributes;
    CancelTwice(f, f.one, f.Twice(t), t2);
  }

  lemma CancelTwice<F(!new)>(f: Field<F>, a: F, x: F, b: F)
    requires f.AddLaws()
    ensures f.add(f.add(f.add(a, x), b), f.add(f.neg(x), f.neg(x))) == f.add(f.add(a, f.neg(x)), b)
  {
    assert f.add(f.add(f.add(a, x), b), f.add(f.neg(x), f.neg(x)))
        == f.add(f.add(f.add(a, b), f.neg(x)), f.add(x, f.neg(x)));
  }

  /** With the ordinate y of the third candidate, y^2 q is minus 1 + b for the quadratic q at the others. */
  lemma QuadraticTimesSquare<F(!new)>(f: Field<F>, b: F, c1: F, c2: F, c3: F, d: F, k: F, u: F, t: F, m: F, p: F,
                                      inverse: F)
    requires Ring(f) && Constants(f, b, c1, c2, c3, d, k) && Inverse(f, t, m, p, inverse)
    requires t == f.mul(f.Square(u), c1)
    ensures var o, y := f.mul(f.mul(u, c3), f.mul(m, inverse)), f.mul(d, f.mul(p, f.mul(p, inverse)));
            f.mul(f.Square(y), f.add(k, f.Square(o))) == f.neg(c1)
  {
    hide Ring, Field.AddLaws, Field.MulLaws, Field.Distributes;
    var s, r := f.mul(m, inverse), f.mul(p, inverse);
    var e := f.Twice(f.Twice(f.mul(t, f.Square(s))));
    OffsetSquare(f, u, c1, c3, k, s);
    FactorOut(f, k, e);
    SquareOfProduct(f, d, f.mul(p, r));
    PartsOfInverse(f, t, m, p, inverse);
    RestIsOne(f, t, m, p, s, r);
    var g := f.Sub(f.one, e);
    Exchange(f, f.Square(d), f.Square(f.mul(p, r)), k, g);
    Units(f, f.Square(d), k);
    Units(f, f.neg(c1), f.one);
  }

  lemma FactorOut<F(!new)>(f: Field<F>, k: F, e: F)
    requires Ring(f)
    ensures f.add(k, f.neg(f.mul(k, e))) == f.mul(k, f.Sub(f.one, e))
  {
    f.MulNeg(k, e);
    f.MulOverAdd(k, f.one, f.neg(e));
  }

  /** (p r)^2 (1 - 4 t s^2) for p s = 1 and r m = 1. */
  lemma RestIsOne<F(!new)>(f: Field<F>, t: F, m: F, p: F, s: F, r: F)
    requires Ring(f) && m == f.Sub(f.one, t) && p == f.add(f.one, t) && f.mul(s, p) == f.one && f.mul(r, m) == f.one
    ensures f.mul(f.Square(f.mul(p, r)), f.Sub(f.one, f.Twice(f.Twice(f.mul(t, f.Square(s)))))) == f.one
  {
    hide Ring, Field.AddLaws, Field.MulLaws, Field.Distributes;
    var e := f.Twice(f.Twice(f.mul(t, f.Square(s))));
    SquareOfProduct(f, p, r);
    SquareOfProduct(f, r, m);
    SquareOfProduct(f, s, p);
    Units(f, f.one, f.one);
    var p2, r2 := f.Square(p), f.Square(r);
    // p^2 e = 4 t
    FourTimes(f, p2, f.mul(t, f.Square(s)));
    Assoc(f, t, f.Square(s), p2);
    Units(f, p2, f.mul(t, f.Square(s)));
    Units(f, t, f.one);
    FactorOut(f, p2, e);
    Units(f, p2, e);
    DifferenceOfSquares(f, t);
    Units(f, p2, r2);
    Assoc(f, r2, p2, f.Sub(f.one, e));
  }

  /** The curve equation at either of the first two candidates. */
  lemma CurveAtFirst<F(!new)>(f: Field<F>, b: F, c1: F, v: F, q: F, y2: F)
    requires Ring(f) && c1 == f.add(f.one, b) && q == Quadratic(f, v) && f.mul(y2, q) == f.neg(c1)
    ensures f.add(f.Cube(v), b) == f.mul(q, f.Sub(v, f.add(f.one, y2)))
  {
    var v1 := f.Sub(v, f.one);
    CubeMinusOne(f, v);
    f.MulNeg(q, y2);
    f.NegNeg(c1);
    f.NegAdd(f.one, y2);
    f.MulOverAdd(q, v1, f.neg(y2));
    Units(f, q, y2);
    hide Field.MulLaws, Field.Distributes, Field.Cube;
    SubThenAdd(f, f.Cube(v), b);
  }

  lemma SubThenAdd<F(!new)>(f: Field<F>, x: F, b: F)
    requires f.AddLaws()
    ensures f.add(f.Sub(x, f.one), f.add(f.one, b)) == f.add(x, b)
  {
  }

  lemma CubeMinusOne<F(!new)>(f: Field<F>, x: F)
    requires Ring(f)
    ensures f.mul(Quadratic(f, x), f.Sub(x, f.one)) == f.Sub(f.Cube(x), f.one)
  {
    hide Ring;
    var u := f.Sub(x, f.one);
    assert f.AddLaws() && f.MulLaws() && f.Distributes() by { RingParts(f); }
    f.SubAdd(x, f.one);
    f.DifferenceOfCubes(x, f.one, u);
    Units(f, x, f.one);
    Units(f, f.one, f.one);
    Units(f, u, Quadratic(f, x));
    hide Field.MulLaws, Field.Distributes;
    f.AddSwap(f.Square(x), x, f.one);
    AddThenSub(f, f.mul(u, Quadratic(f, x)));
  }

  lemma AddThenSub<F(!new)>(f: Field<F>, x: F)
    requires f.AddLaws()
    ensures f.Sub(f.add(f.one, x), f.one) == x
  {
  }

  lemma RingParts<F(!new)>(f: Field<F>)
    requires Ring(f)
    ensures f.AddLaws() && f.MulLaws() && f.Distributes()
  {
  }

  lemma FactorDifference<F(!new)>(f: Field<F>, x: F, v: F, w: F)
    requires Ring(f) && f.add(v, w) == f.neg(f.one)
    ensures f.mul(f.Sub(x, v), f.Sub(x, w)) == f.Sub(Quadratic(f, x), Quadratic(f, v))
  {
    hide Ring;
    RingParts(f);
    var u := f.Sub(x, v);
    f.SubAdd(x, v);
    f.SquareOfSum(u, v);
    f.AddCommutes(u, v);
    MinusOther(f, x, v, w);
    TwiceIn(f, u, v, x);
    f.MulOverAdd(u, f.add(u, f.Twice(v)), f.one);
    Units(f, u, f.one);
    hide Field.MulLaws, Field.Distributes;
    Shift(f, f.Square(v), f.mul(u, f.add(u, f.Twice(v))), v, u);
  }

  lemma MinusOther<F(!new)>(f: Field<F>, x: F, v: F, w: F)
    requires f.AddLaws() && f.add(v, w) == f.neg(f.one)
    ensures f.Sub(x, w) == f.add(f.add(x, v), f.one)
  {
    f.NegNeg(f.one);
    f.NegAdd(v, w);
    assert f.add(v, f.add(f.neg(v), f.neg(w))) == f.neg(w);
    hide Field.AddLaws;
    f.AddCommutes(v, f.one);
    SumsAssociate(f, x, v, f.one);
  }

  lemma SumsAssociate<F(!new)>(f: Field<F>, x: F, y: F, z: F)
    requires f.AddLaws()
    ensures f.add(f.add(x, y), z) == f.add(x, f.add(y, z))
  {
  }

  lemma TwiceIn<F(!new)>(f: Field<F>, u: F, v: F, x: F)
    requires f.AddLaws() && f.add(v, u) == x
    ensures f.add(f.add(x, v), f.one) == f.add(f.add(u, f.Twice(v)), f.one)
  {
  }

  /** (a + m + (v + u) + 1) - (a + v + 1) = m + u. */
  lemma Shift<F(!new)>(f: Field<F>, a: F, m: F, v: F, u: F)
    requires f.AddLaws()
    ensures f.Sub(f.add(f.add(f.add(a, m), f.add(v, u)), f.one), f.add(f.add(a, v), f.one)) == f.add(m, u)
  {
    hide Field.AddLaws;
    SumExchange(f, a, m, v, u);
    f.AddSwap(f.add(a, v), f.add(m, u), f.one);
    var base := f.add(f.add(a, v), f.one);
    f.AddSwap(base, f.add(m, u), f.neg(base));
    f.AddSwap(base, base, base);
    f.AddCommutes(f.zero, f.add(m, u));
    f.AddSwap(f.add(m, u), f.zero, f.zero);
  }

  /** The curve equation at the third candidate. */
  lemma CurveAtThird<F(!new)>(f: Field<F>, b: F, c1: F, v: F, w: F, q: F, y2: F)
    requires Ring(f) && c1 == f.add(f.one, b) && q == Quadratic(f, v) && f.mul(y2, q) == f.neg(c1)
    requires f.add(v, w) == f.neg(f.one)
    ensures var x := f.add(y2, f.one);
            f.add(f.Cube(x), b) == f.mul(y2, f.mul(f.Sub(x, v), f.Sub(x, w)))
  {
    hide Ring;
    RingParts(f);
    var x := f.add(y2, f.one);
    FactorDifference(f, x, v, w);
    CubeMinusOne(f, x);
    SumMinus(f, y2, f.one);
    f.MulNeg(y2, q);
    f.NegNeg(c1);
    f.MulOverAdd(y2, Quadratic(f, x), f.neg(q));
    Units(f, y2, Quadratic(f, x));
    hide Field.MulLaws, Field.Distributes, Field.Cube;
    SubThenAdd(f, f.Cube(x), b);
  }

  lemma SumMinus<F(!new)>(f: Field<F>, x: F, y: F)
    requires f.AddLaws()
    ensures f.Sub(f.add(x, y), y) == x
  {
  }

  /** A product of three values of this form is the square of q y (x - v) (x - w). */
  lemma ProductOfValues<F(!new)>(f: Field<F>, q: F, y: F, x: F, v: F, w: F)
    requires Ring(f)
    ensures var a := f.mul(f.Sub(x, v), f.Sub(x, w));
            f.mul(f.mul(f.mul(q, f.Sub(v, x)), f.mul(q, f.Sub(w, x))), f.mul(f.Square(y), a))
            == f.Square(f.mul(f.mul(q, y), a))
  {
    hide Ring;
    RingParts(f);
    var a := f.mul(f.Sub(x, v), f.Sub(x, w));
    f.SubNeg(v, x);
    f.SubNeg(w, x);
    f.NegMulNeg(f.Sub(x, v), f.Sub(x, w));
    Exchange(f, q, f.Sub(v, x), q, f.Sub(w, x));
    Exchange(f, f.mul(q, q), a, f.Square(y), a);
    SquareOfProduct(f, q, y);
    SquareOfProduct(f, f.mul(q, y), a);
  }

  // ---------------------------------------------------------------- the three candidates

  datatype Candidates<F> = Candidates(x1: F, x2: F, x3: F, y: F)

  /** The candidates, and a root `y` of what is added to Z for the third. */
  function CandidatesOf<F(!new)>(f: Field<F>, u: F, m: F, p: F, inverse: F, c2: F, c3: F, d: F): Candidates<F> {
    var o := f.mul(f.mul(f.mul(u, m), inverse), c3);
    var y := f.mul(d, f.mul(f.Square(p), inverse));
    Candidates(f.Sub(c2, o), f.add(c2, o), f.add(f.Square(y), f.one), y)
  }

  lemma OppositeOffsets<F(!new)>(f: Field<F>, c: F, o: F, e: F)
    requires f.AddLaws() && f.add(c, c) == e
    ensures f.add(f.Sub(c, o), f.add(c, o)) == e && f.add(f.add(c, o), f.Sub(c, o)) == e
  {
    hide Field.AddLaws;
    SumExchange(f, c, f.neg(o), c, o);
    f.AddCommutes(f.neg(o), o);
    f.AddSwap(e, o, o);
    f.AddSwap(o, o, o);
    f.AddCommutes(f.Sub(c, o), f.add(c, o));
  }

  /** The first two are the roots of x^2 + x + 1 = q, and y^2 q is minus c1. */
  lemma CandidatesRelated<F(!new)>(f: Field<F>, b: F, c1: F, c2: F, c3: F, d: F, k: F, u: F, t: F, m: F, p: F,
                                   inverse: F)
    requires Ring(f) && Constants(f, b, c1, c2, c3, d, k) && Inverse(f, t, m, p, inverse)
    requires t == f.mul(f.Square(u), c1)
    ensures var x := CandidatesOf(f, u, m, p, inverse, c2, c3, d);
            && f.add(x.x1, x.x2) == f.neg(f.one) && f.add(x.x2, x.x1) == f.neg(f.one)
            && Quadratic(f, x.x2) == Quadratic(f, x.x1)
            && f.mul(f.Square(x.y), Quadratic(f, x.x1)) == f.neg(c1)
  {
    hide Ring, Field.AddLaws, Field.MulLaws, Field.Distributes, Quadratic, Field.Square, Constants, Inverse;
    RingParts(f);
    var o := f.mul(f.mul(f.mul(u, m), inverse), c3);
    SameQuadratic(f, b, c1, c2, c3, d, k);
    OppositeOffsets(f, c2, o, f.neg(f.one));
    OffsetSolves(f, u, t, m, p, inverse, c3);
    FromSquare(f, p, inverse);
    QuadraticTimesSquare(f, b, c1, c2, c3, d, k, u, t, m, p, inverse);
    QuadraticAtCandidate(f, c2, o);
    QuadraticAtCandidate(f, c2, f.neg(o));
    f.SquareNeg(o);
  }

  lemma FromSquare<F(!new)>(f: Field<F>, p: F, inverse: F)
    requires Ring(f)
    ensures f.mul(f.Square(p), inverse) == f.mul(p, f.mul(p, inverse))
  {
    hide Ring;
    Assoc(f, p, p, inverse);
  }

  lemma SameQuadratic<F(!new)>(f: Field<F>, b: F, c1: F, c2: F, c3: F, d: F, k: F)
    requires Constants(f, b, c1, c2, c3, d, k)
    ensures k == Quadratic(f, c2) && f.add(c2, c2) == f.neg(f.one)
  {
  }

  /** The curve equation takes the values q (x1 - x3), q (x2 - x3) and y^2 (x3 - x1) (x3 - x2), whose product
      is a square. So in a field where a product of two numbers that are no squares is one, some candidate is
      the abscissa of a point. */
  lemma CandidateValues<F(!new)>(f: Field<F>, b: F, c1: F, c2: F, c3: F, d: F, k: F, u: F, t: F, m: F, p: F, inverse: F)
    requires Ring(f) && Constants(f, b, c1, c2, c3, d, k) && Inverse(f, t, m, p, inverse)
    requires t == f.mul(f.Square(u), c1)
    ensures var x := CandidatesOf(f, u, m, p, inverse, c2, c3, d);
            var q := Quadratic(f, x.x1);
            var g1, g2, g3 := f.add(f.Cube(x.x1), b), f.add(f.Cube(x.x2), b), f.add(f.Cube(x.x3), b);
            var a := f.mul(f.Sub(x.x3, x.x1), f.Sub(x.x3, x.x2));
            && g1 == f.mul(q, f.Sub(x.x1, x.x3)) && g2 == f.mul(q, f.Sub(x.x2, x.x3))
            && g3 == f.mul(f.Square(x.y), a)
            && f.mul(f.mul(g1, g2), g3) == f.Square(f.mul(f.mul(q, x.y), a))
  {
    hide Ring, Quadratic, CandidatesOf, Field.Cube, Field.Sub, Field.Square;
    var x := CandidatesOf(f, u, m, p, inverse, c2, c3, d);
    CandidatesRelated(f, b, c1, c2, c3, d, k, u, t, m, p, inverse);
    ThirdIs(f, u, m, p, inverse, c2, c3, d);
    var q, y2 := Quadratic(f, x.x1), f.Square(x.y);
    CurveAtFirst(f, b, c1, x.x1, q, y2);
    CurveAtFirst(f, b, c1, x.x2, q, y2);
    CurveAtThird(f, b, c1, x.x1, x.x2, q, y2);
    ProductOfValues(f, q, x.y, x.x3, x.x1, x.x2);
  }

  lemma ThirdIs<F(!new)>(f: Field<F>, u: F, m: F, p: F, inverse: F, c2: F, c3: F, d: F)
    requires Ring(f)
    ensures var x := CandidatesOf(f, u, m, p, inverse, c2, c3, d);
            x.x3 == f.add(f.Square(x.y), f.one) == f.add(f.one, f.Square(x.y))
  {
    RingParts(f);
    hide Ring;
    f.AddCommutes(f.one, f.Square(CandidatesOf(f, u, m, p, inverse, c2, c3, d).y));
  }
}
