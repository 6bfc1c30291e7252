/** The affine formulas of the G2 gadget over any field: addition, doubling, and the fused step that
    computes (p + q) + p without the ordinate of p + q. */
module Curve {
  import opened Fields

  datatype Point<F> = Point(x: F, y: F)

  /** The curve y^2 = x^3 + b. */
  ghost predicate OnCurve<F(!new)>(f: Field<F>, b: F, p: Point<F>) {
    f.Square(p.y) == f.add(f.Cube(p.x), b)
  }

  function Add<F(!new)>(f: Field<F>, p: Point<F>, q: Point<F>): Point<F> {
    var l := f.Div(f.Sub(q.y, p.y), f.Sub(q.x, p.x));
    var xr := f.Sub(f.Square(l), f.add(p.x, q.x));
    Point(xr, f.Sub(f.mul(l, f.Sub(p.x, xr)), p.y))
  }

  function Double<F(!new)>(f: Field<F>, p: Point<F>): Point<F> {
    var l := f.Div(f.Thrice(f.Square(p.x)), f.Twice(p.y));
    var xr := f.Sub(f.Square(l), f.Twice(p.x));
    Point(xr, f.Sub(f.mul(l, f.Sub(p.x, xr)), p.y))
  }

  function DoubleAndAdd<F(!new)>(f: Field<F>, p: Point<F>, q: Point<F>): Point<F> {
    var l1 := f.Div(f.Sub(q.y, p.y), f.Sub(q.x, p.x));
    var x2 := f.Sub(f.Square(l1), f.add(p.x, q.x));
    var l2 := f.neg(f.add(l1, f.Div(f.Twice(p.y), f.Sub(x2, p.x))));
    var x3 := f.Sub(f.Sub(f.Square(l2), p.x), x2);
    Point(x3, f.Sub(f.mul(l2, f.Sub(p.x, x3)), p.y))
  }

  // ---------------------------------------------------------------- closure

  /** `t (t + 2b)` for `t = l u`. */
  lemma FactorSlope<F(!new)>(f: Field<F>, l: F, u: F, b: F)
    requires f.Laws()
    ensures var t := f.mul(l, u);
            f.mul(t, f.add(t, f.Twice(b))) == f.mul(u, f.add(f.mul(f.Square(l), u), f.mul(l, f.Twice(b))))
  {
  }

  /** A line of slope `l` through (a, b) that meets the curve again at abscissa `c`. */
  ghost predicate Chord<F(!new)>(f: Field<F>, a: F, b: F, c: F, l: F) {
    f.add(f.mul(f.Square(l), f.Sub(c, a)), f.mul(l, f.Twice(b))) == f.CubeQuotient(c, a)
  }

  /** The abscissa of the sum. */
  function Third<F(!new)>(f: Field<F>, a: F, c: F, l: F): F { f.Sub(f.Square(l), f.add(a, c)) }

  /** The ordinate, at abscissa `x`, of the line of slope `l` through (a, b). */
  function LineAt<F(!new)>(f: Field<F>, a: F, b: F, l: F, x: F): F { f.add(f.mul(l, f.Sub(x, a)), b) }

  /** How far a chord that goes on to `x` is from being one: it closes at `c` and at the third abscissa. */
  lemma ChordGap<F(!new)>(f: Field<F>, a: F, b: F, c: F, l: F, x: F)
    requires f.Laws() && Chord(f, a, b, c, l)
    ensures f.CubeQuotient(x, a)
            == f.add(f.add(f.mul(f.Square(l), f.Sub(x, a)), f.mul(l, f.Twice(b))),
                     f.mul(f.Sub(x, c), f.Sub(x, Third(f, a, c, l))))
  {
    hide Field.Laws, Field.AddLaws, Field.MulLaws, Field.Distributes, Field.Inverts;
    f.Parts();
    var v, w := f.Sub(x, c), f.Sub(c, a);
    var l2, gap := f.Square(l), f.Sub(x, Third(f, a, c, l));
    f.SubAdd(x, c);
    f.QuotientStep(x, a, c, v);
    f.AroundSum(x, f.add(a, c), l2);
    f.MulOverAdd(v, l2, gap);
    f.MulOverAdd(l2, w, v);
    f.MulCommutes(v, l2);
    f.SplitDifference(x, c, a);
    hide Field.Sub, Field.Square, Field.Twice, Field.CubeQuotient, Third;
    f.Regroup(f.mul(l2, w), f.mul(l, f.Twice(b)), f.mul(l2, v), f.mul(v, gap));
  }

  /** The line meets the curve at `a`, at `c` and at the third abscissa, and nowhere else. */
  lemma LineMeetsCurve<F(!new)>(f: Field<F>, curve: F, a: F, b: F, c: F, l: F, x: F)
    requires f.Laws() && OnCurve(f, curve, Point(a, b)) && Chord(f, a, b, c, l)
    ensures f.add(f.Cube(x), curve)
            == f.add(f.Square(LineAt(f, a, b, l, x)),
                     f.mul(f.Sub(x, a), f.mul(f.Sub(x, c), f.Sub(x, Third(f, a, c, l)))))
  {
    hide Field.Laws, Field.AddLaws, Field.MulLaws, Field.Distributes, Field.Inverts;
    f.Parts();
    var u := f.Sub(x, a);
    var t := f.mul(l, u);
    FactorSlope(f, l, u, b);
    ChordGap(f, a, b, c, l, x);
    f.SquareOfSum(t, b);
    f.SubAdd(x, a);
    f.DifferenceOfCubes(x, a, u);
    var chord := f.add(f.mul(f.Square(l), u), f.mul(l, f.Twice(b)));
    var rest := f.mul(f.Sub(x, c), f.Sub(x, Third(f, a, c, l)));
    f.MulOverAdd(u, chord, rest);
    hide Field.Sub, Field.Square, Field.Twice, Field.CubeQuotient, Field.Cube, Third;
    f.Regroup(f.Cube(a), f.mul(u, chord), f.mul(u, rest), curve);
  }

  lemma Reflection<F(!new)>(f: Field<F>, a: F, b: F, l: F, x: F)
    requires f.Laws()
    ensures f.Sub(f.mul(l, f.Sub(a, x)), b) == f.neg(LineAt(f, a, b, l, x))
    ensures f.Square(f.neg(LineAt(f, a, b, l, x))) == f.Square(LineAt(f, a, b, l, x))
  {
    hide Field.Laws, Field.AddLaws, Field.MulLaws, Field.Distributes, Field.Inverts, Field.Square;
    f.Parts();
    var u := f.Sub(x, a);
    f.SquareNeg(LineAt(f, a, b, l, x));
    f.SubNeg(a, x);
    f.MulNeg(l, u);
    f.NegAdd(f.mul(l, u), b);
  }

  /** The third intersection, reflected, is on the curve. */
  lemma ThirdPoint<F(!new)>(f: Field<F>, curve: F, a: F, b: F, c: F, l: F)
    requires f.Laws() && OnCurve(f, curve, Point(a, b)) && Chord(f, a, b, c, l)
    ensures var x := Third(f, a, c, l);
            && f.Sub(f.mul(l, f.Sub(a, x)), b) == f.neg(LineAt(f, a, b, l, x))
            && OnCurve(f, curve, Point(x, f.neg(LineAt(f, a, b, l, x))))
  {
    hide Field.Laws, Field.AddLaws, Field.MulLaws, Field.Distributes, Field.Inverts;
    f.Parts();
    var x := Third(f, a, c, l);
    LineMeetsCurve(f, curve, a, b, c, l, x);
    var u := f.Sub(x, a);
    Reflection(f, a, b, l, x);
    hide Third, Field.Sub, Field.Square, Field.Cube, LineAt;
    f.VanishingTerm(f.Square(LineAt(f, a, b, l, x)), u, f.Sub(x, c), x);
  }

  lemma ChordThrough<F(!new)>(f: Field<F>, curve: F, p: Point<F>, q: Point<F>, l: F)
    requires f.Laws() && OnCurve(f, curve, p) && OnCurve(f, curve, q) && f.Sub(q.x, p.x) != f.zero
    requires f.mul(l, f.Sub(q.x, p.x)) == f.Sub(q.y, p.y)
    ensures Chord(f, p.x, p.y, q.x, l)
  {
    hide Field.Laws, Field.AddLaws, Field.MulLaws, Field.Distributes, Field.Inverts;
    f.Parts();
    FactorSlope(f, l, f.Sub(q.x, p.x), p.y);
    var w, e := f.Sub(q.x, p.x), f.Sub(q.y, p.y);
    var b2 := f.Twice(p.y);
    f.SubAdd(q.x, p.x);
    f.SubAdd(q.y, p.y);
    f.AddCommutes(e, p.y);
    f.SquareOfSum(e, p.y);
    f.DifferenceOfCubes(q.x, p.x, w);
    hide Field.Cube, Field.Square;
    f.CancelLeft(f.Cube(p.x), curve, f.mul(e, f.add(e, b2)), f.mul(w, f.CubeQuotient(q.x, p.x)), f.Cube(q.x));
    f.MulCancel(w, f.add(f.mul(f.Square(l), w), f.mul(l, b2)), f.CubeQuotient(q.x, p.x));
  }

  /** The chord-and-tangent law: the line of slope `l` through `p` passes through `q`, meets the curve
      exactly at `p`, `q` and the abscissa of `r` (counted twice where two of them agree), and `r` is the
      reflection of that third point. */
  ghost predicate IsSum<F(!new)>(f: Field<F>, curve: F, p: Point<F>, q: Point<F>, l: F, r: Point<F>) {
    && LineAt(f, p.x, p.y, l, q.x) == q.y
    && r.y == f.neg(LineAt(f, p.x, p.y, l, r.x))
    && (forall x :: f.add(f.Cube(x), curve)
                    == f.add(f.Square(LineAt(f, p.x, p.y, l, x)),
                             f.mul(f.Sub(x, p.x), f.mul(f.Sub(x, q.x), f.Sub(x, r.x)))))
    && OnCurve(f, curve, r)
  }

  function Slope<F(!new)>(f: Field<F>, p: Point<F>, q: Point<F>): F { f.Div(f.Sub(q.y, p.y), f.Sub(q.x, p.x)) }

  function Tangent<F(!new)>(f: Field<F>, p: Point<F>): F { f.Div(f.Thrice(f.Square(p.x)), f.Twice(p.y)) }

  lemma ChordSum<F(!new)>(f: Field<F>, curve: F, p: Point<F>, c: F, l: F)
    requires f.Laws() && OnCurve(f, curve, p) && Chord(f, p.x, p.y, c, l)
    ensures var xr := Third(f, p.x, c, l);
            var r := Point(xr, f.Sub(f.mul(l, f.Sub(p.x, xr)), p.y));
            IsSum(f, curve, p, Point(c, LineAt(f, p.x, p.y, l, c)), l, r)
  {
    hide Field.Laws;
    ThirdPoint(f, curve, p.x, p.y, c, l);
    forall x
      ensures f.add(f.Cube(x), curve)
              == f.add(f.Square(LineAt(f, p.x, p.y, l, x)),
                       f.mul(f.Sub(x, p.x), f.mul(f.Sub(x, c), f.Sub(x, Third(f, p.x, c, l)))))
    {
      LineMeetsCurve(f, curve, p.x, p.y, c, l, x);
    }
  }

  /** `Add` is the chord law on points of the curve with distinct abscissas, so its result is on the curve. */
  lemma AddIsChordLaw<F(!new)>(f: Field<F>, curve: F, p: Point<F>, q: Point<F>)
    requires f.Laws() && OnCurve(f, curve, p) && OnCurve(f, curve, q) && p.x != q.x
    ensures IsSum(f, curve, p, q, Slope(f, p, q), Add(f, p, q))
  {
    hide Field.Laws, Field.AddLaws, Field.MulLaws, Field.Distributes, Field.Inverts;
    f.Parts();
    var w, e := f.Sub(q.x, p.x), f.Sub(q.y, p.y);
    var l := f.Div(e, w);
    f.SubNonzero(q.x, p.x);
    f.DivMul(e, w);
    f.SubAdd(q.y, p.y);
    f.AddCommutes(p.y, e);
    hide Field.Sub, Field.Div, Field.Square;
    ChordThrough(f, curve, p, q, l);
    ChordSum(f, curve, p, q.x, l);
  }

  lemma TangentTouches<F(!new)>(f: Field<F>, p: Point<F>)
    requires f.Laws() && f.Twice(p.y) != f.zero
    ensures Chord(f, p.x, p.y, p.x, Tangent(f, p)) && LineAt(f, p.x, p.y, Tangent(f, p), p.x) == p.y
  {
    hide Field.Laws, Field.AddLaws, Field.MulLaws, Field.Distributes, Field.Inverts;
    f.Parts();
    var l := Tangent(f, p);
    f.DivMul(f.Thrice(f.Square(p.x)), f.Twice(p.y));
    hide Tangent, Field.Sub, Field.Div;
    f.VanishingTerm(f.mul(l, f.Twice(p.y)), f.Square(l), l, p.x);
    f.VanishingTerm(p.y, l, l, p.x);
  }

  /** `Double` is the tangent law on points of the curve with nonzero ordinate: the tangent meets the
      curve twice at `p`. */
  lemma DoubleIsTangentLaw<F(!new)>(f: Field<F>, curve: F, p: Point<F>)
    requires f.Laws() && OnCurve(f, curve, p) && f.Twice(p.y) != f.zero
    ensures IsSum(f, curve, p, p, Tangent(f, p), Double(f, p))
  {
    hide Field.Laws;
    TangentTouches(f, p);
    hide Chord, Field.Div, Field.Sub, Field.Square;
    ChordSum(f, curve, p, p.x, Tangent(f, p));
  }

  // ---------------------------------------------------------------- the fused step

  /** The slope that the fused step uses for its second addition is the slope of that addition. */
  lemma FusedSlope<F(!new)>(f: Field<F>, xp: F, yp: F, x2: F, l1: F)
    requires f.Laws() && x2 != xp
    ensures var y2 := f.Sub(f.mul(l1, f.Sub(xp, x2)), yp);
            var l2 := f.neg(f.add(l1, f.Div(f.Twice(yp), f.Sub(x2, xp))));
            f.mul(l2, f.Sub(xp, x2)) == f.Sub(yp, y2) && l2 == f.Div(f.Sub(yp, y2), f.Sub(xp, x2))
  {
    hide Field.Laws, Field.AddLaws, Field.MulLaws, Field.Distributes, Field.Inverts;
    f.Parts();
    var e, den := f.Sub(x2, xp), f.Sub(xp, x2);
    var d := f.Div(f.Twice(yp), e);
    var sum := f.add(l1, d);
    f.SubNonzero(x2, xp);
    f.SubNonzero(xp, x2);
    f.SubNeg(xp, x2);
    f.DivMul(f.Twice(yp), e);
    hide Field.Sub, Field.Div, Field.Twice;
    // the numerator of the second addition
    f.MulNeg(l1, e);
    f.SubOfSub(yp, f.mul(l1, e));
    var num := f.add(f.mul(l1, e), f.Twice(yp));
    // what the fused slope multiplies to
    f.NegMulNeg(sum, e);
    f.MulOverAdd(e, l1, d);
    f.MulCommutes(e, l1);
    f.MulCommutes(e, d);
    f.MulCommutes(sum, e);
    f.DivMul(num, den);
    f.MulCommutes(den, f.Div(num, den));
    f.MulCommutes(den, f.neg(sum));
    f.MulCancel(den, f.neg(sum), f.Div(num, den));
  }

  /** One line through two points: the ordinate can be taken from either of them. */
  lemma SameLine<F(!new)>(f: Field<F>, l: F, x1: F, y1: F, x2: F, y2: F, x: F)
    requires f.Laws() && f.mul(l, f.Sub(x1, x2)) == f.Sub(y1, y2)
    ensures f.Sub(f.mul(l, f.Sub(x2, x)), y2) == f.Sub(f.mul(l, f.Sub(x1, x)), y1)
  {
    hide Field.Laws, Field.AddLaws, Field.MulLaws, Field.Distributes, Field.Inverts;
    f.Parts();
    f.SplitDifference(x1, x2, x);
    f.MulOverAdd(l, f.Sub(x2, x), f.Sub(x1, x2));
    f.SubCancel(f.mul(l, f.Sub(x2, x)), y1, y2);
  }

  /** The fused step is two additions: `DoubleAndAdd(p, q) = (p + q) + p`, both coordinates. */
  lemma FusedIsTwoAdditions<F(!new)>(f: Field<F>, p: Point<F>, q: Point<F>)
    requires f.Laws() && p.x != q.x && Add(f, p, q).x != p.x
    ensures DoubleAndAdd(f, p, q) == Add(f, Add(f, p, q), p)
  {
    var r := Add(f, p, q);
    var l1 := f.Div(f.Sub(q.y, p.y), f.Sub(q.x, p.x));
    var l2 := f.Div(f.Sub(p.y, r.y), f.Sub(p.x, r.x));
    assert f.AddLaws();
    hide Field.Laws, Field.AddLaws;
    FusedSlope(f, p.x, p.y, r.x, l1);
    var x3 := f.Sub(f.Sub(f.Square(l2), p.x), r.x);
    f.SubTwice(f.Square(l2), p.x, r.x);
    SameLine(f, l2, p.x, p.y, r.x, r.y, x3);
  }

  /** So the fused step stays on the curve. */
  lemma FusedOnCurve<F(!new)>(f: Field<F>, curve: F, p: Point<F>, q: Point<F>)
    requires f.Laws() && OnCurve(f, curve, p) && OnCurve(f, curve, q)
    requires p.x != q.x && Add(f, p, q).x != p.x
    ensures OnCurve(f, curve, DoubleAndAdd(f, p, q))
  {
    FusedIsTwoAdditions(f, p, q);
    AddIsChordLaw(f, curve, p, q);
    AddIsChordLaw(f, curve, Add(f, p, q), p);
  }
}
