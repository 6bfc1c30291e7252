/** The Shallue and van de Woestijne map to the twist of BN254 (appendix F.1 of RFC 9380), as the
    constraints of the gadget: the inverse, the two Legendre symbols and the roots are hints of the
    prover, and only what the constraints check is known of them. */
module MapToCurve {
  import opened Extension
  import opened Wrappers
  import opened Fields
  import Svdw

  function Select(b: nat, x: E2, y: E2): E2 { if b == 1 then x else y }

  /** The sgn0 function of section 4.1 of RFC 9380. */
  function Sgn0(z: E2): (r: nat)
    ensures r <= 1
  {
    if z.a0 % 2 == 1 || (z.a0 == 0 && z.a1 % 2 == 1) then 1 else 0
  }

  // ---------------------------------------------------------------- constants

  const B := E2(19485874751759354771024239261021720505790618469301721065564631296452457478373,
                266929791119991161246907387137283842545076965332900288569378510910307636690)
  const Z := E2(1, 0)
  const C1 := E2(19485874751759354771024239261021720505790618469301721065564631296452457478374,
                 266929791119991161246907387137283842545076965332900288569378510910307636690)
  const C2 := E2(10944121435919637611123202872628637544348155578648911831344518947322613104291, 0)
  const C3 := E2(18992192239972082890849143911285057164064277369389217330423471574879236301292,
                 21819008332247140148575583693947636719449476128975323941588917397607662637108)
  const C4 := E2(10499238450719652342378357227399831140106360636427411350395554762472100376473,
                 6940174569119770192419592065569379906172001098655407502803841283667998553941)

  /** The right-hand side of the curve equation. */
  function G(x: E2): E2 { Add(Mul(Square(x), x), B) }

  function Limbs(l0: nat, l1: nat, l2: nat, l3: nat): nat {
    l0 + 0x1_0000_0000_0000_0000 * (l1 + 0x1_0000_0000_0000_0000 * (l2 + 0x1_0000_0000_0000_0000 * l3))
  }

  /** The words of a number span 256 bits. */
  const RADIX: nat := 0x1_0000_0000_0000_0000_0000_0000_0000_0000_0000_0000_0000_0000_0000_0000_0000_0000

  /** The words of `x` in Montgomery form, which is how the source writes the constants. */
  predicate Montgomery(x: Fp, limbs: nat) { x * RADIX % P == limbs }

  lemma ConstantsAsWritten()
    ensures Montgomery(Z.a0, Limbs(15230403791020821917, 754611498739239741, 7381016538464732716, 1011752739694698287))
    ensures Montgomery(C1.a0,
            Limbs(15219334786797146878, 8431472696017589261, 15336528771359260718, 196732871012706162))
    ensures Montgomery(C1.a1, Limbs(4100506350182530919, 7345568344173317438, 15513160039642431658, 90557763186888013))
    ensures Montgomery(C2.a0,
            Limbs(12997850613838968789, 14304628359724097447, 2950087706404981016, 1237622763554136189))
    ensures Montgomery(C3.a0,
            Limbs(12298500088583694207, 17447120171744064890, 14097510924717921191, 2278398337453771183))
    ensures Montgomery(C3.a1,
            Limbs(4693446565795584099, 18320164443970680666, 6792758484113206563, 2989688171181581768))
    ensures Montgomery(C4.a0,
            Limbs(7191623630069643826, 8333948550768170742, 13001081703983517696, 2062355016518372226))
    ensures Montgomery(C4.a1,
            Limbs(11163104453509316115, 7271947710149976975, 4894807947557820282, 3366254582553786647))
  {
  }

  lemma CurveConstant()
    ensures Mul(E2(9, 1), B) == E2(3, 0)
  {
  }

  lemma CurveAtZ()
    ensures C1 == G(Z) && Square(Z) == ONE && C1 == Add(ONE, B)
  {
    MulOne(ONE);
    hide Mul;
  }

  lemma HalfOfZ()
    ensures Add(C2, C2) == Neg(Z)
  {
  }

  lemma RootConstant()
    ensures Square(C3) == Mul(Neg(C1), E2(3, 0))
  {
    var square := E2(7207104360239761353666499452706663748717078063988307791373219794578306190627,
                     21087453498479301738505683583845423561061080261299122796980902361914303298513);
    assert Square(C3) == square;
    assert Mul(Neg(C1), E2(3, 0)) == square;
  }

  lemma QuotientConstant()
    ensures Mul(C4, E2(3, 0)) == Neg(Mul(E2(4, 0), C1))
  {
  }

  /** The constants are those of appendix F.1 for Z and the curve y^2 = x^3 + B, where (9 + i) B = 3. */
  lemma ConstantsOfTheCurve()
    ensures Mul(E2(9, 1), B) == E2(3, 0)
    ensures C1 == G(Z)
    ensures Add(C2, C2) == Neg(Z)
    ensures Square(C3) == Mul(Neg(G(Z)), Mul(E2(3, 0), Square(Z))) && Sgn0(C3) == 0
    ensures Mul(C4, Mul(E2(3, 0), Square(Z))) == Neg(Mul(E2(4, 0), G(Z)))
  {
    hide Mul, Add, Neg, G, Square;
    MulOne(E2(3, 0));
    CurveConstant();
    CurveAtZ();
    HalfOfZ();
    RootConstant();
    QuotientConstant();
  }

  // ---------------------------------------------------------------- elements of the gadget

  /** The limbs of an element denote a number that need not be below the prime. */
  datatype Raw = Raw(a0: nat, a1: nat)

  /** The width to which the limbs of a hint are constrained: 254 bits. */
  const WIDTH: nat := 0x4000_0000_0000_0000_0000_0000_0000_0000_0000_0000_0000_0000_0000_0000_0000_0000

  function Value(z: Raw): E2 { E2(z.a0 % P, z.a1 % P) }

  /** `g2Sgn0Circuit`: the parities are those of the limbs, whereas the test for zero reduces first. */
  function CircuitSgn0(z: Raw): (r: nat)
    ensures r <= 1
  {
    if z.a0 % 2 == 1 || (z.a0 % P == 0 && z.a1 % 2 == 1) then 1 else 0
  }

  /** The limbs admitted for a hinted root. Both coordinates have 254 bits. The test for zero has nothing to
      reduce in them and asserts that the first coordinate is below the prime; nothing asserts it of the
      second. */
  predicate Admitted(z: Raw) { z.a0 < P && z.a1 < WIDTH }

  function Canonical(z: E2): Raw { Raw(z.a0, z.a1) }

  /** The coordinate whose parity decides the sign is reduced, or the sign comes out right by chance: the
      first coordinate is the prime itself and the second has an odd value. */
  predicate SignReduced(z: Raw) {
    || (z.a0 < P && (z.a0 > 0 || z.a1 < P))
    || (z.a0 == P && z.a1 % P % 2 == 1)
  }

  /** For coordinates below twice the prime, the parities give the sign of the value exactly then. */
  lemma SignOfValueIff(z: Raw)
    requires z.a0 < 2 * P && z.a1 < 2 * P
    ensures CircuitSgn0(z) == Sgn0(Value(z)) <==> SignReduced(z)
  {
    Reduced(z.a0);
    Reduced(z.a1);
  }

  lemma Reduced(x: nat)
    requires x < 2 * P
    ensures x % P == (if x < P then x else x - P)
  {
  }

  lemma WidthBelowTwice()
    ensures P < WIDTH < 2 * P
  {
  }

  // ---------------------------------------------------------------- the map

  datatype Point = Point(x: E2, y: E2)

  datatype Hints = Hints(inverse: E2, legendre1: nat, root1: E2, legendre2: nat, root2: E2, root: Raw)

  /** What the hinted inverse has to invert. */
  function Inverted(u: E2): E2 {
    var t := Mul(Square(u), C1);
    Mul(Sub(ONE, t), Add(ONE, t))
  }

  function Offset(u: E2, inverse: E2): E2 {
    Mul(Mul(Mul(u, Sub(ONE, Mul(Square(u), C1))), inverse), C3)
  }

  function X1(u: E2, inverse: E2): E2 { Sub(C2, Offset(u, inverse)) }

  function X2(u: E2, inverse: E2): E2 { Add(C2, Offset(u, inverse)) }

  function X3(u: E2, inverse: E2): E2 {
    Add(Mul(Square(Mul(Square(Add(ONE, Mul(Square(u), C1))), inverse)), C4), Z)
  }

  /** The constraints on a Legendre hint: a bit, and a root when the bit is set. */
  predicate LegendreHolds(x: E2, bit: nat, root: E2) { bit <= 1 && x == Select(bit, Square(root), x) }

  /** The abscissa that the two Legendre bits pick. */
  function Picked(u: E2, h: Hints): E2 {
    var e2 := if h.legendre2 == 1 && h.legendre1 == 0 then 1 else 0;
    Select(e2, X2(u, h.inverse), Select(h.legendre1, X1(u, h.inverse), X3(u, h.inverse)))
  }

  /** The point that the gadget returns for given hints, when they satisfy the constraints. Only `u` and the
      last root have their limbs read; of everything else the value alone matters. The element `u` is a sum,
      as `HashToField` makes it, so the test for zero looks at a reduced copy and asserts nothing of its
      limbs. */
  function Map(u: Raw, h: Hints): Option<Point> {
    var v := Value(u);
    var x := Picked(v, h);
    if Mul(Inverted(v), h.inverse) != ONE then None
    else if !LegendreHolds(G(X1(v, h.inverse)), h.legendre1, h.root1) then None
    else if !LegendreHolds(G(X2(v, h.inverse)), h.legendre2, h.root2) then None
    else if !Admitted(h.root) || Square(Value(h.root)) != G(x) then None
    else Some(Point(x, if CircuitSgn0(u) == CircuitSgn0(h.root) then Value(h.root) else Neg(Value(h.root))))
  }

  lemma SquareOfNeg(y: E2)
    ensures Square(Neg(y)) == Square(y)
  {
    hide Mul, Neg, Field.AddLaws, Field.MulLaws, Field.Distributes;
    RingLaws();
    TheRing().SquareNeg(y);
  }

  /** Negation flips the sign of every element but zero, because the prime is odd. */
  lemma Sgn0Neg(y: E2)
    ensures Neg(y) == ZERO <==> y == ZERO
    ensures Neg(Neg(y)) == y
    ensures Sgn0(Neg(y)) == if y == ZERO then Sgn0(y) else 1 - Sgn0(y)
  {
  }

  // ---------------------------------------------------------------- what the candidates are

  /** The element t of the map; 1 - t and 1 + t have to be invertible. */
  function T(u: E2): E2 { Mul(Square(u), C1) }

  /** The equations of the candidates for `u`, without a division. */
  predicate IsFirst(u: E2, x: E2) { Mul(Sub(x, C2), Add(ONE, T(u))) == Neg(Mul(u, C3)) }

  predicate IsSecond(u: E2, x: E2) { Mul(Sub(x, C2), Add(ONE, T(u))) == Mul(u, C3) }

  predicate IsThird(u: E2, x: E2) { Mul(Sub(x, Z), Square(Sub(ONE, T(u)))) == Mul(C4, Square(Add(ONE, T(u)))) }

  predicate Inverts(u: E2, inverse: E2) { Mul(Mul(Sub(ONE, T(u)), Add(ONE, T(u))), inverse) == ONE }

  predicate Candidate(u: E2, x: E2) { IsFirst(u, x) || IsSecond(u, x) || IsThird(u, x) }

  lemma InvertsIff(u: E2, inverse: E2)
    ensures Inverts(u, inverse) <==> Mul(Inverted(u), inverse) == ONE
  {
    hide Mul, Sub, Add;
  }

  /** Each equation has one solution, the candidate that the gadget computes. */
  lemma CandidatesIff(u: E2, inverse: E2, x: E2)
    requires Inverts(u, inverse)
    ensures x == X1(u, inverse) <==> IsFirst(u, x)
    ensures x == X2(u, inverse) <==> IsSecond(u, x)
    ensures x == X3(u, inverse) <==> IsThird(u, x)
  {
    hide Mul, Add, Sub, Neg, C1, C2, C3, C4;
    RingLaws();
    var f, t := TheRing(), T(u);
    var m, p := Sub(ONE, t), Add(ONE, t);
    Svdw.FirstIff(f, u, t, m, p, inverse, C2, C3, x);
    Svdw.ThirdIff(f, t, m, p, inverse, C4, Z, x);
  }

  lemma CandidateIff(u: E2, inverse: E2, x: E2)
    requires Mul(Inverted(u), inverse) == ONE
    ensures Candidate(u, x) <==> x in {X1(u, inverse), X2(u, inverse), X3(u, inverse)}
  {
    hide IsFirst, IsSecond, IsThird, X1, X2, X3, Mul, Inverted, Inverts;
    InvertsIff(u, inverse);
    CandidatesIff(u, inverse, x);
  }

  /** A root of C4, and 3/4. */
  const D := E2(5365380536034963519817294025770946413144081193826870332719301751704415464667,
                7249924597551668358301587214212666116734213700217608073496265633523366355211)
  const THREE_QUARTERS := E2(16416182153879456416684804308942956316522233367973367747016778420983919656438, 0)

  lemma RootOfConstant()
    ensures Square(D) == C4
  {
  }

  lemma RealSquare(a: Fp)
    ensures Square(E2(a, 0)) == E2(Reduce(a * a), Reduce(0))
  {
    hide Reduce;
  }

  lemma QuarterIsSquare()
    ensures Square(C2) == E2(5472060717959818805561601436314318772174077789324455915672259473661306552146, 0)
  {
    RealSquare(C2.a0);
    hide Square;
  }

  lemma ThreeQuarters()
    ensures Add(Add(Square(C2), C2), ONE) == THREE_QUARTERS
  {
    QuarterIsSquare();
    hide Square;
  }

  lemma FourTimes()
    ensures Add(Add(THREE_QUARTERS, THREE_QUARTERS), Add(THREE_QUARTERS, THREE_QUARTERS)) == E2(3, 0)
  {
  }

  lemma QuarterOfConstant()
    ensures Mul(THREE_QUARTERS, C4) == Neg(C1)
  {
  }

  lemma RingConstants()
    ensures Svdw.Constants(TheRing(), B, C1, C2, C3, D, THREE_QUARTERS)
  {
    hide Mul, Add, Neg, Square, G;
    RootConstant();
    MovesNeg();
    CurveAtZ();
    HalfOfZ();
    RootOfConstant();
    ThreeQuarters();
    FourTimes();
    QuarterOfConstant();
    SquareIs(C2);
    SquareIs(C3);
    SquareIs(D);
  }

  lemma SquareIs(x: E2)
    ensures Square(x) == Mul(x, x)
  {
  }

  lemma MovesNeg()
    ensures Mul(Neg(C1), E2(3, 0)) == Neg(Mul(E2(3, 0), C1))
  {
    hide Mul, Neg, C1, Field.AddLaws, Field.MulLaws, Field.Distributes;
    RingLaws();
    TheRing().MulNeg(E2(3, 0), C1);
    TheRing().MulCommutes(E2(3, 0), Neg(C1));
  }

  /** The curve equation takes values at the three candidates whose product is a square, which is why one of
      them has a root. */
  lemma CandidateProduct(u: E2, inverse: E2, x1: E2, x2: E2, x3: E2)
    requires Inverts(u, inverse) && IsFirst(u, x1) && IsSecond(u, x2) && IsThird(u, x3)
    ensures exists w :: Square(w) == Mul(Mul(G(x1), G(x2)), G(x3))
  {
    hide Mul, Add, Sub, Neg, IsFirst, IsSecond, IsThird, C1, C2, C3, C4, D, B, THREE_QUARTERS, Field.AddLaws,
      Field.MulLaws, Field.Distributes;
    RingLaws();
    RingConstants();
    RootOfConstant();
    CandidatesIff(u, inverse, x1);
    CandidatesIff(u, inverse, x2);
    CandidatesIff(u, inverse, x3);
    var f, t := TheRing(), T(u);
    var m, p := Sub(ONE, t), Add(ONE, t);
    Svdw.CandidateValues(f, B, C1, C2, C3, D, THREE_QUARTERS, u, t, m, p, inverse);
    var x := Svdw.CandidatesOf(f, u, m, p, inverse, C2, C3, D);
    Svdw.SquareOfProduct(f, D, Mul(Square(p), inverse));
    Svdw.Units(f, Square(D), Square(Mul(Square(p), inverse)));
    var w := f.mul(f.mul(Svdw.Quadratic(f, x.x1), x.y), f.mul(f.Sub(x.x3, x.x1), f.Sub(x.x3, x.x2)));
    assert Square(w) == Mul(Mul(G(x1), G(x2)), G(x3));
  }

  /** Whatever the hints, an accepted point is on the curve, its abscissa solves the equation of the candidate
      picked by the two Legendre bits, and a bit that is set names a square at its candidate. Its sign is the
      one the gadget reads from `u` unless the root is (0, a1) with an unreduced second coordinate; at y = 0,
      exactly when that sign is 0. */
  lemma MapsOntoCurve(u: Raw, h: Hints)
    requires Map(u, h).Some?
    ensures var p := Map(u, h).value;
            var v := Value(u);
            && Inverts(v, h.inverse)
            && Square(p.y) == G(p.x)
            && (if h.legendre1 == 1 then IsFirst(v, p.x)
                else if h.legendre2 == 1 then IsSecond(v, p.x) else IsThird(v, p.x))
            && (h.legendre1 == 1 ==> forall x :: IsFirst(v, x) ==> Square(h.root1) == G(x))
            && (h.legendre2 == 1 ==> forall x :: IsSecond(v, x) ==> Square(h.root2) == G(x))
            && (p.y == ZERO <==> Value(h.root) == ZERO)
            && (Sgn0(p.y) == CircuitSgn0(u)
                <==> if p.y == ZERO then CircuitSgn0(u) == 0 else h.root.a0 > 0 || h.root.a1 < P)
  {
    SquareOfNeg(Value(h.root));
    Sgn0Neg(Value(h.root));
    AdmittedSign(h.root);
    InvertsIff(Value(u), h.inverse);
    hide Mul, Add, Sub, Neg, Square, G, X1, X2, X3, Inverted, Inverts, IsFirst, IsSecond, IsThird, SignReduced,
      Admitted;
    forall x ensures x == X1(Value(u), h.inverse) <==> IsFirst(Value(u), x)
      ensures x == X2(Value(u), h.inverse) <==> IsSecond(Value(u), x)
      ensures x == X3(Value(u), h.inverse) <==> IsThird(Value(u), x)
    {
      CandidatesIff(Value(u), h.inverse, x);
    }
  }

  lemma AdmittedSign(z: Raw)
    requires Admitted(z)
    ensures CircuitSgn0(z) == Sgn0(Value(z)) <==> z.a0 > 0 || z.a1 < P
  {
    hide CircuitSgn0, Sgn0, Value;
    WidthBelowTwice();
    SignOfValueIff(z);
  }

  /** An ordinate with a nonzero first coordinate has the sign that the gadget reads from `u`, for all
      hints. */
  lemma SignOfHintsKept(u: Raw, h: Hints)
    requires Map(u, h).Some? && Map(u, h).value.y.a0 != 0
    ensures Sgn0(Map(u, h).value.y) == CircuitSgn0(u)
  {
    hide Mul, Add, Sub, Square, G, X1, X2, X3, Inverted, Sgn0, CircuitSgn0;
    MapsOntoCurve(u, h);
  }

  /** An accepted root (0, a1) that leaves room for the prime can be replaced by the same value with other
      limbs, and the point comes out with the opposite ordinate. */
  lemma UnreducedRootFlips(u: Raw, h: Hints)
    requires Map(u, h).Some? && h.root.a0 == 0 && h.root.a1 < WIDTH - P
    ensures var h' := h.(root := Raw(0, h.root.a1 + P));
            && Map(u, h').Some?
            && Map(u, h').value == Map(u, h).value.(y := Neg(Map(u, h).value.y))
  {
    hide Mul, Add, Sub, Neg, Square, G, Inverted, LegendreHolds, CircuitSgn0, Sgn0, Value, X1, X2, X3, Select;
    OtherLimbs(h.root.a1);
    NegTwice(Value(h.root));
  }

  /** Of two elements with one value, the same hints are accepted, and only the signs read from their limbs
      can tell the points apart. */
  lemma OnlySignsMatter(u: Raw, u': Raw, h: Hints)
    requires Map(u, h).Some? && Value(u') == Value(u)
    ensures Map(u', h).Some?
    ensures var p := Map(u, h).value;
            Map(u', h).value == if CircuitSgn0(u') == CircuitSgn0(u) then p else p.(y := Neg(p.y))
  {
    hide Mul, Add, Sub, Neg, Square, G, Inverted, LegendreHolds, Sgn0, X1, X2, X3, Select, Admitted;
    NegTwice(Value(h.root));
  }

  lemma OtherLimbs(a1: nat)
    requires a1 < WIDTH - P
    ensures Admitted(Raw(0, a1)) && Admitted(Raw(0, a1 + P)) && Value(Raw(0, a1 + P)) == Value(Raw(0, a1)) == E2(0, a1)
    ensures CircuitSgn0(Raw(0, a1)) == a1 % 2 && CircuitSgn0(Raw(0, a1 + P)) == 1 - a1 % 2
  {
    WidthBelowTwice();
    Reduced(a1);
    Reduced(a1 + P);
  }

  lemma NegTwice(y: E2)
    ensures Neg(Neg(y)) == y
  {
  }

  lemma ReducedSign(u: Raw)
    requires u.a0 < P && u.a1 < P
    ensures CircuitSgn0(u) == Sgn0(Value(u)) && Admitted(u) && Value(u) == E2(u.a0, u.a1)
  {
  }

  // ---------------------------------------------------------------- all outputs

  ghost predicate Produced(u: Raw, inverse: E2, p: Point) {
    exists h: Hints :: h.inverse == inverse && Map(u, h) == Some(p)
  }

  /** One of the two roots with the square of `y` has limbs from which the wrong sign is read. */
  predicate Misread(y: E2) {
    y.a0 == 0 && (y.a1 < WIDTH - P || P - y.a1 < WIDTH - P)
  }

  /** The points that some hints produce are exactly those of the curve over the three candidates with the
      sign read from `u`, and those with the other sign whose ordinate can be misread. A clear Legendre bit is
      not checked, so any candidate with a square can be returned. */
  lemma MapOutputsExactly(u: Raw, inverse: E2, p: Point)
    ensures Produced(u, inverse, p) <==>
            && Inverts(Value(u), inverse)
            && Square(p.y) == G(p.x)
            && Candidate(Value(u), p.x)
            && (p.y == ZERO || Sgn0(p.y) == CircuitSgn0(u) || Misread(p.y))
  {
    hide Mul, Add, Sub, Neg, Square, G, X1, X2, X3, Inverted, Inverts, Candidate, Sgn0, CircuitSgn0, Misread, Value,
      RootFor, Map;
    if Produced(u, inverse, p) {
      var h: Hints :| h.inverse == inverse && Map(u, h) == Some(p);
      ProducedAsStated(u, h);
    }
    if && Inverts(Value(u), inverse) && Square(p.y) == G(p.x) && Candidate(Value(u), p.x)
       && (p.y == ZERO || Sgn0(p.y) == CircuitSgn0(u) || Misread(p.y)) {
      InvertsIff(Value(u), inverse);
      CandidateIff(Value(u), inverse, p.x);
      RootForWorks(p.y, CircuitSgn0(u));
      CandidateProduced(u, inverse, p, RootFor(p.y, CircuitSgn0(u)));
    }
  }

  lemma ProducedAsStated(u: Raw, h: Hints)
    requires Map(u, h).Some?
    ensures var p := Map(u, h).value;
            && Inverts(Value(u), h.inverse)
            && Square(p.y) == G(p.x)
            && Candidate(Value(u), p.x)
            && (p.y == ZERO || Sgn0(p.y) == CircuitSgn0(u) || Misread(p.y))
  {
    hide Mul, Add, Sub, Neg, Square, G, X1, X2, X3, Inverted, Inverts, IsFirst, IsSecond, IsThird, Sgn0, CircuitSgn0,
      Misread, Value;
    MapsOntoCurve(u, h);
    if h.root.a0 == 0 && h.root.a1 >= P { WrongSignMisread(u, h); }
  }

  lemma WrongSignMisread(u: Raw, h: Hints)
    requires Map(u, h).Some? && h.root.a0 == 0 && h.root.a1 >= P
    ensures Misread(Map(u, h).value.y)
  {
    hide Mul, Add, Sub, Square, G, X1, X2, X3, Inverted, Sgn0, CircuitSgn0;
    WidthBelowTwice();
    Reduced(h.root.a1);
  }

  /** Limbs of `y` or `-y` from which the gadget returns `y` when it reads the sign `s` from `u`. */
  function RootFor(y: E2, s: nat): Raw {
    if y == ZERO || Sgn0(y) == s then Canonical(y)
    else if y.a1 < WIDTH - P then Raw(0, y.a1 + P)
    else Raw(0, Neg(y).a1 + P)
  }

  lemma RootForWorks(y: E2, s: nat)
    requires s <= 1 && (y == ZERO || Sgn0(y) == s || Misread(y))
    ensures Admitted(RootFor(y, s))
    ensures y == if CircuitSgn0(RootFor(y, s)) == s then Value(RootFor(y, s)) else Neg(Value(RootFor(y, s)))
    ensures Value(RootFor(y, s)) in {y, Neg(y)}
  {
    hide Value, CircuitSgn0, Sgn0, Neg, Admitted;
    NegTwice(y);
    Sgn0Neg(y);
    ReducedSign(Canonical(y));
    if y != ZERO && Sgn0(y) != s {
      SignOfImaginary(y);
      SignOfImaginary(Neg(y));
      if y.a1 < WIDTH - P { OtherLimbs(y.a1); } else { OtherLimbs(Neg(y).a1); }
    }
  }

  lemma SignOfImaginary(y: E2)
    requires y.a0 == 0
    ensures Sgn0(y) == y.a1 % 2 && Neg(y) == E2(0, if y.a1 == 0 then 0 else P - y.a1)
  {
  }

  lemma CandidateProduced(u: Raw, inverse: E2, p: Point, root: Raw)
    requires Mul(Inverted(Value(u)), inverse) == ONE && Square(p.y) == G(p.x)
    requires p.x in {X1(Value(u), inverse), X2(Value(u), inverse), X3(Value(u), inverse)}
    requires Admitted(root) && Value(root) in {p.y, Neg(p.y)}
    requires p.y == if CircuitSgn0(root) == CircuitSgn0(u) then Value(root) else Neg(Value(root))
    ensures Produced(u, inverse, p)
  {
    SquareOfNeg(p.y);
    hide Mul, Add, Sub, Neg, Square, G, X1, X2, X3, Inverted, Value, CircuitSgn0, Admitted;
    var first, second := p.x == X1(Value(u), inverse), p.x == X2(Value(u), inverse);
    var h := Hints(inverse, if first then 1 else 0, p.y, if second then 1 else 0, p.y, root);
    assert Map(u, h) == Some(p);
  }
}
