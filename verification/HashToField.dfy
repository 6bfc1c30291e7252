/** The field elements that are hashed to, and the sign that the map to the curve reads from them. The
    multiplication leaves the prover a choice of remainder, and the sum is not reduced. */
module HashToField {
  import opened Wrappers
  import opened Extension
  import opened MapToCurve
  import Positional

  /** Forty-eight pseudo-random bytes: the number of the 17 low ones and that of the 31 others. */
  datatype Chunk = Chunk(low: nat, high: nat)

  const SHIFT: nat := 0x1_0000_0000_0000_0000_0000_0000_0000_0000_00

  predicate Whole(w: Chunk) { w.low < SHIFT }

  function Shifted(w: Chunk): nat { w.high * SHIFT }

  /** The element that the bytes stand for. */
  function Hashed(w: Chunk): Fp { (w.low + Shifted(w)) % P }

  /** The bytes come as 384 bits, least significant first, and are split after 17 bytes. */
  function ChunkOf(bits: seq<nat>): Chunk
    requires |bits| == 384
  {
    Chunk(Positional.Value(bits[..136], 2), Positional.Value(bits[136..], 2))
  }

  lemma ShiftIsPower()
    ensures SHIFT == Positional.Pow(256, 17) == Positional.Pow(2, 136)
  {
    assert Positional.Pow(256, 4) == 0x1_0000_0000;
    assert Positional.Pow(2, 8) == 256;
    hide Positional.Pow;
    Positional.PowAdd(256, 4, 4);
    Positional.PowAdd(256, 8, 8);
    Positional.PowAdd(256, 16, 1);
    Positional.PowPow(2, 8, 17, 136);
    OneByte();
  }

  lemma OneByte()
    ensures Positional.Pow(256, 1) == 256
  {
  }

  lemma Widths()
    ensures WIDTH == Positional.Pow(2, 254) && RADIX == Positional.Pow(2, 256)
  {
    assert Positional.Pow(2, 8) == 256 && Positional.Pow(2, 6) == 64 && Positional.Pow(2, 2) == 4;
    hide Positional.Pow;
    Positional.PowAdd(2, 8, 8);
    Positional.PowAdd(2, 16, 16);
    Positional.PowAdd(2, 32, 32);
    Positional.PowAdd(2, 64, 64);
    Positional.PowAdd(2, 64, 32);
    Positional.PowAdd(2, 96, 16);
    Positional.PowAdd(2, 112, 8);
    Positional.PowAdd(2, 120, 6);
    Positional.PowAdd(2, 128, 126);
    Positional.PowAdd(2, 254, 2);
  }

  /** Splitting the bits and putting them together again gives the number they denote, reduced. */
  lemma HashedIsValue(bits: seq<nat>)
    requires |bits| == 384 && forall i :: 0 <= i < 384 ==> bits[i] < 2
    ensures Whole(ChunkOf(bits)) && Hashed(ChunkOf(bits)) == Positional.Value(bits, 2) % P
  {
    hide Positional.Pow, Positional.Value;
    ShiftIsPower();
    Positional.DigitsOfValue(bits[..136], 2);
    Positional.ValueAppend(bits[..136], bits[136..], 2);
    assert bits == bits[..136] + bits[136..];
  }

  function HashedPair(w0: Chunk, w1: Chunk): E2 { E2(Hashed(w0), Hashed(w1)) }

  /** What the multiplication constrains of its remainder: 254 bits, the right residue, and a quotient that
      is not negative. */
  predicate Remainder(w: Chunk, rem: nat) {
    rem < WIDTH && rem <= Shifted(w) && rem % P == Shifted(w) % P
  }

  /** The two coordinates of `u` for the remainders of the prover. */
  function Summed(w0: Chunk, w1: Chunk, rem0: nat, rem1: nat): Raw { Raw(w0.low + rem0, w1.low + rem1) }

  /** The remainder below the prime. */
  function Honest(w: Chunk): nat { Shifted(w) % P }

  /** The prover may take the other one as well. */
  predicate Choice(w: Chunk) { Shifted(w) >= P && Honest(w) < WIDTH - P }

  lemma RemainderIff(w: Chunk, rem: nat)
    ensures Remainder(w, rem) <==> rem == Honest(w) || (Choice(w) && rem == Honest(w) + P)
  {
    hide Shifted;
    WidthBelowTwice();
    if rem < 2 * P { Reduced(rem); }
    Reduced(Honest(w));
    Reduced(Honest(w) + P);
    BelowOrShared(Shifted(w));
  }

  /** A number is its remainder, or at least the prime more. */
  lemma BelowOrShared(x: nat)
    ensures x % P <= x && (x >= P ==> x % P + P <= x)
  {
  }

  /** Whatever the remainder, the sum has the hashed value and stays below twice the prime. */
  lemma SummedValue(w: Chunk, rem: nat)
    requires Whole(w) && Remainder(w, rem)
    ensures (w.low + rem) % P == Hashed(w) && w.low + rem < 2 * P
  {
    hide Shifted;
    SameResidue(w.low, rem, Shifted(w));
  }

  lemma SameResidue(a: nat, x: nat, y: nat)
    requires x % P == y % P
    ensures (a + x) % P == (a + y) % P
  {
    assert x == P * (x / P) + x % P && y == P * (y / P) + y % P;
    ModOfMultiple(a + x % P, x / P);
    ModOfMultiple(a + x % P, y / P);
  }

  /** For given remainders the sign read from `u` is the sgn0 of the hashed value exactly when the sum that
      decides it is below the prime, or the first sum is the prime and the second has an odd value. */
  lemma SignOfSumsIff(w0: Chunk, w1: Chunk, rem0: nat, rem1: nat)
    requires Whole(w0) && Whole(w1) && Remainder(w0, rem0) && Remainder(w1, rem1)
    ensures Value(Summed(w0, w1, rem0, rem1)) == HashedPair(w0, w1)
    ensures CircuitSgn0(Summed(w0, w1, rem0, rem1)) == Sgn0(HashedPair(w0, w1)) <==>
            || (w0.low + rem0 < P && (w0.low + rem0 > 0 || w1.low + rem1 < P))
            || (w0.low + rem0 == P && Hashed(w1) % 2 == 1)
  {
    hide Remainder, Hashed, CircuitSgn0, Sgn0;
    SummedValue(w0, rem0);
    SummedValue(w1, rem1);
    SignOfValueIff(Summed(w0, w1, rem0, rem1));
  }

  /** A nonzero ordinate has the sgn0 of the hashed value, as appendix F.1 asks, exactly when the sign of the
      sums and the sign of the root are both kept, or both lost. */
  lemma SignOfHashIff(w0: Chunk, w1: Chunk, rem0: nat, rem1: nat, h: Hints)
    requires Whole(w0) && Whole(w1) && Remainder(w0, rem0) && Remainder(w1, rem1)
    requires var u := Summed(w0, w1, rem0, rem1);
             Map(u, h).Some? && Map(u, h).value.y != ZERO
    ensures var u := Summed(w0, w1, rem0, rem1);
            Sgn0(Map(u, h).value.y) == Sgn0(HashedPair(w0, w1))
            <==> (SignReduced(u) <==> h.root.a0 > 0 || h.root.a1 < P)
  {
    hide Remainder, Hashed, CircuitSgn0, Sgn0, Map, SignReduced, G, Square, IsFirst, IsSecond, IsThird, Inverts;
    var u := Summed(w0, w1, rem0, rem1);
    MapsOntoCurve(u, h);
    SummedValue(w0, rem0);
    SummedValue(w1, rem1);
    SignOfValueIff(u);
    SignsAreBits(u, Map(u, h).value.y, HashedPair(w0, w1));
  }

  lemma SignsAreBits(u: Raw, y: E2, v: E2)
    ensures Sgn0(y) <= 1 && Sgn0(v) <= 1 && CircuitSgn0(u) <= 1
  {
  }

  /** Where the first coordinate hashes to a nonzero value, taking the other remainder keeps the value of `u`,
      is accepted with the same hints, and negates the ordinate. */
  lemma OtherRemainderFlips(w0: Chunk, w1: Chunk, rem0: nat, rem1: nat, h: Hints)
    requires Whole(w0) && Remainder(w0, rem0) && Remainder(w0, rem0 + P) && Hashed(w0) != 0
    requires Map(Summed(w0, w1, rem0, rem1), h).Some?
    ensures var u, u' := Summed(w0, w1, rem0, rem1), Summed(w0, w1, rem0 + P, rem1);
            && Value(u') == Value(u)
            && Map(u', h).Some?
            && Map(u', h).value == Map(u, h).value.(y := Neg(Map(u, h).value.y))
  {
    hide Remainder, Hashed, Map, CircuitSgn0;
    OtherSums(w0, w1, rem0, rem1);
    OnlySignsMatter(Summed(w0, w1, rem0, rem1), Summed(w0, w1, rem0 + P, rem1), h);
  }

  lemma OtherSums(w0: Chunk, w1: Chunk, rem0: nat, rem1: nat)
    requires Whole(w0) && Remainder(w0, rem0) && Remainder(w0, rem0 + P) && Hashed(w0) != 0
    ensures var u, u' := Summed(w0, w1, rem0, rem1), Summed(w0, w1, rem0 + P, rem1);
            Value(u') == Value(u) && CircuitSgn0(u') != CircuitSgn0(u)
  {
    hide Remainder, Hashed;
    SummedValue(w0, rem0);
    SummedValue(w0, rem0 + P);
  }

  // ---------------------------------------------------------------- over all remainders

  /** Some remainders make the gadget read the sign `s`. */
  ghost predicate Reads(w0: Chunk, w1: Chunk, s: nat) {
    exists rem0: nat, rem1: nat ::
      Remainder(w0, rem0) && Remainder(w1, rem1) && CircuitSgn0(Summed(w0, w1, rem0, rem1)) == s
  }

  /** The sum for the remainder below the prime. */
  function HonestSum(w: Chunk): nat { w.low + Honest(w) }

  /** From the bytes alone: the sgn0 of the hashed value can be read. */
  predicate RightReadable(w0: Chunk, w1: Chunk) {
    var odd := Hashed(w1) % 2 == 1;
    if HonestSum(w0) == 0 then HonestSum(w1) < P || (Choice(w0) && odd)
    else if HonestSum(w0) == P then odd
    else HonestSum(w0) < P
  }

  /** From the bytes alone: the other sign can be read. */
  predicate WrongReadable(w0: Chunk, w1: Chunk) {
    var odd := Hashed(w1) % 2 == 1;
    if HonestSum(w0) == 0 then HonestSum(w1) >= P || Choice(w1) || (Choice(w0) && !odd)
    else if HonestSum(w0) == P then !odd
    else HonestSum(w0) > P || Choice(w0)
  }

  /** A sum that reaches the prime already leaves no choice. */
  lemma NoChoiceAbove(w: Chunk)
    requires Whole(w) && HonestSum(w) >= P
    ensures !Choice(w)
  {
    hide Shifted;
    assert SHIFT + WIDTH < 2 * P;
  }

  lemma HonestIsRemainder(w: Chunk)
    ensures Remainder(w, Honest(w)) && (Choice(w) ==> Remainder(w, Honest(w) + P))
  {
    hide Remainder, Honest, Choice;
    RemainderIff(w, Honest(w));
    RemainderIff(w, Honest(w) + P);
  }

  /** The sign of the sums, in terms of which remainders were taken. */
  lemma SignOfChoice(w0: Chunk, w1: Chunk, rem0: nat, rem1: nat)
    requires Whole(w0) && Whole(w1) && Remainder(w0, rem0) && Remainder(w1, rem1)
    ensures CircuitSgn0(Summed(w0, w1, rem0, rem1)) == Sgn0(HashedPair(w0, w1)) ==> RightReadable(w0, w1)
    ensures CircuitSgn0(Summed(w0, w1, rem0, rem1)) != Sgn0(HashedPair(w0, w1)) ==> WrongReadable(w0, w1)
  {
    hide Remainder, Hashed, Honest, Choice, Shifted, CircuitSgn0, Sgn0;
    RemainderIff(w0, rem0);
    RemainderIff(w1, rem1);
    SignOfSumsIff(w0, w1, rem0, rem1);
    if HonestSum(w0) >= P { NoChoiceAbove(w0); }
    if HonestSum(w1) >= P { NoChoiceAbove(w1); }
  }

  /** Both ways: a sign can be read exactly when the bytes say so. */
  lemma ReadsIff(w0: Chunk, w1: Chunk)
    requires Whole(w0) && Whole(w1)
    ensures Reads(w0, w1, Sgn0(HashedPair(w0, w1))) <==> RightReadable(w0, w1)
    ensures Reads(w0, w1, 1 - Sgn0(HashedPair(w0, w1))) <==> WrongReadable(w0, w1)
  {
    hide Remainder, Hashed, Honest, Choice, Shifted, CircuitSgn0, Sgn0, RightReadable, WrongReadable;
    forall rem0: nat, rem1: nat | Remainder(w0, rem0) && Remainder(w1, rem1)
      ensures CircuitSgn0(Summed(w0, w1, rem0, rem1)) == Sgn0(HashedPair(w0, w1)) ==> RightReadable(w0, w1)
      ensures CircuitSgn0(Summed(w0, w1, rem0, rem1)) != Sgn0(HashedPair(w0, w1)) ==> WrongReadable(w0, w1)
    {
      SignOfChoice(w0, w1, rem0, rem1);
    }
    if RightReadable(w0, w1) { RightIsRead(w0, w1); }
    if WrongReadable(w0, w1) { WrongIsRead(w0, w1); }
  }

  lemma RightIsRead(w0: Chunk, w1: Chunk)
    requires Whole(w0) && Whole(w1) && RightReadable(w0, w1)
    ensures Reads(w0, w1, Sgn0(HashedPair(w0, w1)))
  {
    hide Remainder, Hashed, Honest, Choice, Shifted, CircuitSgn0, Sgn0;
    HonestIsRemainder(w0);
    HonestIsRemainder(w1);
    var rem0 := if HonestSum(w0) == 0 && HonestSum(w1) >= P then Honest(w0) + P else Honest(w0);
    SignOfSumsIff(w0, w1, rem0, Honest(w1));
  }

  lemma WrongIsRead(w0: Chunk, w1: Chunk)
    requires Whole(w0) && Whole(w1) && WrongReadable(w0, w1)
    ensures Reads(w0, w1, 1 - Sgn0(HashedPair(w0, w1)))
  {
    hide Remainder, Hashed, Honest, Choice, Shifted, CircuitSgn0, Sgn0;
    HonestIsRemainder(w0);
    HonestIsRemainder(w1);
    var rem0 :=
      if HonestSum(w0) == 0 && HonestSum(w1) < P && !Choice(w1) then Honest(w0) + P
      else if 0 < HonestSum(w0) < P then Honest(w0) + P
      else Honest(w0);
    var rem1 := if HonestSum(w0) == 0 && HonestSum(w1) < P && Choice(w1) then Honest(w1) + P else Honest(w1);
    SignOfSumsIff(w0, w1, rem0, rem1);
    SignsAreBits(Summed(w0, w1, rem0, rem1), ZERO, HashedPair(w0, w1));
  }

  /** Every choice of remainders reads the sign of the hashed value exactly when the bytes leave no other. */
  lemma HashBindsSignIff(w0: Chunk, w1: Chunk)
    requires Whole(w0) && Whole(w1)
    ensures (forall rem0: nat, rem1: nat :: Remainder(w0, rem0) && Remainder(w1, rem1) ==>
               CircuitSgn0(Summed(w0, w1, rem0, rem1)) == Sgn0(HashedPair(w0, w1)))
            <==> !WrongReadable(w0, w1)
  {
    hide Remainder, Hashed, CircuitSgn0, Sgn0, WrongReadable, RightReadable;
    ReadsIff(w0, w1);
    forall rem0: nat, rem1: nat
      ensures 0 <= CircuitSgn0(Summed(w0, w1, rem0, rem1)) <= 1 && Sgn0(HashedPair(w0, w1)) <= 1 {
      SignsAreBits(Summed(w0, w1, rem0, rem1), ZERO, HashedPair(w0, w1));
    }
  }

  // ---------------------------------------------------------------- all points for a hash

  ghost predicate HashProduced(w0: Chunk, w1: Chunk, inverse: E2, p: Point) {
    exists rem0: nat, rem1: nat ::
      Remainder(w0, rem0) && Remainder(w1, rem1) && Produced(Summed(w0, w1, rem0, rem1), inverse, p)
  }

  /** The points that some remainders and hints produce from the bytes are exactly those of the curve over
      the candidates of the hashed value whose sign can be read from the bytes, or can be misread from a
      root, or does not matter. */
  lemma HashOutputsExactly(w0: Chunk, w1: Chunk, inverse: E2, p: Point)
    requires Whole(w0) && Whole(w1)
    ensures var v := HashedPair(w0, w1);
            HashProduced(w0, w1, inverse, p) <==>
            && Inverts(v, inverse)
            && Square(p.y) == G(p.x)
            && Candidate(v, p.x)
            && (p.y == ZERO || Misread(p.y)
                || if Sgn0(p.y) == Sgn0(v) then RightReadable(w0, w1) else WrongReadable(w0, w1))
  {
    hide Remainder, Hashed, CircuitSgn0, Sgn0, WrongReadable, RightReadable, Mul, Square, G, Candidate,
      Inverts, Produced, Misread;
    var v := HashedPair(w0, w1);
    ReadsIff(w0, w1);
    SignsAreBits(Raw(0, 0), p.y, v);
    forall rem0: nat, rem1: nat | Remainder(w0, rem0) && Remainder(w1, rem1)
      ensures Value(Summed(w0, w1, rem0, rem1)) == v
      ensures Produced(Summed(w0, w1, rem0, rem1), inverse, p) <==>
              && Inverts(v, inverse)
              && Square(p.y) == G(p.x)
              && Candidate(v, p.x)
              && (p.y == ZERO || Sgn0(p.y) == CircuitSgn0(Summed(w0, w1, rem0, rem1)) || Misread(p.y))
    {
      SignOfSumsIff(w0, w1, rem0, rem1);
      MapOutputsExactly(Summed(w0, w1, rem0, rem1), inverse, p);
    }
    HonestIsRemainder(w0);
    HonestIsRemainder(w1);
  }
}
