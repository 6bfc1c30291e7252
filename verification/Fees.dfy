/** Tokens on the wire and the split of an amount into what the receiver and the relayer get. */
module Fees {
  import opened Positional

  const U128_MAX: nat := 0xFFFF_FFFF_FFFF_FFFF_FFFF_FFFF_FFFF_FFFF
  const U512_MAX: nat := 0xFFFF_FFFF_FFFF_FFFF_FFFF_FFFF_FFFF_FFFF_FFFF_FFFF_FFFF_FFFF_FFFF_FFFF_FFFF_FFFF_FFFF_FFFF_FFFF_FFFF_FFFF_FFFF_FFFF_FFFF_FFFF_FFFF_FFFF_FFFF_FFFF_FFFF_FFFF_FFFF

  lemma ByteWidth()
    ensures Pow(2, 8) == 256
  {
    assert Pow(2, 4) == 16;
  }

  lemma WidthOfAmounts()
    ensures U128_MAX + 1 == Pow(2, 128)
  {
    ByteWidth();
    hide Pow;
    PowAdd(2, 8, 8);
    PowAdd(2, 16, 16);
    PowAdd(2, 32, 32);
    PowAdd(2, 64, 64);
  }

  lemma WidthOfCounters()
    ensures U512_MAX + 1 == Pow(2, 512)
  {
    hide Pow;
    WidthOfAmounts();
    PowAdd(2, 128, 128);
    PowAdd(2, 256, 256);
    assert (U128_MAX + 1) * (U128_MAX + 1) * ((U128_MAX + 1) * (U128_MAX + 1)) == U512_MAX + 1;
  }

  type U128 = x: nat | x <= U128_MAX

  /** `fee` is the relayer's share, in parts per `U128_MAX`. */
  datatype Token = Token(denom: string, amount: U128, fee: U128)

  lemma ShareBound(amount: nat, num: nat, den: nat)
    requires num <= den && den > 0
    ensures 0 <= amount * num / den <= amount
  {
    assert amount * num <= amount * den;
    DivBound(amount * num, amount, den);
  }

  lemma DivBound(n: nat, q: nat, den: nat)
    requires den > 0 && n <= q * den
    ensures n / den <= q
  {
  }

  /** `TransferToken::amounts`: the fee is rounded down and the remainder goes to the receiver. */
  function Amounts(t: Token): (r: (U128, U128))
    ensures r.0 + r.1 == t.amount
    ensures t.fee == 0 ==> r.1 == 0
  {
    ShareBound(t.amount, t.fee, U128_MAX);
    var fee: U128 := t.amount * t.fee / U128_MAX;
    (t.amount - fee, fee)
  }

  /** `FeePerU128::percent`. */
  function Percent(x: nat): (r: U128)
    requires x <= 100
  {
    ShareBound(U128_MAX, x, 100);
    U128_MAX * x / 100
  }

  /** A relayer fee of `x` percent is the rounded-down share or one unit less. */
  lemma PercentFeeBounds(denom: string, amount: U128, x: nat)
    requires x <= 100
    ensures amount * x / 100 - 1 <= Amounts(Token(denom, amount, Percent(x))).1 <= amount * x / 100
  {
  }

  /** The percentage is exact on every amount for multiples of 20, and only for those. */
  lemma PercentFeeExact(x: nat)
    requires x <= 100
    ensures x % 20 == 0 <==> forall amount: U128 :: Amounts(Token("", amount, Percent(x))).1 == amount * x / 100
  {
    if x % 20 == 0 {
      forall amount: U128
        ensures Amounts(Token("", amount, Percent(x))).1 == amount * x / 100
      {
        FifthsAreExact(amount, x / 20);
      }
    } else {
      PercentOfHundred(x);
      assert Amounts(Token("", 100, Percent(x))).1 != 100 * x / 100;
    }
  }

  lemma FifthsAreExact(amount: U128, k: nat)
    requires k <= 5
    ensures Amounts(Token("", amount, Percent(20 * k))).1 == amount * (20 * k) / 100
  {
    var m := U128_MAX / 5;
    assert U128_MAX == 5 * m;
    assert Percent(20 * k) == m * k;
    assert amount * (m * k) == m * (amount * k) && amount * (20 * k) == 20 * (amount * k);
    DivScale(m, amount * k);
  }

  lemma PercentOfHundred(x: nat)
    requires x <= 100 && x % 20 != 0
    ensures Amounts(Token("", 100, Percent(x))).1 == x - 1
  {
    RoundedTwice(U128_MAX, U128_MAX / 100, x);
  }

  /** A share of `x` hundredths, taken of one hundred again, for a whole of which 55 are left over. */
  lemma RoundedTwice(whole: nat, m: nat, x: nat)
    requires whole == 100 * m + 55 && m > 0 && x % 20 != 0
    ensures 100 * (whole * x / 100) / whole == x - 1
  {
    var q, r := 55 * x / 100, 55 * x % 100;
    LeftOver(x);
    Splits(whole, m, x, q, r);
    QuotientUnique(whole * x, 100, m * x + q, r);
    Splits(whole, m, x - 1, q, r);
    QuotientUnique(100 * (m * x + q), whole, x - 1, whole - r);
  }

  lemma LeftOver(x: nat)
    requires x % 20 != 0
    ensures x > 0 && 0 < 55 * x % 100 < 100
  {
    var j := 55 * x / 100;
    if 55 * x == 100 * j { QuotientUnique(x, 20, 11 * j - 6 * x, 0); }
  }

  lemma Splits(whole: nat, m: nat, x: nat, q: nat, r: nat)
    requires whole == 100 * m + 55
    ensures whole * x == 100 * (m * x) + 55 * x
    ensures whole * (x + 1) == whole * x + whole
  {
  }

  lemma DivScale(m: nat, n: nat)
    requires m > 0
    ensures (m * n) / (5 * m) == (20 * n) / 100
  {
    var q, r := n / 5, n % 5;
    assert n == 5 * q + r;
    Distribute(m, 5 * q, r);
    Reassociate(m, 5, q);
    assert 0 <= m * r <= m * 4 by { Monotone(m, r, 4); }
    QuotientUnique(m * n, 5 * m, q, m * r);
    QuotientUnique(20 * n, 100, q, 20 * r);
  }
}
