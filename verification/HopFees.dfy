/** A forwarded packet carries the same amounts on, with the fees that the memo set for them under the
    names they arrived with. */
module HopFees {
  import opened Wrappers
  import opened Denoms
  import opened Fees
  import opened RelaySpec
  import opened Solvency
  import opened Payouts

  /** The tokens have distinct names, both on the wire and here. A hop with a repeated denomination is refused. */
  ghost predicate DistinctNames(tokens: seq<NormalizedToken>) {
    forall i, j :: 0 <= i < j < |tokens| ==>
      tokens[i].originDenom != tokens[j].originDenom && tokens[i].token.denom != tokens[j].token.denom
  }

  /** No token takes the name by which the fee of a later one is still to be looked up. */
  ghost predicate InOrder(fees: FeeMap, tokens: seq<NormalizedToken>) {
    forall i, j :: 0 <= i < j < |tokens| && tokens[i].originDenom in fees ==>
      tokens[i].token.denom != tokens[j].originDenom
  }

  /** A token without a fee takes a name for which no fee is left. */
  ghost predicate NoneLeft(fees: FeeMap, tokens: seq<NormalizedToken>) {
    forall i :: 0 <= i < |tokens| && tokens[i].originDenom !in fees && tokens[i].token.denom in fees ==>
      Departs(tokens, tokens[i].token.denom)
  }

  ghost predicate Departs(tokens: seq<NormalizedToken>, x: string) {
    exists i :: 0 <= i < |tokens| && tokens[i].originDenom == x
  }

  /** A token with a fee takes the name `x`. */
  ghost predicate Arrives(fees: FeeMap, tokens: seq<NormalizedToken>, i: int, x: string) {
    0 <= i < |tokens| && tokens[i].token.denom == x && tokens[i].originDenom in fees
  }

  /** The entry of `m` for `x` is the fee of the token that took the name, or else the one in `fees`, unless
      it has left with its token. */
  ghost predicate MovedAt(fees: FeeMap, tokens: seq<NormalizedToken>, m: FeeMap, x: string) {
    && (forall i :: Arrives(fees, tokens, i, x) ==> x in m && m[x] == fees[tokens[i].originDenom])
    && ((forall i :: !Arrives(fees, tokens, i, x)) ==>
          && (x in m <==> x in fees && !Departs(tokens, x))
          && (x in m ==> m[x] == fees[x]))
  }

  /** The fee map `m` is `fees` with every fee moved from the name a token had to the name it has. */
  ghost predicate Moved(fees: FeeMap, tokens: seq<NormalizedToken>, m: FeeMap) {
    forall x :: MovedAt(fees, tokens, m, x)
  }

  /** One step of the loop. */
  function Remapped(m: FeeMap, t: NormalizedToken): FeeMap {
    if t.originDenom in m then (m - {t.originDenom})[t.token.denom := m[t.originDenom]] else m
  }

  lemma MovesOne(fees: FeeMap, tokens: seq<NormalizedToken>, m: FeeMap)
    requires tokens != [] && DistinctNames(tokens) && InOrder(fees, tokens) && Moved(fees, tokens[..|tokens| - 1], m)
    ensures Moved(fees, tokens, Remapped(m, tokens[|tokens| - 1]))
  {
    hide InOrder, DistinctNames, MovedAt, Remapped;
    Untouched(fees, tokens);
    var before, last := tokens[..|tokens| - 1], tokens[|tokens| - 1];
    assert MovedAt(fees, before, m, last.originDenom);
    forall x ensures MovedAt(fees, tokens, Remapped(m, last), x) {
      assert MovedAt(fees, before, m, x);
      MovesOneAt(fees, tokens, m, x);
    }
  }

  lemma MovesOneAt(fees: FeeMap, tokens: seq<NormalizedToken>, m: FeeMap, x: string)
    requires tokens != []
    requires var before, last := tokens[..|tokens| - 1], tokens[|tokens| - 1];
             && MovedAt(fees, before, m, x) && MovedAt(fees, before, m, last.originDenom)
             && !Departs(before, last.originDenom)
             && (forall i :: !Arrives(fees, before, i, last.originDenom))
             && (forall i :: !Arrives(fees, before, i, last.token.denom))
    ensures MovedAt(fees, tokens, Remapped(m, tokens[|tokens| - 1]), x)
  {
    var n := |tokens| - 1;
    var before, last := tokens[..n], tokens[n];
    DepartsOne(tokens, x);
    hide Departs;
    forall i: int ensures Arrives(fees, before, i, x) <==> i < n && Arrives(fees, tokens, i, x) {
      if 0 <= i < n { assert before[i] == tokens[i]; }
    }
    assert Arrives(fees, tokens, n, x) <==> x == last.token.denom && last.originDenom in fees;
  }

  /** The last token shares no name with the others, and none has taken its name. */
  lemma Untouched(fees: FeeMap, tokens: seq<NormalizedToken>)
    requires tokens != [] && DistinctNames(tokens) && InOrder(fees, tokens)
    ensures var before, last := tokens[..|tokens| - 1], tokens[|tokens| - 1];
            && !Departs(before, last.originDenom)
            && (forall i :: !Arrives(fees, before, i, last.originDenom))
            && (forall i :: !Arrives(fees, before, i, last.token.denom))
  {
  }

  lemma DepartsOne(tokens: seq<NormalizedToken>, x: string)
    requires tokens != []
    ensures Departs(tokens, x) <==> Departs(tokens[..|tokens| - 1], x) || x == tokens[|tokens| - 1].originDenom
  {
    var before := tokens[..|tokens| - 1];
    if Departs(before, x) {
      var i :| 0 <= i < |before| && before[i].originDenom == x;
      assert tokens[i].originDenom == x;
    }
    if x == tokens[|tokens| - 1].originDenom {
      assert Departs(tokens, x);
    }
  }

  /** Each fee moves from the name its token arrived with to the name it has here, whatever else the fee map
      holds, as long as no token takes the name of a later one. */
  lemma {:induction false} RemapMovesFees(fees: FeeMap, tokens: seq<NormalizedToken>)
    requires DistinctNames(tokens) && InOrder(fees, tokens)
    ensures RemapFees(Some(fees), tokens).Some? && Moved(fees, tokens, RemapFees(Some(fees), tokens).value)
  {
    hide Moved;
    if tokens == [] {
      NothingMoved(fees);
    } else {
      var n := |tokens| - 1;
      RemapMovesFees(fees, tokens[..n]);
      MovesOne(fees, tokens, RemapFees(Some(fees), tokens[..n]).value);
    }
  }

  lemma NothingMoved(fees: FeeMap)
    ensures Moved(fees, [], fees)
  {
  }

  /** Every token finds, under the name it has here, the fee named for it. */
  ghost predicate FeesFollow(fees: Option<FeeMap>, tokens: seq<NormalizedToken>) {
    forall i :: 0 <= i < |tokens| ==>
      FeeOf(RemapFees(fees, tokens), tokens[i].token.denom) == FeeOf(fees, tokens[i].originDenom)
  }

  ghost predicate Undisturbed(fees: Option<FeeMap>, tokens: seq<NormalizedToken>) {
    fees.Some? ==> InOrder(fees.value, tokens) && NoneLeft(fees.value, tokens)
  }

  /** The fees follow their tokens when the names do not get in each other's way. */
  lemma UndisturbedFollow(fees: Option<FeeMap>, tokens: seq<NormalizedToken>)
    requires DistinctNames(tokens) && Undisturbed(fees, tokens)
    ensures FeesFollow(fees, tokens)
  {
    if fees.None? {
      NoFees(tokens);
    } else {
      RemapMovesFees(fees.value, tokens);
      forall i | 0 <= i < |tokens|
        ensures FeeOf(RemapFees(fees, tokens), tokens[i].token.denom) == FeeOf(fees, tokens[i].originDenom)
      {
        FeeFound(fees.value, tokens, RemapFees(fees, tokens).value, i);
      }
    }
  }

  lemma FeeFound(fees: FeeMap, tokens: seq<NormalizedToken>, m: FeeMap, i: nat)
    requires i < |tokens| && DistinctNames(tokens) && Moved(fees, tokens, m)
    ensures var x := tokens[i].token.denom;
            FeeOf(Some(m), x)
            == if tokens[i].originDenom !in fees && x in fees && !Departs(tokens, x) then fees[x]
               else FeeOf(Some(fees), tokens[i].originDenom)
  {
    var x := tokens[i].token.denom;
    assert MovedAt(fees, tokens, m, x);
    assert forall j :: Arrives(fees, tokens, j, x) ==> j == i;
    assert tokens[i].originDenom in fees ==> Arrives(fees, tokens, i, x);
  }

  lemma {:induction false} NoFees(tokens: seq<NormalizedToken>)
    ensures RemapFees(None, tokens) == None
  {
  }

  /** A name that is nobody's any more does not come back. */
  lemma {:induction false} StaysAway(fees: FeeMap, tokens: seq<NormalizedToken>, n: nat, x: string)
    requires n <= |tokens| && x !in RemapFees(Some(fees), tokens[..n]).value
    requires forall i :: n <= i < |tokens| ==> tokens[i].token.denom != x
    ensures FeeOf(RemapFees(Some(fees), tokens), x) == 0
    ensures x !in RemapFees(Some(fees), tokens).value
    decreases |tokens| - n
  {
    if n == |tokens| {
      assert tokens[..n] == tokens;
    } else {
      assert tokens[..n + 1][..n] == tokens[..n];
      StaysAway(fees, tokens, n + 1, x);
    }
  }

  lemma Found(fees: FeeMap, tokens: seq<NormalizedToken>, m: FeeMap, i: nat)
    requires i < |tokens| && Moved(fees, tokens, m) && tokens[i].originDenom in fees
    ensures tokens[i].token.denom in m
  {
    assert MovedAt(fees, tokens, m, tokens[i].token.denom);
    assert Arrives(fees, tokens, i, tokens[i].token.denom);
  }

  /** When token `i` has a fee and takes the name of the later token `j`, its fee is lost to `j`. */
  lemma FeeLost(fees: FeeMap, tokens: seq<NormalizedToken>, i: nat, j: nat)
    requires i < j < |tokens| && DistinctNames(tokens) && InOrder(fees, tokens[..j])
    requires tokens[i].originDenom in fees && tokens[i].token.denom == tokens[j].originDenom
    ensures FeeOf(RemapFees(Some(fees), tokens), tokens[i].token.denom) == 0
  {
    hide Moved, InOrder;
    var x := tokens[i].token.denom;
    var before := tokens[..j];
    RemapMovesFees(fees, before);
    var m := RemapFees(Some(fees), before).value;
    Found(fees, before, m, i);
    assert tokens[..j + 1][..j] == before;
    assert RemapFees(Some(fees), tokens[..j + 1]) == Some(Remapped(m, tokens[j]));
    StaysAway(fees, tokens, j + 1, x);
  }

  /** For fee maps without zero entries, the fees follow their tokens exactly then. */
  lemma FeesFollowIff(fees: FeeMap, tokens: seq<NormalizedToken>)
    requires DistinctNames(tokens) && forall x :: x in fees ==> fees[x] != 0
    ensures FeesFollow(Some(fees), tokens) <==> Undisturbed(Some(fees), tokens)
  {
    if InOrder(fees, tokens) {
      RemapMovesFees(fees, tokens);
      forall i | 0 <= i < |tokens|
        ensures var x := tokens[i].token.denom;
                FeeOf(RemapFees(Some(fees), tokens), x)
                == if tokens[i].originDenom !in fees && x in fees && !Departs(tokens, x) then fees[x]
                   else FeeOf(Some(fees), tokens[i].originDenom)
      {
        FeeFound(fees, tokens, RemapFees(Some(fees), tokens).value, i);
      }
    } else {
      var i, j := FirstClash(fees, tokens);
      FeeLost(fees, tokens, i, j);
    }
  }

  lemma {:induction false} FirstClash(fees: FeeMap, tokens: seq<NormalizedToken>) returns (i: nat, j: nat)
    requires !InOrder(fees, tokens)
    ensures i < j < |tokens| && InOrder(fees, tokens[..j])
    ensures tokens[i].originDenom in fees && tokens[i].token.denom == tokens[j].originDenom
  {
    var n := |tokens| - 1;
    if InOrder(fees, tokens[..n]) {
      i, j :| 0 <= i < j < |tokens| && tokens[i].originDenom in fees && tokens[i].token.denom == tokens[j].originDenom;
    } else {
      i, j := FirstClash(fees, tokens[..n]);
      assert tokens[..n][..j] == tokens[..j];
    }
  }

  // ---------------------------------------------------------------- the coins of a transfer

  /** The strings agree up to `n`, where `a` ends or has the smaller character. */
  ghost predicate FirstAt(a: string, b: string, n: nat) {
    n <= |a| && n < |b| && a[..n] == b[..n] && (n == |a| || a[n] < b[n])
  }

  /** The order is lexicographic. */
  lemma {:induction false} BeforeIff(a: string, b: string)
    ensures Before(a, b) <==> exists n: nat :: FirstAt(a, b, n)
  {
    if b != "" {
      if a == "" {
        assert FirstAt(a, b, 0);
      } else if a[0] != b[0] {
        if a[0] < b[0] { assert FirstAt(a, b, 0); }
        forall n: nat | FirstAt(a, b, n) ensures n == 0 {
          if n > 0 { FirstOf(a, b, n); }
        }
      } else {
        BeforeIff(a[1..], b[1..]);
        forall n: nat ensures FirstAt(a, b, n + 1) <==> FirstAt(a[1..], b[1..], n) { FirstAtRest(a, b, n); }
        if n: nat :| FirstAt(a, b, n) { assert FirstAt(a[1..], b[1..], n - 1); }
        if n: nat :| FirstAt(a[1..], b[1..], n) { assert FirstAt(a, b, n + 1); }
      }
    }
  }

  lemma FirstOf(a: string, b: string, n: nat)
    requires FirstAt(a, b, n) && n > 0
    ensures a[0] == b[0]
  {
    assert a[..n][0] == b[..n][0];
  }

  lemma FirstAtRest(a: string, b: string, n: nat)
    requires a != "" && b != "" && a[0] == b[0]
    ensures FirstAt(a, b, n + 1) <==> FirstAt(a[1..], b[1..], n)
  {
    if n + 1 <= |a| && n + 1 <= |b| {
      assert a[..n + 1] == [a[0]] + a[1..][..n] && b[..n + 1] == [b[0]] + b[1..][..n];
      assert a[1..][..n] == a[..n + 1][1..] && b[1..][..n] == b[..n + 1][1..];
    }
  }

  lemma {:induction false} BeforeTotal(a: string, b: string)
    ensures a == b || Before(a, b) || Before(b, a)
    ensures !(Before(a, b) && Before(b, a)) && !Before(a, a)
  {
    if a != "" && b != "" {
      BeforeTotal(a[1..], b[1..]);
      assert a == [a[0]] + a[1..] && b == [b[0]] + b[1..];
    }
    if a != "" { BeforeIrreflexive(a); }
  }

  lemma {:induction false} BeforeIrreflexive(a: string)
    ensures !Before(a, a)
  {
    if a != "" { BeforeIrreflexive(a[1..]); }
  }

  lemma {:induction false} BeforeTransitive(a: string, b: string, c: string)
    requires Before(a, b) && Before(b, c)
    ensures Before(a, c)
  {
    if a != "" {
      if a[0] == b[0] == c[0] { BeforeTransitive(a[1..], b[1..], c[1..]); }
    }
  }

  ghost predicate Ordered(coins: seq<Coin>) {
    forall i, j :: 0 <= i < j < |coins| ==> Before(coins[i].denom, coins[j].denom)
  }

  lemma AppendOrdered(coins: seq<Coin>, coin: Coin)
    requires Ordered(coins) && forall x :: x in coins ==> Before(x.denom, coin.denom)
    ensures Ordered(coins + [coin])
  {
    hide Before;
    assert forall i :: 0 <= i < |coins| ==> coins[i] in coins;
  }

  lemma FrontOrdered(coins: seq<Coin>)
    requires coins != [] && Ordered(coins)
    ensures var n := |coins| - 1;
            && Ordered(coins[..n]) && multiset(coins) == multiset(coins[..n]) + multiset{coins[n]}
            && forall x :: x in coins[..n] ==> x in coins && Before(x.denom, coins[n].denom)
  {
    hide Before;
    var n := |coins| - 1;
    assert coins == coins[..n] + [coins[n]];
  }

  lemma {:induction false} InsertOrders(coins: seq<Coin>, coin: Coin)
    requires Ordered(coins) && forall x :: x in coins ==> x.denom != coin.denom
    ensures Ordered(InsertCoin(coins, coin))
    ensures multiset(InsertCoin(coins, coin)) == multiset(coins) + multiset{coin}
  {
    if coins != [] {
      hide Ordered, Before;
      var n := |coins| - 1;
      FrontOrdered(coins);
      assert coins[n] in coins;
      if Before(coins[n].denom, coin.denom) {
        forall x | x in coins ensures Before(x.denom, coin.denom) {
          if x in coins[..n] { BeforeTransitive(x.denom, coins[n].denom, coin.denom); }
        }
        AppendOrdered(coins, coin);
      } else {
        BeforeTotal(coins[n].denom, coin.denom);
        InsertOrders(coins[..n], coin);
        InsertMembers(coins[..n], coin);
        AppendOrdered(InsertCoin(coins[..n], coin), coins[n]);
      }
    }
  }

  function NonZeroCoins(funds: seq<Coin>): seq<Coin> {
    if funds == [] then []
    else
      var n := |funds| - 1;
      NonZeroCoins(funds[..n]) + (if funds[n].amount == 0 then [] else [funds[n]])
  }

  /** The coins that pass are the nonzero ones, all of them, in the order of their denominations. */
  lemma {:induction false} CoinsOrdered(funds: seq<Coin>)
    requires ToCoins(funds).Ok?
    ensures Ordered(ToCoins(funds).value) && multiset(ToCoins(funds).value) == multiset(NonZeroCoins(funds))
  {
    if funds != [] {
      var n := |funds| - 1;
      CoinsOrdered(funds[..n]);
      if funds[n].amount != 0 { InsertOrders(ToCoins(funds[..n]).value, funds[n]); }
    }
  }

  lemma KeptCoin(funds: seq<Coin>, i: nat)
    requires ToCoins(funds).Ok? && i < |funds| && funds[i].amount != 0
    ensures funds[i] in ToCoins(funds).value
  {
    hide Ordered, ToCoins, NonZeroCoins;
    CoinsOrdered(funds);
    NonZeroKept(funds, i);
    assert funds[i] in multiset(NonZeroCoins(funds));
    assert funds[i] in multiset(ToCoins(funds).value);
  }

  /** A list of coins that passes names no denomination twice, other than with nothing. */
  lemma {:induction false} CoinsDistinct(funds: seq<Coin>)
    requires ToCoins(funds).Ok?
    ensures forall i, j :: 0 <= i < j < |funds| && funds[i].amount != 0 && funds[j].amount != 0 ==>
              funds[i].denom != funds[j].denom
  {
    hide InsertCoin;
    if funds != [] {
      var n := |funds| - 1;
      CoinsDistinct(funds[..n]);
      forall i | 0 <= i < n && funds[i].amount != 0 && funds[n].amount != 0 ensures funds[i].denom != funds[n].denom {
        KeptCoin(funds[..n], i);
      }
      forall i, j | 0 <= i < j < |funds| && funds[i].amount != 0 && funds[j].amount != 0
        ensures funds[i].denom != funds[j].denom
      {
        if j < n { assert funds[..n][i] == funds[i] && funds[..n][j] == funds[j]; }
      }
    }
  }

  lemma {:induction false} NonZeroKept(funds: seq<Coin>, i: nat)
    requires i < |funds| && funds[i].amount != 0
    ensures funds[i] in NonZeroCoins(funds)
  {
    if i < |funds| - 1 {
      NonZeroKept(funds[..|funds| - 1], i);
    }
  }

  lemma {:induction false} NormalizeKeepsAmounts(k: Contract, s: Store, ep: Endpoint, tokens: seq<Token>)
    requires NormalizeTokens(k, s, ep, tokens).Ok?
    ensures forall i :: 0 <= i < |tokens| ==>
              var t := NormalizeTokens(k, s, ep, tokens).value[i];
              t.amount == tokens[i].amount && t.fee == tokens[i].fee
  {
    if tokens != [] {
      NormalizeKeepsAmounts(k, s, ep, tokens[..|tokens| - 1]);
    }
  }

  /** What a transfer puts on the wire: its nonzero coins, ordered by denomination, each with its amount
      and the fee named for it. */
  lemma TransferCarries(k: Contract, s: Store, sender: string, funds: seq<Coin>, msg: TransferMsg)
    requires ExecuteTransfer(k, s, sender, funds, msg).1.Ok?
    ensures ToCoins(funds).Ok?
    ensures var wire, coins := ExecuteTransfer(k, s, sender, funds, msg).1.value.packet.tokens, ToCoins(funds).value;
            && Ordered(coins) && multiset(coins) == multiset(NonZeroCoins(funds))
            && |wire| == |coins|
            && forall i :: 0 <= i < |coins| ==>
               wire[i].amount == coins[i].amount && wire[i].fee == FeeOf(msg.fees, coins[i].denom)
  {
    hide NormalizeTokens, ForTokens, ToCoins, Ordered, NonZeroCoins, FeeOf;
    CoinsOrdered(funds);
    NormalizeKeepsAmounts(k, s, s.channels[msg.channel].endpoint, AttachFees(ToCoins(funds).value, msg.fees));
  }

  // ---------------------------------------------------------------- what a hop carries

  /** The tokens of a packet that carry anything. */
  function NonZero(tokens: seq<Token>): seq<Token> {
    if tokens == [] then []
    else
      var n := |tokens| - 1;
      NonZero(tokens[..n]) + (if tokens[n].amount == 0 then [] else [tokens[n]])
  }

  /** Amounts with their fees. */
  function Shares(tokens: seq<Token>): (r: seq<(nat, nat)>)
    ensures |r| == |tokens|
  {
    seq(|tokens|, i requires 0 <= i < |tokens| => (tokens[i].amount, tokens[i].fee))
  }

  /** What the tokens are to be sent on with: their amounts, and the fees named for them. */
  function Wanted(tokens: seq<Token>, fees: Option<FeeMap>): (r: seq<(nat, nat)>)
    ensures |r| == |tokens|
  {
    seq(|tokens|, i requires 0 <= i < |tokens| => (tokens[i].amount, FeeOf(fees, tokens[i].denom)))
  }

  function CoinShares(coins: seq<Coin>, fees: Option<FeeMap>): (r: seq<(nat, nat)>)
    ensures |r| == |coins|
  {
    seq(|coins|, i requires 0 <= i < |coins| => (coins[i].amount, FeeOf(fees, coins[i].denom)))
  }

  lemma SharesConcat(a: seq<Coin>, b: seq<Coin>, fees: Option<FeeMap>)
    ensures CoinShares(a + b, fees) == CoinShares(a, fees) + CoinShares(b, fees)
  {
  }

  lemma WantedConcat(a: seq<Token>, b: seq<Token>, fees: Option<FeeMap>)
    ensures Wanted(a + b, fees) == Wanted(a, fees) + Wanted(b, fees)
  {
  }

  /** Shares depend on the coins alone, not on their order. */
  lemma {:induction false} SharesOfPermutation(a: seq<Coin>, b: seq<Coin>, fees: Option<FeeMap>)
    requires multiset(a) == multiset(b)
    ensures multiset(CoinShares(a, fees)) == multiset(CoinShares(b, fees))
    decreases |a|
  {
    hide FeeOf;
    if a == [] {
      assert |b| == |multiset(b)| == 0;
    } else {
      var n := |a| - 1;
      assert a[n] in multiset(b);
      var j :| 0 <= j < |b| && b[j] == a[n];
      var rest := b[..j] + b[j + 1..];
      TakeOut(a, n);
      TakeOut(b, j);
      assert a[..n] + a[n + 1..] == a[..n];
      SharesOfPermutation(a[..n], rest, fees);
      SharesWithout(a, n, fees);
      SharesWithout(b, j, fees);
    }
  }

  lemma TakeOut(s: seq<Coin>, j: nat)
    requires j < |s|
    ensures multiset(s[..j] + s[j + 1..]) == multiset(s) - multiset{s[j]}
  {
    assert s == s[..j] + [s[j]] + s[j + 1..];
  }

  lemma SharesWithout(s: seq<Coin>, j: nat, fees: Option<FeeMap>)
    requires j < |s|
    ensures multiset(CoinShares(s, fees))
            == multiset(CoinShares(s[..j] + s[j + 1..], fees)) + multiset{(s[j].amount, FeeOf(fees, s[j].denom))}
  {
    hide FeeOf;
    SharesConcat(s[..j], s[j + 1..], fees);
    SharesConcat(s[..j], [s[j]] + s[j + 1..], fees);
    SharesConcat([s[j]], s[j + 1..], fees);
    assert s == s[..j] + ([s[j]] + s[j + 1..]);
    assert CoinShares([s[j]], fees) == [(s[j].amount, FeeOf(fees, s[j].denom))];
  }

  /** The nonzero coins of a hop, with the moved fees, are the nonzero tokens that arrived, with the fees
      named for them. */
  lemma {:induction false} HopShares(k: Contract, ch: ChannelInfo, tokens: seq<Token>, here: seq<NormalizedToken>,
                                     fees: Option<FeeMap>, moved: Option<FeeMap>)
    requires |here| == |tokens|
    requires forall i :: 0 <= i < |tokens| ==>
               here[i] == NormalizedToken(tokens[i].denom, tokens[i].(denom := NameHere(k, ch, tokens[i].denom)))
    requires forall i :: 0 <= i < |here| ==> FeeOf(moved, here[i].token.denom) == FeeOf(fees, here[i].originDenom)
    ensures CoinShares(NonZeroCoins(CoinsOf(here)), moved) == Wanted(NonZero(tokens), fees)
  {
    hide NameHere;
    if tokens != [] {
      var n := |tokens| - 1;
      HopShares(k, ch, tokens[..n], here[..n], fees, moved);
      var coins := CoinsOf(here);
      assert coins[..n] == CoinsOf(here[..n]);
      assert here[n].originDenom == tokens[n].denom && coins[n] == Coin(here[n].token.denom, tokens[n].amount);
      if tokens[n].amount != 0 {
        SharesConcat(NonZeroCoins(coins[..n]), [coins[n]], moved);
        WantedConcat(NonZero(tokens[..n]), [tokens[n]], fees);
        assert CoinShares([coins[n]], moved) == Wanted([tokens[n]], fees);
      } else {
        assert NonZeroCoins(coins) == NonZeroCoins(coins[..n]) && NonZero(tokens) == NonZero(tokens[..n]);
      }
    }
  }

  lemma Followed(fees: Option<FeeMap>, here: seq<NormalizedToken>)
    requires FeesFollow(fees, here)
    ensures forall i :: 0 <= i < |here| ==>
              FeeOf(RemapFees(fees, here), here[i].token.denom) == FeeOf(fees, here[i].originDenom)
  {
  }

  /** Tokens that all carry something and make up the coins of a transfer have distinct names. */
  lemma SentNamesDistinct(k: Contract, s: Store, ch: ChannelInfo, tokens: seq<Token>, here: seq<NormalizedToken>)
    requires |here| == |tokens| && ToCoins(CoinsOf(here)).Ok?
    requires forall i :: 0 <= i < |tokens| ==>
               && here[i] == NormalizedToken(tokens[i].denom, tokens[i].(denom := NameHere(k, ch, tokens[i].denom)))
               && tokens[i].amount != 0
    ensures DistinctNames(here)
  {
    hide ToCoins, NameHere;
    CoinsDistinct(CoinsOf(here));
    forall i, j | 0 <= i < j < |here|
      ensures here[i].originDenom != here[j].originDenom && here[i].token.denom != here[j].token.denom
    {
      assert CoinsOf(here)[i].denom != CoinsOf(here)[j].denom;
    }
  }

  /** The hop carries, from the contract to the next receiver, every amount that arrived, with the fee that
      the memo named for it. Tokens without an amount are dropped, and the others may change places. */
  lemma HopCarriesAmountsAndFees(k: Contract, s: Store, ch: ChannelInfo, relayer: string, packet: IbcPacket,
                                 data: PacketData, fwd: PacketForward)
    requires ForwardPacket(k, s, ch, relayer, packet, data, fwd).1.Ok?
    requires var here := ReceiveTokens(k, s, ch, k.addr, relayer, false, data.tokens).1.value.tokens;
             && Undisturbed(fwd.fees, here)
             && (DistinctNames(here) || forall i :: 0 <= i < |data.tokens| ==> data.tokens[i].amount != 0)
    ensures var hop := ForwardPacket(k, s, ch, relayer, packet, data, fwd).1.value.hop.packet;
            && hop.sender == k.addr && hop.receiver == fwd.receiver && hop.memo == fwd.next
            && multiset(Shares(hop.tokens)) == multiset(Wanted(NonZero(data.tokens), fwd.fees))
  {
    hide ReceiveTokens, RemapFees, NormalizeTokens, ForTokens, ToCoins, NameHere, Undisturbed, DistinctNames,
      FeesFollow, Moved, Ordered, FeeOf;
    var (s1, r1) := ReceiveTokens(k, s, ch, k.addr, relayer, false, data.tokens);
    var here := r1.value.tokens;
    DeliveryPaysExactly(k, s, ch, k.addr, relayer, false, data.tokens, k.addr, "");
    if !DistinctNames(here) { SentNamesDistinct(k, s1, ch, data.tokens, here); }
    UndisturbedFollow(fwd.fees, here);
    Followed(fwd.fees, here);
    var coins, moved := CoinsOf(here), RemapFees(fwd.fees, here);
    var msg := TransferMsg(fwd.channel, fwd.receiver, fwd.next, moved);
    TransferCarries(k, s1, k.addr, coins, msg);
    var sent := ExecuteTransfer(k, s1, k.addr, coins, msg).1.value.packet;
    SharesOfPermutation(ToCoins(coins).value, NonZeroCoins(coins), moved);
    HopShares(k, ch, data.tokens, here, fwd.fees, moved);
    assert Shares(sent.tokens) == CoinShares(ToCoins(coins).value, moved);
  }
}
