/** What the handlers of one contract move, exactly and per denomination: the counters of its channels and
    the supply of its vouchers. */
module Exchange {
  import opened Wrappers
  import opened Denoms
  import opened Fees
  import opened RelaySpec
  import opened Host
  import opened Solvency

  // ---------------------------------------------------------------- supply

  function MintSum(msgs: seq<Msg>, denom: string): nat {
    if msgs == [] then 0
    else
      var n := |msgs| - 1;
      MintSum(msgs[..n], denom) + (if msgs[n].Mint? && msgs[n].denom == denom then msgs[n].amount else 0)
  }

  function BurnSum(msgs: seq<Msg>, denom: string): nat {
    if msgs == [] then 0
    else
      var n := |msgs| - 1;
      BurnSum(msgs[..n], denom) + (if msgs[n].Burn? && msgs[n].denom == denom then msgs[n].amount else 0)
  }

  lemma {:induction false} MintBurnConcat(a: seq<Msg>, b: seq<Msg>, denom: string)
    ensures MintSum(a + b, denom) == MintSum(a, denom) + MintSum(b, denom)
    ensures BurnSum(a + b, denom) == BurnSum(a, denom) + BurnSum(b, denom)
  {
    if b == [] {
      assert a + b == a;
    } else {
      var n := |b| - 1;
      MintBurnConcat(a, b[..n], denom);
      assert (a + b)[..|a + b| - 1] == a + b[..n];
    }
  }

  lemma SingleMintBurn(m: Msg, denom: string)
    ensures MintSum([m], denom) == if m.Mint? && m.denom == denom then m.amount else 0
    ensures BurnSum([m], denom) == if m.Burn? && m.denom == denom then m.amount else 0
  {
  }

  lemma {:induction false} ExecAllSupply(k: Contract, s: State, msgs: seq<Msg>, denom: string)
    requires ExecAll(k, s, msgs).Some?
    ensures Supply(ExecAll(k, s, msgs).value.bank, denom) + BurnSum(msgs, denom)
            == Supply(s.bank, denom) + MintSum(msgs, denom)
  {
    hide Move;
    if msgs != [] {
      var n := |msgs| - 1;
      ExecAllSupply(k, s, msgs[..n], denom);
      var s1 := ExecAll(k, s, msgs[..n]).value;
      if msgs[n].BankSend? {
        MoveBalance(s1.bank, k.addr, msgs[n].to, msgs[n].denom, msgs[n].amount, "", "");
      }
    }
  }

  lemma SupplySame(b: Bank, b': Bank, denom: string)
    requires b.supply == b'.supply
    ensures Supply(b, denom) == Supply(b', denom)
  {
  }

  lemma {:induction false} MoveCoinsSupply(b: Bank, from: string, to: string, coins: seq<Coin>)
    requires MoveCoins(b, from, to, coins).Some?
    ensures MoveCoins(b, from, to, coins).value.supply == b.supply
  {
    if coins != [] {
      MoveCoinsSupply(b, from, to, coins[..|coins| - 1]);
    }
  }

  // ---------------------------------------------------------------- vouchers burnt and minted

  /** The vouchers that tokens sent over `ep` burn or refund are among the names in use. */
  ghost predicate OwnNames(k: Contract, ep: Endpoint, tokens: seq<Token>) {
    forall i :: 0 <= i < |tokens| && Origin(tokens[i].denom, ep).Local? ==> tokens[i].denom in k.names
  }

  /** The voucher that stands for `x` is the one that stands for `w` only when `x` is `w`. */
  lemma SameVoucherIff(k: Contract, x: string, w: string)
    requires k.Injective() && x in k.names && w in k.names
    ensures k.FactoryDenom(x) == k.FactoryDenom(w) <==> x == w
  {
    if k.FactoryDenom(x) == k.FactoryDenom(w) {
      k.FactoryDenomInjective(x, w);
    }
  }

  /** What tokens sent over `ep` burn of the voucher that stands for `w`. */
  ghost function BurntOver(ep: Endpoint, w: string, tokens: seq<Token>): nat {
    if Origin(w, ep).Local? then SumTokens(tokens, w) else 0
  }

  /** Sending over any channel burns, of the voucher that stands for `w`, exactly what the wire tokens carry
      under that name when it belongs to the channel; a refund mints exactly that. */
  lemma {:induction false} ForTokensVouchers(k: Contract, mode: Mode, e: Escrow, ep: Endpoint, wire: seq<Token>,
                                             w: string)
    requires k.Injective() && w in k.names && OwnNames(k, ep, wire)
    ensures var r := ForTokens(k, mode, e, ep, wire).1;
            r.Ok? ==>
              && BurnSum(r.value, k.FactoryDenom(w)) == (if mode.Escrowing? then BurntOver(ep, w, wire) else 0)
              && MintSum(r.value, k.FactoryDenom(w)) == (if mode.Escrowing? then 0 else BurntOver(ep, w, wire))
  {
    hide Origin, MakeForeignDenom, Contract.FactoryDenom, ForToken;
    if wire != [] {
      var n := |wire| - 1;
      ForTokensVouchers(k, mode, e, ep, wire[..n], w);
      var (e1, r1) := ForTokens(k, mode, e, ep, wire[..n]);
      ForTokenVouchers(k, mode, e1, ep, wire[n], w);
      var r2 := ForToken(k, mode, e1, ep, wire[n]).1;
      if r1.Ok? && r2.Ok? {
        MintBurnConcat(r1.value, r2.value, k.FactoryDenom(w));
      }
    }
  }

  lemma ForTokenVouchers(k: Contract, mode: Mode, e: Escrow, ep: Endpoint, t: Token, w: string)
    requires k.Injective() && w in k.names
    requires Origin(t.denom, ep).Local? ==> t.denom in k.names
    ensures var r := ForToken(k, mode, e, ep, t).1;
            var amount: nat := if t.denom == w && Origin(w, ep).Local? then t.amount else 0;
            r.Ok? ==>
              && BurnSum(r.value, k.FactoryDenom(w)) == (if mode.Escrowing? then amount else 0)
              && MintSum(r.value, k.FactoryDenom(w)) == (if mode.Escrowing? then 0 else amount)
  {
    var x := Origin(t.denom, ep).denom;
    OriginLocalIff(t.denom, ep, x);
    hide Origin, MakeForeignDenom, Contract.FactoryDenom, Amounts, Increase, Decrease;
    var v := k.FactoryDenom(w);
    if Origin(t.denom, ep).Local? {
      SameVoucherIff(k, t.denom, w);
      SingleMintBurn(OnRemote(mode, k.FactoryDenom(MakeForeignDenom(ep, x)), t.amount), v);
    } else if mode.Refunding? {
      SingleMintBurn(BankSend(mode.receiver, t.denom, t.amount), v);
    }
  }

  /** What tokens received over the channel mint of the voucher that stands for `w`. */
  ghost function MintedFrom(ch: ChannelInfo, w: string, tokens: seq<Token>): nat {
    match Origin(w, ch.endpoint)
    case Local(d) => if Origin(d, ch.counterparty).Remote? then SumTokens(tokens, d) else 0
    case Remote(_) => 0
  }

  /** Receiving mints of each voucher exactly what the tokens carry under the name it stands for. */
  lemma {:induction false} ReceiveMints(k: Contract, s: Store, ch: ChannelInfo, receiver: string, relayer: string,
                                        cutFees: bool, tokens: seq<Token>, w: string)
    requires k.Injective() && w in k.names && InPlay(k, ch, tokens)
    ensures var r := ReceiveTokens(k, s, ch, receiver, relayer, cutFees, tokens).1;
            r.Ok? ==>
              && MintSum(r.value.msgs, k.FactoryDenom(w)) == MintedFrom(ch, w, tokens)
              && BurnSum(r.value.msgs, k.FactoryDenom(w)) == 0
  {
    hide Origin, MakeForeignDenom, Contract.FactoryDenom, ReceiveToken;
    if tokens != [] {
      var n := |tokens| - 1;
      ReceiveMints(k, s, ch, receiver, relayer, cutFees, tokens[..n], w);
      var (s1, r1) := ReceiveTokens(k, s, ch, receiver, relayer, cutFees, tokens[..n]);
      if r1.Ok? {
        ReceiveTokenMints(k, s1, ch, receiver, relayer, cutFees, tokens[n], w);
        var r2 := ReceiveToken(k, s1, ch, receiver, relayer, cutFees, tokens[n]).1;
        if r2.Ok? {
          MintBurnConcat(r1.value.msgs, r2.value.msgs, k.FactoryDenom(w));
        }
      }
    }
  }

  lemma ReceiveTokenMints(k: Contract, s: Store, ch: ChannelInfo, receiver: string, relayer: string,
                          cutFees: bool, t: Token, w: string)
    requires k.Injective() && w in k.names
    requires Origin(t.denom, ch.counterparty).Remote? ==> MakeForeignDenom(ch.endpoint, t.denom) in k.names
    ensures var r := ReceiveToken(k, s, ch, receiver, relayer, cutFees, t).1;
            r.Ok? ==>
              && MintSum(r.value.msgs, k.FactoryDenom(w))
                 == (if Origin(w, ch.endpoint) == Local(t.denom)
                    && Origin(t.denom, ch.counterparty).Remote? then t.amount else 0)
              && BurnSum(r.value.msgs, k.FactoryDenom(w)) == 0
  {
    var (actual, fee) := Cut(cutFees, t);
    var x := Origin(t.denom, ch.counterparty).denom;
    OriginLocalIff(t.denom, ch.counterparty, x);
    OriginLocalIff(w, ch.endpoint, t.denom);
    hide Origin, MakeForeignDenom, Contract.FactoryDenom, Cut, Decrease;
    var v := k.FactoryDenom(w);
    if Origin(t.denom, ch.counterparty).Local? {
      PaymentSums(BankSend(receiver, x, actual), actual, BankSend(relayer, x, fee), fee, v);
    } else {
      var foreign := MakeForeignDenom(ch.endpoint, t.denom);
      SameVoucherIff(k, foreign, w);
      var u := k.FactoryDenom(foreign);
      var pay := Payments(Mint(u, actual, receiver), actual, Mint(u, fee, relayer), fee);
      PaymentSums(Mint(u, actual, receiver), actual, Mint(u, fee, relayer), fee, v);
      CreationSums(k, s, ch.endpoint, foreign, v);
      MintBurnConcat(Creation(k, s, ch.endpoint, foreign), pay, v);
    }
  }

  lemma PaymentSums(m1: Msg, a1: nat, m2: Msg, a2: nat, denom: string)
    ensures var msgs := Payments(m1, a1, m2, a2);
            && MintSum(msgs, denom)
               == (if a1 == 0 then 0 else MintSum([m1], denom)) + (if a2 == 0 then 0 else MintSum([m2], denom))
            && BurnSum(msgs, denom)
               == (if a1 == 0 then 0 else BurnSum([m1], denom)) + (if a2 == 0 then 0 else BurnSum([m2], denom))
    ensures MintSum([m1], denom) == if m1.Mint? && m1.denom == denom then m1.amount else 0
    ensures BurnSum([m1], denom) == if m1.Burn? && m1.denom == denom then m1.amount else 0
    ensures MintSum([m2], denom) == if m2.Mint? && m2.denom == denom then m2.amount else 0
    ensures BurnSum([m2], denom) == if m2.Burn? && m2.denom == denom then m2.amount else 0
  {
  }

  lemma CreationSums(k: Contract, s: Store, ep: Endpoint, foreign: string, denom: string)
    ensures MintSum(Creation(k, s, ep, foreign), denom) == 0 && BurnSum(Creation(k, s, ep, foreign), denom) == 0
  {
    var msgs := Creation(k, s, ep, foreign);
    if msgs != [] {
      assert msgs == [msgs[0]] + [msgs[1]];
      MintBurnConcat([msgs[0]], [msgs[1]], denom);
      SingleMintBurn(msgs[0], denom);
      SingleMintBurn(msgs[1], denom);
    }
  }

  // ---------------------------------------------------------------- counters

  /** What tokens sent over `over` carry of the counter of `channel` for `d`. */
  function CarriedOut(channel: string, d: string, over: string, sent: seq<Token>): nat {
    if over == channel then SumTokens(sent, d) else 0
  }

  /** Refunding takes off each counter of the channel exactly what the wire tokens carry, and touches no
      other. */
  lemma {:induction false} RefundExact(k: Contract, to: string, e: Escrow, ep: Endpoint, wire: seq<Token>,
                                       channel: string, d: string)
    requires channel == ep.channel ==> Origin(d, ep).Remote?
    ensures var (e', r) := ForTokens(k, Refunding(to), e, ep, wire);
            r.Ok? ==>
              Outstanding(e', channel, d) == Outstanding(e, channel, d) - CarriedOut(channel, d, ep.channel, wire)
  {
    hide Origin, MakeForeignDenom, Contract.FactoryDenom, Amounts;
    if wire != [] {
      var n := |wire| - 1;
      RefundExact(k, to, e, ep, wire[..n], channel, d);
      OriginLocalIff(wire[n].denom, ep, "");
    }
  }

  /** Receiving releases exactly what the tokens carry under the local wire name of `d`, on the channel of
      the packet alone. */
  lemma {:induction false} ReceiveReleasesLocal(k: Contract, s: Store, ch: ChannelInfo, receiver: string,
                                                relayer: string,
                                                cutFees: bool, tokens: seq<Token>, channel: string, d: string)
    ensures var (s', r) := ReceiveTokens(k, s, ch, receiver, relayer, cutFees, tokens);
            r.Ok? ==>
              Outstanding(s'.outstanding, channel, d)
              == Outstanding(s.outstanding, channel, d)
                 - CarriedOut(channel, MakeForeignDenom(ch.counterparty, d), ch.endpoint.channel, tokens)
  {
    hide Origin, MakeForeignDenom, Contract.FactoryDenom, Cut, ReceiveRemote;
    if tokens != [] {
      var n := |tokens| - 1;
      ReceiveReleasesLocal(k, s, ch, receiver, relayer, cutFees, tokens[..n], channel, d);
      OriginLocalIff(tokens[n].denom, ch.counterparty, Origin(tokens[n].denom, ch.counterparty).denom);
      OriginLocalIff(tokens[n].denom, ch.counterparty, d);
    }
  }

  /** Whether it succeeds or not, a receive only lowers counters, and only those of its channel. */
  lemma {:induction false} ReceiveShrinks(k: Contract, s: Store, ch: ChannelInfo, receiver: string, relayer: string,
                                          cutFees: bool, tokens: seq<Token>, channel: string, d: string)
    ensures var s' := ReceiveTokens(k, s, ch, receiver, relayer, cutFees, tokens).0;
            && Outstanding(s'.outstanding, channel, d) <= Outstanding(s.outstanding, channel, d)
            && (channel != ch.endpoint.channel ==>
                  Outstanding(s'.outstanding, channel, d) == Outstanding(s.outstanding, channel, d))
  {
    hide Origin, MakeForeignDenom, Contract.FactoryDenom, Cut, ReceiveRemote;
    if tokens != [] {
      ReceiveShrinks(k, s, ch, receiver, relayer, cutFees, tokens[..|tokens| - 1], channel, d);
    }
  }

  // ---------------------------------------------------------------- where a receive stops

  /** The counter of token `i` covers it together with the tokens of its denomination before it. */
  predicate Releasable(s: Store, ch: ChannelInfo, tokens: seq<Token>, i: int)
    requires 0 <= i < |tokens|
  {
    match Origin(tokens[i].denom, ch.counterparty)
    case Remote(_) => true
    case Local(d) =>
      var key := (ch.endpoint.channel, d);
      key in s.outstanding && SumTokens(tokens[..i + 1], tokens[i].denom) <= s.outstanding[key]
  }

  /** The number of tokens before the first one that is not covered. */
  function Passing(s: Store, ch: ChannelInfo, tokens: seq<Token>): (r: nat)
    ensures r <= |tokens|
  {
    if tokens == [] then 0
    else
      var n := |tokens| - 1;
      var m := Passing(s, ch, tokens[..n]);
      if m == n && Releasable(s, ch, tokens, n) then n + 1 else m
  }

  lemma {:induction false} PassingIsFirst(s: Store, ch: ChannelInfo, tokens: seq<Token>)
    ensures var r := Passing(s, ch, tokens);
            && (forall i :: 0 <= i < r ==> Releasable(s, ch, tokens, i))
            && (r < |tokens| ==> !Releasable(s, ch, tokens, r))
  {
    if tokens != [] {
      var n := |tokens| - 1;
      var before := tokens[..n];
      PassingIsFirst(s, ch, before);
      forall i | 0 <= i < n ensures Releasable(s, ch, tokens, i) <==> Releasable(s, ch, before, i) {
        assert tokens[..i + 1] == before[..i + 1];
      }
    }
  }

  /** A receive releases exactly the tokens before the first one that is not covered, and it succeeds when
      that is all of them. */
  lemma {:induction false} ReceivePasses(k: Contract, s: Store, ch: ChannelInfo, receiver: string, relayer: string,
                                          cutFees: bool, tokens: seq<Token>, channel: string, d: string)
    ensures var (s', r) := ReceiveTokens(k, s, ch, receiver, relayer, cutFees, tokens);
            && (r.Ok? <==> Passing(s, ch, tokens) == |tokens|)
            && Outstanding(s'.outstanding, channel, d)
               == Outstanding(s.outstanding, channel, d)
                  - CarriedOut(channel, MakeForeignDenom(ch.counterparty, d), ch.endpoint.channel,
                               tokens[..Passing(s, ch, tokens)])
  {
    hide Origin, MakeForeignDenom, Contract.FactoryDenom, CarriedOut, Outstanding, SumTokens, Releasable, ReceiveToken;
    if tokens == [] {
      NothingCarried(channel, MakeForeignDenom(ch.counterparty, d), ch.endpoint.channel);
    } else {
      var n := |tokens| - 1;
      ReceivePasses(k, s, ch, receiver, relayer, cutFees, tokens[..n], channel, d);
      var m := Passing(s, ch, tokens[..n]);
      assert tokens[..n][..m] == tokens[..m];
      var (s1, r1) := ReceiveTokens(k, s, ch, receiver, relayer, cutFees, tokens[..n]);
      if r1.Ok? {
        TokenStops(k, s, ch, receiver, relayer, cutFees, tokens);
        assert tokens[..n + 1] == tokens;
        if Releasable(s, ch, tokens, n) {
          ReceiveReleasesLocal(k, s, ch, receiver, relayer, cutFees, tokens, channel, d);
        }
      }
    }
  }

  lemma NothingCarried(channel: string, p: string, over: string)
    ensures CarriedOut(channel, p, over, []) == 0
  {
  }

  /** The last token of a list passes when its counter covers it and what was taken off before. */
  lemma TokenStops(k: Contract, s: Store, ch: ChannelInfo, receiver: string, relayer: string, cutFees: bool,
                   tokens: seq<Token>)
    requires tokens != []
    requires ReceiveTokens(k, s, ch, receiver, relayer, cutFees, tokens[..|tokens| - 1]).1.Ok?
    ensures var n := |tokens| - 1;
            var s1 := ReceiveTokens(k, s, ch, receiver, relayer, cutFees, tokens[..n]).0;
            var (s2, r2) := ReceiveToken(k, s1, ch, receiver, relayer, cutFees, tokens[n]);
            (r2.Ok? <==> Releasable(s, ch, tokens, n)) && (!r2.Ok? ==> s2 == s1)
  {
    hide Origin, MakeForeignDenom, Contract.FactoryDenom, Cut, ReceiveRemote, ReceiveTokens;
    var n := |tokens| - 1;
    var d := Origin(tokens[n].denom, ch.counterparty).denom;
    OriginLocalIff(tokens[n].denom, ch.counterparty, d);
    ReceiveReleasesLocal(k, s, ch, receiver, relayer, cutFees, tokens[..n], ch.endpoint.channel, d);
    ReceiveReleases(k, s, ch, receiver, relayer, cutFees, tokens[..n], "");
    assert tokens[..n + 1] == tokens;
  }

  // ---------------------------------------------------------------- when a refund passes its check

  ghost predicate Covered(e: Escrow, ep: Endpoint, wire: seq<Token>, d: string) {
    (ep.channel, d) in e && SumTokens(wire, d) <= e[(ep.channel, d)]
  }

  ghost predicate AllCovered(e: Escrow, ep: Endpoint, wire: seq<Token>) {
    forall i :: 0 <= i < |wire| && Origin(wire[i].denom, ep).Remote? ==> Covered(e, ep, wire, wire[i].denom)
  }

  lemma AllCoveredStep(e: Escrow, ep: Endpoint, wire: seq<Token>)
    requires wire != []
    ensures var n := |wire| - 1;
            AllCovered(e, ep, wire) <==>
            && AllCovered(e, ep, wire[..n])
            && (Origin(wire[n].denom, ep).Remote? ==> Covered(e, ep, wire, wire[n].denom))
  {
    hide Origin;
    var n := |wire| - 1;
    if AllCovered(e, ep, wire[..n]) && (Origin(wire[n].denom, ep).Remote? ==> Covered(e, ep, wire, wire[n].denom)) {
      forall i | 0 <= i < |wire| && Origin(wire[i].denom, ep).Remote? ensures Covered(e, ep, wire, wire[i].denom) {
        if i < n { assert Covered(e, ep, wire[..n], wire[..n][i].denom); }
      }
    }
    if AllCovered(e, ep, wire) {
      forall i | 0 <= i < n && Origin(wire[..n][i].denom, ep).Remote?
        ensures Covered(e, ep, wire[..n], wire[..n][i].denom) {
        assert Covered(e, ep, wire, wire[i].denom);
      }
    }
  }

  /** A refund passes its checks when every counter covers the sum of the list in its denomination. */
  lemma {:induction false} RefundOkIff(k: Contract, to: string, e: Escrow, ep: Endpoint, wire: seq<Token>)
    ensures ForTokens(k, Refunding(to), e, ep, wire).1.Ok? <==> AllCovered(e, ep, wire)
  {
    hide Origin, MakeForeignDenom, Contract.FactoryDenom, Amounts, AllCovered;
    if wire == [] {
      NothingCovered(e, ep);
    } else {
      var n := |wire| - 1;
      var t := wire[n];
      AllCoveredStep(e, ep, wire);
      RefundOkIff(k, to, e, ep, wire[..n]);
      RefundFlow(k, e, ep, wire[..n], to, k.addr, "");
      OriginLocalIff(t.denom, ep, "");
      if Origin(t.denom, ep).Remote? {
        RefundExact(k, to, e, ep, wire[..n], ep.channel, t.denom);
      }
    }
  }

  lemma NothingCovered(e: Escrow, ep: Endpoint)
    ensures AllCovered(e, ep, [])
  {
  }

  /** Every token escrowed for a packet still has its counter. */
  ghost predicate KeyedTokens(e: Escrow, ep: Endpoint, tokens: seq<Token>) {
    forall j :: 0 <= j < |tokens| && Origin(tokens[j].denom, ep).Remote? ==> (ep.channel, tokens[j].denom) in e
  }

  lemma {:induction false} EscrowKeys(k: Contract, e: Escrow, ep: Endpoint, wire: seq<Token>)
    requires ForTokens(k, Escrowing, e, ep, wire).1.Ok?
    ensures var e' := ForTokens(k, Escrowing, e, ep, wire).0;
            e.Keys <= e'.Keys && KeyedTokens(e', ep, wire)
  {
    hide Origin, MakeForeignDenom, Contract.FactoryDenom, Amounts;
    if wire != [] {
      EscrowKeys(k, e, ep, wire[..|wire| - 1]);
      OriginLocalIff(wire[|wire| - 1].denom, ep, "");
    }
  }
}
