/** In every reachable state the contract's bank balance of a denomination covers what it owes for
    that denomination over all its channels, and the two denomination indexes agree. */
module Solvency {
  import opened Wrappers
  import opened Denoms
  import opened Fees
  import opened RelaySpec
  import opened Host

  // ---------------------------------------------------------------- totals over channels

  function ShareOf(e: Escrow, key: (string, string), denom: string): nat
    requires key in e
  {
    if key.1 == denom then e[key] else 0
  }

  /** What the contract owes in `denom`, over all channels. */
  ghost function Total(e: Escrow, denom: string): nat
    decreases |e|
  {
    if e == map[] then 0
    else
      var key :| key in e;
      ShareOf(e, key, denom) + Total(e - {key}, denom)
  }

  lemma {:induction false} TotalWithout(e: Escrow, key: (string, string), denom: string)
    requires key in e
    ensures Total(e, denom) == ShareOf(e, key, denom) + Total(e - {key}, denom)
    decreases |e|
  {
    var first :| first in e && Total(e, denom) == ShareOf(e, first, denom) + Total(e - {first}, denom);
    if first != key {
      var without := e - {key};
      TotalWithout(e - {first}, key, denom);
      TotalWithout(without, first, denom);
      assert e - {first} - {key} == without - {first};
      assert ShareOf(e - {first}, key, denom) == ShareOf(e, key, denom);
      assert ShareOf(without, first, denom) == ShareOf(e, first, denom);
    }
  }

  lemma TotalUpdate(e: Escrow, channel: string, d: string, amount: nat, denom: string)
    ensures Total(e[(channel, d) := amount], denom)
            == Total(e, denom) + (if d == denom then amount - Outstanding(e, channel, d) else 0)
  {
    var key := (channel, d);
    var e' := e[key := amount];
    TotalWithout(e', key, denom);
    if key in e {
      TotalWithout(e, key, denom);
      assert e' - {key} == e - {key};
    } else {
      assert e' - {key} == e;
    }
  }

  lemma OutstandingWithinTotal(e: Escrow, channel: string, denom: string)
    ensures Outstanding(e, channel, denom) <= Total(e, denom)
  {
  }

  // ---------------------------------------------------------------- flows of messages

  /** What a message takes out of, and brings into, the contract's own account. */
  function OutOf(msg: Msg, self: string, denom: string): nat {
    match msg
    case BankSend(to, d, amount) => if to != self && d == denom then amount else 0
    case Burn(d, amount) => if d == denom then amount else 0
    case _ => 0
  }

  function Into(msg: Msg, self: string, denom: string): nat {
    match msg
    case Mint(d, amount, to) => if to == self && d == denom then amount else 0
    case _ => 0
  }

  function OutFlow(msgs: seq<Msg>, self: string, denom: string): nat {
    if msgs == [] then 0
    else OutFlow(msgs[..|msgs| - 1], self, denom) + OutOf(msgs[|msgs| - 1], self, denom)
  }

  function InFlow(msgs: seq<Msg>, self: string, denom: string): nat {
    if msgs == [] then 0
    else InFlow(msgs[..|msgs| - 1], self, denom) + Into(msgs[|msgs| - 1], self, denom)
  }

  lemma {:induction false} FlowConcat(a: seq<Msg>, b: seq<Msg>, self: string, denom: string)
    ensures OutFlow(a + b, self, denom) == OutFlow(a, self, denom) + OutFlow(b, self, denom)
    ensures InFlow(a + b, self, denom) == InFlow(a, self, denom) + InFlow(b, self, denom)
  {
    if b == [] {
      assert a + b == a;
    } else {
      var n := |b| - 1;
      FlowConcat(a, b[..n], self, denom);
      assert (a + b)[..|a + b| - 1] == a + b[..n];
    }
  }

  lemma MoveBalance(b: Bank, from: string, to: string, d: string, amount: nat, self: string, denom: string)
    requires Move(b, from, to, d, amount).Some?
    ensures var b' := Move(b, from, to, d, amount).value;
            && Balance(b', self, denom) == Balance(b, self, denom)
               - (if self == from && d == denom then amount else 0) + (if self == to && d == denom then amount else 0)
            && (Balance(b, self, denom) <= BALANCE_MAX ==> Balance(b', self, denom) <= BALANCE_MAX)
            && b'.created == b.created && b'.supply == b.supply
  {
  }

  lemma ExecBalance(k: Contract, s: State, msg: Msg, denom: string)
    requires Exec(k, s, msg).Some?
    ensures var s' := Exec(k, s, msg).value;
            && Balance(s'.bank, k.addr, denom) + OutOf(msg, k.addr, denom)
               == Balance(s.bank, k.addr, denom) + Into(msg, k.addr, denom)
            && s'.store == s.store.(denomToHash := s'.store.denomToHash, hashToDenom := s'.store.hashToDenom)
            && (Balance(s.bank, k.addr, denom) <= BALANCE_MAX ==> Balance(s'.bank, k.addr, denom) <= BALANCE_MAX)
  {
    hide Move;
    if msg.BankSend? {
      MoveBalance(s.bank, k.addr, msg.to, msg.denom, msg.amount, k.addr, denom);
    }
  }

  /** Executing messages changes the contract's balance by exactly their flow. */
  lemma {:induction false} ExecAllBalance(k: Contract, s: State, msgs: seq<Msg>, denom: string)
    requires ExecAll(k, s, msgs).Some?
    ensures var s' := ExecAll(k, s, msgs).value;
            && Balance(s'.bank, k.addr, denom) + OutFlow(msgs, k.addr, denom)
               == Balance(s.bank, k.addr, denom) + InFlow(msgs, k.addr, denom)
            && s'.store == s.store.(denomToHash := s'.store.denomToHash, hashToDenom := s'.store.hashToDenom)
            && (Balance(s.bank, k.addr, denom) <= BALANCE_MAX ==> Balance(s'.bank, k.addr, denom) <= BALANCE_MAX)
  {
    hide Exec, OutOf, Into, Balance;
    if msgs != [] {
      var n := |msgs| - 1;
      ExecAllBalance(k, s, msgs[..n], denom);
      ExecBalance(k, ExecAll(k, s, msgs[..n]).value, msgs[n], denom);
    }
  }

  lemma {:induction false} MoveCoinsBalance(b: Bank, from: string, self: string, coins: seq<Coin>, denom: string)
    requires from != self && MoveCoins(b, from, self, coins).Some?
    ensures var b' := MoveCoins(b, from, self, coins).value;
            && Balance(b', self, denom) == Balance(b, self, denom) + SumCoins(coins, denom)
            && (Balance(b, self, denom) <= BALANCE_MAX ==> Balance(b', self, denom) <= BALANCE_MAX)
            && b'.created == b.created && b'.supply == b.supply
  {
    hide Move;
    if coins != [] {
      var n := |coins| - 1;
      MoveCoinsBalance(b, from, self, coins[..n], denom);
      var b1 := MoveCoins(b, from, self, coins[..n]).value;
      MoveBalance(b1, from, self, coins[n].denom, coins[n].amount, self, denom);
    }
  }

  function SumCoins(coins: seq<Coin>, denom: string): nat {
    if coins == [] then 0
    else
      var n := |coins| - 1;
      SumCoins(coins[..n], denom) + (if coins[n].denom == denom then coins[n].amount else 0)
  }

  function SumTokens(tokens: seq<Token>, denom: string): nat {
    if tokens == [] then 0
    else
      var n := |tokens| - 1;
      SumTokens(tokens[..n], denom) + (if tokens[n].denom == denom then tokens[n].amount else 0)
  }

  // ---------------------------------------------------------------- receiving

  /** Escrow is only ever released by a receive: no total grows, no key appears. */
  lemma {:induction false} ReceiveReleases(k: Contract, s: Store, ch: ChannelInfo, receiver: string, relayer: string,
                                           cutFees: bool, tokens: seq<Token>, denom: string)
    ensures var (s', r) := ReceiveTokens(k, s, ch, receiver, relayer, cutFees, tokens);
            && s' == s.(outstanding := s'.outstanding)
            && s'.outstanding.Keys == s.outstanding.Keys
            && Total(s'.outstanding, denom) <= Total(s.outstanding, denom)
            && (r.Ok? ==>
                  OutFlow(r.value.msgs, k.addr, denom) <= Total(s.outstanding, denom) - Total(s'.outstanding, denom))
  {
    if tokens != [] {
      var n := |tokens| - 1;
      ReceiveReleases(k, s, ch, receiver, relayer, cutFees, tokens[..n], denom);
      var (s1, r1) := ReceiveTokens(k, s, ch, receiver, relayer, cutFees, tokens[..n]);
      if r1.Ok? {
        ReceiveTokenReleases(k, s1, ch, receiver, relayer, cutFees, tokens[n], denom);
        var (_, r2) := ReceiveToken(k, s1, ch, receiver, relayer, cutFees, tokens[n]);
        if r2.Ok? {
          FlowConcat(r1.value.msgs, r2.value.msgs, k.addr, denom);
        }
      }
    }
  }

  lemma FlowOfPayments(m1: Msg, a1: nat, m2: Msg, a2: nat, self: string, denom: string)
    ensures var msgs := Payments(m1, a1, m2, a2);
            && OutFlow(msgs, self, denom)
               == (if a1 == 0 then 0 else OutOf(m1, self, denom)) + (if a2 == 0 then 0 else OutOf(m2, self, denom))
            && InFlow(msgs, self, denom)
               == (if a1 == 0 then 0 else Into(m1, self, denom)) + (if a2 == 0 then 0 else Into(m2, self, denom))
  {
    hide Origin, Contract.FactoryDenom, MakeForeignDenom;
    FlowConcat(if a1 == 0 then [] else [m1], if a2 == 0 then [] else [m2], self, denom);
    SingleFlow(m1, self, denom);
    SingleFlow(m2, self, denom);
  }

  lemma SingleFlow(m: Msg, self: string, denom: string)
    ensures OutFlow([m], self, denom) == OutOf(m, self, denom) && InFlow([m], self, denom) == Into(m, self, denom)
  {
  }

  lemma ReceiveTokenReleases(k: Contract, s: Store, ch: ChannelInfo, receiver: string, relayer: string,
                             cutFees: bool, t: Token, denom: string)
    ensures var (s', r) := ReceiveToken(k, s, ch, receiver, relayer, cutFees, t);
            && s' == s.(outstanding := s'.outstanding)
            && s'.outstanding.Keys == s.outstanding.Keys
            && Total(s'.outstanding, denom) <= Total(s.outstanding, denom)
            && (r.Ok? ==>
                  OutFlow(r.value.msgs, k.addr, denom) <= Total(s.outstanding, denom) - Total(s'.outstanding, denom))
  {
    hide Origin, Contract.FactoryDenom, MakeForeignDenom, Cut, ReceiveRemote, ReceiveLocal;
    var (actual, fee) := Cut(cutFees, t);
    var d := Origin(t.denom, ch.counterparty).denom;
    ReceiveLocalReleases(s, ch.endpoint.channel, receiver, relayer, actual, fee, t, d, k.addr, denom);
    FlowOfMint(k, s, ch.endpoint, receiver, relayer, actual, fee, t, d, denom);
  }

  /** A released token pays out its whole amount, to accounts other than the contract at most. */
  lemma ReceiveLocalReleases(s: Store, channel: string, receiver: string, relayer: string, actual: nat, fee: nat,
                             t: Token, d: string, self: string, denom: string)
    requires actual + fee == t.amount
    ensures var (s', r) := ReceiveLocal(s, channel, receiver, relayer, actual, fee, t, d);
            && s' == s.(outstanding := s'.outstanding)
            && s'.outstanding.Keys == s.outstanding.Keys
            && Total(s'.outstanding, denom)
               == Total(s.outstanding, denom) - (if r.Ok? && d == denom then t.amount else 0)
            && (r.Ok? ==>
                  && r.value.tokens == [NormalizedToken(t.denom, t.(denom := d))]
                  && InFlow(r.value.msgs, self, denom) == 0
                  && OutFlow(r.value.msgs, self, denom)
                     == if d == denom then (if receiver != self then actual else 0)
                        + (if relayer != self then fee else 0)
                        else 0)
  {
    hide Total, OutFlow, InFlow, Payments;
    if (channel, d) in s.outstanding && t.amount <= s.outstanding[(channel, d)] {
      TotalUpdate(s.outstanding, channel, d, s.outstanding[(channel, d)] - t.amount, denom);
      FlowOfPayments(BankSend(receiver, d, actual), actual, BankSend(relayer, d, fee), fee, self, denom);
    }
  }

  lemma FlowOfMint(k: Contract, s: Store, ep: Endpoint, receiver: string, relayer: string, actual: nat, fee: nat,
                   t: Token, d: string, denom: string)
    ensures var msgs := ReceiveRemote(k, s, ep, receiver, relayer, actual, fee, t, d).msgs;
            var voucher := k.FactoryDenom(MakeForeignDenom(ep, d));
            && OutFlow(msgs, k.addr, denom) == 0
            && InFlow(msgs, k.addr, denom)
               == (if voucher == denom && receiver == k.addr then actual else 0)
                  + (if voucher == denom && relayer == k.addr then fee else 0)
  {
    hide Origin, Contract.FactoryDenom, MakeForeignDenom;
    var foreign := MakeForeignDenom(ep, d);
    var voucher := k.FactoryDenom(foreign);
    var creation := Creation(k, s, ep, foreign);
    FlowConcat(creation, Payments(Mint(voucher, actual, receiver), actual, Mint(voucher, fee, relayer), fee),
      k.addr, denom);
    FlowOfPayments(Mint(voucher, actual, receiver), actual, Mint(voucher, fee, relayer), fee, k.addr, denom);
    if creation != [] {
      FlowConcat([creation[0]], [creation[1]], k.addr, denom);
      SingleFlow(creation[0], k.addr, denom);
      SingleFlow(creation[1], k.addr, denom);
      assert creation == [creation[0]] + [creation[1]];
    }
  }

  /** A hop received on the contract's own account keeps everything there: what escrow releases and
      what is minted is exactly what the hop will send on. */
  lemma {:induction false} HopReceiveKeeps(k: Contract, s: Store, ch: ChannelInfo, relayer: string,
                                           tokens: seq<Token>, denom: string)
    ensures var (s', r) := ReceiveTokens(k, s, ch, k.addr, relayer, false, tokens);
            r.Ok? ==>
              && OutFlow(r.value.msgs, k.addr, denom) == 0
              && InFlow(r.value.msgs, k.addr, denom) + Total(s.outstanding, denom) - Total(s'.outstanding, denom)
                 == SumCoins(CoinsOf(r.value.tokens), denom)
  {
    if tokens != [] {
      var n := |tokens| - 1;
      HopReceiveKeeps(k, s, ch, relayer, tokens[..n], denom);
      var (s1, r1) := ReceiveTokens(k, s, ch, k.addr, relayer, false, tokens[..n]);
      if r1.Ok? {
        HopReceiveTokenKeeps(k, s1, ch, relayer, tokens[n], denom);
        var (_, r2) := ReceiveToken(k, s1, ch, k.addr, relayer, false, tokens[n]);
        if r2.Ok? {
          FlowConcat(r1.value.msgs, r2.value.msgs, k.addr, denom);
          var all := CoinsOf(r1.value.tokens + r2.value.tokens);
          assert |r2.value.tokens| == 1;
          assert all[..|all| - 1] == CoinsOf(r1.value.tokens);
        }
      }
    }
  }

  lemma HopReceiveTokenKeeps(k: Contract, s: Store, ch: ChannelInfo, relayer: string, t: Token, denom: string)
    ensures var (s', r) := ReceiveToken(k, s, ch, k.addr, relayer, false, t);
            r.Ok? ==>
              && |r.value.tokens| == 1
              && OutFlow(r.value.msgs, k.addr, denom) == 0
              && InFlow(r.value.msgs, k.addr, denom) + Total(s.outstanding, denom) - Total(s'.outstanding, denom)
                 == if r.value.tokens[0].token.denom == denom then r.value.tokens[0].token.amount else 0
  {
    hide Origin, Contract.FactoryDenom, MakeForeignDenom, ReceiveLocal;
    var d := Origin(t.denom, ch.counterparty).denom;
    ReceiveLocalReleases(s, ch.endpoint.channel, k.addr, relayer, t.amount, 0, t, d, k.addr, denom);
    FlowOfMint(k, s, ch.endpoint, k.addr, relayer, t.amount, 0, t, d, denom);
  }

  // ---------------------------------------------------------------- the denomination index

  /** The two maps are inverse for every endpoint, every hash is the hash of its preimage, and every
      preimage carries the prefix of its endpoint. */
  ghost predicate Index(k: Contract, s: Store) {
    && (forall ep, x :: (ep, x) in s.denomToHash ==>
          && s.denomToHash[(ep, x)] == k.hash(x)
          && Origin(x, ep).Local?
          && x in k.names
          && (ep, k.hash(x)) in s.hashToDenom && s.hashToDenom[(ep, k.hash(x))] == x)
    && (forall ep, h :: (ep, h) in s.hashToDenom ==>
          && k.hash(s.hashToDenom[(ep, h)]) == h
          && (ep, s.hashToDenom[(ep, h)]) in s.denomToHash)
  }

  ghost predicate Registers(k: Contract, msgs: seq<Msg>) {
    forall i :: 0 <= i < |msgs| && msgs[i].RegisterDenom? ==>
      && msgs[i].hash == k.hash(msgs[i].foreign)
      && Origin(msgs[i].foreign, msgs[i].endpoint).Local?
      && msgs[i].foreign in k.names
  }

  lemma {:induction false} ReceiveRegisters(k: Contract, s: Store, ch: ChannelInfo, receiver: string, relayer: string,
                                            cutFees: bool, tokens: seq<Token>)
    requires InPlay(k, ch, tokens)
    ensures var r := ReceiveTokens(k, s, ch, receiver, relayer, cutFees, tokens).1;
            r.Ok? ==> Registers(k, r.value.msgs)
  {
    hide Origin, Contract.FactoryDenom, MakeForeignDenom;
    if tokens != [] {
      var n := |tokens| - 1;
      ReceiveRegisters(k, s, ch, receiver, relayer, cutFees, tokens[..n]);
      var d := Origin(tokens[n].denom, ch.counterparty).denom;
      OriginOfForeign(ch.endpoint, d);
      OriginLocalIff(tokens[n].denom, ch.counterparty, d);
    }
  }

  lemma {:induction false} ForTokensRegistersNothing(k: Contract, mode: Mode, e: Escrow, ep: Endpoint,
                                                     tokens: seq<Token>)
    ensures var r := ForTokens(k, mode, e, ep, tokens).1;
            r.Ok? ==> Registers(k, r.value)
  {
    hide Origin, Contract.FactoryDenom, MakeForeignDenom;
    if tokens != [] {
      ForTokensRegistersNothing(k, mode, e, ep, tokens[..|tokens| - 1]);
    }
  }

  lemma {:induction false} ExecAllKeepsIndex(k: Contract, s: State, msgs: seq<Msg>)
    requires k.Injective() && Index(k, s.store) && Registers(k, msgs) && ExecAll(k, s, msgs).Some?
    ensures Index(k, ExecAll(k, s, msgs).value.store)
  {
    if msgs != [] {
      var n := |msgs| - 1;
      ExecAllKeepsIndex(k, s, msgs[..n]);
      var s1 := ExecAll(k, s, msgs[..n]).value;
      var msg := msgs[n];
      if msg.RegisterDenom? {
        var s' := Exec(k, s1, msg).value.store;
        forall ep, x | (ep, x) in s'.denomToHash
          ensures && s'.denomToHash[(ep, x)] == k.hash(x) && Origin(x, ep).Local? && x in k.names
                  && (ep, k.hash(x)) in s'.hashToDenom && s'.hashToDenom[(ep, k.hash(x))] == x
        {
          if (ep, x) != (msg.endpoint, msg.foreign) {
            assert (ep, x) in s1.store.denomToHash;
          }
        }
      }
    }
  }

  // ---------------------------------------------------------------- sending

  /** What a token becomes on the wire: either itself, or the preimage of the voucher it is. */
  ghost predicate SameToken(k: Contract, ep: Endpoint, t: Token, wire: Token) {
    && wire.amount == t.amount
    && wire.fee == t.fee
    && match Origin(wire.denom, ep)
       case Local(x) => k.FactoryDenom(MakeForeignDenom(ep, x)) == t.denom && wire.denom in k.names
       case Remote(_) => wire.denom == t.denom
  }

  /** Normalizing a denomination held in the bank never panics, and sending the result burns or
      escrows exactly that denomination. */
  lemma NormalizeSound(k: Contract, s: Store, ep: Endpoint, t: Token)
    requires Index(k, s) && Clean(k, t.denom) && ep.port == k.Port()
    ensures var r := k.Normalize(s.hashToDenom, ep, t.denom);
            r.Ok? && SameToken(k, ep, t, t.(denom := r.value))
  {
    hide Origin, Contract.FactoryDenom, MakeForeignDenom, Contract.VoucherHash, Hex, Unhex, Clean;
    CleanIsRemote(k, ep, t.denom);
    if k.VoucherHash(t.denom).Some? {
      var x := VoucherPreimage(k, t.denom);
      if (ep, k.hash(x)) in s.hashToDenom {
        IndexedVoucher(k, s, ep, x);
      }
    }
  }

  /** A voucher of the bank is the one of some foreign denomination, whose hash its name spells. */
  lemma VoucherPreimage(k: Contract, denom: string) returns (x: string)
    requires Clean(k, denom) && k.VoucherHash(denom).Some?
    ensures denom == k.FactoryDenom(x)
    ensures k.VoucherHash(denom) == Some(Hex(k.hash(x))) && Unhex(Hex(k.hash(x))) == Some(k.hash(x))
  {
    hide Contract.FactoryDenom, Contract.VoucherHash, Hex, Unhex;
    x :| denom == k.FactoryDenom(x);
    k.VoucherHashOfFactory(x);
    UnhexHex(k.hash(x));
  }

  lemma IndexedVoucher(k: Contract, s: Store, ep: Endpoint, x: string)
    requires Index(k, s) && (ep, k.hash(x)) in s.hashToDenom
    ensures var p := s.hashToDenom[(ep, k.hash(x))];
            && p in k.names && Origin(p, ep).Local? && p == MakeForeignDenom(ep, Origin(p, ep).denom)
            && k.FactoryDenom(p) == k.FactoryDenom(x)
  {
    hide Origin, Contract.FactoryDenom, MakeForeignDenom;
    var p := s.hashToDenom[(ep, k.hash(x))];
    OriginLocalIff(p, ep, Origin(p, ep).denom);
    SameVoucher(k, p, x);
  }

  lemma CleanIsRemote(k: Contract, ep: Endpoint, denom: string)
    requires Clean(k, denom) && ep.port == k.Port()
    ensures Origin(denom, ep) == Remote(denom)
  {
  }

  lemma SameVoucher(k: Contract, x: string, y: string)
    requires k.hash(x) == k.hash(y)
    ensures k.FactoryDenom(x) == k.FactoryDenom(y)
  {
  }

  ghost predicate SameTokens(k: Contract, ep: Endpoint, tokens: seq<Token>, wire: seq<Token>) {
    |wire| == |tokens| && forall i :: 0 <= i < |tokens| ==> SameToken(k, ep, tokens[i], wire[i])
  }

  lemma {:induction false} NormalizeTokensSound(k: Contract, s: Store, ep: Endpoint, tokens: seq<Token>)
    requires Index(k, s) && ep.port == k.Port()
    requires forall i :: 0 <= i < |tokens| ==> Clean(k, tokens[i].denom)
    ensures var r := NormalizeTokens(k, s, ep, tokens);
            r.Ok? && SameTokens(k, ep, tokens, r.value)
  {
    if tokens != [] {
      var n := |tokens| - 1;
      NormalizeTokensSound(k, s, ep, tokens[..n]);
      NormalizeSound(k, s, ep, tokens[n]);
    }
  }

  /** Escrowing adds to each outstanding amount of the channel exactly what the wire tokens that are
      remote to it carry in that denomination, and touches nothing else. */
  lemma {:induction false} EscrowExact(k: Contract, e: Escrow, ep: Endpoint, wire: seq<Token>, channel: string,
                                       denom: string)
    ensures var (e', r) := ForTokens(k, Escrowing, e, ep, wire);
            && !r.Panic?
            && (r.Ok? ==>
                  Outstanding(e', channel, denom) == Outstanding(e, channel, denom)
                  + (if channel == ep.channel && Origin(denom, ep).Remote? then SumTokens(wire, denom) else 0))
            && (forall key :: key in e' ==>
               key in e || exists i :: 0 <= i < |wire| && Origin(wire[i].denom, ep).Remote? && key.1 == wire[i].denom)
  {
    if wire != [] {
      var n := |wire| - 1;
      EscrowExact(k, e, ep, wire[..n], channel, denom);
      OriginLocalIff(wire[n].denom, ep, "");
    }
  }

  lemma {:induction false} EscrowFits(k: Contract, e: Escrow, ep: Endpoint, wire: seq<Token>)
    requires forall d :: Origin(d, ep).Remote? ==> Outstanding(e, ep.channel, d) + SumTokens(wire, d) <= U512_MAX
    ensures ForTokens(k, Escrowing, e, ep, wire).1.Ok?
  {
    if wire != [] {
      var n := |wire| - 1;
      var t := wire[n];
      forall d | Origin(d, ep).Remote?
        ensures Outstanding(e, ep.channel, d) + SumTokens(wire[..n], d) <= U512_MAX
      {
        assert SumTokens(wire[..n], d) <= SumTokens(wire, d);
      }
      EscrowFits(k, e, ep, wire[..n]);
      EscrowExact(k, e, ep, wire[..n], ep.channel, t.denom);
      OriginLocalIff(t.denom, ep, "");
      if Origin(t.denom, ep).Remote? {
        assert SumTokens(wire, t.denom) == SumTokens(wire[..n], t.denom) + t.amount;
      }
    }
  }

  /** Every unit handed to `send` is either escrowed or burned. */
  lemma {:induction false} EscrowFlow(k: Contract, e: Escrow, ep: Endpoint, tokens: seq<Token>, wire: seq<Token>,
                                      denom: string)
    requires SameTokens(k, ep, tokens, wire)
    ensures var (e', r) := ForTokens(k, Escrowing, e, ep, wire);
            r.Ok? ==>
              && Total(e', denom) + OutFlow(r.value, k.addr, denom) == Total(e, denom) + SumTokens(tokens, denom)
              && InFlow(r.value, k.addr, denom) == 0
  {
    hide Origin, Contract.FactoryDenom, MakeForeignDenom;
    if wire != [] {
      var n := |wire| - 1;
      assert SameTokens(k, ep, tokens[..n], wire[..n]);
      EscrowFlow(k, e, ep, tokens[..n], wire[..n], denom);
      var (e1, r1) := ForTokens(k, Escrowing, e, ep, wire[..n]);
      if r1.Ok? {
        assert SameToken(k, ep, tokens[n], wire[n]);
        EscrowTokenFlow(k, e1, ep, tokens[n], wire[n], denom);
        var r2 := ForToken(k, Escrowing, e1, ep, wire[n]).1;
        if r2.Ok? {
          FlowConcat(r1.value, r2.value, k.addr, denom);
        }
      }
    }
  }

  lemma EscrowTokenFlow(k: Contract, e: Escrow, ep: Endpoint, t: Token, wire: Token, denom: string)
    requires SameToken(k, ep, t, wire)
    ensures var (e', r) := ForToken(k, Escrowing, e, ep, wire);
            r.Ok? ==>
              && Total(e', denom) + OutFlow(r.value, k.addr, denom)
                 == Total(e, denom) + (if t.denom == denom then t.amount else 0)
              && InFlow(r.value, k.addr, denom) == 0
  {
    OriginLocalIff(wire.denom, ep, "");
    hide Origin, Contract.FactoryDenom, MakeForeignDenom, Amounts;
    if Origin(wire.denom, ep).Local? {
      var d := Origin(wire.denom, ep).denom;
      SingleFlow(Burn(k.FactoryDenom(MakeForeignDenom(ep, d)), t.amount), k.addr, denom);
    } else {
      OnLocalFlow(Escrowing, e, ep.channel, t.denom, t.amount, k.addr, denom);
    }
  }

  /** `on_local` moves the total by what it escrows, and pays out exactly what it releases. */
  lemma OnLocalFlow(mode: Mode, e: Escrow, channel: string, d: string, amount: nat, self: string, denom: string)
    ensures var (e', r) := OnLocal(mode, e, channel, d, amount);
            && (mode.Refunding? ==>
                  e'.Keys == e.Keys
                  && Total(e', denom) == Total(e, denom) - (if r.Ok? && d == denom then amount else 0))
            && (r.Ok? ==>
                  && InFlow(r.value, self, denom) == 0
                  && (mode.Escrowing? ==>
                        OutFlow(r.value, self, denom) == 0
                        && Total(e', denom) == Total(e, denom) + (if d == denom then amount else 0))
                  && OutFlow(r.value, self, denom)
                     == if mode.Refunding? && mode.receiver != self && d == denom then amount else 0)
  {
    match mode
    case Escrowing => TotalUpdate(e, channel, d, Outstanding(e, channel, d) + amount, denom);
    case Refunding(to) =>
      SingleFlow(BankSend(to, d, amount), self, denom);
      if (channel, d) in e && amount <= e[(channel, d)] {
        TotalUpdate(e, channel, d, e[(channel, d)] - amount, denom);
      }
  }

  /** A refund takes out of the account `self` exactly what it takes off the outstanding amounts, unless it
      pays that account itself. */
  lemma {:induction false} RefundFlow(k: Contract, e: Escrow, ep: Endpoint, wire: seq<Token>, to: string, self: string,
                                      denom: string)
    ensures var (e', r) := ForTokens(k, Refunding(to), e, ep, wire);
            && e'.Keys == e.Keys
            && Total(e', denom) <= Total(e, denom)
            && (r.Ok? ==> OutFlow(r.value, self, denom) == if to == self then 0 else Total(e, denom) - Total(e', denom))
  {
    hide Origin, Contract.FactoryDenom, MakeForeignDenom, Amounts, OnLocal, Total;
    if wire != [] {
      var n := |wire| - 1;
      RefundFlow(k, e, ep, wire[..n], to, self, denom);
      var (e1, r1) := ForTokens(k, Refunding(to), e, ep, wire[..n]);
      if r1.Ok? {
        var t := wire[n];
        var r2 := ForToken(k, Refunding(to), e1, ep, t).1;
        var d := Origin(t.denom, ep).denom;
        OnLocalFlow(Refunding(to), e1, ep.channel, d, t.amount, self, denom);
        SingleFlow(Mint(k.FactoryDenom(MakeForeignDenom(ep, d)), t.amount, to), self, denom);
        if r2.Ok? {
          FlowConcat(r1.value, r2.value, self, denom);
        }
      }
    }
  }

  // ---------------------------------------------------------------- execute_transfer

  ghost predicate Distinct(coins: seq<Coin>) {
    forall i, j :: 0 <= i < j < |coins| ==> coins[i].denom != coins[j].denom
  }

  lemma {:induction false} ToCoinsReturns(funds: seq<Coin>)
    ensures !ToCoins(funds).Panic?
  {
    if funds != [] {
      ToCoinsReturns(funds[..|funds| - 1]);
    }
  }

  lemma {:induction false} ToCoinsSound(funds: seq<Coin>, denom: string)
    requires ToCoins(funds).Ok?
    ensures var coins := ToCoins(funds).value;
            && Distinct(coins)
            && SumCoins(coins, denom) == SumCoins(funds, denom)
            && (forall i :: 0 <= i < |coins| ==> coins[i] in funds)
  {
    if funds != [] {
      var n := |funds| - 1;
      ToCoinsSound(funds[..n], denom);
      assert forall coin :: coin in funds[..n] ==> coin in funds;
      var coins := ToCoins(funds[..n]).value;
      InsertSum(coins, funds[n], denom);
      InsertMembers(coins, funds[n]);
      if funds[n].amount != 0 {
        InsertDistinct(coins, funds[n]);
        var r := InsertCoin(coins, funds[n]);
        assert forall i :: 0 <= i < |r| ==> r[i] in r;
      }
    }
  }

  lemma {:induction false} InsertSum(coins: seq<Coin>, coin: Coin, denom: string)
    ensures SumCoins(InsertCoin(coins, coin), denom)
            == SumCoins(coins, denom) + (if coin.denom == denom then coin.amount else 0)
  {
    hide Before;
    if coins != [] {
      var n := |coins| - 1;
      InsertSum(coins[..n], coin, denom);
      var r := InsertCoin(coins[..n], coin);
      assert (coins + [coin])[..|coins|] == coins && (r + [coins[n]])[..|r|] == r;
    }
  }

  lemma {:induction false} InsertMembers(coins: seq<Coin>, coin: Coin)
    ensures forall x :: x in InsertCoin(coins, coin) <==> x == coin || x in coins
  {
    hide Before;
    if coins != [] {
      var n := |coins| - 1;
      InsertMembers(coins[..n], coin);
      assert forall x :: x in coins <==> x in coins[..n] || x == coins[n];
    }
  }

  /** Inserting a coin with a new denomination keeps the denominations distinct. */
  lemma {:induction false} InsertDistinct(coins: seq<Coin>, coin: Coin)
    requires Distinct(coins) && forall x :: x in coins ==> x.denom != coin.denom
    ensures Distinct(InsertCoin(coins, coin))
  {
    hide Before, Distinct;
    if coins == [] {
      AppendDistinct([], coin);
      assert [] + [coin] == [coin];
    } else {
      var n := |coins| - 1;
      var front := coins[..n];
      FrontDistinct(coins);
      InsertDistinct(front, coin);
      InsertMembers(front, coin);
      assert coins[n] in coins;
      AppendDistinct(coins, coin);
      AppendDistinct(InsertCoin(front, coin), coins[n]);
    }
  }

  lemma AppendDistinct(coins: seq<Coin>, coin: Coin)
    requires coins == [] || Distinct(coins)
    ensures (forall x :: x in coins ==> x.denom != coin.denom) ==> Distinct(coins + [coin])
  {
    assert forall i :: 0 <= i < |coins| ==> coins[i] in coins;
  }

  lemma FrontDistinct(coins: seq<Coin>)
    requires coins != [] && Distinct(coins)
    ensures var n := |coins| - 1;
            Distinct(coins[..n]) && forall x :: x in coins[..n] ==> x in coins && x.denom != coins[n].denom
  {
  }

  lemma {:induction false} DistinctSum(coins: seq<Coin>, denom: string)
    requires Distinct(coins)
    ensures SumCoins(coins, denom) <= U128_MAX
    ensures (forall i :: 0 <= i < |coins| ==> coins[i].denom != denom) ==> SumCoins(coins, denom) == 0
  {
    if coins != [] {
      DistinctSum(coins[..|coins| - 1], denom);
    }
  }

  lemma {:induction false} AttachFeesSum(coins: seq<Coin>, fees: Option<FeeMap>, denom: string)
    ensures SumTokens(AttachFees(coins, fees), denom) == SumCoins(coins, denom)
  {
    if coins != [] {
      var n := |coins| - 1;
      AttachFeesSum(coins[..n], fees, denom);
      assert AttachFees(coins, fees)[..n] == AttachFees(coins[..n], fees);
    }
  }

  lemma {:induction false} WireSum(k: Contract, ep: Endpoint, tokens: seq<Token>, wire: seq<Token>, denom: string)
    requires SameTokens(k, ep, tokens, wire) && Origin(denom, ep).Remote?
    ensures SumTokens(wire, denom) <= SumTokens(tokens, denom)
  {
    if wire != [] {
      var n := |wire| - 1;
      assert SameTokens(k, ep, tokens[..n], wire[..n]);
      WireSum(k, ep, tokens[..n], wire[..n], denom);
      assert SameToken(k, ep, tokens[n], wire[n]);
    }
  }

  ghost predicate ChannelsOk(k: Contract, s: Store) {
    forall c :: c in s.channels ==> s.channels[c].endpoint == Endpoint(k.Port(), c)
  }

  ghost predicate KeysClean(k: Contract, e: Escrow) {
    forall c, d :: (c, d) in e ==> Clean(k, d)
  }

  ghost predicate CleanCoins(k: Contract, coins: seq<Coin>) {
    forall i :: 0 <= i < |coins| ==> Clean(k, coins[i].denom)
  }

  /** A transfer never panics on clean funds, an error leaves the storage as it was, and a success
      adds all the funds to what is owed or burns them. */
  lemma TransferFlow(k: Contract, s: Store, sender: string, funds: seq<Coin>, msg: TransferMsg, denom: string)
    requires Index(k, s) && ChannelsOk(k, s) && KeysClean(k, s.outstanding) && CleanCoins(k, funds)
    requires forall c, d :: Outstanding(s.outstanding, c, d) <= BALANCE_MAX
    ensures var (s', r) := ExecuteTransfer(k, s, sender, funds, msg);
            && !r.Panic?
            && s' == s.(outstanding := s'.outstanding)
            && (r.Err? ==> s' == s)
            && (r.Ok? ==>
                  && Total(s'.outstanding, denom) + OutFlow(r.value.msgs, k.addr, denom)
                     == Total(s.outstanding, denom) + SumCoins(funds, denom)
                  && InFlow(r.value.msgs, k.addr, denom) == 0
                  && KeysClean(k, s'.outstanding)
                  && Registers(k, r.value.msgs)
                  && r.value.channel == msg.channel && msg.channel in s.channels)
  {
    var coins := ToCoins(funds);
    ToCoinsReturns(funds);
    if coins.Ok? && coins.value != [] && msg.channel in s.channels {
      var ch := s.channels[msg.channel];
      var tokens := AttachFees(coins.value, msg.fees);
      ToCoinsSound(funds, denom);
      assert CleanCoins(k, coins.value) by {
        forall i | 0 <= i < |coins.value| ensures Clean(k, coins.value[i].denom) {
          assert coins.value[i] in funds;
        }
      }
      SendFlow(k, s, ch, sender, msg.receiver, coins.value, msg.fees, msg.memo, denom);
    }
  }

  lemma SendFlow(k: Contract, s: Store, ch: ChannelInfo, sender: string, receiver: string, coins: seq<Coin>,
                 fees: Option<FeeMap>, memo: Memo, denom: string)
    requires Index(k, s) && ch.endpoint.port == k.Port() && KeysClean(k, s.outstanding)
    requires CleanCoins(k, coins) && Distinct(coins)
    requires forall c, d :: Outstanding(s.outstanding, c, d) <= BALANCE_MAX
    ensures var (s', r) := Send(k, s, ch, sender, receiver, AttachFees(coins, fees), memo);
            && !r.Panic?
            && s' == s.(outstanding := s'.outstanding)
            && (r.Err? ==> s' == s)
            && (r.Ok? ==>
                  && Total(s'.outstanding, denom) + OutFlow(r.value.msgs, k.addr, denom)
                     == Total(s.outstanding, denom) + SumCoins(coins, denom)
                  && InFlow(r.value.msgs, k.addr, denom) == 0
                  && KeysClean(k, s'.outstanding)
                  && Registers(k, r.value.msgs)
                  && r.value.channel == ch.endpoint.channel)
  {
    var tokens := AttachFees(coins, fees);
    NormalizeTokensSound(k, s, ch.endpoint, tokens);
    var wire := NormalizeTokens(k, s, ch.endpoint, tokens).value;
    if CheckPacket(ch.version, wire).Ok? {
      WireFits(k, s.outstanding, ch.endpoint, coins, fees, wire);
      EscrowFlow(k, s.outstanding, ch.endpoint, tokens, wire, denom);
      AttachFeesSum(coins, fees, denom);
      ForTokensRegistersNothing(k, Escrowing, s.outstanding, ch.endpoint, wire);
      EscrowKeysClean(k, s.outstanding, ch.endpoint, tokens, wire);
    }
  }

  lemma WireFits(k: Contract, e: Escrow, ep: Endpoint, coins: seq<Coin>, fees: Option<FeeMap>, wire: seq<Token>)
    requires SameTokens(k, ep, AttachFees(coins, fees), wire) && Distinct(coins)
    requires forall c, d :: Outstanding(e, c, d) <= BALANCE_MAX
    ensures ForTokens(k, Escrowing, e, ep, wire).1.Ok?
  {
    forall d | Origin(d, ep).Remote?
      ensures Outstanding(e, ep.channel, d) + SumTokens(wire, d) <= U512_MAX
    {
      WireSum(k, ep, AttachFees(coins, fees), wire, d);
      AttachFeesSum(coins, fees, d);
      DistinctSum(coins, d);
    }
    EscrowFits(k, e, ep, wire);
  }

  lemma EscrowKeysClean(k: Contract, e: Escrow, ep: Endpoint, tokens: seq<Token>, wire: seq<Token>)
    requires SameTokens(k, ep, tokens, wire) && KeysClean(k, e)
    requires forall i :: 0 <= i < |tokens| ==> Clean(k, tokens[i].denom)
    ensures KeysClean(k, ForTokens(k, Escrowing, e, ep, wire).0)
  {
    EscrowExact(k, e, ep, wire, "", "");
    forall c, d | (c, d) in ForTokens(k, Escrowing, e, ep, wire).0
      ensures Clean(k, d)
    {
      if (c, d) !in e {
        var i :| 0 <= i < |wire| && Origin(wire[i].denom, ep).Remote? && d == wire[i].denom;
        assert SameToken(k, ep, tokens[i], wire[i]);
      }
    }
  }
}
