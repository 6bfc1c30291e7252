/** The invariant of a relay contract over every run: solvency, agreement of the denomination
    indexes, and cleanliness of everything it owes. */
module Reachable {
  import opened Wrappers
  import opened Denoms
  import opened Fees
  import opened RelaySpec
  import opened Host
  import opened Solvency

  ghost predicate Solvent(k: Contract, s: State) {
    forall d :: Total(s.store.outstanding, d) <= Balance(s.bank, k.addr, d) <= BALANCE_MAX
  }

  ghost predicate Inv(k: Contract, s: State) {
    Solvent(k, s) && Index(k, s.store) && KeysClean(k, s.store.outstanding) && ChannelsOk(k, s.store)
  }

  lemma InitInv(k: Contract, n: Node)
    requires Init(k, n)
    ensures Inv(k, n.state)
  {
  }

  lemma SmallOutstanding(k: Contract, s: State, channel: string, denom: string)
    requires Solvent(k, s)
    ensures Outstanding(s.store.outstanding, channel, denom) <= BALANCE_MAX
  {
    OutstandingWithinTotal(s.store.outstanding, channel, denom);
  }

  /** Messages whose flow is covered by what escrow was released keep the contract solvent. */
  lemma ExecKeepsInv(k: Contract, s: State, msgs: seq<Msg>)
    requires k.Injective()
    requires Index(k, s.store) && KeysClean(k, s.store.outstanding) && ChannelsOk(k, s.store) && Registers(k, msgs)
    requires forall d ::
               && Total(s.store.outstanding, d) + OutFlow(msgs, k.addr, d)
                  <= Balance(s.bank, k.addr, d) + InFlow(msgs, k.addr, d)
               && Balance(s.bank, k.addr, d) <= BALANCE_MAX
    requires ExecAll(k, s, msgs).Some?
    ensures Inv(k, ExecAll(k, s, msgs).value)
  {
    var s' := ExecAll(k, s, msgs).value;
    ExecAllKeepsIndex(k, s, msgs);
    forall d ensures Total(s'.store.outstanding, d) <= Balance(s'.bank, k.addr, d) <= BALANCE_MAX {
      ExecAllBalance(k, s, msgs, d);
    }
    ExecAllBalance(k, s, msgs, "");
  }

  lemma TransferKeepsInv(k: Contract, n: Node, sender: string, funds: seq<Coin>, msg: TransferMsg)
    requires k.Injective() && Inv(k, n.state) && sender != k.addr && CleanCoins(k, funds)
    requires DoTransfer(k, n, sender, funds, msg).Some?
    ensures Inv(k, DoTransfer(k, n, sender, funds, msg).value.state)
  {
    var s := n.state.store;
    var bank := MoveCoins(n.state.bank, sender, k.addr, funds).value;
    var (s', r) := ExecuteTransfer(k, s, sender, funds, msg);
    forall c, d ensures Outstanding(s.outstanding, c, d) <= BALANCE_MAX {
      SmallOutstanding(k, n.state, c, d);
    }
    hide ExecuteTransfer, MoveCoins;
    forall d
      ensures Total(s'.outstanding, d) + OutFlow(r.value.msgs, k.addr, d)
              <= Balance(bank, k.addr, d) + InFlow(r.value.msgs, k.addr, d)
      ensures Balance(bank, k.addr, d) <= BALANCE_MAX
    {
      TransferFlow(k, s, sender, funds, msg, d);
      MoveCoinsBalance(n.state.bank, sender, k.addr, funds, d);
    }
    TransferFlow(k, s, sender, funds, msg, "");
    ExecKeepsInv(k, State(s', bank), r.value.msgs);
  }

  lemma ReceiveTokensKeepsInv(k: Contract, s: State, ch: ChannelInfo, receiver: string, relayer: string,
                              cutFees: bool, tokens: seq<Token>)
    requires Inv(k, s)
    ensures Inv(k, s.(store := ReceiveTokens(k, s.store, ch, receiver, relayer, cutFees, tokens).0))
  {
    var s' := ReceiveTokens(k, s.store, ch, receiver, relayer, cutFees, tokens).0;
    forall d ensures Total(s'.outstanding, d) <= Balance(s.bank, k.addr, d) <= BALANCE_MAX {
      ReceiveReleases(k, s.store, ch, receiver, relayer, cutFees, tokens, d);
    }
    ReceiveReleases(k, s.store, ch, receiver, relayer, cutFees, tokens, "");
  }

  /** A delivery keeps the invariant whether its batch succeeds or is undone. */
  lemma DeliverKeepsInv(c: AckCodec, k: Contract, n: Node, ch: ChannelInfo, receiver: string, relayer: string,
                        tokens: seq<Token>, id: (string, nat), hostOk: bool)
    requires k.Injective() && Inv(k, n.state) && InPlay(k, ch, tokens)
    requires ReceiveTokens(k, n.state.store, ch, receiver, relayer, true, tokens).1.Ok?
    ensures var (store, r) := ReceiveTokens(k, n.state.store, ch, receiver, relayer, true, tokens);
            Inv(k, DoDeliver(c, k, n.(state := n.state.(store := store)), id, ch.version, r.value.msgs, hostOk).state)
  {
    var s := n.state;
    var (store, r) := ReceiveTokens(k, s.store, ch, receiver, relayer, true, tokens);
    var s1 := s.(store := store);
    var msgs := r.value.msgs;
    ReceiveTokensKeepsInv(k, s, ch, receiver, relayer, true, tokens);
    ReceiveRegisters(k, s.store, ch, receiver, relayer, true, tokens);
    hide ReceiveTokens;
    if ExecAll(k, s1, msgs).Some? {
      forall d
        ensures Total(store.outstanding, d) + OutFlow(msgs, k.addr, d)
                <= Balance(s.bank, k.addr, d) + InFlow(msgs, k.addr, d)
        ensures Balance(s.bank, k.addr, d) <= BALANCE_MAX
      {
        ReceiveReleases(k, s.store, ch, receiver, relayer, true, tokens, d);
      }
      ExecKeepsInv(k, s1, msgs);
    }
  }

  /** The coins of a hop are clean: either released from escrow, or vouchers. */
  lemma {:induction false} HopCoinsClean(k: Contract, s: Store, ch: ChannelInfo, relayer: string, tokens: seq<Token>)
    requires KeysClean(k, s.outstanding)
    ensures var (s', r) := ReceiveTokens(k, s, ch, k.addr, relayer, false, tokens);
            KeysClean(k, s'.outstanding) && (r.Ok? ==> CleanCoins(k, CoinsOf(r.value.tokens)))
  {
    hide Origin, MakeForeignDenom, Contract.FactoryDenom;
    if tokens != [] {
      var n := |tokens| - 1;
      HopCoinsClean(k, s, ch, relayer, tokens[..n]);
      VoucherClean(k, MakeForeignDenom(ch.endpoint, Origin(tokens[n].denom, ch.counterparty).denom));
      var (s1, r1) := ReceiveTokens(k, s, ch, k.addr, relayer, false, tokens[..n]);
      var (s2, r2) := ReceiveToken(k, s1, ch, k.addr, relayer, false, tokens[n]);
      if r1.Ok? && r2.Ok? {
        assert Clean(k, r2.value.tokens[0].token.denom);
        assert CoinsOf(r1.value.tokens + r2.value.tokens) == CoinsOf(r1.value.tokens) + CoinsOf(r2.value.tokens);
      }
    }
  }

  lemma VoucherClean(k: Contract, foreign: string)
    ensures Clean(k, k.FactoryDenom(foreign))
  {
    assert k.FactoryDenom(foreign)[0] == 'f' && (k.Port() + "/")[0] == 'w';
  }

  /** What the contract owes once a hop was prepared, and what its burns and its batch move, add up
      to what it owed before. */
  lemma HopFlow(k: Contract, s: State, ch: ChannelInfo, relayer: string, packet: IbcPacket, data: PacketData,
                fwd: PacketForward, denom: string)
    requires Inv(k, s) && InPlay(k, ch, data.tokens)
    ensures var (s', r) := ForwardPacket(k, s.store, ch, relayer, packet, data, fwd);
            && !r.Panic?
            && Inv(k, s.(store := s.store.(outstanding :=
               ReceiveTokens(k, s.store, ch, k.addr, relayer, false, data.tokens).0.outstanding)))
            && s' == s.store.(outstanding := s'.outstanding)
            && (r.Err? ==> s' == ReceiveTokens(k, s.store, ch, k.addr, relayer, false, data.tokens).0)
            && (r.Ok? ==>
                  && r.value.Forwarded?
                  && Total(s'.outstanding, denom) + OutFlow(r.value.burns, k.addr, denom)
                     + OutFlow(r.value.batch, k.addr, denom)
                     == Total(s.store.outstanding, denom) + InFlow(r.value.batch, k.addr, denom)
                  && InFlow(r.value.burns, k.addr, denom) == 0 && OutFlow(r.value.batch, k.addr, denom) == 0
                  && KeysClean(k, s'.outstanding)
                  && Registers(k, r.value.burns) && Registers(k, r.value.batch)
                  && r.value.hop.channel == fwd.channel && fwd.channel in s.store.channels
                  && r.value.payload == InFlight(packet, ch.version, fwd.channel, fwd.port)
                  && r.value.hop.packet.sender == k.addr)
  {
    var (s1, r1) := ReceiveTokens(k, s.store, ch, k.addr, relayer, false, data.tokens);
    ReceiveTokensKeepsInv(k, s, ch, k.addr, relayer, false, data.tokens);
    ReceiveReleases(k, s.store, ch, k.addr, relayer, false, data.tokens, denom);
    ReceiveRegisters(k, s.store, ch, k.addr, relayer, false, data.tokens);
    HopCoinsClean(k, s.store, ch, relayer, data.tokens);
    ReceiveReturns(k, s.store, ch, k.addr, relayer, false, data.tokens);
    if r1.Ok? {
      HopReceiveKeeps(k, s.store, ch, relayer, data.tokens, denom);
      var msg := TransferMsg(fwd.channel, fwd.receiver, fwd.next, RemapFees(fwd.fees, r1.value.tokens));
      var coins := CoinsOf(r1.value.tokens);
      forall c, d ensures Outstanding(s1.outstanding, c, d) <= BALANCE_MAX {
        SmallOutstanding(k, s.(store := s1), c, d);
      }
      TransferFlow(k, s1, k.addr, coins, msg, denom);
      TransferSender(k, s1, k.addr, coins, msg);
    }
  }

  lemma TransferSender(k: Contract, s: Store, sender: string, funds: seq<Coin>, msg: TransferMsg)
    ensures var r := ExecuteTransfer(k, s, sender, funds, msg).1;
            r.Ok? ==> r.value.packet.sender == sender
  {
  }

  lemma {:induction false} ReceiveReturns(k: Contract, s: Store, ch: ChannelInfo, receiver: string, relayer: string,
                                          cutFees: bool, tokens: seq<Token>)
    ensures !ReceiveTokens(k, s, ch, receiver, relayer, cutFees, tokens).1.Panic?
  {
    if tokens != [] {
      ReceiveReturns(k, s, ch, receiver, relayer, cutFees, tokens[..|tokens| - 1]);
    }
  }

  /** Both outcomes of the hop keep the invariant. */
  lemma ForwardKeepsInv(c: AckCodec, k: Contract, n: Node, ch: ChannelInfo, relayer: string, packet: IbcPacket,
                        data: PacketData, fwd: PacketForward, id: (string, nat), hostOk: bool)
    requires k.Injective() && Inv(k, n.state) && InPlay(k, ch, data.tokens)
    requires ForwardPacket(k, n.state.store, ch, relayer, packet, data, fwd).1.Ok?
    ensures var (store, r) := ForwardPacket(k, n.state.store, ch, relayer, packet, data, fwd);
            && r.value.Forwarded?
            && var n' := DoForward(c, k, n.(state := n.state.(store := store)), id, ch.version, r.value, hostOk);
               n'.Some? ==> Inv(k, n'.value.state)
  {
    var s := n.state;
    var (store, r) := ForwardPacket(k, s.store, ch, relayer, packet, data, fwd);
    HopFlow(k, s, ch, relayer, packet, data, fwd, "");
    var n1 := n.(state := s.(store := store));
    var n' := DoForward(c, k, n1, id, ch.version, r.value, hostOk);
    if n'.Some? {
      var mid := ExecAll(k, n1.state, r.value.burns).value;
      var mid' := if hostOk
        then mid.(store := SaveInFlight(mid.store, r.value.payload, NextSeq(n1, r.value.hop.channel))) else mid;
      assert n'.value.state == ExecAll(k, mid', r.value.batch).value;
      ExecAllKeepsIndex(k, n1.state, r.value.burns);
      ExecAllBalance(k, n1.state, r.value.burns, "");
      hide ForwardPacket, DoForward;
      forall d
        ensures Total(mid'.store.outstanding, d) + OutFlow(r.value.batch, k.addr, d)
                <= Balance(mid'.bank, k.addr, d) + InFlow(r.value.batch, k.addr, d)
        ensures Balance(mid'.bank, k.addr, d) <= BALANCE_MAX
      {
        HopFlow(k, s, ch, relayer, packet, data, fwd, d);
        ExecAllBalance(k, n1.state, r.value.burns, d);
      }
      ExecKeepsInv(k, mid', r.value.batch);
    }
  }

  lemma RecvKeepsInv(c: AckCodec, k: Contract, n: Node, ch: ChannelInfo, packet: IbcPacket, relayer: string,
                     hostOk: bool)
    requires k.Injective() && Inv(k, n.state)
    requires packet.data.Some? ==> InPlay(k, ch, packet.data.value.tokens)
    ensures var n' := DoRecv(c, k, n, ch, packet, relayer, hostOk);
            n'.Some? ==> Inv(k, n'.value.state)
  {
    hide ForwardPacket, ReceiveTokens, DoForward, DoDeliver, Inv;
    var id := (ch.endpoint.channel, packet.sequence);
    match packet.data
    case None =>
    case Some(data) =>
      match data.memo
      case Forward(fwd) =>
        HopFlow(k, n.state, ch, relayer, packet, data, fwd, "");
        ReceiveTokensKeepsInv(k, n.state, ch, k.addr, relayer, false, data.tokens);
        if ForwardPacket(k, n.state.store, ch, relayer, packet, data, fwd).1.Ok? {
          ForwardKeepsInv(c, k, n, ch, relayer, packet, data, fwd, id, hostOk);
        }
      case NoMemo =>
        ReceiveTokensKeepsInv(k, n.state, ch, data.receiver, relayer, true, data.tokens);
        if ReceiveTokens(k, n.state.store, ch, data.receiver, relayer, true, data.tokens).1.Ok? {
          DeliverKeepsInv(c, k, n, ch, data.receiver, relayer, data.tokens, id, hostOk);
        }
  }

  lemma SettleKeepsInv(c: AckCodec, k: Contract, n: Node, ch: ChannelInfo, id: (string, nat), data: PacketData,
                       ack: GenericAck)
    requires k.Injective() && Inv(k, n.state)
    ensures var (store, r) := Settle(c, k, n.state.store, ch, id.1, data, ack);
            var n' := DoSettle(k, n, id, store, r);
            n'.Some? ==> Inv(k, n'.value.state)
  {
    var s := n.state;
    var (store, r) := Settle(c, k, s.store, ch, id.1, data, ack);
    var e := s.store.outstanding;
    if DoSettle(k, n, id, store, r).Some? {
      var msgs := r.value.msgs;
      ForTokensRegistersNothing(k, Refunding(data.sender), e, ch.endpoint, data.tokens);
      RefundFlow(k, e, ch.endpoint, data.tokens, data.sender, k.addr, "");
      hide ForTokens;
      forall d
        ensures Total(store.outstanding, d) + OutFlow(msgs, k.addr, d)
                <= Balance(s.bank, k.addr, d) + InFlow(msgs, k.addr, d)
        ensures Balance(s.bank, k.addr, d) <= BALANCE_MAX
      {
        RefundFlow(k, e, ch.endpoint, data.tokens, data.sender, k.addr, d);
      }
      ExecKeepsInv(k, State(store, s.bank), msgs);
    }
  }

  lemma StepKeepsInv(c: AckCodec, k: Contract, n: Node, e: Event)
    requires k.Injective() && Inv(k, n.state) && Allowed(k, n, e) && Step(c, k, n, e).Some?
    ensures Inv(k, Step(c, k, n, e).value.state)
  {
    hide DoTransfer, DoRecv, DoSettle, Settle;
    match e
    case External(_) =>
    case Connect(_, _) =>
    case Transfer(sender, funds, msg) => TransferKeepsInv(k, n, sender, funds, msg);
    case Recv(channel, packet, relayer, hostOk) =>
      RecvKeepsInv(c, k, n, n.state.store.channels[channel], packet, relayer, hostOk);
    case Acked(channel, sequence, bytes) =>
      var ch := n.state.store.channels[channel];
      var ack := DecodeAck(c, ch.version, bytes);
      if ack.Some? {
        SettleKeepsInv(c, k, n, ch, (channel, sequence), n.pending[(channel, sequence)], ack.value);
      } else {
        RejectedAck(c, k, n, e);
      }
    case Expired(channel, sequence) =>
      SettleKeepsInv(c, k, n, n.state.store.channels[channel], (channel, sequence),
                     n.pending[(channel, sequence)], AckErr(TIMEOUT_MSG));
  }

  /** An acknowledgement that does not decode aborts, and the packet stays pending. */
  lemma RejectedAck(c: AckCodec, k: Contract, n: Node, e: Event)
    requires e.Acked? && Allowed(k, n, e)
    requires DecodeAck(c, n.state.store.channels[e.channel].version, e.bytes).None?
    ensures Step(c, k, n, e).None?
  {
  }

  /** Every reachable state is solvent and has agreeing indexes. */
  lemma {:induction false} ReachableInv(c: AckCodec, k: Contract, trace: seq<Node>, events: seq<Event>, i: nat)
    requires k.Injective() && IsRun(c, k, trace, events) && i < |trace|
    ensures Inv(k, trace[i].state)
  {
    if i == 0 {
      InitInv(k, trace[0]);
    } else {
      var j := i - 1;
      ReachableInv(c, k, trace, events, j);
      assert Allowed(k, trace[j], events[j]) && Step(c, k, trace[j], events[j]) == Some(trace[j + 1]);
      StepKeepsInv(c, k, trace[j], events[j]);
    }
  }

  // ---------------------------------------------------------------- everything promised is payable

  /** Whatever passes the escrow checks is covered: after a delivery or a refund the contract holds what
      its messages pay out on top of everything it still owes. */
  lemma PayoutsCovered(c: AckCodec, k: Contract, trace: seq<Node>, events: seq<Event>, i: nat, ch: ChannelInfo,
                       receiver: string, relayer: string, tokens: seq<Token>, denom: string)
    requires k.Injective() && IsRun(c, k, trace, events) && i < |trace|
    ensures var s := trace[i].state;
            var held := Balance(s.bank, k.addr, denom);
            var (s', received) := ReceiveTokens(k, s.store, ch, receiver, relayer, true, tokens);
            var (e', refund) := ForTokens(k, Refunding(receiver), s.store.outstanding, ch.endpoint, tokens);
            && (received.Ok? ==> OutFlow(received.value.msgs, k.addr, denom) + Total(s'.outstanding, denom) <= held)
            && (refund.Ok? ==> OutFlow(refund.value, k.addr, denom) + Total(e', denom) <= held)
  {
    var s := trace[i].state;
    ReachableInv(c, k, trace, events, i);
    ReceiveReleases(k, s.store, ch, receiver, relayer, true, tokens, denom);
    RefundFlow(k, s.store.outstanding, ch.endpoint, tokens, receiver, k.addr, denom);
    hide ReceiveTokens, ForTokens, Index, KeysClean, ChannelsOk, IsRun;
  }

  /** A message that the chain refuses for a reason that has nothing to do with the contract's funds: the
      recipient would overflow, a voucher to mint was never created, or one to create exists. */
  ghost predicate Blocked(k: Contract, s: State, msg: Msg) {
    match msg
    case BankSend(to, d, amount) =>
      amount <= Balance(s.bank, k.addr, d) && Balance(Debit(s.bank, k.addr, d, amount), to, d) + amount > BALANCE_MAX
    case Mint(d, amount, to) => d !in s.bank.created || Balance(s.bank, to, d) + amount > BALANCE_MAX
    case CreateDenom(d) => d in s.bank.created
    case _ => false
  }

  ghost predicate BlockedAt(k: Contract, s: State, msgs: seq<Msg>, i: nat)
    requires i < |msgs|
  {
    ExecAll(k, s, msgs[..i]).Some? && Blocked(k, ExecAll(k, s, msgs[..i]).value, msgs[i])
  }

  /** All transfers of the batch go to accounts other than `self`, and nothing is burnt. */
  ghost predicate PaysOthers(msgs: seq<Msg>, self: string) {
    forall m :: m in msgs ==> (m.BankSend? ==> m.to != self) && !m.Burn?
  }

  /** A batch whose transfers, those to the contract itself included, are covered by what the contract holds
      fails only at a message that is blocked. `outsider` is an account that no transfer goes to. */
  lemma {:induction false} NeverShort(k: Contract, s: State, msgs: seq<Msg>, outsider: string)
    requires PaysOthers(msgs, outsider)
    requires forall d :: OutFlow(msgs, outsider, d) <= Balance(s.bank, k.addr, d)
    ensures ExecAll(k, s, msgs).None? ==> exists i :: 0 <= i < |msgs| && BlockedAt(k, s, msgs, i)
    decreases |msgs|
  {
    if msgs != [] {
      var n := |msgs| - 1;
      var before := msgs[..n];
      assert forall m :: m in before ==> m in msgs;
      assert forall d :: OutFlow(before, outsider, d) <= OutFlow(msgs, outsider, d);
      NeverShort(k, s, before, outsider);
      if ExecAll(k, s, before).None? {
        var i :| 0 <= i < n && BlockedAt(k, s, before, i);
        assert before[..i] == msgs[..i];
        assert BlockedAt(k, s, msgs, i);
      } else if ExecAll(k, s, msgs).None? {
        assert msgs[n] in msgs;
        HoldsTheRest(k, s, msgs, outsider);
        assert BlockedAt(k, s, msgs, n);
      }
    }
  }

  /** A message that is blocked makes the whole batch fail. */
  lemma {:induction false} BlockedFails(k: Contract, s: State, msgs: seq<Msg>, i: nat)
    requires i < |msgs| && BlockedAt(k, s, msgs, i)
    ensures ExecAll(k, s, msgs).None?
    decreases |msgs|
  {
    var n := |msgs| - 1;
    if i < n {
      assert msgs[..n][..i] == msgs[..i];
      BlockedFails(k, s, msgs[..n], i);
    }
  }

  lemma HoldsTheRest(k: Contract, s: State, msgs: seq<Msg>, outsider: string)
    requires msgs != [] && PaysOthers(msgs, outsider)
    requires forall d :: OutFlow(msgs, outsider, d) <= Balance(s.bank, k.addr, d)
    requires ExecAll(k, s, msgs[..|msgs| - 1]).Some?
    ensures var m := msgs[|msgs| - 1];
            m.BankSend? ==> m.amount <= Balance(ExecAll(k, s, msgs[..|msgs| - 1]).value.bank, k.addr, m.denom)
  {
    var before, m := msgs[..|msgs| - 1], msgs[|msgs| - 1];
    assert m in msgs;
    if m.BankSend? {
      ExecAllBalance(k, s, before, m.denom);
      assert forall x :: x in before ==> x in msgs;
      OutsiderSeesMost(before, k.addr, outsider, m.denom);
    }
  }

  lemma {:induction false} OutsiderSeesMost(msgs: seq<Msg>, self: string, outsider: string, denom: string)
    requires PaysOthers(msgs, outsider)
    ensures OutFlow(msgs, self, denom) <= OutFlow(msgs, outsider, denom)
  {
    if msgs != [] {
      assert msgs[|msgs| - 1] in msgs;
      assert forall m :: m in msgs[..|msgs| - 1] ==> m in msgs;
      OutsiderSeesMost(msgs[..|msgs| - 1], self, outsider, denom);
    }
  }

  /** The transfers of a delivery add up to what was released from escrow. */
  lemma {:induction false} ReceivePays(k: Contract, s: Store, ch: ChannelInfo, receiver: string, relayer: string,
                                       cutFees: bool, tokens: seq<Token>, self: string, denom: string)
    requires self != receiver && self != relayer
    ensures var (s', r) := ReceiveTokens(k, s, ch, receiver, relayer, cutFees, tokens);
            r.Ok? ==>
              && OutFlow(r.value.msgs, self, denom) == Total(s.outstanding, denom) - Total(s'.outstanding, denom)
              && PaysOthers(r.value.msgs, self)
  {
    hide ReceiveToken, Total;
    if tokens != [] {
      var n := |tokens| - 1;
      ReceivePays(k, s, ch, receiver, relayer, cutFees, tokens[..n], self, denom);
      var (s1, r1) := ReceiveTokens(k, s, ch, receiver, relayer, cutFees, tokens[..n]);
      if r1.Ok? {
        ReceiveTokenPays(k, s1, ch, receiver, relayer, cutFees, tokens[n], self, denom);
        var r2 := ReceiveToken(k, s1, ch, receiver, relayer, cutFees, tokens[n]).1;
        if r2.Ok? { FlowConcat(r1.value.msgs, r2.value.msgs, self, denom); }
      }
    }
  }

  lemma ReceiveTokenPays(k: Contract, s: Store, ch: ChannelInfo, receiver: string, relayer: string, cutFees: bool,
                         t: Token, self: string, denom: string)
    requires self != receiver && self != relayer
    ensures var (s', r) := ReceiveToken(k, s, ch, receiver, relayer, cutFees, t);
            r.Ok? ==>
              && OutFlow(r.value.msgs, self, denom) == Total(s.outstanding, denom) - Total(s'.outstanding, denom)
              && PaysOthers(r.value.msgs, self)
  {
    hide Origin, Contract.FactoryDenom, MakeForeignDenom, Cut, Total, OutFlow, ReceiveLocal, ReceiveRemote;
    var (actual, fee) := Cut(cutFees, t);
    var d := Origin(t.denom, ch.counterparty).denom;
    ReceiveLocalReleases(s, ch.endpoint.channel, receiver, relayer, actual, fee, t, d, self, denom);
    MintPaysNothing(k, s, ch.endpoint, receiver, relayer, actual, fee, t, d, self, denom);
    ReleasePaysOthers(s, ch.endpoint.channel, receiver, relayer, actual, fee, t, d, self);
  }

  lemma ReleasePaysOthers(s: Store, channel: string, receiver: string, relayer: string, actual: nat, fee: nat,
                          t: Token, d: string, self: string)
    requires self != receiver && self != relayer
    ensures var r := ReceiveLocal(s, channel, receiver, relayer, actual, fee, t, d).1;
            r.Ok? ==> PaysOthers(r.value.msgs, self)
  {
  }

  lemma MintPaysNothing(k: Contract, s: Store, ep: Endpoint, receiver: string, relayer: string, actual: nat, fee: nat,
                        t: Token, d: string, self: string, denom: string)
    ensures var msgs := ReceiveRemote(k, s, ep, receiver, relayer, actual, fee, t, d).msgs;
            OutFlow(msgs, self, denom) == 0 && PaysOthers(msgs, self)
  {
    hide Origin, Contract.FactoryDenom, MakeForeignDenom;
    var msgs := ReceiveRemote(k, s, ep, receiver, relayer, actual, fee, t, d).msgs;
    assert PaysOthers(msgs, self);
    NoTransfersNoOutflow(msgs, self, denom);
  }

  lemma {:induction false} NoTransfersNoOutflow(msgs: seq<Msg>, self: string, denom: string)
    requires forall m :: m in msgs ==> !m.BankSend? && !m.Burn?
    ensures OutFlow(msgs, self, denom) == 0
  {
    if msgs != [] {
      assert msgs[|msgs| - 1] in msgs;
      NoTransfersNoOutflow(msgs[..|msgs| - 1], self, denom);
    }
  }

  lemma {:induction false} RefundPaysOthers(k: Contract, to: string, e: Escrow, ep: Endpoint, wire: seq<Token>,
                                            self: string)
    requires self != to
    ensures var r := ForTokens(k, Refunding(to), e, ep, wire).1;
            r.Ok? ==> PaysOthers(r.value, self)
  {
    hide Origin, Contract.FactoryDenom, MakeForeignDenom, Amounts, Decrease;
    if wire != [] {
      RefundPaysOthers(k, to, e, ep, wire[..|wire| - 1], self);
    }
  }
}
