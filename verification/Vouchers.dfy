/** A token received from another chain and later sent back over the same channel: the voucher minted
    is the voucher burned, and the other chain recognises its own token. */
module Vouchers {
  import opened Wrappers
  import opened Denoms
  import opened Fees
  import opened RelaySpec
  import opened Host
  import opened Solvency
  import opened Reachable

  ghost predicate Registered(s: Store, ep: Endpoint, foreign: string) { (ep, foreign) in s.denomToHash }

  /** Sending a registered voucher back: it travels under its preimage, exactly the minted voucher is
      burned, and the chain it came from sees a local denomination with the original name. */
  lemma SendBack(k: Contract, s: Store, ep: Endpoint, d: string, amount: U128, fee: U128)
    requires Index(k, s) && Registered(s, ep, MakeForeignDenom(ep, d))
    ensures var voucher := k.FactoryDenom(MakeForeignDenom(ep, d));
            var wire := k.Normalize(s.hashToDenom, ep, voucher);
            && wire == Ok(MakeForeignDenom(ep, d))
            && ForToken(k, Escrowing, s.outstanding, ep, Token(wire.value, amount, fee))
               == (s.outstanding, Ok([Burn(voucher, amount)]))
            && Origin(wire.value, ep) == Local(d)
  {
    var foreign := MakeForeignDenom(ep, d);
    k.VoucherHashOfFactory(foreign);
    UnhexHex(k.hash(foreign));
    OriginOfForeign(ep, d);
    hide Origin, Contract.FactoryDenom, MakeForeignDenom, Contract.VoucherHash, Hex, Unhex, Amounts;
  }

  // ---------------------------------------------------------------- delivery registers the voucher

  lemma {:induction false} ExecAllRegisters(k: Contract, s: State, msgs: seq<Msg>, ep: Endpoint, foreign: string)
    requires ExecAll(k, s, msgs).Some?
    requires Registered(s.store, ep, foreign) || RegisterDenom(ep, foreign, k.hash(foreign)) in msgs
    ensures Registered(ExecAll(k, s, msgs).value.store, ep, foreign)
  {
    if msgs != [] {
      var n := |msgs| - 1;
      assert msgs == msgs[..n] + [msgs[n]];
      if Registered(s.store, ep, foreign) || RegisterDenom(ep, foreign, k.hash(foreign)) in msgs[..n] {
        ExecAllRegisters(k, s, msgs[..n], ep, foreign);
      }
    }
  }

  lemma {:induction false} ReceiveAnnounces(k: Contract, s: Store, ch: ChannelInfo, receiver: string, relayer: string,
                                            cutFees: bool, tokens: seq<Token>, i: nat, d: string)
    requires i < |tokens| && Origin(tokens[i].denom, ch.counterparty) == Remote(d)
    ensures var r := ReceiveTokens(k, s, ch, receiver, relayer, cutFees, tokens).1;
            var foreign := MakeForeignDenom(ch.endpoint, d);
            r.Ok? ==>
              Registered(s, ch.endpoint, foreign)
                || RegisterDenom(ch.endpoint, foreign, k.hash(foreign)) in r.value.msgs
  {
    hide Origin, MakeForeignDenom, Contract.FactoryDenom, ReceiveLocal, Payments;
    var n := |tokens| - 1;
    var (s1, r1) := ReceiveTokens(k, s, ch, receiver, relayer, cutFees, tokens[..n]);
    ReceiveReleases(k, s, ch, receiver, relayer, cutFees, tokens[..n], "");
    if i < n {
      ReceiveAnnounces(k, s, ch, receiver, relayer, cutFees, tokens[..n], i, d);
    } else if r1.Ok? && !Registered(s, ch.endpoint, MakeForeignDenom(ch.endpoint, d)) {
      var msgs := ReceiveToken(k, s1, ch, receiver, relayer, cutFees, tokens[n]).1.value.msgs;
      assert msgs[0] == RegisterDenom(ch.endpoint, MakeForeignDenom(ch.endpoint, d),
        k.hash(MakeForeignDenom(ch.endpoint, d)));
    }
  }

  /** A successful delivery leaves every foreign token of the packet registered. */
  lemma DeliveryRegisters(k: Contract, s: State, ch: ChannelInfo, receiver: string, relayer: string,
                          tokens: seq<Token>, i: nat, d: string)
    requires i < |tokens| && Origin(tokens[i].denom, ch.counterparty) == Remote(d)
    requires var (s1, r) := ReceiveTokens(k, s.store, ch, receiver, relayer, true, tokens);
             r.Ok? && ExecAll(k, s.(store := s1), r.value.msgs).Some?
    ensures var (s1, r) := ReceiveTokens(k, s.store, ch, receiver, relayer, true, tokens);
            Registered(ExecAll(k, s.(store := s1), r.value.msgs).value.store, ch.endpoint,
              MakeForeignDenom(ch.endpoint, d))
  {
    var (s1, r) := ReceiveTokens(k, s.store, ch, receiver, relayer, true, tokens);
    ReceiveAnnounces(k, s.store, ch, receiver, relayer, true, tokens, i, d);
    ReceiveReleases(k, s.store, ch, receiver, relayer, true, tokens, "");
    hide ReceiveTokens;
    ExecAllRegisters(k, s.(store := s1), r.value.msgs, ch.endpoint, MakeForeignDenom(ch.endpoint, d));
  }

  // ---------------------------------------------------------------- registrations are for ever

  lemma ForwardGrows(c: AckCodec, k: Contract, n: Node, id: (string, nat), v: Version, r: Response, hostOk: bool,
                     ep: Endpoint, foreign: string)
    requires r.Forwarded? && Registered(n.state.store, ep, foreign) && DoForward(c, k, n, id, v, r, hostOk).Some?
    ensures Registered(DoForward(c, k, n, id, v, r, hostOk).value.state.store, ep, foreign)
  {
    ExecAllRegisters(k, n.state, r.burns, ep, foreign);
    var state := ExecAll(k, n.state, r.burns).value;
    var mid := if hostOk then state.(store := SaveInFlight(state.store, r.payload, NextSeq(n, r.hop.channel)))
      else state;
    ExecAllRegisters(k, mid, r.batch, ep, foreign);
  }

  lemma RecvGrows(c: AckCodec, k: Contract, n: Node, ch: ChannelInfo, packet: IbcPacket, relayer: string, hostOk: bool,
                  ep: Endpoint, foreign: string)
    requires Inv(k, n.state) && Registered(n.state.store, ep, foreign)
    requires packet.data.Some? ==> InPlay(k, ch, packet.data.value.tokens)
    requires DoRecv(c, k, n, ch, packet, relayer, hostOk).Some?
    ensures Registered(DoRecv(c, k, n, ch, packet, relayer, hostOk).value.state.store, ep, foreign)
  {
    hide ForwardPacket, ReceiveTokens, DoForward, Inv;
    var id := (ch.endpoint.channel, packet.sequence);
    var (store, r) := Receive(k, n.state.store, ch, relayer, packet);
    var n1 := n.(state := n.state.(store := store));
    if packet.data.Some? {
      var data := packet.data.value;
      match data.memo
      case Forward(fwd) => HopFlow(k, n.state, ch, relayer, packet, data, fwd, "");
      case NoMemo => ReceiveReleases(k, n.state.store, ch, data.receiver, relayer, true, data.tokens, "");
    }
    match r.value
    case Refused =>
    case Delivered(batch) =>
      if ExecAll(k, n1.state, batch).Some? {
        ExecAllRegisters(k, n1.state, batch, ep, foreign);
      }
    case Forwarded(_, _, _, _) => ForwardGrows(c, k, n1, id, ch.version, r.value, hostOk, ep, foreign);
  }

  lemma SettleGrows(c: AckCodec, k: Contract, n: Node, ch: ChannelInfo, id: (string, nat), data: PacketData,
                    ack: GenericAck,
                    ep: Endpoint, foreign: string)
    requires Registered(n.state.store, ep, foreign)
    ensures var (store, r) := Settle(c, k, n.state.store, ch, id.1, data, ack);
            var n' := DoSettle(k, n, id, store, r);
            n'.Some? ==> Registered(n'.value.state.store, ep, foreign)
  {
    hide ForTokens;
    var (store, r) := Settle(c, k, n.state.store, ch, id.1, data, ack);
    if DoSettle(k, n, id, store, r).Some? {
      ExecAllRegisters(k, State(store, n.state.bank), r.value.msgs, ep, foreign);
    }
  }

  lemma TransferGrows(k: Contract, n: Node, sender: string, funds: seq<Coin>, msg: TransferMsg, ep: Endpoint,
                      foreign: string)
    requires Registered(n.state.store, ep, foreign) && DoTransfer(k, n, sender, funds, msg).Some?
    ensures Registered(DoTransfer(k, n, sender, funds, msg).value.state.store, ep, foreign)
  {
    var bank := MoveCoins(n.state.bank, sender, k.addr, funds).value;
    var (store, r) := ExecuteTransfer(k, n.state.store, sender, funds, msg);
    ExecAllRegisters(k, State(store, bank), r.value.msgs, ep, foreign);
  }

  lemma StepGrows(c: AckCodec, k: Contract, n: Node, e: Event, ep: Endpoint, foreign: string)
    requires Inv(k, n.state) && Registered(n.state.store, ep, foreign)
    requires Allowed(k, n, e) && Step(c, k, n, e).Some?
    ensures Registered(Step(c, k, n, e).value.state.store, ep, foreign)
  {
    hide DoTransfer, DoRecv, DoSettle, Settle, Solvent, Index, KeysClean, ExternalOk;
    match e
    case External(_) =>
    case Connect(_, _) =>
    case Transfer(sender, funds, msg) => TransferGrows(k, n, sender, funds, msg, ep, foreign);
    case Recv(channel, packet, relayer, hostOk) =>
      RecvGrows(c, k, n, n.state.store.channels[channel], packet, relayer, hostOk, ep, foreign);
    case Acked(channel, sequence, bytes) =>
      var ch := n.state.store.channels[channel];
      var ack := DecodeAck(c, ch.version, bytes);
      if ack.Some? {
        SettleGrows(c, k, n, ch, (channel, sequence), n.pending[(channel, sequence)], ack.value, ep, foreign);
      } else {
        RejectedAck(c, k, n, e);
      }
    case Expired(channel, sequence) =>
      SettleGrows(c, k, n, n.state.store.channels[channel], (channel, sequence), n.pending[(channel, sequence)],
                  AckErr(TIMEOUT_MSG), ep, foreign);
  }

  /** Once a voucher is registered, at any later point of the run the holder can send it back: the same
      voucher is burned and the wire name is local, with its original name, to the chain of origin. */
  lemma {:induction false} VoucherRoundTrip(c: AckCodec, k: Contract, trace: seq<Node>, events: seq<Event>,
                                            i: nat, j: nat, ep: Endpoint, d: string, amount: U128, fee: U128)
    requires k.Injective() && IsRun(c, k, trace, events) && i <= j < |trace|
    requires Registered(trace[i].state.store, ep, MakeForeignDenom(ep, d))
    ensures var s := trace[j].state.store;
            var voucher := k.FactoryDenom(MakeForeignDenom(ep, d));
            var wire := k.Normalize(s.hashToDenom, ep, voucher);
            && Registered(s, ep, MakeForeignDenom(ep, d))
            && wire.Ok?
            && ForToken(k, Escrowing, s.outstanding, ep, Token(wire.value, amount, fee))
               == (s.outstanding, Ok([Burn(voucher, amount)]))
            && Origin(wire.value, ep) == Local(d)
    decreases j
  {
    ReachableInv(c, k, trace, events, j);
    if i < j {
      var p := j - 1;
      VoucherRoundTrip(c, k, trace, events, i, p, ep, d, amount, fee);
      ReachableInv(c, k, trace, events, p);
      assert Allowed(k, trace[p], events[p]) && Step(c, k, trace[p], events[p]) == Some(trace[p + 1]);
      StepGrows(c, k, trace[p], events[p], ep, MakeForeignDenom(ep, d));
    }
    SendBack(k, trace[j].state.store, ep, d, amount, fee);
  }
}
