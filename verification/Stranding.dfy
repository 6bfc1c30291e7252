/** How every event, forwards included, moves the counters and the vouchers of a channel, compared with what
    its packets are accepted for; and what a failure leaves stranded. */
module Stranding {
  import opened Wrappers
  import opened Denoms
  import opened Fees
  import opened RelaySpec
  import opened Host
  import opened Solvency
  import opened Reachable
  import opened Forwarding
  import opened Exchange
  import opened Effects
  import Payouts

  // ---------------------------------------------------------------- amounts

  /** What the origin of a hop carried over the channel. */
  function HopCarried(channel: string, p: string, hop: Option<IbcPacket>): nat {
    if hop.Some? && hop.value.data.Some?
      then CarriedOut(channel, p, hop.value.dst.channel, hop.value.data.value.tokens) else 0
  }

  /** What packets over the channel take away from this end under the wire name `p`, less what is refunded. */
  function Outgoing(channel: string, p: string, effect: Effect): int {
    match effect
    case SentOver(over, sent) => CarriedOut(channel, p, over, sent)
    case HopSent(_, _, over, sent) => CarriedOut(channel, p, over, sent)
    case Failed(over, sent, _) => 0 - CarriedOut(channel, p, over, sent)
    case _ => 0
  }

  /** What is accepted over the channel under the wire name `p`, less what turns out to fail. */
  function Incoming(channel: string, p: string, effect: Effect): int {
    match effect
    case PaidOut(from, received) => CarriedOut(channel, p, from, received)
    case HopSent(from, received, _, _) => CarriedOut(channel, p, from, received)
    case Failed(_, _, hop) => 0 - HopCarried(channel, p, hop)
    case _ => 0
  }

  /** What was received for hops whose failure is reported to the other end. */
  function FailedIn(channel: string, p: string, effect: Effect): nat {
    match effect
    case HopNotSent(from, received, _, _) => CarriedOut(channel, p, from, received)
    case Failed(_, _, hop) => HopCarried(channel, p, hop)
    case _ => 0
  }

  /** What was taken for a hop that the host then did not send. */
  function Unsent(channel: string, p: string, effect: Effect): nat {
    match effect
    case HopNotSent(_, _, over, sent) => CarriedOut(channel, p, over, sent)
    case _ => 0
  }

  /** What a refused receive released from the counters and paid to nobody. */
  function Released(channel: string, p: string, effect: Effect): nat {
    match effect
    case Refused(from, released) => CarriedOut(channel, p, from, released)
    case _ => 0
  }

  /** The denomination does not itself carry the prefix of the channel. */
  ghost predicate NativeOf(k: Contract, channel: string, d: string) { Origin(d, Endpoint(k.Port(), channel)).Remote? }

  ghost predicate Knows(n: Node, channel: string, peer: Endpoint) {
    channel in n.state.store.channels ==> n.state.store.channels[channel].counterparty == peer
  }

  ghost predicate EscrowBalanced(n: Node, n': Node, channel: string, peer: Endpoint, d: string, effect: Effect) {
    var w := MakeForeignDenom(peer, d);
    Outstanding(n'.state.store.outstanding, channel, d) + Released(channel, w, effect) + FailedIn(channel, w, effect)
    == Outstanding(n.state.store.outstanding, channel, d)
       + Outgoing(channel, d, effect) - Incoming(channel, w, effect) + Unsent(channel, d, effect)
  }

  // ---------------------------------------------------------------- counters, event by event

  /** What a transfer that succeeds does to the counters of any channel. */
  lemma TransferExactly(k: Contract, s: Store, sender: string, funds: seq<Coin>, msg: TransferMsg, channel: string,
                        d: string)
    requires ChannelsOk(k, s) && NativeOf(k, channel, d)
    ensures var (s', r) := ExecuteTransfer(k, s, sender, funds, msg);
            r.Ok? ==>
              Outstanding(s'.outstanding, channel, d)
              == Outstanding(s.outstanding, channel, d) + CarriedOut(channel, d, r.value.channel, r.value.packet.tokens)
  {
    hide Origin, ToCoins, AttachFees, NormalizeTokens, ForTokens, Outstanding;
    var (s', r) := ExecuteTransfer(k, s, sender, funds, msg);
    if r.Ok? {
      EscrowExact(k, s.outstanding, s.channels[msg.channel].endpoint, r.value.packet.tokens, channel, d);
    }
  }

  lemma TransferBalanced(c: AckCodec, k: Contract, n: Node, e: Event, channel: string, peer: Endpoint, d: string)
    requires Inv(k, n.state) && NativeOf(k, channel, d) && Allowed(k, n, e) && e.Transfer? && Step(c, k, n, e).Some?
    ensures EscrowBalanced(n, Step(c, k, n, e).value, channel, peer, d, EffectOf(c, k, n, e))
  {
    hide ExecuteTransfer, MoveCoins, Outstanding, Origin, Solvent, Index, KeysClean;
    var bank := MoveCoins(n.state.bank, e.sender, k.addr, e.funds).value;
    var (store, r) := ExecuteTransfer(k, n.state.store, e.sender, e.funds, e.msg);
    TransferExactly(k, n.state.store, e.sender, e.funds, e.msg, channel, d);
    ExecAllFrame(k, State(store, bank), r.value.msgs);
  }

  lemma SettleBalanced(c: AckCodec, k: Contract, n: Node, ch: ChannelInfo, id: (string, nat), ack: GenericAck,
                       channel: string, peer: Endpoint, d: string)
    requires NativeOf(k, channel, d) && id in n.pending && ch.endpoint == Endpoint(k.Port(), id.0)
    ensures var (store, r) := Settle(c, k, n.state.store, ch, id.1, n.pending[id], ack);
            var n' := DoSettle(k, n, id, store, r);
            n'.Some? ==> EscrowBalanced(n, n'.value, channel, peer, d, EffectOfSettle(n, ch, id, ack))
  {
    hide ForTokens, ExecAll, Outstanding, Origin, HopCarried;
    var (store, r) := Settle(c, k, n.state.store, ch, id.1, n.pending[id], ack);
    var data := n.pending[id];
    RefundExact(k, data.sender, n.state.store.outstanding, ch.endpoint, data.tokens, channel, d);
    if r.Ok? && ExecAll(k, State(store, n.state.bank), r.value.msgs).Some? {
      ExecAllFrame(k, State(store, n.state.bank), r.value.msgs);
    }
  }

  /** What the hop of a forward does to the counters. */
  lemma ForwardExactly(k: Contract, s: State, ch: ChannelInfo, relayer: string, packet: IbcPacket, data: PacketData,
                       fwd: PacketForward, channel: string, d: string)
    requires Inv(k, s) && NativeOf(k, channel, d)
    ensures var (s', r) := ForwardPacket(k, s.store, ch, relayer, packet, data, fwd);
            r.Ok? ==>
              && r.value.Forwarded?
              && Outstanding(s'.outstanding, channel, d)
                 == Outstanding(s.store.outstanding, channel, d)
                    - CarriedOut(channel, MakeForeignDenom(ch.counterparty, d), ch.endpoint.channel, data.tokens)
                    + CarriedOut(channel, d, r.value.hop.channel, r.value.hop.packet.tokens)
  {
    hide ReceiveTokens, ExecuteTransfer, Outstanding, Origin, Solvent, Index, KeysClean, CarriedOut, RemapFees,
      MakeForeignDenom;
    var (s1, r1) := ReceiveTokens(k, s.store, ch, k.addr, relayer, false, data.tokens);
    ReceiveReleasesLocal(k, s.store, ch, k.addr, relayer, false, data.tokens, channel, d);
    ReceiveReleases(k, s.store, ch, k.addr, relayer, false, data.tokens, "");
    if r1.Ok? {
      var msg := TransferMsg(fwd.channel, fwd.receiver, fwd.next, RemapFees(fwd.fees, r1.value.tokens));
      TransferExactly(k, s1, k.addr, CoinsOf(r1.value.tokens), msg, channel, d);
    }
  }

  lemma RecvBalanced(c: AckCodec, k: Contract, n: Node, e: Event, channel: string, peer: Endpoint, d: string)
    requires Inv(k, n.state) && NativeOf(k, channel, d) && Knows(n, channel, peer)
    requires Allowed(k, n, e) && e.Recv? && Step(c, k, n, e).Some?
    ensures EscrowBalanced(n, Step(c, k, n, e).value, channel, peer, d, EffectOf(c, k, n, e))
  {
    hide ReceiveTokens, ForwardPacket, DoDeliver, DoForward, DeliverState, Outstanding, Inv, NativeOf, InPlay,
      CarriedOut, MakeForeignDenom, Passing;
    ChannelNamed(k, n, e.channel);
    var ch := n.state.store.channels[e.channel];
    var (store, r) := Receive(k, n.state.store, ch, e.relayer, e.packet);
    var n1 := n.(state := n.state.(store := store));
    var id := (e.channel, e.packet.sequence);
    if e.packet.data.Some? {
      var data, w := e.packet.data.value, MakeForeignDenom(ch.counterparty, d);
      var passed := data.tokens[..Passing(n.state.store, ch, data.tokens)];
      SameCarried(channel, e.channel, w, MakeForeignDenom(peer, d), data.tokens);
      SameCarried(channel, e.channel, w, MakeForeignDenom(peer, d), passed);
      assert data.tokens[..|data.tokens|] == data.tokens;
      match data.memo
      case NoMemo =>
        ReceivePasses(k, n.state.store, ch, data.receiver, e.relayer, true, data.tokens, channel, d);
      case Forward(fwd) =>
        ReceivePasses(k, n.state.store, ch, k.addr, e.relayer, false, data.tokens, channel, d);
        ForwardExactly(k, n.state, ch, e.relayer, e.packet, data, fwd, channel, d);
        HopFlow(k, n.state, ch, e.relayer, e.packet, data, fwd, "");
    } else {
      NothingCarried(channel, MakeForeignDenom(peer, d), e.channel);
    }
    match r.value
    case Refused =>
    case Delivered(batch) => DeliverLeaves(c, k, n1, id, ch.version, batch, e.hostOk);
    case Forwarded(_, _, _, _) => ForwardLeaves(c, k, n1, id, ch.version, r.value, e.hostOk);
  }

  /** Names matter only on the channel itself. */
  lemma SameCarried(channel: string, from: string, p: string, q: string, tokens: seq<Token>)
    requires from == channel ==> p == q
    ensures CarriedOut(channel, p, from, tokens) == CarriedOut(channel, q, from, tokens)
  {
  }

  lemma Unmoved(n: Node, n': Node, channel: string, peer: Endpoint, d: string)
    requires n'.state.store.outstanding == n.state.store.outstanding
    ensures EscrowBalanced(n, n', channel, peer, d, Nothing)
  {
  }

  /** Every event, forwards included, moves the counter of a channel by what is sent and what is accepted over
      it, except for what a refused receive or a failed hop took off it, and what an unsent hop put on it. */
  lemma CountersBalance(c: AckCodec, k: Contract, n: Node, e: Event, channel: string, peer: Endpoint, d: string)
    requires Inv(k, n.state) && NativeOf(k, channel, d) && Knows(n, channel, peer)
    requires Allowed(k, n, e) && Step(c, k, n, e).Some?
    ensures EscrowBalanced(n, Step(c, k, n, e).value, channel, peer, d, EffectOf(c, k, n, e))
  {
    hide DoTransfer, DoRecv, DoSettle, Settle, ExternalOk, CleanCoins, Solvent, Index, KeysClean, EffectOfRecv,
      EscrowBalanced;
    match e
    case External(_) => Unmoved(n, Step(c, k, n, e).value, channel, peer, d);
    case Connect(_, _) => Unmoved(n, Step(c, k, n, e).value, channel, peer, d);
    case Transfer(_, _, _) => TransferBalanced(c, k, n, e, channel, peer, d);
    case Recv(_, _, _, _) => RecvBalanced(c, k, n, e, channel, peer, d);
    case Acked(over, sequence, bytes) =>
      var ch := n.state.store.channels[over];
      var ack := DecodeAck(c, ch.version, bytes);
      if ack.Some? {
        SettleBalanced(c, k, n, ch, (over, sequence), ack.value, channel, peer, d);
      } else {
        RejectedAck(c, k, n, e);
      }
    case Expired(over, sequence) =>
      SettleBalanced(c, k, n, n.state.store.channels[over], (over, sequence), AckErr(TIMEOUT_MSG), channel, peer, d);
  }

  // ---------------------------------------------------------------- vouchers, event by event

  /** Channel identifiers hold no slash (ICS-24). */
  ghost predicate PlainChannels(n: Node) { forall x :: x in n.state.store.channels ==> Identifier(x) }

  /** The supply of the voucher that stands for `w`. */
  ghost function VoucherSupply(k: Contract, n: Node, w: string): nat { Supply(n.state.bank, k.FactoryDenom(w)) }

  ghost predicate VouchersBalanced(k: Contract, n: Node, n': Node, channel: string, d: string, effect: Effect) {
    var w := MakeForeignDenom(Endpoint(k.Port(), channel), d);
    VoucherSupply(k, n', w) + Unsent(channel, w, effect) + Outgoing(channel, w, effect)
    == VoucherSupply(k, n, w) + Incoming(channel, d, effect) + FailedIn(channel, d, effect)
  }

  lemma OtherChannel(port: string, channel: string, other: string, d: string)
    requires Identifier(channel) && Identifier(other) && channel != other
    ensures Origin(MakeForeignDenom(Endpoint(port, channel), d), Endpoint(port, other)).Remote?
  {
    hide Origin, MakeForeignDenom, Identifier;
    var w := MakeForeignDenom(Endpoint(port, channel), d);
    var o := Origin(w, Endpoint(port, other));
    if o.Local? {
      OriginLocalIff(w, Endpoint(port, other), o.denom);
      ForeignDenomSeparatesChannels(port, channel, d, other, o.denom);
    }
  }

  lemma BurntHere(port: string, channel: string, over: string, d: string, tokens: seq<Token>)
    requires Identifier(channel) && Identifier(over)
    ensures var w := MakeForeignDenom(Endpoint(port, channel), d);
            BurntOver(Endpoint(port, over), w, tokens) == CarriedOut(channel, w, over, tokens)
  {
    hide Origin, MakeForeignDenom;
    if over == channel {
      OriginOfForeign(Endpoint(port, channel), d);
    } else {
      OtherChannel(port, channel, over, d);
    }
  }

  lemma MintedHere(port: string, channel: string, ch: ChannelInfo, d: string, tokens: seq<Token>)
    requires Identifier(channel) && Identifier(ch.endpoint.channel) && ch.endpoint.port == port
    requires ch.endpoint.channel == channel ==> Origin(d, ch.counterparty).Remote?
    ensures MintedFrom(ch, MakeForeignDenom(Endpoint(port, channel), d), tokens)
            == CarriedOut(channel, d, ch.endpoint.channel, tokens)
  {
    hide Origin, MakeForeignDenom;
    if ch.endpoint.channel == channel {
      OriginOfForeign(Endpoint(port, channel), d);
    } else {
      OtherChannel(port, channel, ch.endpoint.channel, d);
    }
  }

  /** The denomination is native to the other end, and its name on the wire is in use here. */
  ghost predicate ForeignNative(k: Contract, channel: string, peer: Endpoint, d: string) {
    Origin(d, peer).Remote? && MakeForeignDenom(Endpoint(k.Port(), channel), d) in k.names
  }

  /** What a transfer that succeeds burns of any voucher. */
  lemma TransferBurns(k: Contract, s: Store, sender: string, funds: seq<Coin>, msg: TransferMsg, w: string)
    requires k.Injective() && Index(k, s) && ChannelsOk(k, s) && CleanCoins(k, funds) && w in k.names
    ensures var r := ExecuteTransfer(k, s, sender, funds, msg).1;
            r.Ok? ==>
              && BurnSum(r.value.msgs, k.FactoryDenom(w))
                 == BurntOver(Endpoint(k.Port(), r.value.channel), w, r.value.packet.tokens)
              && MintSum(r.value.msgs, k.FactoryDenom(w)) == 0
  {
    hide Origin, ToCoins, AttachFees, NormalizeTokens, ForTokens, Index, CleanCoins, Clean, BurntOver,
      Contract.FactoryDenom, OwnNames, KeyedTokens;
    var r := ExecuteTransfer(k, s, sender, funds, msg).1;
    TransferWire(k, s, sender, funds, msg);
    if r.Ok? {
      ForTokensVouchers(k, Escrowing, s.outstanding, s.channels[msg.channel].endpoint, r.value.packet.tokens, w);
    }
  }

  lemma TransferVouchers(c: AckCodec, k: Contract, n: Node, e: Event, channel: string, peer: Endpoint, d: string)
    requires k.Injective() && Inv(k, n.state) && PlainChannels(n) && Identifier(channel)
    requires ForeignNative(k, channel, peer, d)
    requires Allowed(k, n, e) && e.Transfer? && Step(c, k, n, e).Some?
    ensures VouchersBalanced(k, n, Step(c, k, n, e).value, channel, d, EffectOf(c, k, n, e))
  {
    hide ExecuteTransfer, MoveCoins, ExecAll, Supply, Origin, Solvent, Index, KeysClean, Clean,
      Contract.FactoryDenom, MakeForeignDenom;
    var w := MakeForeignDenom(Endpoint(k.Port(), channel), d);
    var bank := MoveCoins(n.state.bank, e.sender, k.addr, e.funds).value;
    var (store, r) := ExecuteTransfer(k, n.state.store, e.sender, e.funds, e.msg);
    TransferBurns(k, n.state.store, e.sender, e.funds, e.msg, w);
    MoveCoinsSupply(n.state.bank, e.sender, k.addr, e.funds);
    SupplySame(n.state.bank, bank, k.FactoryDenom(w));
    ExecAllSupply(k, State(store, bank), r.value.msgs, k.FactoryDenom(w));
    TransferOver(k, n.state.store, e.sender, e.funds, e.msg);
    BurntHere(k.Port(), channel, r.value.channel, d, r.value.packet.tokens);
  }

  lemma TransferOver(k: Contract, s: Store, sender: string, funds: seq<Coin>, msg: TransferMsg)
    requires ChannelsOk(k, s)
    ensures var r := ExecuteTransfer(k, s, sender, funds, msg).1;
            r.Ok? ==> r.value.channel == msg.channel && msg.channel in s.channels
  {
    hide ToCoins, AttachFees, NormalizeTokens, ForTokens;
  }

  lemma SettleVouchers(c: AckCodec, k: Contract, n: Node, ch: ChannelInfo, id: (string, nat), ack: GenericAck,
                       channel: string, peer: Endpoint, d: string)
    requires k.Injective() && WireOk(k, n) && Identifier(channel) && Identifier(id.0)
    requires ForeignNative(k, channel, peer, d)
    requires id in n.pending && ch.endpoint == Endpoint(k.Port(), id.0)
    ensures var (store, r) := Settle(c, k, n.state.store, ch, id.1, n.pending[id], ack);
            var n' := DoSettle(k, n, id, store, r);
            n'.Some? ==> VouchersBalanced(k, n, n'.value, channel, d, EffectOfSettle(n, ch, id, ack))
  {
    hide ForTokens, ExecAll, Supply, Origin, HopCarried, Contract.FactoryDenom, MakeForeignDenom, BurntOver,
      OwnNames, KeyedTokens;
    var w := MakeForeignDenom(Endpoint(k.Port(), channel), d);
    var (store, r) := Settle(c, k, n.state.store, ch, id.1, n.pending[id], ack);
    var data := n.pending[id];
    ForTokensVouchers(k, Refunding(data.sender), n.state.store.outstanding, ch.endpoint, data.tokens, w);
    BurntHere(k.Port(), channel, id.0, d, data.tokens);
    if r.Ok? && ExecAll(k, State(store, n.state.bank), r.value.msgs).Some? {
      ExecAllSupply(k, State(store, n.state.bank), r.value.msgs, k.FactoryDenom(w));
      NoMessages(k.FactoryDenom(w));
    }
  }

  lemma NoMessages(denom: string)
    ensures MintSum([], denom) == 0 && BurnSum([], denom) == 0
  {
  }

  lemma DeliverSupply(c: AckCodec, k: Contract, n: Node, id: (string, nat), v: Version, batch: seq<Msg>,
                      hostOk: bool, denom: string)
    ensures var delivered := DeliverState(k, n.state, batch, hostOk).Some?;
            Supply(DoDeliver(c, k, n, id, v, batch, hostOk).state.bank, denom)
            == Supply(n.state.bank, denom) + (if delivered then MintSum(batch, denom) - BurnSum(batch, denom) else 0)
  {
    hide ExecAll, Supply;
    if ExecAll(k, n.state, batch).Some? { ExecAllSupply(k, n.state, batch, denom); }
  }

  lemma ForwardSupply(c: AckCodec, k: Contract, n: Node, id: (string, nat), v: Version, r: Response, hostOk: bool,
                      denom: string)
    requires r.Forwarded? && DoForward(c, k, n, id, v, r, hostOk).Some?
    ensures Supply(DoForward(c, k, n, id, v, r, hostOk).value.state.bank, denom) + BurnSum(r.burns, denom)
            + BurnSum(r.batch, denom)
            == Supply(n.state.bank, denom) + MintSum(r.burns, denom) + MintSum(r.batch, denom)
  {
    hide ExecAll, Supply, MintSum, BurnSum;
    var state := ExecAll(k, n.state, r.burns).value;
    var state' := if hostOk then state.(store := SaveInFlight(state.store, r.payload, NextSeq(n, r.hop.channel)))
      else state;
    ExecAllSupply(k, n.state, r.burns, denom);
    ExecAllSupply(k, state', r.batch, denom);
  }

  /** What the hop of a forward burns and mints. */
  lemma ForwardMints(k: Contract, s: State, ch: ChannelInfo, relayer: string, packet: IbcPacket, data: PacketData,
                     fwd: PacketForward, w: string)
    requires k.Injective() && Inv(k, s) && InPlay(k, ch, data.tokens) && w in k.names
    ensures var r := ForwardPacket(k, s.store, ch, relayer, packet, data, fwd).1;
            r.Ok? ==>
              && r.value.Forwarded? && r.value.hop.channel in s.store.channels
              && MintSum(r.value.burns, k.FactoryDenom(w)) == 0 && BurnSum(r.value.batch, k.FactoryDenom(w)) == 0
              && MintSum(r.value.batch, k.FactoryDenom(w)) == MintedFrom(ch, w, data.tokens)
              && BurnSum(r.value.burns, k.FactoryDenom(w))
                 == BurntOver(Endpoint(k.Port(), r.value.hop.channel), w, r.value.hop.packet.tokens)
  {
    hide ReceiveTokens, ExecuteTransfer, Inv, Index, KeysClean, CleanCoins, RemapFees, BurntOver, MintedFrom,
      Contract.FactoryDenom, MintSum, BurnSum, InPlay;
    var (s1, r1) := ReceiveTokens(k, s.store, ch, k.addr, relayer, false, data.tokens);
    ReceiveMints(k, s.store, ch, k.addr, relayer, false, data.tokens, w);
    ReceiveReleases(k, s.store, ch, k.addr, relayer, false, data.tokens, "");
    ReceiveTokensKeepsInv(k, s, ch, k.addr, relayer, false, data.tokens);
    InvParts(k, s);
    InvParts(k, s.(store := s1));
    HopCoinsClean(k, s.store, ch, relayer, data.tokens);
    if r1.Ok? {
      var msg := TransferMsg(fwd.channel, fwd.receiver, fwd.next, RemapFees(fwd.fees, r1.value.tokens));
      TransferBurns(k, s1, k.addr, CoinsOf(r1.value.tokens), msg, w);
      TransferOver(k, s1, k.addr, CoinsOf(r1.value.tokens), msg);
    }
  }

  lemma RecvVouchers(c: AckCodec, k: Contract, n: Node, e: Event, channel: string, peer: Endpoint, d: string)
    requires k.Injective() && Inv(k, n.state) && PlainChannels(n) && Identifier(channel) && Knows(n, channel, peer)
    requires ForeignNative(k, channel, peer, d)
    requires Allowed(k, n, e) && e.Recv? && Step(c, k, n, e).Some?
    ensures VouchersBalanced(k, n, Step(c, k, n, e).value, channel, d, EffectOf(c, k, n, e))
  {
    hide ReceiveTokens, ForwardPacket, DoDeliver, DoForward, DeliverState, Supply, Inv, InPlay, CarriedOut,
      MakeForeignDenom,
      Contract.FactoryDenom, Origin, MintSum, BurnSum, MintedFrom, BurntOver, Identifier;
    ChannelNamed(k, n, e.channel);
    var ch := n.state.store.channels[e.channel];
    var w := MakeForeignDenom(Endpoint(k.Port(), channel), d);
    var v := k.FactoryDenom(w);
    var (store, r) := Receive(k, n.state.store, ch, e.relayer, e.packet);
    var n1 := n.(state := n.state.(store := store));
    var id := (e.channel, e.packet.sequence);
    if e.packet.data.Some? {
      var data := e.packet.data.value;
      MintedHere(k.Port(), channel, ch, d, data.tokens);
      match data.memo
      case NoMemo =>
        ReceiveMints(k, n.state.store, ch, data.receiver, e.relayer, true, data.tokens, w);
        if r.Ok? && r.value.Delivered? {
          DeliverSupply(c, k, n1, id, ch.version, r.value.batch, e.hostOk, v);
        }
      case Forward(fwd) =>
        ForwardMints(k, n.state, ch, e.relayer, e.packet, data, fwd, w);
        if r.Ok? && r.value.Forwarded? {
          ForwardSupply(c, k, n1, id, ch.version, r.value, e.hostOk, v);
          BurntHere(k.Port(), channel, r.value.hop.channel, d, r.value.hop.packet.tokens);
        }
    }
  }

  lemma NoneMoved(c: AckCodec, k: Contract, n: Node, e: Event, channel: string, d: string)
    requires Allowed(k, n, e) && (e.External? || e.Connect?)
    ensures VouchersBalanced(k, n, Step(c, k, n, e).value, channel, d, Nothing)
  {
    k.VoucherHashOfFactory(MakeForeignDenom(Endpoint(k.Port(), channel), d));
    hide Origin, MakeForeignDenom, Contract.FactoryDenom, Contract.VoucherHash;
  }

  /** Every event moves the supply of a voucher by what is accepted and what is sent back over its channel,
      except for what was minted for a hop that failed, and what was burnt for one that was not sent. */
  lemma VouchersBalance(c: AckCodec, k: Contract, n: Node, e: Event, channel: string, peer: Endpoint, d: string)
    requires k.Injective() && Inv(k, n.state) && WireOk(k, n) && PlainChannels(n)
    requires Identifier(channel) && Knows(n, channel, peer) && ForeignNative(k, channel, peer, d)
    requires Allowed(k, n, e) && Step(c, k, n, e).Some?
    ensures VouchersBalanced(k, n, Step(c, k, n, e).value, channel, d, EffectOf(c, k, n, e))
  {
    hide DoTransfer, DoRecv, DoSettle, Settle, ExternalOk, CleanCoins, Solvent, Index, KeysClean, EffectOfRecv,
      VouchersBalanced,
      ForeignNative, WireOk, Identifier;
    match e
    case External(_) => NoneMoved(c, k, n, e, channel, d);
    case Connect(_, _) => NoneMoved(c, k, n, e, channel, d);
    case Transfer(_, _, _) => TransferVouchers(c, k, n, e, channel, peer, d);
    case Recv(_, _, _, _) => RecvVouchers(c, k, n, e, channel, peer, d);
    case Acked(over, sequence, bytes) =>
      var ch := n.state.store.channels[over];
      var ack := DecodeAck(c, ch.version, bytes);
      if ack.Some? {
        SettleVouchers(c, k, n, ch, (over, sequence), ack.value, channel, peer, d);
      } else {
        RejectedAck(c, k, n, e);
      }
    case Expired(over, sequence) =>
      SettleVouchers(c, k, n, n.state.store.channels[over], (over, sequence), AckErr(TIMEOUT_MSG), channel, peer, d);
  }

  // ---------------------------------------------------------------- where stranded amounts come from

  /** Only three kinds of failure strand amounts: a receive that is refused, a hop that the host does not
      send, and a hop that fails or times out later; each on the channel the packet came in on. */
  lemma StrandedSources(channel: string, w: string, effect: Effect)
    requires Released(channel, w, effect) + FailedIn(channel, w, effect) > 0
    ensures match effect
            case Refused(from, _) => from == channel
            case HopNotSent(from, _, _, _) => from == channel
            case Failed(_, _, hop) => hop.Some? && hop.value.dst.channel == channel
            case _ => false
  {
  }

  // ---------------------------------------------------------------- a hop that fails

  /** Settling a hop as failed leaves the counter of the channel its packet came in on as it was: what the
      receive took off is not put back. The refund goes to the contract itself and to nobody else, and the
      origin is told of a failure. So the tokens of the packet are stranded. */
  lemma FailedHopStrands(c: AckCodec, k: Contract, n: Node, ch: ChannelInfo, id: (string, nat), ack: GenericAck,
                         channel: string, d: string, to: string, denom: string)
    requires id in n.pending && ch.endpoint == Endpoint(k.Port(), id.0) && IsHop(k, n.pending[id]) && ack.AckErr?
    requires KeyOf(ch, id.1) in n.state.store.inFlight && AckedOnce(n.state.store.inFlight, n.acks)
    requires n.state.store.inFlight[KeyOf(ch, id.1)].origin.dst.channel == channel != id.0 && NativeOf(k, channel, d)
    ensures var (store, r) := Settle(c, k, n.state.store, ch, id.1, n.pending[id], ack);
            var n' := DoSettle(k, n, id, store, r);
            var hop := n.state.store.inFlight[KeyOf(ch, id.1)];
            n'.Some? ==>
              && Outstanding(n'.value.state.store.outstanding, channel, d)
                 == Outstanding(n.state.store.outstanding, channel, d)
              && Payouts.Paid(r.value.msgs, to, denom)
                 == (if to == k.addr then Payouts.Returned(k, ch.endpoint, n.pending[id].tokens, denom) else 0)
              && ConvertAck(c, ch.version, hop.originVersion, ack).AckErr?
              && OriginId(hop) in n'.value.acks
              && n'.value.acks[OriginId(hop)] == [ConvertAck(c, ch.version, hop.originVersion, ack).bytes]
  {
    hide ForTokens, ExecAll, Outstanding, Origin, AckedOnce;
    var (store, r) := Settle(c, k, n.state.store, ch, id.1, n.pending[id], ack);
    var n' := DoSettle(k, n, id, store, r);
    var data, hop := n.pending[id], n.state.store.inFlight[KeyOf(ch, id.1)];
    OriginUnacked(n.state.store.inFlight, n.acks, KeyOf(ch, id.1));
    RefundExact(k, data.sender, n.state.store.outstanding, ch.endpoint, data.tokens, channel, d);
    if n'.Some? {
      ExecAllFrame(k, State(store, n.state.bank), r.value.msgs);
      Payouts.RefundPaysExactly(k, data.sender, n.state.store.outstanding, ch.endpoint, data.tokens, to, denom);
      assert [] + [r.value.deferred.value.1] == [r.value.deferred.value.1];
    }
  }

  /** Over a run: what receiving a packet took off the counter of its channel for a hop over another channel
      is exactly what is stranded when that hop fails. */
  lemma FailedHopStrandsItsRelease(c: AckCodec, k: Contract, trace: seq<Node>, events: seq<Event>, i: nat, j: nat,
                                   channel: string, d: string)
    requires k.Injective() && IsRun(c, k, trace, events) && i < j < |events| && NativeOf(k, channel, d)
    requires Allowed(k, trace[i], events[i]) && Allowed(k, trace[j], events[j])
    requires events[i].Recv? && events[i].channel == channel
    requires EffectOf(c, k, trace[i], events[i]).HopSent? && EffectOf(c, k, trace[i], events[i]).over != channel
    requires EffectOf(c, k, trace[j], events[j]).Failed?
    requires EffectOf(c, k, trace[j], events[j]).hop == Some(events[i].packet)
    ensures FailedIn(channel, MakeForeignDenom(trace[i].state.store.channels[channel].counterparty, d),
                     EffectOf(c, k, trace[j], events[j]))
            == Outstanding(trace[i].state.store.outstanding, channel, d)
               - Outstanding(trace[i + 1].state.store.outstanding, channel, d)
  {
    hide Outstanding, Step, Receive, MakeForeignDenom, Inv, InPlay, NativeOf, Init;
    assert Step(c, k, trace[i], events[i]) == Some(trace[i + 1]);
    ReachableInv(c, k, trace, events, i);
    ChannelNamed(k, trace[i], channel);
    CountersBalance(c, k, trace[i], events[i], channel, trace[i].state.store.channels[channel].counterparty, d);
  }
}
