/** What an event of one contract means to the other ends of its channels: the packets it sends, and what
    becomes of the packets it receives. */
module Effects {
  import opened Wrappers
  import opened Denoms
  import opened Fees
  import opened RelaySpec
  import opened Host
  import opened Solvency
  import opened Reachable
  import opened Forwarding
  import opened Exchange
  import opened Vouchers
  import opened Admission

  // ---------------------------------------------------------------- what an event does

  /** `from` is the channel a packet came in on, `over` the channel one goes out on; `hop` is the origin of
      a settled hop, and `released` are the tokens that a refused receive took off the counters. */
  datatype Effect =
    | Nothing
    | SentOver(over: string, sent: seq<Token>)
    | Refused(from: string, released: seq<Token>)
    | PaidOut(from: string, received: seq<Token>)
    | HopSent(from: string, received: seq<Token>, over: string, sent: seq<Token>)
    | HopNotSent(from: string, received: seq<Token>, over: string, sent: seq<Token>)
    | Succeeded(over: string, sent: seq<Token>, hop: Option<IbcPacket>)
    | Failed(over: string, sent: seq<Token>, hop: Option<IbcPacket>)

  ghost function EffectOfSettle(n: Node, ch: ChannelInfo, id: (string, nat), ack: GenericAck): Effect
    requires id in n.pending
  {
    var hops, key := n.state.store.inFlight, KeyOf(ch, id.1);
    var hop := if key in hops then Some(hops[key].origin) else None;
    match ack
    case AckOk(_) => Succeeded(id.0, n.pending[id].tokens, hop)
    case AckErr(_) => Failed(id.0, n.pending[id].tokens, hop)
  }

  ghost function EffectOfRecv(k: Contract, n: Node, ch: ChannelInfo, packet: IbcPacket, relayer: string,
                              hostOk: bool): Effect {
    var (store, r) := Receive(k, n.state.store, ch, relayer, packet);
    var from := ch.endpoint.channel;
    if packet.data.None? then Effect.Refused(from, [])
    else
      var tokens := packet.data.value.tokens;
      var refused := Effect.Refused(from, tokens[..Passing(n.state.store, ch, tokens)]);
      if !r.Ok? then refused
      else
        match r.value
        case Refused => refused
        case Delivered(batch) =>
          if DeliverState(k, n.state.(store := store), batch, hostOk).Some? then PaidOut(from, tokens) else refused
        case Forwarded(_, hop, _, _) =>
          if hostOk then HopSent(from, tokens, hop.channel, hop.packet.tokens)
          else HopNotSent(from, tokens, hop.channel, hop.packet.tokens)
  }

  ghost function EffectOf(c: AckCodec, k: Contract, n: Node, e: Event): Effect
    requires Allowed(k, n, e)
  {
    match e
    case External(_) => Nothing
    case Connect(_, _) => Nothing
    case Transfer(sender, funds, msg) =>
      (match TransferState(k, n.state, sender, funds, msg)
       case Some((_, out)) => SentOver(out.channel, out.packet.tokens)
       case None => Nothing)
    case Recv(channel, packet, relayer, hostOk) =>
      EffectOfRecv(k, n, n.state.store.channels[channel], packet, relayer, hostOk)
    case Acked(channel, sequence, bytes) =>
      var ch := n.state.store.channels[channel];
      (match DecodeAck(c, ch.version, bytes)
       case Some(ack) => EffectOfSettle(n, ch, (channel, sequence), ack)
       case None => Nothing)
    case Expired(channel, sequence) =>
      EffectOfSettle(n, n.state.store.channels[channel], (channel, sequence), AckErr(TIMEOUT_MSG))
  }

  // ---------------------------------------------------------------- what the other ends see of it

  /** A received packet counts as accepted while its acknowledgement is due, and once it reads as a
      success. */
  ghost predicate Accepts(c: AckCodec, v: Version, written: seq<string>) {
    written == [] || (DecodeAck(c, v, written[0]).Some? && DecodeAck(c, v, written[0]).value.AckOk?)
  }

  ghost predicate Sends(n: Node, n': Node, over: string, sent: seq<Token>) {
    var id := (over, NextSeq(n, over));
    && id in n'.pending && n'.pending[id].tokens == sent
    && n'.pending == n.pending[id := n'.pending[id]]
    && n'.nextSeq == n.nextSeq[over := NextSeq(n, over) + 1]
  }

  ghost predicate Answers(c: AckCodec, v: Version, n: Node, n': Node, id: (string, nat), accepted: bool) {
    && id in n'.acks
    && n'.acks == n.acks[id := n'.acks[id]]
    && (Accepts(c, v, n'.acks[id]) <==> accepted)
  }

  ghost predicate SendsNothing(n: Node, n': Node) { n'.pending == n.pending && n'.nextSeq == n.nextSeq }

  ghost predicate Receives(c: AckCodec, n: Node, n': Node, e: Event, from: string, accepted: bool) {
    && e.Recv? && e.channel == from && from in n.state.store.channels
    && Answers(c, n.state.store.channels[from].version, n, n', (from, e.packet.sequence), accepted)
  }

  ghost predicate Carries(e: Event, received: seq<Token>) {
    e.Recv? && e.packet.data.Some? && received == e.packet.data.value.tokens
  }

  /** The packet settled by an event, and the polarity of what was learnt about it. */
  ghost predicate Learns(c: AckCodec, n: Node, e: Event, over: string, accepted: bool) {
    && (e.Acked? || e.Expired?) && e.channel == over
    && (e.Expired? ==> !accepted)
    && (e.Acked? ==>
          && over in n.state.store.channels
          && var told := DecodeAck(c, n.state.store.channels[over].version, e.bytes);
             told.Some? && (told.value.AckOk? <==> accepted))
  }

  ghost predicate Settles(c: AckCodec, k: Contract, n: Node, n': Node, e: Event, over: string, sent: seq<Token>,
                          hop: Option<IbcPacket>, accepted: bool) {
    && Learns(c, n, e, over, accepted)
    && var id := (over, e.sequence);
       var key := HopKey(over, k.Port(), e.sequence);
    && id in n.pending && n.pending[id].tokens == sent
    && n'.pending == n.pending - {id} && n'.nextSeq == n.nextSeq
    && (hop.None? ==> n'.acks == n.acks)
    && (hop.Some? ==>
          && key in n.state.store.inFlight && n.state.store.inFlight[key].origin == hop.value
          && hop.value.dst.channel in n.state.store.channels
          && Answers(c, n.state.store.channels[hop.value.dst.channel].version, n, n',
                     OriginId(n.state.store.inFlight[key]), accepted))
  }

  ghost predicate Shows(c: AckCodec, k: Contract, n: Node, n': Node, e: Event, effect: Effect) {
    match effect
    case Nothing => SendsNothing(n, n') && n'.acks == n.acks
    case SentOver(over, sent) => Sends(n, n', over, sent) && n'.acks == n.acks
    case Refused(from, _) => SendsNothing(n, n') && Receives(c, n, n', e, from, false)
    case PaidOut(from, received) => SendsNothing(n, n') && Carries(e, received) && Receives(c, n, n', e, from, true)
    case HopSent(from, received, over, sent) =>
      Sends(n, n', over, sent) && Carries(e, received) && Receives(c, n, n', e, from, true)
    case HopNotSent(from, received, over, sent) =>
      SendsNothing(n, n') && Carries(e, received) && Receives(c, n, n', e, from, false)
    case Succeeded(over, sent, hop) => Settles(c, k, n, n', e, over, sent, hop, true)
    case Failed(over, sent, hop) => Settles(c, k, n, n', e, over, sent, hop, false)
  }

  lemma TransferShown(c: AckCodec, k: Contract, n: Node, e: Event)
    requires Allowed(k, n, e) && e.Transfer? && Step(c, k, n, e).Some?
    ensures Shows(c, k, n, Step(c, k, n, e).value, e, EffectOf(c, k, n, e))
  {
    hide TransferState;
  }

  /** The host's two acknowledgements read as what they are, in either version. */
  lemma OwnAcksRead(c: AckCodec, v: Version, error: string)
    requires CodecOk(c)
    ensures Accepts(c, v, [SuccessBytes(c, v)]) && !Accepts(c, v, [FailureBytes(c, v, error)])
  {
  }

  lemma DeliverShown(c: AckCodec, k: Contract, n: Node, id: (string, nat), v: Version, batch: seq<Msg>, hostOk: bool)
    requires CodecOk(c) && id !in n.acks
    ensures var n' := DoDeliver(c, k, n, id, v, batch, hostOk);
            SendsNothing(n, n') && Answers(c, v, n, n', id, DeliverState(k, n.state, batch, hostOk).Some?)
  {
    hide Accepts, DeliverState, CodecOk;
    OwnAcksRead(c, v, "batch");
  }

  lemma ForwardShown(c: AckCodec, k: Contract, n: Node, id: (string, nat), v: Version, r: Response, hostOk: bool)
    requires CodecOk(c) && id !in n.acks && r.Forwarded? && DoForward(c, k, n, id, v, r, hostOk).Some?
    ensures var n' := DoForward(c, k, n, id, v, r, hostOk).value;
            && (if hostOk then Sends(n, n', r.hop.channel, r.hop.packet.tokens) else SendsNothing(n, n'))
            && Answers(c, v, n, n', id, hostOk)
  {
    hide Accepts, ExecAll, CodecOk;
    OwnAcksRead(c, v, "hop");
    WaitingAccepts(c, v);
  }

  lemma RecvShown(c: AckCodec, k: Contract, n: Node, e: Event)
    requires CodecOk(c) && Inv(k, n.state) && Allowed(k, n, e) && e.Recv? && Step(c, k, n, e).Some?
    ensures Shows(c, k, n, Step(c, k, n, e).value, e, EffectOf(c, k, n, e))
  {
    hide ForwardPacket, ReceiveTokens, DoDeliver, DoForward, DeliverState, Inv, InPlay, Accepts, CodecOk, Passing,
      FailureBytes, SuccessBytes;
    ChannelNamed(k, n, e.channel);
    var ch := n.state.store.channels[e.channel];
    var (store, r) := Receive(k, n.state.store, ch, e.relayer, e.packet);
    var n1 := n.(state := n.state.(store := store));
    var id := (e.channel, e.packet.sequence);
    OwnAcksRead(c, ch.version, "refused");
    if r.Ok? && r.value.Delivered? {
      DeliverShown(c, k, n1, id, ch.version, r.value.batch, e.hostOk);
    } else if r.Ok? && r.value.Forwarded? {
      ForwardShown(c, k, n1, id, ch.version, r.value, e.hostOk);
    }
  }

  lemma ChannelNamed(k: Contract, n: Node, channel: string)
    requires Inv(k, n.state) && channel in n.state.store.channels
    ensures n.state.store.channels[channel].endpoint == Endpoint(k.Port(), channel)
  {
  }

  lemma WaitingAccepts(c: AckCodec, v: Version)
    ensures Accepts(c, v, [])
  {
  }

  /** Whatever is told to the origin of a hop reads as a success exactly when the hop was one. */
  lemma ToldPolarity(c: AckCodec, hop: Version, origin: Version, ack: GenericAck, bytes: string)
    requires CodecOk(c)
    requires ack == AckErr(TIMEOUT_MSG) || DecodeAck(c, hop, bytes) == Some(ack)
    ensures Accepts(c, origin, [ConvertAck(c, hop, origin, ack).bytes]) <==> ack.AckOk?
  {
    if ack == AckErr(TIMEOUT_MSG) {
      DeferredTimeoutReadableIff(c, hop, origin);
    } else {
      DeferredAckPolarity(c, hop, origin, bytes);
    }
  }

  lemma SettleShown(c: AckCodec, k: Contract, n: Node, e: Event, ack: GenericAck, bytes: string)
    requires CodecOk(c) && Inv(k, n.state) && ForwardInv(k, n) && Allowed(k, n, e) && (e.Acked? || e.Expired?)
    requires Step(c, k, n, e).Some?
    requires ack == AckErr(TIMEOUT_MSG) || DecodeAck(c, n.state.store.channels[e.channel].version, bytes) == Some(ack)
    requires Learns(c, n, e, e.channel, ack.AckOk?)
    ensures var ch := n.state.store.channels[e.channel];
            var (store, r) := Settle(c, k, n.state.store, ch, e.sequence, n.pending[(e.channel, e.sequence)], ack);
            var n' := DoSettle(k, n, (e.channel, e.sequence), store, r);
            n'.Some? ==> Shows(c, k, n, n'.value, e, EffectOfSettle(n, ch, (e.channel, e.sequence), ack))
  {
    hide Inv, ForwardInv, CodecOk, Settle, DoSettle, Learns, ConvertAck, Accepts, Step;
    var ch, id := n.state.store.channels[e.channel], (e.channel, e.sequence);
    ChannelNamed(k, n, e.channel);
    SettleTellsOrigin(c, k, n, ch, id, ack);
    SettleSendsNothing(c, k, n, ch, id, ack);
    var hops, key := n.state.store.inFlight, KeyOf(ch, e.sequence);
    if key in hops {
      OriginChannel(k, n, key);
      ToldPolarity(c, ch.version, hops[key].originVersion, ack, bytes);
    }
  }

  lemma OriginChannel(k: Contract, n: Node, key: HopKey)
    requires ForwardInv(k, n) && key in n.state.store.inFlight
    ensures var hop := n.state.store.inFlight[key];
            && hop.origin.dst.channel in n.state.store.channels
            && n.state.store.channels[hop.origin.dst.channel].version == hop.originVersion
  {
  }

  lemma SettleSendsNothing(c: AckCodec, k: Contract, n: Node, ch: ChannelInfo, id: (string, nat), ack: GenericAck)
    requires id in n.pending
    ensures var (store, r) := Settle(c, k, n.state.store, ch, id.1, n.pending[id], ack);
            var n' := DoSettle(k, n, id, store, r);
            n'.Some? ==> n'.value.pending == n.pending - {id} && n'.value.nextSeq == n.nextSeq
  {
    hide Settle, ExecAll;
  }

  /** Every event shows the other ends exactly its effect. */
  lemma EffectShown(c: AckCodec, k: Contract, n: Node, e: Event)
    requires CodecOk(c) && Inv(k, n.state) && ForwardInv(k, n) && Allowed(k, n, e) && Step(c, k, n, e).Some?
    ensures Shows(c, k, n, Step(c, k, n, e).value, e, EffectOf(c, k, n, e))
  {
    hide DoTransfer, DoRecv, DoSettle, Settle, ExternalOk, CleanCoins, Solvent, Index, KeysClean, ForwardInv,
      CodecOk, EffectOfSettle;
    match e
    case External(_) =>
    case Connect(_, _) =>
    case Transfer(_, _, _) => TransferShown(c, k, n, e);
    case Recv(_, _, _, _) => RecvShown(c, k, n, e);
    case Acked(channel, sequence, bytes) =>
      var ack := DecodeAck(c, n.state.store.channels[channel].version, bytes);
      if ack.Some? {
        SettleShown(c, k, n, e, ack.value, bytes);
      } else {
        RejectedAck(c, k, n, e);
      }
    case Expired(_, _) => SettleShown(c, k, n, e, AckErr(TIMEOUT_MSG), "");
  }

  /** A packet with a forwarding memo is never paid out, and one without a memo never forwarded. A forward goes on
      to the host, over the channel that it names, if and only if its tokens pass and nothing speaks against
      the onward transfer. */
  lemma HopEffectIff(c: AckCodec, k: Contract, n: Node, e: Event)
    requires Inv(k, n.state) && Allowed(k, n, e) && e.Recv?
    ensures var ch, effect := n.state.store.channels[e.channel], EffectOf(c, k, n, e);
            match e.packet.data
            case None => effect.Refused?
            case Some(data) =>
              match data.memo
              case NoMemo => effect.PaidOut? || effect.Refused?
              case Forward(fwd) =>
                if GoesOn(k, n.state.store, ch, data.tokens, fwd)
                  then (if e.hostOk then effect.HopSent? else effect.HopNotSent?) && effect.over == fwd.channel
                  else effect.Refused?
  {
    hide Receive, Inv, GoesOn, Passing, DeliverState, InPlay, Step;
    var ch := n.state.store.channels[e.channel];
    InvReady(k, n.state);
    hide Ready;
    if e.packet.data.Some? && e.packet.data.value.memo.Forward? {
      ForwardedIff(k, n.state.store, ch, e.relayer, e.packet);
    } else {
      DeliveredIff(k, n.state.store, ch, e.relayer, e.packet);
    }
  }

  // ---------------------------------------------------------------- packets on the wire

  /** The tokens that stand for vouchers do so for registered ones. */
  ghost predicate RegisteredTokens(s: Store, ep: Endpoint, tokens: seq<Token>) {
    forall i :: 0 <= i < |tokens| && Origin(tokens[i].denom, ep).Local? ==> Registered(s, ep, tokens[i].denom)
  }

  /** The channel is known, and on one for ICS-20 there is a single token, without a fee. */
  ghost predicate Admitted(s: Store, channel: string, tokens: seq<Token>) {
    channel in s.channels && (s.channels[channel].version == Ics20 ==> |tokens| == 1 && tokens[0].fee == 0)
  }

  /** The vouchers that the tokens stand for are registered under names in use, those escrowed still have a
      counter, and the version of the channel admits them. */
  ghost predicate TokensOk(k: Contract, s: Store, channel: string, tokens: seq<Token>) {
    var ep := Endpoint(k.Port(), channel);
    && OwnNames(k, ep, tokens) && RegisteredTokens(s, ep, tokens) && KeyedTokens(s.outstanding, ep, tokens)
    && Admitted(s, channel, tokens)
  }

  ghost predicate Grows(s: Store, s': Store) {
    && s.outstanding.Keys <= s'.outstanding.Keys
    && (forall ep, x :: Registered(s, ep, x) ==> Registered(s', ep, x))
    && forall c :: c in s.channels ==> c in s'.channels && s'.channels[c] == s.channels[c]
  }

  ghost predicate WireOk(k: Contract, n: Node) {
    forall id :: id in n.pending ==> TokensOk(k, n.state.store, id.0, n.pending[id].tokens)
  }

  lemma NamedOnWire(k: Contract, ep: Endpoint, tokens: seq<Token>, wire: seq<Token>)
    requires SameTokens(k, ep, tokens, wire)
    ensures OwnNames(k, ep, wire)
  {
    hide Origin, Contract.FactoryDenom, MakeForeignDenom;
    forall i | 0 <= i < |wire| && Origin(wire[i].denom, ep).Local? ensures wire[i].denom in k.names {
      assert SameToken(k, ep, tokens[i], wire[i]);
    }
  }

  lemma {:induction false} RegisteredOnWire(k: Contract, s: Store, ep: Endpoint, tokens: seq<Token>)
    requires Index(k, s) && ep.port == k.Port()
    requires forall i :: 0 <= i < |tokens| ==> Clean(k, tokens[i].denom)
    ensures NormalizeTokens(k, s, ep, tokens).Ok? ==> RegisteredTokens(s, ep, NormalizeTokens(k, s, ep, tokens).value)
  {
    hide Origin, Index, Clean, Registered, Contract.Normalize;
    if tokens != [] {
      var n := |tokens| - 1;
      RegisteredOnWire(k, s, ep, tokens[..n]);
      RegisteredName(k, s, ep, tokens[n].denom);
    }
  }

  /** A coin that becomes the preimage of a voucher is a registered one. */
  lemma RegisteredName(k: Contract, s: Store, ep: Endpoint, denom: string)
    requires Index(k, s) && Clean(k, denom) && ep.port == k.Port()
    ensures var r := k.Normalize(s.hashToDenom, ep, denom);
            r.Ok? && Origin(r.value, ep).Local? ==> Registered(s, ep, r.value)
  {
    hide Origin, Contract.FactoryDenom, Contract.VoucherHash, Hex, Unhex, Clean;
    CleanIsRemote(k, ep, denom);
  }

  lemma CleanTokens(k: Contract, funds: seq<Coin>, fees: Option<FeeMap>)
    requires CleanCoins(k, funds) && ToCoins(funds).Ok?
    ensures var tokens := AttachFees(ToCoins(funds).value, fees);
            forall i :: 0 <= i < |tokens| ==> Clean(k, tokens[i].denom)
  {
    hide ToCoins, Clean;
    ToCoinsSound(funds, "");
    var coins := ToCoins(funds).value;
    forall i | 0 <= i < |coins| ensures Clean(k, coins[i].denom) {
      assert coins[i] in funds;
    }
  }

  lemma TransferWire(k: Contract, s: Store, sender: string, funds: seq<Coin>, msg: TransferMsg)
    requires Index(k, s) && ChannelsOk(k, s) && CleanCoins(k, funds)
    ensures var (s', r) := ExecuteTransfer(k, s, sender, funds, msg);
            r.Ok? ==> s.outstanding.Keys <= s'.outstanding.Keys
                      && TokensOk(k, s', r.value.channel, r.value.packet.tokens)
  {
    hide ToCoins, AttachFees, NormalizeTokens, ForTokens, OwnNames, KeyedTokens, SameTokens, Index, CleanCoins, Clean,
      Registered, Origin;
    var (s', r) := ExecuteTransfer(k, s, sender, funds, msg);
    if r.Ok? {
      var ep := s.channels[msg.channel].endpoint;
      var tokens := AttachFees(ToCoins(funds).value, msg.fees);
      CleanTokens(k, funds, msg.fees);
      NormalizeTokensSound(k, s, ep, tokens);
      NamedOnWire(k, ep, tokens, r.value.packet.tokens);
      RegisteredOnWire(k, s, ep, tokens);
      TransferLeaves(k, s, sender, funds, msg);
      SameRegistry(s, s', ep, r.value.packet.tokens);
      EscrowKeys(k, s.outstanding, ep, r.value.packet.tokens);
    }
  }

  lemma SameRegistry(s: Store, s': Store, ep: Endpoint, tokens: seq<Token>)
    requires s'.denomToHash == s.denomToHash
    ensures RegisteredTokens(s, ep, tokens) ==> RegisteredTokens(s', ep, tokens)
  {
  }

  lemma WireKept(k: Contract, n: Node, n': Node)
    requires WireOk(k, n) && Grows(n.state.store, n'.state.store)
    requires forall id :: id in n'.pending ==> id in n.pending && n'.pending[id] == n.pending[id]
    ensures WireOk(k, n')
  {
  }

  lemma WirePut(k: Contract, n: Node, s: Store, n': Node, over: string, data: PacketData)
    requires WireOk(k, n) && Grows(n.state.store, n'.state.store)
    requires n'.pending == n.pending[(over, NextSeq(n, over)) := data]
    requires TokensOk(k, s, over, data.tokens) && Grows(s, n'.state.store)
    ensures WireOk(k, n')
  {
  }

  lemma StepRegisters(c: AckCodec, k: Contract, n: Node, e: Event)
    requires Inv(k, n.state) && Allowed(k, n, e) && Step(c, k, n, e).Some?
    ensures forall ep, x :: Registered(n.state.store, ep, x) ==> Registered(Step(c, k, n, e).value.state.store, ep, x)
  {
    hide Step, Allowed, Inv, Registered;
    forall ep, x | Registered(n.state.store, ep, x) ensures Registered(Step(c, k, n, e).value.state.store, ep, x) {
      StepGrows(c, k, n, e, ep, x);
    }
  }

  lemma TransferKeepsWire(c: AckCodec, k: Contract, n: Node, e: Event)
    requires Inv(k, n.state) && WireOk(k, n) && Allowed(k, n, e) && e.Transfer? && Step(c, k, n, e).Some?
    ensures WireOk(k, Step(c, k, n, e).value)
  {
    hide ExecuteTransfer, MoveCoins, ExecAll, Solvent, Index, KeysClean, WireOk, TokensOk, Clean, ChannelsOk;
    var bank := MoveCoins(n.state.bank, e.sender, k.addr, e.funds).value;
    var (store, r) := ExecuteTransfer(k, n.state.store, e.sender, e.funds, e.msg);
    TransferWire(k, n.state.store, e.sender, e.funds, e.msg);
    ExecAllFrame(k, State(store, bank), r.value.msgs);
    StepRegisters(c, k, n, e);
    TransferLeaves(k, n.state.store, e.sender, e.funds, e.msg);
    TransferChannels(k, n, e.sender, e.funds, e.msg);
    WirePut(k, n, store, Step(c, k, n, e).value, r.value.channel, r.value.packet);
  }

  /** The storage that a receive leaves, and what a hop sends. */
  lemma ReceiveWire(k: Contract, s: State, ch: ChannelInfo, relayer: string, packet: IbcPacket)
    requires Inv(k, s) && (packet.data.Some? ==> InPlay(k, ch, packet.data.value.tokens))
    ensures var (store, r) := Receive(k, s.store, ch, relayer, packet);
            && s.store.outstanding.Keys <= store.outstanding.Keys && store.denomToHash == s.store.denomToHash
            && (r.Ok? && r.value.Forwarded? ==>
                  TokensOk(k, store, r.value.hop.channel, r.value.hop.packet.tokens))
  {
    hide ReceiveTokens, ExecuteTransfer, Solvent, TokensOk, InPlay, ForwardPacket;
    if packet.data.Some? {
      var data := packet.data.value;
      match data.memo
      case NoMemo => ReceiveReleases(k, s.store, ch, data.receiver, relayer, true, data.tokens, "");
      case Forward(fwd) => ForwardWire(k, s, ch, relayer, packet, data, fwd);
    }
  }

  lemma ForwardWire(k: Contract, s: State, ch: ChannelInfo, relayer: string, packet: IbcPacket, data: PacketData,
                    fwd: PacketForward)
    requires Inv(k, s)
    ensures var (store, r) := ForwardPacket(k, s.store, ch, relayer, packet, data, fwd);
            && s.store.outstanding.Keys <= store.outstanding.Keys && store.denomToHash == s.store.denomToHash
            && (r.Ok? ==> r.value.Forwarded?
                          && TokensOk(k, store, r.value.hop.channel, r.value.hop.packet.tokens))
  {
    hide ReceiveTokens, ExecuteTransfer, Inv, TokensOk, Index, KeysClean, CleanCoins, RemapFees;
    var (s1, r1) := ReceiveTokens(k, s.store, ch, k.addr, relayer, false, data.tokens);
    ReceiveReleases(k, s.store, ch, k.addr, relayer, false, data.tokens, "");
    ReceiveTokensKeepsInv(k, s, ch, k.addr, relayer, false, data.tokens);
    InvParts(k, s);
    InvParts(k, s.(store := s1));
    HopCoinsClean(k, s.store, ch, relayer, data.tokens);
    if r1.Ok? {
      var msg := TransferMsg(fwd.channel, fwd.receiver, fwd.next, RemapFees(fwd.fees, r1.value.tokens));
      TransferWire(k, s1, k.addr, CoinsOf(r1.value.tokens), msg);
      TransferLeaves(k, s1, k.addr, CoinsOf(r1.value.tokens), msg);
    }
  }

  lemma InvParts(k: Contract, s: State)
    requires Inv(k, s)
    ensures Index(k, s.store) && KeysClean(k, s.store.outstanding) && ChannelsOk(k, s.store)
  {
  }

  /** A transfer that is refused may have grown counters, but none has gone. */
  lemma TransferLeaves(k: Contract, s: Store, sender: string, funds: seq<Coin>, msg: TransferMsg)
    ensures var s' := ExecuteTransfer(k, s, sender, funds, msg).0;
            s.outstanding.Keys <= s'.outstanding.Keys && s'.denomToHash == s.denomToHash
  {
    hide ToCoins, AttachFees, NormalizeTokens, ForTokens;
    var (s', r) := ExecuteTransfer(k, s, sender, funds, msg);
    if s' != s {
      var wire := CheckPacket(s.channels[msg.channel].version,
                              NormalizeTokens(k, s, s.channels[msg.channel].endpoint,
                                AttachFees(ToCoins(funds).value, msg.fees)).value).value;
      EscrowGrows(k, s.outstanding, s.channels[msg.channel].endpoint, wire);
    }
  }

  lemma {:induction false} EscrowGrows(k: Contract, e: Escrow, ep: Endpoint, wire: seq<Token>)
    ensures e.Keys <= ForTokens(k, Escrowing, e, ep, wire).0.Keys
  {
    hide Origin, MakeForeignDenom, Contract.FactoryDenom, Amounts;
    if wire != [] {
      EscrowGrows(k, e, ep, wire[..|wire| - 1]);
    }
  }

  /** The rest of a receive leaves the counters alone. */
  lemma DeliverLeaves(c: AckCodec, k: Contract, n: Node, id: (string, nat), v: Version, batch: seq<Msg>, hostOk: bool)
    ensures var n' := DoDeliver(c, k, n, id, v, batch, hostOk);
            n'.state.store.outstanding == n.state.store.outstanding && n'.pending == n.pending
            && n'.state.store.channels == n.state.store.channels
  {
    hide ExecAll;
    if ExecAll(k, n.state, batch).Some? { ExecAllFrame(k, n.state, batch); }
  }

  lemma ForwardLeaves(c: AckCodec, k: Contract, n: Node, id: (string, nat), v: Version, r: Response, hostOk: bool)
    requires r.Forwarded? && DoForward(c, k, n, id, v, r, hostOk).Some?
    ensures var n' := DoForward(c, k, n, id, v, r, hostOk).value;
            && n'.state.store.outstanding == n.state.store.outstanding
            && n'.state.store.channels == n.state.store.channels
            && n'.pending == (if hostOk then n.pending[(r.hop.channel, NextSeq(n, r.hop.channel)) := r.hop.packet]
               else n.pending)
  {
    hide ExecAll;
    ExecAllFrame(k, n.state, r.burns);
    var state := ExecAll(k, n.state, r.burns).value;
    var state' := if hostOk then state.(store := SaveInFlight(state.store, r.payload, NextSeq(n, r.hop.channel)))
      else state;
    ExecAllFrame(k, state', r.batch);
  }

  lemma RecvKeepsWire(c: AckCodec, k: Contract, n: Node, e: Event)
    requires Inv(k, n.state) && WireOk(k, n) && Allowed(k, n, e) && e.Recv? && Step(c, k, n, e).Some?
    ensures WireOk(k, Step(c, k, n, e).value)
  {
    hide Receive, DoDeliver, DoForward, Inv, InPlay, WireOk, TokensOk;
    ChannelNamed(k, n, e.channel);
    var ch := n.state.store.channels[e.channel];
    var (store, r) := Receive(k, n.state.store, ch, e.relayer, e.packet);
    ReceiveWire(k, n.state, ch, e.relayer, e.packet);
    ReceiveChannels(k, n.state, ch, e.relayer, e.packet);
    StepRegisters(c, k, n, e);
    var n1, n' := n.(state := n.state.(store := store)), Step(c, k, n, e).value;
    var id := (e.channel, e.packet.sequence);
    match r.value
    case Refused => WireKept(k, n, n');
    case Delivered(batch) =>
      DeliverLeaves(c, k, n1, id, ch.version, batch, e.hostOk);
      WireKept(k, n, n');
    case Forwarded(_, hop, _, _) =>
      ForwardLeaves(c, k, n1, id, ch.version, r.value, e.hostOk);
      if e.hostOk { WirePut(k, n, store, n', hop.channel, hop.packet); } else { WireKept(k, n, n'); }
  }

  lemma SettleKeepsWire(c: AckCodec, k: Contract, n: Node, ch: ChannelInfo, id: (string, nat), ack: GenericAck)
    requires WireOk(k, n) && id in n.pending
    ensures var (store, r) := Settle(c, k, n.state.store, ch, id.1, n.pending[id], ack);
            var n' := DoSettle(k, n, id, store, r);
            n'.Some? ==> WireOk(k, n'.value) && n'.value.state.store.channels == n.state.store.channels
  {
    hide ForTokens, ExecAll, ConvertAck, WireOk;
    var (store, r) := Settle(c, k, n.state.store, ch, id.1, n.pending[id], ack);
    var n' := DoSettle(k, n, id, store, r);
    RefundFlow(k, n.state.store.outstanding, ch.endpoint, n.pending[id].tokens, n.pending[id].sender, "", "");
    if n'.Some? {
      ExecAllFrame(k, State(store, n.state.bank), r.value.msgs);
      forall ep, x | Registered(n.state.store, ep, x) ensures Registered(n'.value.state.store, ep, x) {
        SettleGrows(c, k, n, ch, id, n.pending[id], ack, ep, x);
      }
      WireKept(k, n, n'.value);
    }
  }

  /** Every packet that is not settled keeps named vouchers and counters for its refund. */
  lemma StepKeepsWire(c: AckCodec, k: Contract, n: Node, e: Event)
    requires Inv(k, n.state) && WireOk(k, n) && Allowed(k, n, e) && Step(c, k, n, e).Some?
    ensures WireOk(k, Step(c, k, n, e).value)
  {
    hide DoTransfer, DoRecv, DoSettle, Settle, ExternalOk, CleanCoins, Inv, WireOk, InPlay;
    match e
    case External(_) => WireKept(k, n, Step(c, k, n, e).value);
    case Connect(_, _) => WireKept(k, n, Step(c, k, n, e).value);
    case Transfer(_, _, _) => TransferKeepsWire(c, k, n, e);
    case Recv(_, _, _, _) => RecvKeepsWire(c, k, n, e);
    case Acked(channel, sequence, bytes) =>
      var ch := n.state.store.channels[channel];
      var ack := DecodeAck(c, ch.version, bytes);
      if ack.Some? {
        SettleKeepsWire(c, k, n, ch, (channel, sequence), ack.value);
      } else {
        RejectedAck(c, k, n, e);
      }
    case Expired(channel, sequence) =>
      SettleKeepsWire(c, k, n, n.state.store.channels[channel], (channel, sequence), AckErr(TIMEOUT_MSG));
  }

  lemma {:induction false} AlwaysOnWire(c: AckCodec, k: Contract, trace: seq<Node>, events: seq<Event>, i: nat)
    requires k.Injective() && IsRun(c, k, trace, events) && i < |trace|
    ensures WireOk(k, trace[i])
  {
    hide Inv, WireOk, Step, Allowed;
    if i == 0 {
      NothingOnWire(k, trace[0]);
    } else {
      var j := i - 1;
      AlwaysOnWire(c, k, trace, events, j);
      ReachableInv(c, k, trace, events, j);
      assert Allowed(k, trace[j], events[j]) && Step(c, k, trace[j], events[j]) == Some(trace[j + 1]);
      StepKeepsWire(c, k, trace[j], events[j]);
    }
  }

  lemma NothingOnWire(k: Contract, n: Node)
    requires Init(k, n)
    ensures WireOk(k, n)
  {
  }

  // ---------------------------------------------------------------- channels are never changed

  lemma StepKeepsChannel(c: AckCodec, k: Contract, n: Node, e: Event, channel: string)
    requires Inv(k, n.state) && WireOk(k, n) && Allowed(k, n, e) && Step(c, k, n, e).Some?
    requires channel in n.state.store.channels || !(e.Connect? && e.channel == channel)
    ensures var channels, channels' := n.state.store.channels, Step(c, k, n, e).value.state.store.channels;
            && (channel in channels' <==> channel in channels)
            && (channel in channels ==> channels'[channel] == channels[channel])
  {
    hide DoTransfer, DoRecv, DoSettle, Settle, ExternalOk, CleanCoins, Inv, WireOk, InPlay;
    match e
    case External(_) =>
    case Connect(_, _) =>
    case Transfer(sender, funds, msg) => TransferChannels(k, n, sender, funds, msg);
    case Recv(_, _, _, _) => RecvChannels(c, k, n, e);
    case Acked(over, sequence, bytes) =>
      var ch := n.state.store.channels[over];
      var ack := DecodeAck(c, ch.version, bytes);
      if ack.Some? {
        SettleKeepsWire(c, k, n, ch, (over, sequence), ack.value);
      } else {
        RejectedAck(c, k, n, e);
      }
    case Expired(over, sequence) =>
      SettleKeepsWire(c, k, n, n.state.store.channels[over], (over, sequence), AckErr(TIMEOUT_MSG));
  }

  lemma TransferChannels(k: Contract, n: Node, sender: string, funds: seq<Coin>, msg: TransferMsg)
    requires DoTransfer(k, n, sender, funds, msg).Some?
    ensures DoTransfer(k, n, sender, funds, msg).value.state.store.channels == n.state.store.channels
  {
    hide ExecuteTransfer, MoveCoins, ExecAll;
    var bank := MoveCoins(n.state.bank, sender, k.addr, funds).value;
    var (store, r) := ExecuteTransfer(k, n.state.store, sender, funds, msg);
    ExecuteTransferFrame(k, n.state.store, sender, funds, msg);
    ExecAllFrame(k, State(store, bank), r.value.msgs);
  }

  lemma RecvChannels(c: AckCodec, k: Contract, n: Node, e: Event)
    requires Inv(k, n.state) && Allowed(k, n, e) && e.Recv? && Step(c, k, n, e).Some?
    ensures Step(c, k, n, e).value.state.store.channels == n.state.store.channels
  {
    hide Receive, DoDeliver, DoForward, Inv, InPlay;
    ChannelNamed(k, n, e.channel);
    var ch := n.state.store.channels[e.channel];
    var (store, r) := Receive(k, n.state.store, ch, e.relayer, e.packet);
    ReceiveChannels(k, n.state, ch, e.relayer, e.packet);
    var n1 := n.(state := n.state.(store := store));
    var id := (e.channel, e.packet.sequence);
    match r.value
    case Refused =>
    case Delivered(batch) => DeliverLeaves(c, k, n1, id, ch.version, batch, e.hostOk);
    case Forwarded(_, _, _, _) => ForwardLeaves(c, k, n1, id, ch.version, r.value, e.hostOk);
  }

  lemma ReceiveChannels(k: Contract, s: State, ch: ChannelInfo, relayer: string, packet: IbcPacket)
    requires Inv(k, s) && (packet.data.Some? ==> InPlay(k, ch, packet.data.value.tokens))
    ensures Receive(k, s.store, ch, relayer, packet).0.channels == s.store.channels
  {
    hide ReceiveTokens, ForwardPacket, Inv, InPlay;
    if packet.data.Some? {
      var data := packet.data.value;
      match data.memo
      case NoMemo => ReceiveReleases(k, s.store, ch, data.receiver, relayer, true, data.tokens, "");
      case Forward(fwd) => HopFlow(k, s, ch, relayer, packet, data, fwd, "");
    }
  }
}
