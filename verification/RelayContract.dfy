/** The relay contract as it runs: one object whose fields are the storage maps. Each entry point is
    proved to do to the storage, and to answer, exactly what `RelaySpec` says. */
module RelayContract {
  import opened Wrappers
  import opened Denoms
  import opened Fees
  import opened RelaySpec
  import opened Host
  import opened Solvency
  import opened Payouts
  import opened HopFees
  import opened Exchange
  import opened Admission
  import Stranding

  class Relay {
    const k: Contract
    const codec: AckCodec
    var channels: map<string, ChannelInfo>
    var outstanding: Escrow
    var denomToHash: map<(Endpoint, string), Hash>
    var hashToDenom: map<(Endpoint, Hash), string>
    var inFlight: map<HopKey, InFlight>

    ghost function Storage(): Store
      reads this
    {
      Store(channels, outstanding, denomToHash, hashToDenom, inFlight)
    }

    /** `instantiate`. A channel given at once is saved under the port of the new contract. */
    constructor (k: Contract, codec: AckCodec, channel: Option<ChannelInfo>)
      ensures this.k == k && this.codec == codec
      ensures Storage() == Store(match channel
                                 case None => map[]
                                 case Some(info) =>
                                   map[info.endpoint.channel :=
                                     info.(endpoint := Endpoint(k.Port(), info.endpoint.channel))],
                                 map[], map[], map[], map[])
      ensures ChannelsOk(k, Storage())
    {
      this.k, this.codec := k, codec;
      channels, outstanding, denomToHash, hashToDenom, inFlight := map[], map[], map[], map[], map[];
      if channel.Some? {
        var endpoint := Endpoint(k.Port(), channel.value.endpoint.channel);
        channels := map[endpoint.channel := channel.value.(endpoint := endpoint)];
      }
    }

    method IncreaseOutstanding(channel: string, denom: string, amount: nat) returns (ok: bool)
      modifies this`outstanding
      ensures ok <==> Outstanding(old(outstanding), channel, denom) + amount <= U512_MAX
      ensures outstanding == if ok
                             then old(outstanding)[(channel, denom) :=
                               Outstanding(old(outstanding), channel, denom) + amount]
                             else old(outstanding)
    {
      var current := if (channel, denom) in outstanding then outstanding[(channel, denom)] else 0;
      ok := current + amount <= U512_MAX;
      if ok {
        outstanding := outstanding[(channel, denom) := current + amount];
      }
    }

    method DecreaseOutstanding(channel: string, denom: string, amount: nat) returns (r: Outcome<()>)
      modifies this`outstanding
      ensures r.Ok? <==> (channel, denom) in old(outstanding) && amount <= old(outstanding)[(channel, denom)]
      ensures !r.Ok? ==> r == Err(if (channel, denom) in old(outstanding) then Overflow else InsufficientFunds)
      ensures r == match Decrease(old(outstanding), channel, denom, amount)
                   case Ok(_) => Ok(()) case Err(e) => Err(e) case Panic => Panic
      ensures outstanding == if r.Ok?
              then old(outstanding)[(channel, denom) := old(outstanding)[(channel, denom)] - amount]
                             else old(outstanding)
    {
      if (channel, denom) !in outstanding {
        return Err(InsufficientFunds);
      }
      var current := outstanding[(channel, denom)];
      if current < amount {
        return Err(Overflow);
      }
      outstanding := outstanding[(channel, denom) := current - amount];
      return Ok(());
    }

    /** `on_local` of the two `ForTokens` implementations. */
    method HandleLocal(mode: Mode, channel: string, denom: string, amount: nat) returns (r: Outcome<seq<Msg>>)
      modifies this`outstanding
      ensures (outstanding, r) == OnLocal(mode, old(outstanding), channel, denom, amount)
      ensures !r.Ok? ==> outstanding == old(outstanding)
      ensures r.Ok? ==>
                && outstanding - {(channel, denom)} == old(outstanding) - {(channel, denom)}
                && Outstanding(outstanding, channel, denom)
                   == Outstanding(old(outstanding), channel, denom) + (if mode.Escrowing? then amount else 0 - amount)
                && forall to, d :: Paid(r.value, to, d)
                                   == if mode.Refunding? && to == mode.receiver && d == denom then amount else 0
    {
      if mode.Refunding? { PaysOne(mode.receiver, denom, amount); }
      match mode
      case Escrowing =>
        var ok := IncreaseOutstanding(channel, denom, amount);
        r := if ok then Ok([]) else Err(Overflow);
      case Refunding(to) =>
        var d := DecreaseOutstanding(channel, denom, amount);
        match d {
          case Ok(_) => r := Ok([BankSend(to, denom, amount)]);
          case Err(e) => r := Err(e);
          case Panic => r := Panic;
        }
    }

    /** `ForTokens::execute`. */
    method Execute(mode: Mode, ep: Endpoint, tokens: seq<Token>) returns (r: Outcome<seq<Msg>>)
      modifies this`outstanding
      ensures (outstanding, r) == ForTokens(k, mode, old(outstanding), ep, tokens)
    {
      hide Origin, MakeForeignDenom, Contract.FactoryDenom, Increase, Decrease;
      var messages := [];
      var i := 0;
      while i < |tokens|
        invariant 0 <= i <= |tokens|
        invariant (outstanding, Ok(messages)) == ForTokens(k, mode, old(outstanding), ep, tokens[..i])
      {
        assert tokens[..i + 1][..i] == tokens[..i];
        ghost var before := outstanding;
        var (actual, fee) := Amounts(tokens[i]);
        var step: Outcome<seq<Msg>>;
        match Origin(tokens[i].denom, ep) {
          case Local(d) =>
            step := Ok([OnRemote(mode, k.FactoryDenom(MakeForeignDenom(ep, d)), actual + fee)]);
          case Remote(d) =>
            step := HandleLocal(mode, ep.channel, d, actual + fee);
        }
        assert (outstanding, step) == ForToken(k, mode, before, ep, tokens[i]);
        if !step.Ok? {
          StopsAt(k, mode, old(outstanding), ep, tokens, i + 1);
          return step;
        }
        messages := messages + step.value;
        i := i + 1;
      }
      assert tokens[..i] == tokens;
      return Ok(messages);
    }

    /** What `receive_phase1_transfer` does with one token. */
    method ReceiveOne(ch: ChannelInfo, receiver: string, relayer: string, t: Token, cutFees: bool)
      returns (r: Outcome<Received>)
      modifies this`outstanding
      ensures (Storage(), r) == ReceiveToken(k, old(Storage()), ch, receiver, relayer, cutFees, t)
      ensures !r.Ok? ==> outstanding == old(outstanding)
      ensures r.Ok? ==> forall to, d :: Paid(r.value.msgs, to, d)
                                        == if NameHere(k, ch, t.denom) == d
                                           then Due(t, cutFees, receiver, relayer, to) else 0
      ensures r.Ok? ==> forall d :: Total(outstanding, d)
                                    == Total(old(outstanding), d)
                                       - (if Origin(t.denom, ch.counterparty) == Local(d) then t.amount else 0)
    {
      OneReceived(k, Storage(), ch, receiver, relayer, cutFees, t);
      var (actual, fee) := Cut(cutFees, t);
      match Origin(t.denom, ch.counterparty) {
        case Local(d) =>
          var released := DecreaseOutstanding(ch.endpoint.channel, d, t.amount);
          match released {
            case Ok(_) =>
              r := Ok(Received([NormalizedToken(t.denom, t.(denom := d))],
                               Payments(BankSend(receiver, d, actual), actual, BankSend(relayer, d, fee), fee)));
            case Err(e) => r := Err(e);
            case Panic => r := Panic;
          }
        case Remote(d) =>
          var foreign := MakeForeignDenom(ch.endpoint, d);
          var voucher := k.FactoryDenom(foreign);
          var creation: seq<Msg> :=
            if (ch.endpoint, foreign) in denomToHash then []
            else [RegisterDenom(ch.endpoint, foreign, k.hash(foreign)), CreateDenom(voucher)];
          r := Ok(Received([NormalizedToken(t.denom, t.(denom := voucher))],
                           creation + Payments(Mint(voucher, actual, receiver), actual, Mint(voucher, fee, relayer),
                             fee)));
      }
    }

    /** `receive_phase1_transfer`. */
    method ReceivePhase1Transfer(ch: ChannelInfo, receiver: string, relayer: string, tokens: seq<Token>, cutFees: bool)
      returns (r: Outcome<Received>)
      modifies this`outstanding
      ensures (Storage(), r) == ReceiveTokens(k, old(Storage()), ch, receiver, relayer, cutFees, tokens)
    {
      hide ReceiveToken;
      var normalized: seq<NormalizedToken>, messages: seq<Msg> := [], [];
      var i := 0;
      while i < |tokens|
        invariant 0 <= i <= |tokens|
        invariant (Storage(), Ok(Received(normalized, messages)))
                  == ReceiveTokens(k, old(Storage()), ch, receiver, relayer, cutFees, tokens[..i])
      {
        assert tokens[..i + 1][..i] == tokens[..i];
        var step := ReceiveOne(ch, receiver, relayer, tokens[i], cutFees);
        if !step.Ok? {
          ReceiveStopsAt(k, old(Storage()), ch, receiver, relayer, cutFees, tokens, i + 1);
          return step;
        }
        normalized, messages := normalized + step.value.tokens, messages + step.value.msgs;
        i := i + 1;
      }
      assert tokens[..i] == tokens;
      return Ok(Received(normalized, messages));
    }

    /** `TransferProtocol::send`. */
    method SendPacket(ch: ChannelInfo, sender: string, receiver: string, tokens: seq<Token>, memo: Memo)
      returns (r: Outcome<Sent>)
      modifies this`outstanding
      ensures (Storage(), r) == Send(k, old(Storage()), ch, sender, receiver, tokens, memo)
      ensures r.Ok? ==>
                && r.value.channel == ch.endpoint.channel
                && r.value.packet == PacketData(sender, receiver, r.value.packet.tokens, memo)
                && Escrows(old(outstanding), outstanding, ch.endpoint, r.value.packet.tokens)
                && (ch.version == Ics20 ==> |tokens| == 1 && tokens[0].fee == 0)
                && |r.value.packet.tokens| == |tokens|
                && forall i :: 0 <= i < |tokens| ==>
                     r.value.packet.tokens[i] == tokens[i].(denom := r.value.packet.tokens[i].denom)
    {
      SendEscrows(k, Storage(), ch, sender, receiver, tokens, memo);
      assert Storage().(outstanding := outstanding) == Storage();
      var normalized := NormalizeTokens(k, Store(channels, outstanding, denomToHash, hashToDenom, inFlight),
        ch.endpoint, tokens);
      match normalized
      case Err(e) => return Err(e);
      case Panic => return Panic;
      case Ok(ts) =>
        var checked := CheckPacket(ch.version, ts);
        match checked
        case Err(e) => return Err(e);
        case Panic => return Panic;
        case Ok(wire) =>
          var sent := Execute(Escrowing, ch.endpoint, wire);
          match sent
          case Ok(msgs) => return Ok(Sent(msgs, ch.endpoint.channel, PacketData(sender, receiver, wire, memo)));
          case Err(e) => return Err(e);
          case Panic => return Panic;
    }

    method HandleTransfer(sender: string, funds: seq<Coin>, msg: TransferMsg) returns (r: Outcome<Sent>)
      modifies this`outstanding
      ensures (Storage(), r) == ExecuteTransfer(k, old(Storage()), sender, funds, msg)
      ensures Ready(k, old(Storage())) && CleanCoins(k, funds) ==>
                && (match Refusal(old(Storage()), funds, msg) case Some(error) => r == Err(error) case None => r.Ok?)
                && (r.Err? ==> outstanding == old(outstanding))
                && (r.Ok? ==> forall d :: Total(outstanding, d) + OutFlow(r.value.msgs, k.addr, d)
                                          == Total(old(outstanding), d) + SumCoins(funds, d))
      ensures r.Ok? && ChannelsOk(k, old(Storage())) ==>
                && msg.channel in channels && r.value.channel == msg.channel
                && r.value.packet.sender == sender && r.value.packet.receiver == msg.receiver
                && r.value.packet.memo == msg.memo
                && (channels[msg.channel].version == Ics20 ==>
                      |r.value.packet.tokens| == 1 && r.value.packet.tokens[0].fee == 0)
    {
      TransferAdmitted(k, Storage(), sender, funds, msg);
      match ToCoins(funds)
      case Err(e) => return Err(e);
      case Panic => return Panic;
      case Ok(coins) =>
        if coins == [] {
          return Err(NoFunds);
        } else if msg.channel !in channels {
          return Err(NoSuchChannel);
        }
        r := SendPacket(channels[msg.channel], sender, msg.receiver, AttachFees(coins, msg.fees), msg.memo);
    }

    /** The fee map is updated token by token, removing the entry of the incoming name. */
    method Remap(fees: Option<FeeMap>, tokens: seq<NormalizedToken>) returns (r: Option<FeeMap>)
      ensures r == RemapFees(fees, tokens)
    {
      r := fees;
      var i := 0;
      while i < |tokens|
        invariant 0 <= i <= |tokens|
        invariant r == RemapFees(fees, tokens[..i])
      {
        assert tokens[..i + 1][..i] == tokens[..i];
        if r.Some? && tokens[i].originDenom in r.value {
          var fee := r.value[tokens[i].originDenom];
          r := Some((r.value - {tokens[i].originDenom})[tokens[i].token.denom := fee]);
        }
        i := i + 1;
      }
      assert tokens[..i] == tokens;
    }

    method PacketForwardHop(ch: ChannelInfo, relayer: string, packet: IbcPacket, data: PacketData, fwd: PacketForward)
      returns (r: Outcome<Response>)
      modifies this`outstanding
      ensures (Storage(), r) == ForwardPacket(k, old(Storage()), ch, relayer, packet, data, fwd)
      ensures r.Ok? ==>
                && r.value.Forwarded?
                && r.value.payload == InFlight(packet, ch.version, fwd.channel, fwd.port)
                && r.value.hop.packet.sender == k.addr && r.value.hop.packet.receiver == fwd.receiver
                && (ChannelsOk(k, old(Storage())) ==>
                      forall channel, d :: Stranding.NativeOf(k, channel, d) ==>
                        Outstanding(outstanding, channel, d)
                        == Outstanding(old(outstanding), channel, d)
                           - CarriedOut(channel, MakeForeignDenom(ch.counterparty, d), ch.endpoint.channel, data.tokens)
                           + CarriedOut(channel, d, r.value.hop.channel, r.value.hop.packet.tokens))
    {
      HopMoves(k, Storage(), ch, relayer, packet, data, fwd);
      var received := ReceivePhase1Transfer(ch, k.addr, relayer, data.tokens, false);
      match received
      case Err(e) => return Err(e);
      case Panic => return Panic;
      case Ok(got) =>
        var fees := Remap(fwd.fees, got.tokens);
        var hop := HandleTransfer(k.addr, CoinsOf(got.tokens), TransferMsg(fwd.channel, fwd.receiver, fwd.next, fees));
        match hop
        case Err(e) => return Err(e);
        case Panic => return Panic;
        case Ok(sent) =>
          return Ok(Forwarded(sent.msgs, sent, InFlight(packet, ch.version, fwd.channel, fwd.port), got.msgs));
    }

    /** `ibc_packet_receive`. An error has already written to the storage when it is turned into a
        failure acknowledgement. */
    method OnReceive(ch: ChannelInfo, relayer: string, packet: IbcPacket) returns (r: Outcome<Response>)
      modifies this`outstanding
      ensures (Storage(), r) == Receive(k, old(Storage()), ch, relayer, packet)
      ensures packet.data.None? ==> r == Ok(Refused) && outstanding == old(outstanding)
      ensures packet.data.Some? && packet.data.value.memo.Forward? && Ready(k, old(Storage())) ==>
                var tokens, fwd := packet.data.value.tokens, packet.data.value.memo.forward;
                && r.Ok? && (r.value.Forwarded? || r.value == Refused)
                && (r.value.Forwarded? <==> GoesOn(k, old(Storage()), ch, tokens, fwd))
                && (r.value.Forwarded? ==>
                      && r.value.hop.channel == fwd.channel && r.value.hop.packet.sender == k.addr
                      && r.value.hop.packet.receiver == fwd.receiver && r.value.hop.packet.memo == fwd.next
                      && r.value.payload == InFlight(packet, ch.version, fwd.channel, fwd.port))
      ensures packet.data.Some? && packet.data.value.memo.NoMemo? ==>
                && r.Ok? && (r.value.Delivered? || r.value == Refused)
                && (r.value.Delivered? <==>
                      Passing(old(Storage()), ch, packet.data.value.tokens) == |packet.data.value.tokens|)
                && (forall channel, d ::
                      Outstanding(outstanding, channel, d) <= Outstanding(old(outstanding), channel, d))
                && (r.value.Delivered? ==>
                      && (forall channel, d :: Outstanding(outstanding, channel, d)
                                               == Outstanding(old(outstanding), channel, d)
                                                  - CarriedOut(channel, MakeForeignDenom(ch.counterparty, d),
                                                               ch.endpoint.channel, packet.data.value.tokens))
                      && (forall to, d :: Paid(r.value.batch, to, d)
                                          == DueOf(k, ch, packet.data.value.tokens, true,
                                             packet.data.value.receiver, relayer, to, d)))
    {
      if packet.data.Some? && packet.data.value.memo.Forward? && Ready(k, Storage()) {
        ForwardedIff(k, Storage(), ch, relayer, packet);
      }
      if packet.data.Some? && packet.data.value.memo.NoMemo? {
        DeliveredIff(k, Storage(), ch, relayer, packet);
        DeliveryEffect(k, Storage(), ch, packet.data.value.receiver, relayer, packet.data.value.tokens);
      }
      match packet.data
      case None => return Ok(Refused);
      case Some(data) =>
        match data.memo
        case Forward(fwd) =>
          r := PacketForwardHop(ch, relayer, packet, data, fwd);
          if r.Err? {
            r := Ok(Refused);
          }
        case NoMemo =>
          var received := ReceivePhase1Transfer(ch, data.receiver, relayer, data.tokens, true);
          match received
          case Ok(got) => return Ok(Delivered(got.msgs));
          case Err(_) => return Ok(Refused);
          case Panic => return Panic;
    }

    /** `ExecuteMsg::RegisterDenom`. */
    method Register(ep: Endpoint, denom: string, hash: Hash)
      modifies this`denomToHash, this`hashToDenom
      ensures Storage() == old(Storage()).(denomToHash := old(denomToHash)[(ep, denom) := hash],
                                           hashToDenom := old(hashToDenom)[(ep, hash) := denom])
    {
      denomToHash := denomToHash[(ep, denom) := hash];
      hashToDenom := hashToDenom[(ep, hash) := denom];
    }

    /** `send_ack` and `send_timeout` once the outcome is known, with `do_pfm_ack` for a hop. */
    method SettlePacket(ch: ChannelInfo, sequence: nat, data: PacketData, ack: GenericAck) returns (r: Outcome<Settled>)
      modifies this`outstanding, this`inFlight
      ensures (Storage(), r) == Settle(codec, k, old(Storage()), ch, sequence, data, ack)
      ensures r.Ok? ==>
                && inFlight == old(inFlight) - {KeyOf(ch, sequence)}
                && (r.value.deferred.Some? <==> KeyOf(ch, sequence) in old(inFlight))
                && (r.value.deferred.Some? ==> r.value.deferred.value.0 == old(inFlight)[KeyOf(ch, sequence)].origin)
      ensures !r.Ok? ==> inFlight == old(inFlight)
      ensures ack.AckOk? ==> r.Ok? && r.value.msgs == [] && outstanding == old(outstanding)
      ensures ack.AckErr? && r.Ok? ==> Refunds(k, old(outstanding), outstanding, ch.endpoint, data, r.value.msgs)
    {
      SettleMoves(codec, k, Storage(), ch, sequence, data, ack);
      var key := KeyOf(ch, sequence);
      var isHop := key in inFlight;
      var told := if isHop then ConvertAck(codec, ch.version, inFlight[key].originVersion, ack) else ack;
      var refund: Outcome<seq<Msg>> := Ok([]);
      if told.AckErr? {
        refund := Execute(Refunding(data.sender), ch.endpoint, data.tokens);
      }
      match refund
      case Err(e) => return Err(e);
      case Panic => return Panic;
      case Ok(msgs) =>
        if !isHop {
          return Ok(Settled(msgs, None));
        }
        var origin := inFlight[key].origin;
        inFlight := inFlight - {key};
        return Ok(Settled(msgs, Some((origin, told.bytes))));
    }

    method OnAcknowledge(ch: ChannelInfo, sequence: nat, data: PacketData, bytes: string) returns (r: Outcome<Settled>)
      modifies this`outstanding, this`inFlight
      ensures (Storage(), r) == Acknowledge(codec, k, old(Storage()), ch, sequence, data, bytes)
      ensures DecodeAck(codec, ch.version, bytes).None? ==> r == Err(InvalidAck) && Storage() == old(Storage())
      ensures DecodeAck(codec, ch.version, bytes).Some? && DecodeAck(codec, ch.version, bytes).value.AckOk? ==>
                r.Ok? && r.value.msgs == [] && outstanding == old(outstanding)
      ensures DecodeAck(codec, ch.version, bytes).Some? && DecodeAck(codec, ch.version, bytes).value.AckErr?
              && r.Ok? ==>
                Refunds(k, old(outstanding), outstanding, ch.endpoint, data, r.value.msgs)
      ensures r.Ok? ==> inFlight == old(inFlight) - {KeyOf(ch, sequence)}
    {
      match DecodeAck(codec, ch.version, bytes)
      case None => return Err(InvalidAck);
      case Some(ack) => r := SettlePacket(ch, sequence, data, ack);
    }

    method OnTimeout(ch: ChannelInfo, sequence: nat, data: PacketData) returns (r: Outcome<Settled>)
      modifies this`outstanding, this`inFlight
      ensures (Storage(), r) == Timeout(codec, k, old(Storage()), ch, sequence, data)
      ensures r.Ok? ==>
                && Refunds(k, old(outstanding), outstanding, ch.endpoint, data, r.value.msgs)
                && inFlight == old(inFlight) - {KeyOf(ch, sequence)}
    {
      r := SettlePacket(ch, sequence, data, AckErr(TIMEOUT_MSG));
    }
  }

  /** An error on a prefix of the tokens is the error, and the escrow, of the whole list. */
  lemma {:induction false} StopsAt(k: Contract, mode: Mode, e: Escrow, ep: Endpoint, tokens: seq<Token>, i: nat)
    requires i <= |tokens| && !ForTokens(k, mode, e, ep, tokens[..i]).1.Ok?
    ensures ForTokens(k, mode, e, ep, tokens) == ForTokens(k, mode, e, ep, tokens[..i])
  {
    hide ForToken;
    if i < |tokens| {
      var n := |tokens| - 1;
      assert tokens[..n][..i] == tokens[..i];
      StopsAt(k, mode, e, ep, tokens[..n], i);
    } else {
      assert tokens[..i] == tokens;
    }
  }

  /** Messages come in the order of the tokens. */
  lemma {:induction false} MessagesInOrder(k: Contract, mode: Mode, e: Escrow, ep: Endpoint, tokens: seq<Token>, i: nat)
    requires i < |tokens| && ForTokens(k, mode, e, ep, tokens).1.Ok?
    ensures ForTokens(k, mode, e, ep, tokens[..i]).1.Ok?
    ensures var (e1, r1) := ForTokens(k, mode, e, ep, tokens[..i]);
            var r2 := ForToken(k, mode, e1, ep, tokens[i]).1;
            r2.Ok? && r1.value + r2.value <= ForTokens(k, mode, e, ep, tokens).1.value
  {
    hide ForToken;
    var n := |tokens| - 1;
    if i < n {
      assert tokens[..n][..i] == tokens[..i];
      MessagesInOrder(k, mode, e, ep, tokens[..n], i);
    }
  }

  lemma {:induction false} DeliveryInOrder(k: Contract, s: Store, ch: ChannelInfo, receiver: string, relayer: string,
                                           cutFees: bool, tokens: seq<Token>, i: nat)
    requires i < |tokens| && ReceiveTokens(k, s, ch, receiver, relayer, cutFees, tokens).1.Ok?
    ensures ReceiveTokens(k, s, ch, receiver, relayer, cutFees, tokens[..i]).1.Ok?
    ensures var (s1, r1) := ReceiveTokens(k, s, ch, receiver, relayer, cutFees, tokens[..i]);
            var r2 := ReceiveToken(k, s1, ch, receiver, relayer, cutFees, tokens[i]).1;
            r2.Ok? && r1.value.msgs + r2.value.msgs
                      <= ReceiveTokens(k, s, ch, receiver, relayer, cutFees, tokens).1.value.msgs
  {
    hide ReceiveToken;
    var n := |tokens| - 1;
    if i < n {
      assert tokens[..n][..i] == tokens[..i];
      DeliveryInOrder(k, s, ch, receiver, relayer, cutFees, tokens[..n], i);
    }
  }

  lemma {:induction false} ReceiveStopsAt(k: Contract, s: Store, ch: ChannelInfo, receiver: string, relayer: string,
                                          cutFees: bool, tokens: seq<Token>, i: nat)
    requires i <= |tokens| && !ReceiveTokens(k, s, ch, receiver, relayer, cutFees, tokens[..i]).1.Ok?
    ensures ReceiveTokens(k, s, ch, receiver, relayer, cutFees, tokens)
            == ReceiveTokens(k, s, ch, receiver, relayer, cutFees, tokens[..i])
  {
    hide ReceiveToken;
    if i < |tokens| {
      var n := |tokens| - 1;
      assert tokens[..n][..i] == tokens[..i];
      ReceiveStopsAt(k, s, ch, receiver, relayer, cutFees, tokens[..n], i);
    } else {
      assert tokens[..i] == tokens;
    }
  }

  // ---------------------------------------------------------------- what the entry points achieve

  lemma PaysOne(receiver: string, denom: string, amount: nat)
    ensures forall to, d :: Paid([BankSend(receiver, denom, amount)], to, d) == if to == receiver
            && d == denom then amount else 0
  {
    var m := BankSend(receiver, denom, amount);
    forall to, d ensures Paid([m], to, d) == if to == receiver && d == denom then amount else 0 {
      PaidOne(m, to, d);
    }
  }

  lemma OneReceived(k: Contract, s: Store, ch: ChannelInfo, receiver: string, relayer: string, cutFees: bool, t: Token)
    ensures var (s', r) := ReceiveToken(k, s, ch, receiver, relayer, cutFees, t);
            && (!r.Ok? ==> s' == s)
            && (r.Ok? ==>
                  && (forall to, d :: Paid(r.value.msgs, to, d)
                                      == if NameHere(k, ch, t.denom) == d
                                         then Due(t, cutFees, receiver, relayer, to) else 0)
                  && (forall d :: Total(s'.outstanding, d)
                                  == Total(s.outstanding, d)
                                     - (if Origin(t.denom, ch.counterparty) == Local(d) then t.amount else 0)))
  {
    var (s', r) := ReceiveToken(k, s, ch, receiver, relayer, cutFees, t);
    if r.Ok? {
      forall to, d
        ensures Paid(r.value.msgs, to, d) == if NameHere(k, ch, t.denom) == d
                then Due(t, cutFees, receiver, relayer, to) else 0
      {
        TokenPaysDue(k, s, ch, receiver, relayer, cutFees, t, to, d);
      }
      forall d
        ensures Total(s'.outstanding, d)
                == Total(s.outstanding, d) - (if Origin(t.denom, ch.counterparty) == Local(d) then t.amount else 0)
      {
        OneReleased(k, s, ch, receiver, relayer, cutFees, t, d);
      }
    }
  }

  lemma OneReleased(k: Contract, s: Store, ch: ChannelInfo, receiver: string, relayer: string, cutFees: bool,
                    t: Token, d: string)
    ensures var (s', r) := ReceiveToken(k, s, ch, receiver, relayer, cutFees, t);
            r.Ok? ==> Total(s'.outstanding, d)
                      == Total(s.outstanding, d)
                         - (if Origin(t.denom, ch.counterparty) == Local(d) then t.amount else 0)
  {
    hide Origin, Contract.FactoryDenom, MakeForeignDenom, Cut, ReceiveRemote, ReceiveLocal, Total;
    var (actual, fee) := Cut(cutFees, t);
    ReceiveLocalReleases(s, ch.endpoint.channel, receiver, relayer, actual, fee, t,
      Origin(t.denom, ch.counterparty).denom, "", d);
  }

  /** Every counter of the channel grows by what the packet carries in its denomination; no other counter
      changes. */
  ghost predicate Escrows(e: Escrow, e': Escrow, ep: Endpoint, sent: seq<Token>) {
    forall channel, d :: Outstanding(e', channel, d)
                         == Outstanding(e, channel, d)
                            + (if channel == ep.channel && Origin(d, ep).Remote? then SumTokens(sent, d) else 0)
  }

  lemma SendEscrows(k: Contract, s: Store, ch: ChannelInfo, sender: string, receiver: string, tokens: seq<Token>,
                    memo: Memo)
    ensures var (s', r) := Send(k, s, ch, sender, receiver, tokens, memo);
            r.Ok? ==>
              && r.value.channel == ch.endpoint.channel
              && r.value.packet == PacketData(sender, receiver, r.value.packet.tokens, memo)
              && Escrows(s.outstanding, s'.outstanding, ch.endpoint, r.value.packet.tokens)
              && (ch.version == Ics20 ==> |tokens| == 1 && tokens[0].fee == 0)
              && |r.value.packet.tokens| == |tokens|
              && forall i :: 0 <= i < |tokens| ==>
                   r.value.packet.tokens[i] == tokens[i].(denom := r.value.packet.tokens[i].denom)
  {
    hide NormalizeTokens, ForTokens, Outstanding, Origin;
    var (s', r) := Send(k, s, ch, sender, receiver, tokens, memo);
    if r.Ok? {
      NormalizeKeepsAmounts(k, s, ch.endpoint, tokens);
      forall channel, d
        ensures Outstanding(s'.outstanding, channel, d)
                == Outstanding(s.outstanding, channel, d)
                   + (if channel == ch.endpoint.channel
                     && Origin(d, ch.endpoint).Remote? then SumTokens(r.value.packet.tokens, d) else 0)
      {
        EscrowExact(k, s.outstanding, ch.endpoint, r.value.packet.tokens, channel, d);
      }
    }
  }

  lemma TransferAccounts(k: Contract, s: Store, sender: string, funds: seq<Coin>, msg: TransferMsg)
    requires Ready(k, s) && CleanCoins(k, funds)
    ensures var (s', r) := ExecuteTransfer(k, s, sender, funds, msg);
            && (r.Err? ==> s' == s)
            && (r.Ok? ==> forall d :: Total(s'.outstanding, d) + OutFlow(r.value.msgs, k.addr, d)
                                      == Total(s.outstanding, d) + SumCoins(funds, d))
  {
    hide ExecuteTransfer, Index, ChannelsOk, KeysClean, CleanCoins, Outstanding, Total, OutFlow;
    var (s', r) := ExecuteTransfer(k, s, sender, funds, msg);
    TransferFlow(k, s, sender, funds, msg, "");
    forall d ensures r.Ok? ==> Total(s'.outstanding, d) + OutFlow(r.value.msgs, k.addr, d)
                               == Total(s.outstanding, d) + SumCoins(funds, d) {
      TransferFlow(k, s, sender, funds, msg, d);
    }
  }

  lemma TransferAdmitted(k: Contract, s: Store, sender: string, funds: seq<Coin>, msg: TransferMsg)
    ensures var (s', r) := ExecuteTransfer(k, s, sender, funds, msg);
            && (Ready(k, s) && CleanCoins(k, funds) ==>
                  && (match Refusal(s, funds, msg) case Some(error) => r == Err(error) case None => r.Ok?)
                  && (r.Err? ==> s' == s)
                  && (r.Ok? ==> forall d :: Total(s'.outstanding, d) + OutFlow(r.value.msgs, k.addr, d)
                                            == Total(s.outstanding, d) + SumCoins(funds, d)))
            && (r.Ok? && ChannelsOk(k, s) ==>
                  && msg.channel in s.channels && r.value.channel == msg.channel
                  && r.value.packet.sender == sender && r.value.packet.receiver == msg.receiver
                  && r.value.packet.memo == msg.memo
                  && (s.channels[msg.channel].version == Ics20 ==>
                        |r.value.packet.tokens| == 1 && r.value.packet.tokens[0].fee == 0))
  {
    hide ExecuteTransfer, Ready, CleanCoins, Refusal, Total, OutFlow, ChannelsOk;
    if Ready(k, s) && CleanCoins(k, funds) {
      TransferGoesOutIff(k, s, sender, funds, msg);
      TransferAccounts(k, s, sender, funds, msg);
    }
    if ExecuteTransfer(k, s, sender, funds, msg).1.Ok? && ChannelsOk(k, s) {
      TransferAddresses(k, s, sender, funds, msg);
    }
  }

  lemma HopMoves(k: Contract, s: Store, ch: ChannelInfo, relayer: string, packet: IbcPacket, data: PacketData,
                 fwd: PacketForward)
    ensures var (s', r) := ForwardPacket(k, s, ch, relayer, packet, data, fwd);
            r.Ok? ==>
              && r.value.hop.packet.sender == k.addr && r.value.hop.packet.receiver == fwd.receiver
              && (ChannelsOk(k, s) ==>
                    forall channel, d :: Stranding.NativeOf(k, channel, d) ==>
                      Outstanding(s'.outstanding, channel, d)
                      == Outstanding(s.outstanding, channel, d)
                         - CarriedOut(channel, MakeForeignDenom(ch.counterparty, d), ch.endpoint.channel, data.tokens)
                         + CarriedOut(channel, d, r.value.hop.channel, r.value.hop.packet.tokens))
  {
    hide ReceiveTokens, RemapFees, ToCoins, NormalizeTokens, ForTokens, Outstanding, Origin, MakeForeignDenom;
    var (s', r) := ForwardPacket(k, s, ch, relayer, packet, data, fwd);
    if r.Ok? && ChannelsOk(k, s) {
      forall channel, d | Stranding.NativeOf(k, channel, d)
        ensures Outstanding(s'.outstanding, channel, d)
                == Outstanding(s.outstanding, channel, d)
                   - CarriedOut(channel, MakeForeignDenom(ch.counterparty, d), ch.endpoint.channel, data.tokens)
                   + CarriedOut(channel, d, r.value.hop.channel, r.value.hop.packet.tokens)
      {
        HopMovesFor(k, s, ch, relayer, packet, data, fwd, channel, d);
      }
    }
  }

  lemma HopMovesFor(k: Contract, s: Store, ch: ChannelInfo, relayer: string, packet: IbcPacket, data: PacketData,
                    fwd: PacketForward, channel: string, d: string)
    requires ForwardPacket(k, s, ch, relayer, packet, data, fwd).1.Ok? && ChannelsOk(k, s)
    requires Stranding.NativeOf(k, channel, d)
    ensures var (s', r) := ForwardPacket(k, s, ch, relayer, packet, data, fwd);
            Outstanding(s'.outstanding, channel, d)
            == Outstanding(s.outstanding, channel, d)
               - CarriedOut(channel, MakeForeignDenom(ch.counterparty, d), ch.endpoint.channel, data.tokens)
               + CarriedOut(channel, d, r.value.hop.channel, r.value.hop.packet.tokens)
  {
    hide ReceiveTokens, ExecuteTransfer, RemapFees, Outstanding, Origin, MakeForeignDenom;
    var (s1, r1) := ReceiveTokens(k, s, ch, k.addr, relayer, false, data.tokens);
    var msg := TransferMsg(fwd.channel, fwd.receiver, fwd.next, RemapFees(fwd.fees, r1.value.tokens));
    ReceiveReleases(k, s, ch, k.addr, relayer, false, data.tokens, "");
    ReceiveReleasesLocal(k, s, ch, k.addr, relayer, false, data.tokens, channel, d);
    Stranding.TransferExactly(k, s1, k.addr, CoinsOf(r1.value.tokens), msg, channel, d);
  }

  lemma DeliveryEffect(k: Contract, s: Store, ch: ChannelInfo, receiver: string, relayer: string, tokens: seq<Token>)
    ensures var (s', r) := ReceiveTokens(k, s, ch, receiver, relayer, true, tokens);
            && (forall channel, d :: Outstanding(s'.outstanding, channel, d) <= Outstanding(s.outstanding, channel, d))
            && (r.Ok? ==>
                  && (forall channel, d :: Outstanding(s'.outstanding, channel, d)
                                           == Outstanding(s.outstanding, channel, d)
                                              - CarriedOut(channel, MakeForeignDenom(ch.counterparty, d),
                                                ch.endpoint.channel, tokens))
                  && (forall to, d ::
                        Paid(r.value.msgs, to, d) == DueOf(k, ch, tokens, true, receiver, relayer, to, d)))
  {
    hide ReceiveTokens, Outstanding, MakeForeignDenom, DueOf, Paid, CarriedOut;
    var (s', r) := ReceiveTokens(k, s, ch, receiver, relayer, true, tokens);
    forall channel, d ensures Outstanding(s'.outstanding, channel, d) <= Outstanding(s.outstanding, channel, d) {
      ReceiveShrinks(k, s, ch, receiver, relayer, true, tokens, channel, d);
    }
    if r.Ok? {
      forall channel, d
        ensures Outstanding(s'.outstanding, channel, d)
                == Outstanding(s.outstanding, channel, d)
                   - CarriedOut(channel, MakeForeignDenom(ch.counterparty, d), ch.endpoint.channel, tokens)
      {
        ReceiveReleasesLocal(k, s, ch, receiver, relayer, true, tokens, channel, d);
      }
      forall to, d ensures Paid(r.value.msgs, to, d) == DueOf(k, ch, tokens, true, receiver, relayer, to, d) {
        DeliveryPaysExactly(k, s, ch, receiver, relayer, true, tokens, to, d);
      }
    }
  }

  /** The counters of the channel fall by what the packet carries, and its sender alone is paid it all. */
  ghost predicate Refunds(k: Contract, e: Escrow, e': Escrow, ep: Endpoint, data: PacketData, msgs: seq<Msg>) {
    && (forall channel, d :: (channel == ep.channel ==> Origin(d, ep).Remote?) ==>
          Outstanding(e', channel, d) == Outstanding(e, channel, d) - CarriedOut(channel, d, ep.channel, data.tokens))
    && (forall to, d :: Paid(msgs, to, d) == if to == data.sender then Returned(k, ep, data.tokens, d) else 0)
  }

  lemma SettleMoves(c: AckCodec, k: Contract, s: Store, ch: ChannelInfo, sequence: nat, data: PacketData,
                    ack: GenericAck)
    ensures var (e, r) := ForTokens(k, Refunding(data.sender), s.outstanding, ch.endpoint, data.tokens);
            r.Ok? ==> Refunds(k, s.outstanding, e, ch.endpoint, data, r.value)
    ensures KeyOf(ch, sequence) !in s.inFlight ==> s.inFlight - {KeyOf(ch, sequence)} == s.inFlight
  {
    hide ForTokens, Outstanding, Origin, Paid, Returned, CarriedOut;
    var (e, r) := ForTokens(k, Refunding(data.sender), s.outstanding, ch.endpoint, data.tokens);
    if r.Ok? {
      forall channel, d | channel == ch.endpoint.channel ==> Origin(d, ch.endpoint).Remote?
        ensures Outstanding(e, channel, d)
                == Outstanding(s.outstanding, channel, d) - CarriedOut(channel, d, ch.endpoint.channel, data.tokens)
      {
        RefundExact(k, data.sender, s.outstanding, ch.endpoint, data.tokens, channel, d);
      }
      forall to, d ensures Paid(r.value, to, d) == if to == data.sender
        then Returned(k, ch.endpoint, data.tokens, d) else 0 {
        RefundPaysExactly(k, data.sender, s.outstanding, ch.endpoint, data.tokens, to, d);
      }
    }
  }
}
