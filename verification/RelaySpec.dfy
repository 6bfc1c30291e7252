/** What each entry point of the UCS01 relay contract does to its storage and which messages it
    emits, as functions of the storage. Writes made before an error stay in the returned storage:
    it is the caller that decides whether they survive. */
module RelaySpec {
  import opened Wrappers
  import opened Denoms
  import opened Fees

  datatype Version = Ics20 | Ucs01

  datatype ChannelInfo = ChannelInfo(endpoint: Endpoint, counterparty: Endpoint, version: Version)

  datatype Coin = Coin(denom: string, amount: U128)

  type FeeMap = map<string, U128>

  datatype Memo = NoMemo | Forward(forward: PacketForward)

  datatype PacketForward =
    PacketForward(receiver: string, port: string, channel: string, next: Memo, fees: Option<FeeMap>)

  datatype PacketData = PacketData(sender: string, receiver: string, tokens: seq<Token>, memo: Memo)

  /** A packet as the receiving chain sees it; `data` is `None` when it does not decode. */
  datatype IbcPacket = IbcPacket(src: Endpoint, dst: Endpoint, sequence: nat, data: Option<PacketData>)

  datatype HopKey = HopKey(channel: string, port: string, sequence: nat)

  datatype InFlight =
    InFlight(origin: IbcPacket, originVersion: Version, forwardChannel: string, forwardPort: string)

  datatype Msg =
    | BankSend(to: string, denom: string, amount: nat)
    | RegisterDenom(endpoint: Endpoint, foreign: string, hash: Hash)
    | CreateDenom(denom: string)
    | Mint(denom: string, amount: nat, to: string)
    | Burn(denom: string, amount: nat)

  datatype Store = Store(
    channels: map<string, ChannelInfo>,
    outstanding: map<(string, string), nat>,
    denomToHash: map<(Endpoint, string), Hash>,
    hashToDenom: map<(Endpoint, Hash), string>,
    inFlight: map<HopKey, InFlight>)

  // ---------------------------------------------------------------- escrow

  type Escrow = map<(string, string), nat>

  function Outstanding(e: Escrow, channel: string, denom: string): nat {
    if (channel, denom) in e then e[(channel, denom)] else 0
  }

  function Increase(e: Escrow, channel: string, denom: string, amount: nat): Outcome<Escrow> {
    var n := Outstanding(e, channel, denom) + amount;
    if n > U512_MAX then Err(Overflow) else Ok(e[(channel, denom) := n])
  }

  function Decrease(e: Escrow, channel: string, denom: string, amount: nat): Outcome<Escrow> {
    if (channel, denom) !in e then Err(InsufficientFunds)
    else if e[(channel, denom)] < amount then Err(Overflow)
    else Ok(e[(channel, denom) := e[(channel, denom)] - amount])
  }

  // ---------------------------------------------------------------- sending and refunding

  /** The two implementations of the `ForTokens` trait. */
  datatype Mode = Escrowing | Refunding(receiver: string)

  /** `on_local`: escrow the amount, or release it and send it back. */
  function OnLocal(mode: Mode, e: Escrow, channel: string, denom: string, amount: nat): (Escrow, Outcome<seq<Msg>>) {
    match mode
    case Escrowing =>
      (match Increase(e, channel, denom, amount)
       case Ok(e') => (e', Ok([]))
       case Err(err) => (e, Err(err))
       case Panic => (e, Panic))
    case Refunding(to) =>
      match Decrease(e, channel, denom, amount)
      case Ok(e') => (e', Ok([BankSend(to, denom, amount)]))
      case Err(err) => (e, Err(err))
      case Panic => (e, Panic)
  }

  /** `on_remote`: burn the voucher, or mint it back. */
  function OnRemote(mode: Mode, voucher: string, amount: nat): Msg {
    match mode
    case Escrowing => Burn(voucher, amount)
    case Refunding(to) => Mint(voucher, amount, to)
  }

  /** One token of a packet sent from `ep`. The two parts of its amount are added up again. */
  function ForToken(k: Contract, mode: Mode, e: Escrow, ep: Endpoint, t: Token): (Escrow, Outcome<seq<Msg>>) {
    var (actual, fee) := Amounts(t);
    match Origin(t.denom, ep)
    case Local(d) => (e, Ok([OnRemote(mode, k.FactoryDenom(MakeForeignDenom(ep, d)), actual + fee)]))
    case Remote(d) => OnLocal(mode, e, ep.channel, d, actual + fee)
  }

  /** `ForTokens::execute`: the tokens one after the other, stopping at the first error. */
  function ForTokens(k: Contract, mode: Mode, e: Escrow, ep: Endpoint, tokens: seq<Token>)
    : (Escrow, Outcome<seq<Msg>>)
  {
    if tokens == [] then (e, Ok([]))
    else
      var n := |tokens| - 1;
      var (e1, r1) := ForTokens(k, mode, e, ep, tokens[..n]);
      if !r1.Ok? then (e1, r1)
      else
        var (e2, r2) := ForToken(k, mode, e1, ep, tokens[n]);
        if r2.Ok? then (e2, Ok(r1.value + r2.value)) else (e2, r2)
  }

  // ---------------------------------------------------------------- receiving

  datatype NormalizedToken = NormalizedToken(originDenom: string, token: Token)

  datatype Received = Received(tokens: seq<NormalizedToken>, msgs: seq<Msg>)

  /** The messages that pay the receiver and the relayer; nothing is paid when the amount is zero. */
  function Payments(receiver: Msg, actual: nat, relayer: Msg, fee: nat): seq<Msg> {
    (if actual == 0 then [] else [receiver]) + (if fee == 0 then [] else [relayer])
  }

  /** A voucher that is not registered yet is registered and created before it is minted. */
  function Creation(k: Contract, s: Store, ep: Endpoint, foreign: string): seq<Msg> {
    if (ep, foreign) in s.denomToHash then []
    else [RegisterDenom(ep, foreign, k.hash(foreign)), CreateDenom(k.FactoryDenom(foreign))]
  }

  /** A token that is local here: its escrow is released and paid out. */
  function ReceiveLocal(s: Store, channel: string, receiver: string, relayer: string, actual: nat, fee: nat,
                        t: Token, d: string): (Store, Outcome<Received>) {
    match Decrease(s.outstanding, channel, d, t.amount)
    case Ok(e) =>
      (s.(outstanding := e),
       Ok(Received([NormalizedToken(t.denom, t.(denom := d))],
                   Payments(BankSend(receiver, d, actual), actual, BankSend(relayer, d, fee), fee))))
    case Err(err) => (s, Err(err))
    case Panic => (s, Panic)
  }

  /** A token that is foreign here: its voucher is minted. */
  function ReceiveRemote(k: Contract, s: Store, ep: Endpoint, receiver: string, relayer: string, actual: nat, fee: nat,
                         t: Token, d: string): Received {
    var foreign := MakeForeignDenom(ep, d);
    var voucher := k.FactoryDenom(foreign);
    Received([NormalizedToken(t.denom, t.(denom := voucher))],
             Creation(k, s, ep, foreign)
             + Payments(Mint(voucher, actual, receiver), actual, Mint(voucher, fee, relayer), fee))
  }

  function Cut(cutFees: bool, t: Token): (r: (U128, U128))
    ensures r.0 + r.1 == t.amount
  {
    if cutFees then Amounts(t) else (t.amount, 0)
  }

  function ReceiveToken(k: Contract, s: Store, ch: ChannelInfo, receiver: string, relayer: string,
                        cutFees: bool, t: Token): (Store, Outcome<Received>) {
    var (actual, fee) := Cut(cutFees, t);
    match Origin(t.denom, ch.counterparty)
    case Local(d) => ReceiveLocal(s, ch.endpoint.channel, receiver, relayer, actual, fee, t, d)
    case Remote(d) => (s, Ok(ReceiveRemote(k, s, ch.endpoint, receiver, relayer, actual, fee, t, d)))
  }

  /** `receive_phase1_transfer`. */
  function ReceiveTokens(k: Contract, s: Store, ch: ChannelInfo, receiver: string, relayer: string,
                         cutFees: bool, tokens: seq<Token>): (Store, Outcome<Received>) {
    if tokens == [] then (s, Ok(Received([], [])))
    else
      var n := |tokens| - 1;
      var (s1, r1) := ReceiveTokens(k, s, ch, receiver, relayer, cutFees, tokens[..n]);
      if !r1.Ok? then (s1, r1)
      else
        var (s2, r2) := ReceiveToken(k, s1, ch, receiver, relayer, cutFees, tokens[n]);
        if r2.Ok? then (s2, Ok(Received(r1.value.tokens + r2.value.tokens, r1.value.msgs + r2.value.msgs)))
        else (s2, r2)
  }

  // ---------------------------------------------------------------- execute_transfer and send

  datatype TransferMsg = TransferMsg(channel: string, receiver: string, memo: Memo, fees: Option<FeeMap>)

  /** The response of `send`: the burns, then the packet to put on `channel`. */
  datatype Sent = Sent(msgs: seq<Msg>, channel: string, packet: PacketData)

  /** The order of strings. */
  predicate Before(a: string, b: string) {
    if b == "" then false
    else if a == "" then true
    else if a[0] != b[0] then a[0] < b[0]
    else Before(a[1..], b[1..])
  }

  function InsertCoin(coins: seq<Coin>, coin: Coin): (r: seq<Coin>)
    ensures |r| == |coins| + 1
  {
    if coins == [] then [coin]
    else
      var n := |coins| - 1;
      if Before(coins[n].denom, coin.denom) then coins + [coin]
      else InsertCoin(coins[..n], coin) + [coins[n]]
  }

  /** `Coins::try_from`: zero coins are dropped, a repeated denomination is an error, and the coins come
      out ordered by denomination. */
  function ToCoins(funds: seq<Coin>): Outcome<seq<Coin>> {
    if funds == [] then Ok([])
    else
      var n := |funds| - 1;
      match ToCoins(funds[..n])
      case Ok(coins) =>
        if funds[n].amount == 0 then Ok(coins)
        else if exists i :: 0 <= i < |coins| && coins[i].denom == funds[n].denom then Err(DuplicateDenom)
        else Ok(InsertCoin(coins, funds[n]))
      case other => other
  }

  function FeeOf(fees: Option<FeeMap>, denom: string): U128 {
    if fees.Some? && denom in fees.value then fees.value[denom] else 0
  }

  function AttachFees(coins: seq<Coin>, fees: Option<FeeMap>): (r: seq<Token>)
    ensures |r| == |coins|
  {
    seq(|coins|, i requires 0 <= i < |coins| => Token(coins[i].denom, coins[i].amount, FeeOf(fees, coins[i].denom)))
  }

  function NormalizeTokens(k: Contract, s: Store, ep: Endpoint, tokens: seq<Token>): (r: Outcome<seq<Token>>)
    ensures r.Ok? ==> |r.value| == |tokens|
  {
    if tokens == [] then Ok([])
    else
      var n := |tokens| - 1;
      match NormalizeTokens(k, s, ep, tokens[..n])
      case Ok(ts) =>
        (match k.Normalize(s.hashToDenom, ep, tokens[n].denom)
         case Ok(d) => Ok(ts + [tokens[n].(denom := d)])
         case Err(err) => Err(err)
         case Panic => Panic)
      case other => other
  }

  /** `common_to_protocol_packet`: an ICS-20 packet carries one token and no fee. */
  function CheckPacket(v: Version, tokens: seq<Token>): Outcome<seq<Token>> {
    if v == Ics20 then
      if |tokens| != 1 then Err(Ics20OnlyOneCoin)
      else if tokens[0].fee != 0 then Err(Ics20CannotHandleFee)
      else Ok(tokens)
    else Ok(tokens)
  }

  /** `TransferProtocol::send`. */
  function Send(k: Contract, s: Store, ch: ChannelInfo, sender: string, receiver: string,
                tokens: seq<Token>, memo: Memo): (Store, Outcome<Sent>) {
    match NormalizeTokens(k, s, ch.endpoint, tokens)
    case Err(err) => (s, Err(err))
    case Panic => (s, Panic)
    case Ok(normalized) =>
      match CheckPacket(ch.version, normalized)
      case Err(err) => (s, Err(err))
      case Panic => (s, Panic)
      case Ok(wire) =>
        var (e, r) := ForTokens(k, Escrowing, s.outstanding, ch.endpoint, wire);
        (s.(outstanding := e),
         match r
         case Ok(msgs) => Ok(Sent(msgs, ch.endpoint.channel, PacketData(sender, receiver, wire, memo)))
         case Err(err) => Err(err)
         case Panic => Panic)
  }

  /** `execute_transfer`. */
  function ExecuteTransfer(k: Contract, s: Store, sender: string, funds: seq<Coin>, msg: TransferMsg)
    : (Store, Outcome<Sent>)
  {
    match ToCoins(funds)
    case Err(err) => (s, Err(err))
    case Panic => (s, Panic)
    case Ok(coins) =>
      if coins == [] then (s, Err(NoFunds))
      else if msg.channel !in s.channels then (s, Err(NoSuchChannel))
      else Send(k, s, s.channels[msg.channel], sender, msg.receiver, AttachFees(coins, msg.fees), msg.memo)
  }

  // ---------------------------------------------------------------- receive and forward

  /** The response to an incoming packet. */
  datatype Response =
    | Refused                                                                // failure acknowledgement
    | Delivered(batch: seq<Msg>)                                             // success, unless the batch fails
    | Forwarded(burns: seq<Msg>, hop: Sent, payload: InFlight, batch: seq<Msg>) // acknowledged later

  /** Fees named after the incoming denomination are moved to the name the token has here. */
  function RemapFees(fees: Option<FeeMap>, tokens: seq<NormalizedToken>): (r: Option<FeeMap>)
    ensures r.Some? <==> fees.Some?
  {
    if fees.None? || tokens == [] then fees
    else
      var n := |tokens| - 1;
      var m := RemapFees(fees, tokens[..n]);
      if m.Some? && tokens[n].originDenom in m.value then
        var fee := m.value[tokens[n].originDenom];
        Some((m.value - {tokens[n].originDenom})[tokens[n].token.denom := fee])
      else m
  }

  function CoinsOf(tokens: seq<NormalizedToken>): (r: seq<Coin>)
    ensures |r| == |tokens|
  {
    seq(|tokens|, i requires 0 <= i < |tokens| => Coin(tokens[i].token.denom, tokens[i].token.amount))
  }

  /** `packet_forward` with `do_forward_transfer_packet`. */
  function ForwardPacket(k: Contract, s: Store, ch: ChannelInfo, relayer: string, packet: IbcPacket,
                         data: PacketData, fwd: PacketForward): (Store, Outcome<Response>) {
    var (s1, r1) := ReceiveTokens(k, s, ch, k.addr, relayer, false, data.tokens);
    match r1
    case Err(err) => (s1, Err(err))
    case Panic => (s1, Panic)
    case Ok(received) =>
      var msg := TransferMsg(fwd.channel, fwd.receiver, fwd.next, RemapFees(fwd.fees, received.tokens));
      var (s2, r2) := ExecuteTransfer(k, s1, k.addr, CoinsOf(received.tokens), msg);
      (s2,
       match r2
       case Ok(hop) => Ok(Forwarded(hop.msgs, hop, InFlight(packet, ch.version, fwd.channel, fwd.port), received.msgs))
       case Err(err) => Err(err)
       case Panic => Panic)
  }

  /** `receive`: every error becomes a failure acknowledgement and keeps the writes made so far. */
  function Receive(k: Contract, s: Store, ch: ChannelInfo, relayer: string, packet: IbcPacket)
    : (Store, Outcome<Response>)
  {
    match packet.data
    case None => (s, Ok(Refused))
    case Some(data) =>
      var (s', r) :=
        match data.memo
        case Forward(fwd) => ForwardPacket(k, s, ch, relayer, packet, data, fwd)
        case NoMemo =>
          var (s1, r1) := ReceiveTokens(k, s, ch, data.receiver, relayer, true, data.tokens);
          (s1, match r1
               case Ok(received) => Ok(Delivered(received.msgs))
               case Err(err) => Err(err)
               case Panic => Panic);
      (s', match r case Err(_) => Ok(Refused) case other => other)
  }

  /** The in-flight entry written by `reply` once the host has assigned a sequence to the hop. */
  function SaveInFlight(s: Store, payload: InFlight, sequence: nat): Store {
    s.(inFlight := s.inFlight[HopKey(payload.forwardChannel, payload.forwardPort, sequence) := payload])
  }

  // ---------------------------------------------------------------- acknowledgements

  /** The bytes an acknowledgement is made of, tagged with its polarity (`GenericAck`). */
  datatype GenericAck = AckOk(bytes: string) | AckErr(bytes: string)

  datatype Ics20Ack = Result(value: string) | Failure(error: string)

  /** JSON encoding of an ICS-20 acknowledgement. */
  datatype AckCodec = AckCodec(encode: Ics20Ack -> string, decode: string -> Option<Ics20Ack>)

  const TIMEOUT_MSG := "giving up on forwarded packet after timeout"
  const UCS01_SUCCESS := "\U{0001}"
  const UCS01_FAILURE := "\U{0000}"

  function GenericOfIcs20(c: AckCodec, a: Ics20Ack): GenericAck {
    match a
    case Result(_) => AckOk(c.encode(a))
    case Failure(_) => AckErr(c.encode(a))
  }

  /** What the chain that sent a packet over a channel of version `v` reads in an acknowledgement. */
  function DecodeAck(c: AckCodec, v: Version, bytes: string): Option<GenericAck> {
    match v
    case Ics20 => (match c.decode(bytes) case Some(a) => Some(GenericOfIcs20(c, a)) case None => None)
    case Ucs01 =>
      if bytes == UCS01_FAILURE then Some(AckErr(UCS01_FAILURE))
      else if bytes == UCS01_SUCCESS then Some(AckOk(UCS01_SUCCESS))
      else None
  }

  /** `convert_ack_to_foreign_protocol`. */
  function ConvertAck(c: AckCodec, hop: Version, origin: Version, ack: GenericAck): GenericAck {
    if hop == origin then ack
    else
      match (origin, ack)
      case (Ucs01, AckOk(_)) => AckOk(UCS01_SUCCESS)
      case (Ucs01, AckErr(_)) => AckErr(UCS01_FAILURE)
      case (Ics20, AckOk(_)) => GenericOfIcs20(c, Result("\U{0001}"))
      case (Ics20, AckErr(_)) => GenericOfIcs20(c, Failure("ucs01 ack failure"))
  }

  /** The messages of a settled packet, and the acknowledgement to write for its origin, if any. */
  datatype Settled = Settled(msgs: seq<Msg>, deferred: Option<(IbcPacket, string)>)

  function KeyOf(ch: ChannelInfo, sequence: nat): HopKey {
    HopKey(ch.endpoint.channel, ch.endpoint.port, sequence)
  }

  /** `send_ack` and `send_timeout` from the point where the outcome of the packet is known. */
  function Settle(c: AckCodec, k: Contract, s: Store, ch: ChannelInfo, sequence: nat, data: PacketData, ack: GenericAck)
    : (Store, Outcome<Settled>)
  {
    var key := KeyOf(ch, sequence);
    var converted :=
      if key in s.inFlight then ConvertAck(c, ch.version, s.inFlight[key].originVersion, ack) else ack;
    var (e, r) :=
      match converted
      case AckOk(_) => (s.outstanding, Ok([]))
      case AckErr(_) => ForTokens(k, Refunding(data.sender), s.outstanding, ch.endpoint, data.tokens);
    match r
    case Err(err) => (s.(outstanding := e), Err(err))
    case Panic => (s.(outstanding := e), Panic)
    case Ok(msgs) =>
      if key in s.inFlight then
        (s.(outstanding := e, inFlight := s.inFlight - {key}),
         Ok(Settled(msgs, Some((s.inFlight[key].origin, converted.bytes)))))
      else (s.(outstanding := e), Ok(Settled(msgs, None)))
  }

  function Acknowledge(c: AckCodec, k: Contract, s: Store, ch: ChannelInfo, sequence: nat, data: PacketData,
                       bytes: string)
    : (Store, Outcome<Settled>)
  {
    match DecodeAck(c, ch.version, bytes)
    case None => (s, Err(InvalidAck))
    case Some(ack) => Settle(c, k, s, ch, sequence, data, ack)
  }

  function Timeout(c: AckCodec, k: Contract, s: Store, ch: ChannelInfo, sequence: nat, data: PacketData)
    : (Store, Outcome<Settled>)
  {
    Settle(c, k, s, ch, sequence, data, AckErr(TIMEOUT_MSG))
  }
}
