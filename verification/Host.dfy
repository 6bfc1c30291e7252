/** The chain around one relay contract: its bank and token factory, the execution of the messages
    the contract emits, and the packet life cycle the IBC host guarantees (a packet is delivered at
    most once, and acknowledged or timed out at most once). */
module Host {
  import opened Wrappers
  import opened Denoms
  import opened Fees
  import opened RelaySpec

  // ---------------------------------------------------------------- bank and token factory

  /** Amounts on the chain fit in 256 bits. */
  const BALANCE_MAX: nat := 0xFFFF_FFFF_FFFF_FFFF_FFFF_FFFF_FFFF_FFFF_FFFF_FFFF_FFFF_FFFF_FFFF_FFFF_FFFF_FFFF

  datatype Bank = Bank(balances: map<(string, string), nat>, supply: map<string, nat>, created: set<string>)

  function Balance(b: Bank, account: string, denom: string): nat {
    if (account, denom) in b.balances then b.balances[(account, denom)] else 0
  }

  function Supply(b: Bank, denom: string): nat {
    if denom in b.supply then b.supply[denom] else 0
  }

  function Credit(b: Bank, account: string, denom: string, amount: nat): Bank {
    b.(balances := b.balances[(account, denom) := Balance(b, account, denom) + amount])
  }

  function Debit(b: Bank, account: string, denom: string, amount: nat): Bank
    requires amount <= Balance(b, account, denom)
  {
    b.(balances := b.balances[(account, denom) := Balance(b, account, denom) - amount])
  }

  function Move(b: Bank, from: string, to: string, denom: string, amount: nat): Option<Bank> {
    if Balance(b, from, denom) < amount then None
    else
      var debited := Debit(b, from, denom, amount);
      if Balance(debited, to, denom) + amount > BALANCE_MAX then None
      else Some(Credit(debited, to, denom, amount))
  }

  /** The funds that accompany a call are moved to the contract before it runs. */
  function MoveCoins(b: Bank, from: string, to: string, coins: seq<Coin>): Option<Bank> {
    if coins == [] then Some(b)
    else
      var n := |coins| - 1;
      match MoveCoins(b, from, to, coins[..n])
      case None => None
      case Some(b1) => Move(b1, from, to, coins[n].denom, coins[n].amount)
  }

  // ---------------------------------------------------------------- executing messages

  datatype State = State(store: Store, bank: Bank)

  /** One message sent by the contract. `None` is a failure, which undoes the whole batch. */
  function Exec(k: Contract, s: State, msg: Msg): Option<State> {
    match msg
    case BankSend(to, denom, amount) =>
      (match Move(s.bank, k.addr, to, denom, amount)
       case Some(b) => Some(s.(bank := b))
       case None => None)
    case RegisterDenom(ep, foreign, hash) =>
      Some(s.(store := s.store.(denomToHash := s.store.denomToHash[(ep, foreign) := hash],
                                hashToDenom := s.store.hashToDenom[(ep, hash) := foreign])))
    case CreateDenom(denom) =>
      if denom in s.bank.created then None
      else Some(s.(bank := s.bank.(created := s.bank.created + {denom})))
    case Mint(denom, amount, to) =>
      if denom !in s.bank.created || Balance(s.bank, to, denom) + amount > BALANCE_MAX then None
      else
        var b := Credit(s.bank, to, denom, amount);
        Some(s.(bank := b.(supply := b.supply[denom := Supply(b, denom) + amount])))
    case Burn(denom, amount) =>
      if Balance(s.bank, k.addr, denom) < amount || Supply(s.bank, denom) < amount then None
      else
        var b := Debit(s.bank, k.addr, denom, amount);
        Some(s.(bank := b.(supply := b.supply[denom := Supply(b, denom) - amount])))
  }

  function ExecAll(k: Contract, s: State, msgs: seq<Msg>): Option<State> {
    if msgs == [] then Some(s)
    else
      var n := |msgs| - 1;
      match ExecAll(k, s, msgs[..n])
      case None => None
      case Some(s1) => Exec(k, s1, msgs[n])
  }

  // ---------------------------------------------------------------- one chain

  /** `pending` holds the packets sent and not settled yet; `acks` holds, for every packet received,
      the acknowledgements written for it. Both are indexed by local channel and sequence. */
  datatype Node = Node(
    state: State,
    nextSeq: map<string, nat>,
    pending: map<(string, nat), PacketData>,
    acks: map<(string, nat), seq<string>>)

  datatype Event =
    | External(bank: Bank)
    | Connect(channel: string, info: ChannelInfo)
    | Transfer(sender: string, funds: seq<Coin>, msg: TransferMsg)
    | Recv(channel: string, packet: IbcPacket, relayer: string, hostOk: bool)
    | Acked(channel: string, sequence: nat, bytes: string)
    | Expired(channel: string, sequence: nat)

  function SuccessBytes(c: AckCodec, v: Version): string {
    if v == Ics20 then c.encode(Result("\U{0001}")) else UCS01_SUCCESS
  }

  function FailureBytes(c: AckCodec, v: Version, error: string): string {
    if v == Ics20 then c.encode(Failure(error)) else UCS01_FAILURE
  }

  function NextSeq(n: Node, channel: string): nat {
    if channel in n.nextSeq then n.nextSeq[channel] else 1
  }

  function WriteAck(n: Node, id: (string, nat), bytes: string): Node {
    n.(acks := n.acks[id := if id in n.acks then n.acks[id] + [bytes] else [bytes]])
  }

  function PutPacket(n: Node, channel: string, data: PacketData): Node {
    n.(pending := n.pending[(channel, NextSeq(n, channel)) := data],
       nextSeq := n.nextSeq[channel := NextSeq(n, channel) + 1])
  }

  /** A user's `ExecuteMsg::Transfer`: any failure undoes the whole transaction. */
  function TransferState(k: Contract, s: State, sender: string, funds: seq<Coin>, msg: TransferMsg)
    : Option<(State, Sent)>
  {
    match MoveCoins(s.bank, sender, k.addr, funds)
    case None => None
    case Some(bank) =>
      var (store, r) := ExecuteTransfer(k, s.store, sender, funds, msg);
      if !r.Ok? then None
      else
        match ExecAll(k, State(store, bank), r.value.msgs)
        case None => None
        case Some(s') => Some((s', r.value))
  }

  function DoTransfer(k: Contract, n: Node, sender: string, funds: seq<Coin>, msg: TransferMsg): Option<Node> {
    match TransferState(k, n.state, sender, funds, msg)
    case None => None
    case Some((state, sent)) => Some(PutPacket(n.(state := state), sent.channel, sent.packet))
  }

  /** A failing batch is undone and its reply overwrites the acknowledgement; the storage written by
      the handler itself stays. */
  function DeliverState(k: Contract, s: State, batch: seq<Msg>, hostOk: bool): Option<State> {
    if hostOk then ExecAll(k, s, batch) else None
  }

  function DoDeliver(c: AckCodec, k: Contract, n: Node, id: (string, nat), v: Version, batch: seq<Msg>,
                     hostOk: bool): Node {
    match DeliverState(k, n.state, batch, hostOk)
    case Some(state) => WriteAck(n.(state := state), id, SuccessBytes(c, v))
    case None => WriteAck(n, id, FailureBytes(c, v, "batch"))
  }

  /** The burns, then the hop with its reply, then the batch; only the hop may fail without undoing
      everything, and its reply then writes the failure acknowledgement. */
  function DoForward(c: AckCodec, k: Contract, n: Node, id: (string, nat), v: Version, r: Response,
                     hostOk: bool): Option<Node>
    requires r.Forwarded?
  {
    match ExecAll(k, n.state, r.burns)
    case None => None
    case Some(state) =>
      var n1 := n.(state := state);
      var n2 :=
        if hostOk then
          var seqn := NextSeq(n, r.hop.channel);
          PutPacket(n1.(acks := n1.acks[id := []],
                        state := state.(store := SaveInFlight(state.store, r.payload, seqn))),
                    r.hop.channel, r.hop.packet)
        else WriteAck(n1, id, FailureBytes(c, v, "hop"));
      match ExecAll(k, n2.state, r.batch)
      case None => None
      case Some(state') => Some(n2.(state := state'))
  }

  function DoRecv(c: AckCodec, k: Contract, n: Node, ch: ChannelInfo, packet: IbcPacket, relayer: string, hostOk: bool)
    : Option<Node>
  {
    var id := (ch.endpoint.channel, packet.sequence);
    var (store, r) := Receive(k, n.state.store, ch, relayer, packet);
    var n1 := n.(state := n.state.(store := store));
    match r
    case Ok(Refused) => Some(WriteAck(n1, id, FailureBytes(c, ch.version, "refused")))
    case Ok(Delivered(batch)) => Some(DoDeliver(c, k, n1, id, ch.version, batch, hostOk))
    case Ok(Forwarded(_, _, _, _)) => DoForward(c, k, n1, id, ch.version, r.value, hostOk)
    case _ => None
  }

  /** The refund messages and the deferred acknowledgement; any failure leaves the packet pending. */
  function DoSettle(k: Contract, n: Node, id: (string, nat), store: Store, r: Outcome<Settled>): Option<Node> {
    if !r.Ok? then None
    else
      match ExecAll(k, State(store, n.state.bank), r.value.msgs)
      case None => None
      case Some(state) =>
        var n1 := n.(state := state, pending := n.pending - {id});
        match r.value.deferred
        case None => Some(n1)
        case Some((origin, bytes)) => Some(WriteAck(n1, (origin.dst.channel, origin.sequence), bytes))
  }

  /** What other accounts may do to the bank: they neither touch what the contract holds, other than
      adding to it, nor create, mint or burn its vouchers. */
  ghost predicate ExternalOk(k: Contract, b: Bank, b': Bank) {
    && b'.created == b.created
    && (forall d :: Balance(b, k.addr, d) <= Balance(b', k.addr, d) <= BALANCE_MAX)
    && (forall d :: k.VoucherHash(d).Some? ==> Supply(b', d) == Supply(b, d))
  }

  /** Denominations that exist in the bank: none carries the contract's own wire prefix, and those in
      the contract's factory namespace are vouchers it created. */
  ghost predicate Clean(k: Contract, denom: string) {
    && !(k.Port() + "/" <= denom)
    && (k.VoucherHash(denom).Some? ==> exists x :: denom == k.FactoryDenom(x))
  }

  /** The vouchers that the foreign tokens of a packet stand for are among the names in use. */
  ghost predicate InPlay(k: Contract, ch: ChannelInfo, tokens: seq<Token>) {
    forall i :: 0 <= i < |tokens| && Origin(tokens[i].denom, ch.counterparty).Remote? ==>
      MakeForeignDenom(ch.endpoint, tokens[i].denom) in k.names
  }

  /** What the environment guarantees about an event. */
  ghost predicate Allowed(k: Contract, n: Node, e: Event) {
    match e
    case External(bank) => ExternalOk(k, n.state.bank, bank)
    case Connect(channel, info) =>
      channel !in n.state.store.channels && info.endpoint == Endpoint(k.Port(), channel)
    case Transfer(sender, funds, _) =>
      sender != k.addr && (forall i :: 0 <= i < |funds| ==> Clean(k, funds[i].denom))
    case Recv(channel, packet, _, _) =>
      && channel in n.state.store.channels
      && packet.dst == n.state.store.channels[channel].endpoint
      && (channel, packet.sequence) !in n.acks
      && (packet.data.Some? ==> InPlay(k, n.state.store.channels[channel], packet.data.value.tokens))
    case Acked(channel, sequence, _) =>
      channel in n.state.store.channels && (channel, sequence) in n.pending
    case Expired(channel, sequence) =>
      channel in n.state.store.channels && (channel, sequence) in n.pending
  }

  /** The next state, or `None` when the transaction aborts and nothing changes. */
  ghost function Step(c: AckCodec, k: Contract, n: Node, e: Event): Option<Node>
    requires Allowed(k, n, e)
  {
    match e
    case External(bank) => Some(n.(state := n.state.(bank := bank)))
    case Connect(channel, info) =>
      Some(n.(state := n.state.(store := n.state.store.(channels := n.state.store.channels[channel := info]))))
    case Transfer(sender, funds, msg) => DoTransfer(k, n, sender, funds, msg)
    case Recv(channel, packet, relayer, hostOk) =>
      DoRecv(c, k, n, n.state.store.channels[channel], packet, relayer, hostOk)
    case Acked(channel, sequence, bytes) =>
      var (store, r) := Acknowledge(c, k, n.state.store, n.state.store.channels[channel], sequence,
                                    n.pending[(channel, sequence)], bytes);
      DoSettle(k, n, (channel, sequence), store, r)
    case Expired(channel, sequence) =>
      var (store, r) := RelaySpec.Timeout(c, k, n.state.store, n.state.store.channels[channel], sequence,
                                n.pending[(channel, sequence)]);
      DoSettle(k, n, (channel, sequence), store, r)
  }

  ghost predicate Init(k: Contract, n: Node) {
    && n.state.store == Store(map[], map[], map[], map[], map[])
    && n.state.bank.created == {}
    && (forall d :: Balance(n.state.bank, k.addr, d) <= BALANCE_MAX)
    && (forall d :: k.VoucherHash(d).Some? ==> Supply(n.state.bank, d) == 0)
    && n.nextSeq == map[] && n.pending == map[] && n.acks == map[]
  }

  /** A run from an initial state: `trace[i + 1]` follows `trace[i]` by one event that takes effect. */
  ghost predicate IsRun(c: AckCodec, k: Contract, trace: seq<Node>, events: seq<Event>) {
    && |trace| == |events| + 1
    && Init(k, trace[0])
    && forall i :: 0 <= i < |events| ==>
         Allowed(k, trace[i], events[i]) && Step(c, k, trace[i], events[i]) == Some(trace[i + 1])
  }
}
