/** Two relay contracts joined by a channel, each with further channels to elsewhere. Over every interleaving
    of their events, forwards over any channels included, what one end owes is what the other end has
    minted, plus what is travelling between them, up to what failures leave stranded. */
module Network {
  import opened Wrappers
  import opened Denoms
  import opened Fees
  import opened RelaySpec
  import opened Host
  import opened Solvency
  import opened Reachable
  import opened Forwarding
  import opened Exchange
  import opened Effects
  import opened Stranding

  // ---------------------------------------------------------------- the two ends

  /** One end: its deployment, and its description of the channel. */
  datatype Side = Side(k: Contract, info: ChannelInfo) {
    function Channel(): string { info.endpoint.channel }
  }

  datatype Net = Net(codec: AckCodec, left: Side, right: Side) {
    function Of(left: bool): Side { if left then this.left else right }
  }

  function At(pair: (Node, Node), left: bool): Node { if left then pair.0 else pair.1 }

  ghost predicate Mirrors(a: Side, b: Side) {
    && a.info.endpoint.port == a.k.Port() && Identifier(a.Channel()) && a.k.Injective()
    && a.info.counterparty == b.info.endpoint && a.info.version == b.info.version
  }

  ghost predicate Linked(net: Net) {
    CodecOk(net.codec) && Mirrors(net.left, net.right) && Mirrors(net.right, net.left)
  }

  /** What the host of end `a`, in state `x`, guarantees about the channel to end `b`, in state `y`: packets
      are those sent and not settled, acknowledgements those written, and only packets that were not
      received expire. */
  ghost predicate Faithful(a: Side, b: Side, y: Node, e: Event) {
    match e
    case Connect(channel, info) => Identifier(channel) && (channel == a.Channel() ==> info == a.info)
    case Recv(channel, packet, _, _) =>
      channel == a.Channel() ==>
        (b.Channel(), packet.sequence) in y.pending && packet.data == Some(y.pending[(b.Channel(), packet.sequence)])
    case Acked(channel, sequence, bytes) =>
      channel == a.Channel() ==> (b.Channel(), sequence) in y.acks && y.acks[(b.Channel(), sequence)] == [bytes]
    case Expired(channel, sequence) => channel == a.Channel() ==> (b.Channel(), sequence) !in y.acks
    case _ => true
  }

  /** One event at one end. */
  ghost predicate Acts(c: AckCodec, a: Side, b: Side, x: Node, x': Node, y: Node, e: Event) {
    Allowed(a.k, x, e) && Faithful(a, b, y, e) && Step(c, a.k, x, e) == Some(x')
  }

  ghost predicate JointStep(net: Net, p: (Node, Node), q: (Node, Node), event: (bool, Event)) {
    && Acts(net.codec, net.Of(event.0), net.Of(!event.0), At(p, event.0), At(q, event.0), At(p, !event.0), event.1)
    && At(q, !event.0) == At(p, !event.0)
  }

  ghost predicate IsJointRun(net: Net, trace: seq<(Node, Node)>, events: seq<(bool, Event)>) {
    && |trace| == |events| + 1
    && Linked(net) && Init(net.left.k, trace[0].0) && Init(net.right.k, trace[0].1)
    && forall i :: 0 <= i < |events| ==> JointStep(net, trace[i], trace[i + 1], events[i])
  }

  // ---------------------------------------------------------------- the joint invariant

  ghost predicate NodeInv(k: Contract, n: Node) {
    Inv(k, n.state) && ForwardInv(k, n) && WireOk(k, n) && PlainChannels(n)
  }

  ghost predicate ChannelAgrees(a: Side, x: Node) {
    a.Channel() in x.state.store.channels ==> x.state.store.channels[a.Channel()] == a.info
  }

  /** What `x` has acknowledged, `y` has sent. */
  ghost predicate AcksWereSent(a: Side, b: Side, x: Node, y: Node) {
    forall s :: (a.Channel(), s) in x.acks ==> s < NextSeq(y, b.Channel())
  }

  /** The packets that `x` is forwarding for `y` are pending there. */
  ghost predicate OriginsPending(a: Side, b: Side, x: Node, y: Node) {
    forall key :: key in x.state.store.inFlight && x.state.store.inFlight[key].origin.dst.channel == a.Channel() ==>
      var origin := x.state.store.inFlight[key].origin;
      (b.Channel(), origin.sequence) in y.pending && origin.data == Some(y.pending[(b.Channel(), origin.sequence)])
  }

  ghost predicate Joined(a: Side, b: Side, x: Node, y: Node) {
    NodeInv(a.k, x) && ChannelAgrees(a, x) && AcksWereSent(a, b, x, y) && OriginsPending(a, b, x, y)
  }

  ghost predicate PairInv(a: Side, b: Side, x: Node, y: Node) { Joined(a, b, x, y) && Joined(b, a, y, x) }

  /** The hops of the next state are those of this one, and at most one for the packet just received. */
  ghost predicate HopsFrom(n: Node, n': Node, e: Event) {
    forall key :: key in n'.state.store.inFlight ==>
      || (key in n.state.store.inFlight && n'.state.store.inFlight[key] == n.state.store.inFlight[key])
      || (e.Recv? && n'.state.store.inFlight[key].origin == e.packet)
  }

  lemma StepHops(c: AckCodec, k: Contract, n: Node, e: Event)
    requires Inv(k, n.state) && Allowed(k, n, e) && Step(c, k, n, e).Some?
    ensures HopsFrom(n, Step(c, k, n, e).value, e)
  {
    hide DoTransfer, DoRecv, DoSettle, Settle, ExternalOk, CleanCoins, Solvent, Index, KeysClean, InPlay;
    match e
    case External(_) =>
    case Connect(_, _) =>
    case Transfer(sender, funds, msg) => TransferFrame(k, n, sender, funds, msg);
    case Recv(channel, packet, relayer, hostOk) =>
      RecvEffect(c, k, n, n.state.store.channels[channel], packet, relayer, hostOk);
    case Acked(channel, sequence, bytes) =>
      var ch := n.state.store.channels[channel];
      var ack := DecodeAck(c, ch.version, bytes);
      if ack.Some? {
        SettleEffect(c, k, n, ch, (channel, sequence), ack.value);
      } else {
        RejectedAck(c, k, n, e);
      }
    case Expired(channel, sequence) =>
      SettleEffect(c, k, n, n.state.store.channels[channel], (channel, sequence), AckErr(TIMEOUT_MSG));
  }

  lemma StepKeepsNode(c: AckCodec, a: Side, b: Side, x: Node, x': Node, y: Node, e: Event)
    requires a.k.Injective() && NodeInv(a.k, x) && ChannelAgrees(a, x) && Acts(c, a, b, x, x', y, e)
    ensures NodeInv(a.k, x') && ChannelAgrees(a, x')
  {
    hide Step, Inv, ForwardInv, WireOk, Identifier;
    StepKeepsInv(c, a.k, x, e);
    StepKeepsForward(c, a.k, x, e);
    StepKeepsWire(c, a.k, x, e);
    if e.Connect? {
      Connected(c, a.k, x, e);
    } else {
      StepKeepsChannel(c, a.k, x, e, a.Channel());
      forall other ensures other in x'.state.store.channels <==> other in x.state.store.channels {
        StepKeepsChannel(c, a.k, x, e, other);
      }
    }
  }

  lemma Connected(c: AckCodec, k: Contract, n: Node, e: Event)
    requires e.Connect? && Allowed(k, n, e) && Step(c, k, n, e).Some?
    ensures Step(c, k, n, e).value.state.store.channels == n.state.store.channels[e.channel := e.info]
  {
  }

  /** A new acknowledgement is for the packet just received. */
  lemma NewAcks(c: AckCodec, k: Contract, n: Node, n': Node, e: Event, effect: Effect)
    requires Shows(c, k, n, n', e, effect) && AckedOnce(n.state.store.inFlight, n.acks)
    ensures forall id :: id in n'.acks ==> id in n.acks || (e.Recv? && id == (e.channel, e.packet.sequence))
  {
    hide Accepts, Learns, Carries;
  }

  /** Pending packets stay, unless one is settled, and sequences only grow. */
  lemma PendingStays(c: AckCodec, k: Contract, n: Node, n': Node, e: Event, effect: Effect)
    requires Shows(c, k, n, n', e, effect) && SequencesFresh(n.pending, n.nextSeq)
    ensures forall id :: id in n.pending ==>
              || (id in n'.pending && n'.pending[id] == n.pending[id])
              || ((e.Acked? || e.Expired?) && id == (e.channel, e.sequence))
    ensures forall channel :: NextSeq(n', channel) >= NextSeq(n, channel)
  {
    hide Accepts, Answers, Carries;
  }

  lemma ForwardParts(k: Contract, n: Node)
    requires NodeInv(k, n)
    ensures Inv(k, n.state) && ForwardInv(k, n)
    ensures AckedOnce(n.state.store.inFlight, n.acks) && SequencesFresh(n.pending, n.nextSeq)
  {
    hide Inv, WireOk, PlainChannels;
  }

  /** An event at `x` keeps what `x` knows about the packets of `y`. */
  lemma ActorKeeps(c: AckCodec, a: Side, b: Side, x: Node, x': Node, y: Node, e: Event)
    requires CodecOk(c) && a.k.Injective() && PairInv(a, b, x, y) && Acts(c, a, b, x, x', y, e)
    ensures AcksWereSent(a, b, x', y) && OriginsPending(a, b, x', y)
  {
    hide Step, NodeInv, Inv, ForwardInv, CodecOk, AckedOnce, Shows, InPlay, ChannelAgrees, EffectOf;
    ForwardParts(a.k, x);
    ForwardParts(b.k, y);
    EffectShown(c, a.k, x, e);
    NewAcks(c, a.k, x, x', e, EffectOf(c, a.k, x, e));
    StepHops(c, a.k, x, e);
    if e.Recv? { ChannelNamed(a.k, x, e.channel); }
  }

  /** An event at `x` keeps what `y` knows about the packets of `x`: none is settled while `y` is forwarding it. */
  lemma PeerKeeps(c: AckCodec, a: Side, b: Side, x: Node, x': Node, y: Node, e: Event)
    requires CodecOk(c) && a.k.Injective() && PairInv(a, b, x, y) && Acts(c, a, b, x, x', y, e)
    ensures AcksWereSent(b, a, y, x') && OriginsPending(b, a, y, x')
  {
    hide Step, NodeInv, Inv, ForwardInv, CodecOk, AckedOnce, SequencesFresh, Shows, Allowed, ChannelAgrees, EffectOf;
    ForwardParts(a.k, x);
    ForwardParts(b.k, y);
    EffectShown(c, a.k, x, e);
    PendingStays(c, a.k, x, x', e, EffectOf(c, a.k, x, e));
    forall key | key in y.state.store.inFlight && y.state.store.inFlight[key].origin.dst.channel == b.Channel()
      ensures var origin := y.state.store.inFlight[key].origin;
              (a.Channel(), origin.sequence) in x'.pending
                && origin.data == Some(x'.pending[(a.Channel(), origin.sequence)])
    {
      OriginUnacked(y.state.store.inFlight, y.acks, key);
    }
  }

  lemma StepKeepsPair(c: AckCodec, a: Side, b: Side, x: Node, x': Node, y: Node, e: Event)
    requires CodecOk(c) && a.k.Injective() && PairInv(a, b, x, y) && Acts(c, a, b, x, x', y, e)
    ensures PairInv(a, b, x', y)
  {
    hide NodeInv, ChannelAgrees, AcksWereSent, OriginsPending, Acts, CodecOk;
    StepKeepsNode(c, a, b, x, x', y, e);
    ActorKeeps(c, a, b, x, x', y, e);
    PeerKeeps(c, a, b, x, x', y, e);
  }

  // ---------------------------------------------------------------- what travels

  /** The packet with this sequence is pending at `x`, and `y` has not accepted it. */
  ghost predicate Waits(c: AckCodec, a: Side, b: Side, x: Node, y: Node, s: nat) {
    && (a.Channel(), s) in x.pending
    && ((b.Channel(), s) in y.acks ==> !Accepts(c, b.info.version, y.acks[(b.Channel(), s)]))
  }

  ghost function Waiting(c: AckCodec, a: Side, b: Side, x: Node, y: Node, p: string, s: nat): nat {
    if Waits(c, a, b, x, y, s) then SumTokens(x.pending[(a.Channel(), s)].tokens, p) else 0
  }

  ghost function WaitingBelow(c: AckCodec, a: Side, b: Side, x: Node, y: Node, p: string, n: nat): nat {
    if n == 0 then 0 else WaitingBelow(c, a, b, x, y, p, n - 1) + Waiting(c, a, b, x, y, p, n - 1)
  }

  /** What the packets of `x` over the channel carry under the wire name `p` and `y` has not accepted. */
  ghost function Travelling(c: AckCodec, a: Side, b: Side, x: Node, y: Node, p: string): nat {
    WaitingBelow(c, a, b, x, y, p, NextSeq(x, a.Channel()))
  }

  /** When only packet `t` changes, the sum changes by what it does. */
  lemma {:induction false} OneWaitingChanges(c: AckCodec, a: Side, b: Side, x: Node, y: Node, x': Node, y': Node,
                                             p: string, n: nat, t: nat)
    requires forall s :: 0 <= s < n && s != t ==> Waiting(c, a, b, x', y', p, s) == Waiting(c, a, b, x, y, p, s)
    ensures WaitingBelow(c, a, b, x', y', p, n)
            == WaitingBelow(c, a, b, x, y, p, n)
               + (if t < n then Waiting(c, a, b, x', y', p, t) - Waiting(c, a, b, x, y, p, t) else 0)
  {
    hide Waiting;
    if n != 0 {
      OneWaitingChanges(c, a, b, x, y, x', y', p, n - 1, t);
    }
  }

  lemma {:induction false} WaitingWithin(c: AckCodec, a: Side, b: Side, x: Node, y: Node, p: string, n: nat, t: nat)
    requires t < n
    ensures Waiting(c, a, b, x, y, p, t) <= WaitingBelow(c, a, b, x, y, p, n)
  {
    hide Waiting;
    if t < n - 1 {
      WaitingWithin(c, a, b, x, y, p, n - 1, t);
    }
  }

  /** An event at `x` changes what travels from `x` by what it sends, less what it learns has failed. */
  lemma OutgoingFollows(c: AckCodec, a: Side, b: Side, x: Node, x': Node, y: Node, e: Event, p: string)
    requires Mirrors(a, b) && PairInv(a, b, x, y) && Acts(c, a, b, x, x', y, e)
    requires Shows(c, a.k, x, x', e, EffectOf(c, a.k, x, e))
    ensures Travelling(c, a, b, x', y, p)
            == Travelling(c, a, b, x, y, p) + Outgoing(a.Channel(), p, EffectOf(c, a.k, x, e))
  {
    hide Step, NodeInv, EffectOf, Inv, ForwardInv, SequencesFresh, AckedOnce, OriginsPending, Answers, Accepts,
      SumTokens, WaitingBelow, Carries;
    ForwardParts(a.k, x);
    var effect := EffectOf(c, a.k, x, e);
    var n := NextSeq(x, a.Channel());
    match effect
    case SentOver(over, sent) => PacketSent(c, a, b, x, x', y, over, sent, p);
    case HopSent(_, _, over, sent) => PacketSent(c, a, b, x, x', y, over, sent, p);
    case Succeeded(over, sent, hop) => PacketSettled(c, a, b, x, x', y, e, over, sent, hop, true, p);
    case Failed(over, sent, hop) => PacketSettled(c, a, b, x, x', y, e, over, sent, hop, false, p);
    case _ => OneWaitingChanges(c, a, b, x, y, x', y, p, n, n);
  }

  lemma PacketSent(c: AckCodec, a: Side, b: Side, x: Node, x': Node, y: Node, over: string, sent: seq<Token>, p: string)
    requires AcksWereSent(b, a, y, x) && Sends(x, x', over, sent)
    ensures Travelling(c, a, b, x', y, p) == Travelling(c, a, b, x, y, p) + CarriedOut(a.Channel(), p, over, sent)
  {
    hide Accepts, SumTokens;
    var n := NextSeq(x, a.Channel());
    OneWaitingChanges(c, a, b, x, y, x', y, p, n, n);
    if over == a.Channel() {
      assert Waits(c, a, b, x', y, n);
    }
  }

  lemma PacketSettled(c: AckCodec, a: Side, b: Side, x: Node, x': Node, y: Node, e: Event, over: string,
                      sent: seq<Token>,
                      hop: Option<IbcPacket>, accepted: bool, p: string)
    requires Mirrors(a, b) && ChannelAgrees(a, x) && Faithful(a, b, y, e) && SequencesFresh(x.pending, x.nextSeq)
    requires Settles(c, a.k, x, x', e, over, sent, hop, accepted)
    ensures Travelling(c, a, b, x', y, p)
            == Travelling(c, a, b, x, y, p) - (if accepted then 0 else CarriedOut(a.Channel(), p, over, sent))
  {
    hide SumTokens, Answers;
    var n := NextSeq(x, a.Channel());
    OneWaitingChanges(c, a, b, x, y, x', y, p, n, if over == a.Channel() then e.sequence else n);
  }

  /** An event at `x` changes what travels to `x` by what it accepts, less what turns out to have failed. */
  lemma IncomingFollows(c: AckCodec, a: Side, b: Side, x: Node, x': Node, y: Node, e: Event, p: string)
    requires Mirrors(b, a) && PairInv(a, b, x, y) && Acts(c, a, b, x, x', y, e)
    requires Shows(c, a.k, x, x', e, EffectOf(c, a.k, x, e))
    ensures Travelling(c, b, a, y, x', p)
            == Travelling(c, b, a, y, x, p) - Incoming(a.Channel(), p, EffectOf(c, a.k, x, e))
  {
    hide Step, NodeInv, EffectOf, Inv, ForwardInv, SequencesFresh, AckedOnce, Accepts, SumTokens, WaitingBelow,
      Learns, InPlay;
    ForwardParts(a.k, x);
    ForwardParts(b.k, y);
    var effect := EffectOf(c, a.k, x, e);
    var n := NextSeq(y, b.Channel());
    match effect
    case Refused(from, _) => PacketAnswered(c, a, b, x, x', y, e, from, false, p);
    case PaidOut(from, _) => PacketAnswered(c, a, b, x, x', y, e, from, true, p);
    case HopSent(from, _, _, _) => PacketAnswered(c, a, b, x, x', y, e, from, true, p);
    case HopNotSent(from, _, _, _) => PacketAnswered(c, a, b, x, x', y, e, from, false, p);
    case Succeeded(over, sent, hop) => OriginAnswered(c, a, b, x, x', y, e, over, sent, hop, true, p);
    case Failed(over, sent, hop) => OriginAnswered(c, a, b, x, x', y, e, over, sent, hop, false, p);
    case _ => OneWaitingChanges(c, b, a, y, x, y, x', p, n, n);
  }

  lemma PacketAnswered(c: AckCodec, a: Side, b: Side, x: Node, x': Node, y: Node, e: Event, from: string,
                       accepted: bool, p: string)
    requires ChannelAgrees(a, x) && Faithful(a, b, y, e) && SequencesFresh(y.pending, y.nextSeq)
    requires Receives(c, x, x', e, from, accepted) && (from, e.packet.sequence) !in x.acks
    ensures Travelling(c, b, a, y, x', p)
            == Travelling(c, b, a, y, x, p)
               - (if accepted && e.packet.data.Some?
                 then CarriedOut(a.Channel(), p, from, e.packet.data.value.tokens) else 0)
  {
    hide SumTokens, Accepts;
    var n := NextSeq(y, b.Channel());
    OneWaitingChanges(c, b, a, y, x, y, x', p, n, if from == a.Channel() then e.packet.sequence else n);
  }

  lemma OriginAnswered(c: AckCodec, a: Side, b: Side, x: Node, x': Node, y: Node, e: Event, over: string,
                       sent: seq<Token>,
                       hop: Option<IbcPacket>, accepted: bool, p: string)
    requires ChannelAgrees(a, x) && OriginsPending(a, b, x, y) && SequencesFresh(y.pending, y.nextSeq)
    requires AckedOnce(x.state.store.inFlight, x.acks)
    requires Settles(c, a.k, x, x', e, over, sent, hop, accepted)
    ensures Travelling(c, b, a, y, x', p)
            == Travelling(c, b, a, y, x, p) + (if accepted then 0 else HopCarried(a.Channel(), p, hop))
  {
    hide SumTokens, Accepts, AckedOnce;
    assert Learns(c, x, e, over, accepted);
    var n := NextSeq(y, b.Channel());
    if hop.Some? {
      var key := HopKey(over, a.k.Port(), e.sequence);
      OriginUnacked(x.state.store.inFlight, x.acks, key);
      WaitingAccepts(c, a.info.version);
      OneWaitingChanges(c, b, a, y, x, y, x', p, n, if hop.value.dst.channel == a.Channel() then hop.value.sequence
        else n);
    } else {
      OneWaitingChanges(c, b, a, y, x, y, x', p, n, n);
    }
  }

  // ---------------------------------------------------------------- the law

  /** A denomination of end `a` that does not carry the prefix of the channel, and whose voucher at `b` is
      among the names in use there. */
  ghost predicate Native(a: Side, b: Side, d: string) {
    Origin(d, a.info.endpoint).Remote? && WireName(b, d) in b.k.names
  }

  /** The name by which a denomination of the other end travels. */
  function WireName(b: Side, d: string): string { MakeForeignDenom(b.info.endpoint, d) }

  function Owed(a: Side, x: Node, d: string): nat { Outstanding(x.state.store.outstanding, a.Channel(), d) }

  /** What stands for a denomination of `a` outside it: the vouchers at `b`, and what travels either way. */
  ghost function Backing(c: AckCodec, a: Side, b: Side, x: Node, y: Node, d: string): nat {
    VoucherSupply(b.k, y, WireName(b, d)) + Travelling(c, a, b, x, y, d) + Travelling(c, b, a, y, x, WireName(b, d))
  }

  /** An event at the home of a denomination. */
  lemma HomeKeepsLaw(c: AckCodec, a: Side, b: Side, x: Node, x': Node, y: Node, e: Event, d: string)
    requires CodecOk(c) && Mirrors(a, b) && Mirrors(b, a) && PairInv(a, b, x, y) && Acts(c, a, b, x, x', y, e)
    requires Native(a, b, d)
    ensures var effect := EffectOf(c, a.k, x, e);
            Owed(a, x', d) + Released(a.Channel(), WireName(b, d), effect)
              + FailedIn(a.Channel(), WireName(b, d), effect)
            - Backing(c, a, b, x', y, d)
            == Owed(a, x, d) - Backing(c, a, b, x, y, d) + Unsent(a.Channel(), d, effect)
  {
    hide Step, NodeInv, Inv, ForwardInv, CodecOk, EffectOf, Shows, Travelling, Outstanding, Origin, MakeForeignDenom,
      VoucherSupply, Allowed, Faithful;
    ForwardParts(a.k, x);
    EffectShown(c, a.k, x, e);
    OutgoingFollows(c, a, b, x, x', y, e, d);
    IncomingFollows(c, a, b, x, x', y, e, WireName(b, d));
    CountersBalance(c, a.k, x, e, a.Channel(), b.info.endpoint, d);
  }

  /** An event at the other end. */
  lemma AwayKeepsLaw(c: AckCodec, a: Side, b: Side, x: Node, y: Node, y': Node, e: Event, d: string)
    requires CodecOk(c) && Mirrors(a, b) && Mirrors(b, a) && PairInv(b, a, y, x) && Acts(c, b, a, y, y', x, e)
    requires Native(a, b, d)
    ensures var effect := EffectOf(c, b.k, y, e);
            Owed(a, x, d) + FailedIn(b.Channel(), d, effect) - Backing(c, a, b, x, y', d)
            == Owed(a, x, d) - Backing(c, a, b, x, y, d) + Unsent(b.Channel(), WireName(b, d), effect)
  {
    hide Step, Inv, ForwardInv, CodecOk, EffectOf, Shows, Travelling, Outstanding, Origin, MakeForeignDenom,
      VoucherSupply, Allowed, Faithful;
    ForwardParts(b.k, y);
    EffectShown(c, b.k, y, e);
    OutgoingFollows(c, b, a, y, y', x, e, WireName(b, d));
    IncomingFollows(c, b, a, y, y', x, e, d);
    VouchersBalance(c, b.k, y, e, b.Channel(), a.info.endpoint, d);
  }

  // ---------------------------------------------------------------- over runs

  lemma InitPair(a: Side, b: Side, x: Node, y: Node)
    requires Init(a.k, x) && Init(b.k, y)
    ensures PairInv(a, b, x, y)
  {
  }

  lemma {:induction false} AlwaysJoined(net: Net, trace: seq<(Node, Node)>, events: seq<(bool, Event)>, i: nat)
    requires IsJointRun(net, trace, events) && i < |trace|
    ensures PairInv(net.left, net.right, trace[i].0, trace[i].1)
  {
    hide Init, PairInv, Mirrors, Acts;
    if i == 0 {
      InitPair(net.left, net.right, trace[0].0, trace[0].1);
    } else {
      var j := i - 1;
      AlwaysJoined(net, trace, events, j);
      assert JointStep(net, trace[j], trace[j + 1], events[j]);
      EitherActs(net, trace[j], trace[j + 1], events[j]);
    }
  }

  lemma EitherActs(net: Net, p: (Node, Node), q: (Node, Node), event: (bool, Event))
    requires Linked(net) && JointStep(net, p, q, event) && PairInv(net.left, net.right, p.0, p.1)
    ensures PairInv(net.left, net.right, q.0, q.1)
  {
    hide Joined, Acts, CodecOk;
    StepKeepsPair(net.codec, net.Of(event.0), net.Of(!event.0), At(p, event.0), At(q, event.0), At(p, !event.0),
      event.1);
  }

  /** What an event strands of the denomination `d` of the home end: escrow released by a refused receive, or
      for a hop that fails, at home; or vouchers minted for a hop that fails, at the other end. */
  ghost function Stranded(net: Net, home: bool, d: string, p: (Node, Node), q: (Node, Node), event: (bool, Event)): nat
    requires JointStep(net, p, q, event)
  {
    var a, b, effect := net.Of(home), net.Of(!home), EffectOf(net.codec, net.Of(event.0).k, At(p, event.0), event.1);
    if event.0 == home then
      Released(a.Channel(), WireName(b, d), effect) + FailedIn(a.Channel(), WireName(b, d), effect)
    else FailedIn(b.Channel(), d, effect)
  }

  /** What an event takes for a hop over the channel that is then not sent. */
  ghost function NotSent(net: Net, home: bool, d: string, p: (Node, Node), q: (Node, Node), event: (bool, Event)): nat
    requires JointStep(net, p, q, event)
  {
    var a, b, effect := net.Of(home), net.Of(!home), EffectOf(net.codec, net.Of(event.0).k, At(p, event.0), event.1);
    if event.0 == home then Unsent(a.Channel(), d, effect) else Unsent(b.Channel(), WireName(b, d), effect)
  }

  ghost function StrandedSoFar(net: Net, trace: seq<(Node, Node)>, events: seq<(bool, Event)>, home: bool, d: string,
                               i: nat): nat
    requires IsJointRun(net, trace, events) && i < |trace|
  {
    if i == 0 then 0
    else
      StrandedSoFar(net, trace, events, home, d, i - 1) + Stranded(net, home, d, trace[i - 1], trace[i], events[i - 1])
  }

  ghost function NotSentSoFar(net: Net, trace: seq<(Node, Node)>, events: seq<(bool, Event)>, home: bool, d: string,
                              i: nat): nat
    requires IsJointRun(net, trace, events) && i < |trace|
  {
    if i == 0 then 0
    else NotSentSoFar(net, trace, events, home, d, i - 1) + NotSent(net, home, d, trace[i - 1], trace[i], events[i - 1])
  }

  ghost function OwedAt(net: Net, home: bool, p: (Node, Node), d: string): nat { Owed(net.Of(home), At(p, home), d) }

  ghost function BackingAt(net: Net, home: bool, p: (Node, Node), d: string): nat {
    Backing(net.codec, net.Of(home), net.Of(!home), At(p, home), At(p, !home), d)
  }

  lemma JointStepKeepsLaw(net: Net, home: bool, d: string, p: (Node, Node), q: (Node, Node), event: (bool, Event))
    requires Linked(net) && JointStep(net, p, q, event) && PairInv(net.left, net.right, p.0, p.1)
    requires Native(net.Of(home), net.Of(!home), d)
    ensures OwedAt(net, home, q, d) + Stranded(net, home, d, p, q, event) - BackingAt(net, home, q, d)
            == OwedAt(net, home, p, d) - BackingAt(net, home, p, d) + NotSent(net, home, d, p, q, event)
  {
    hide Joined, Acts, CodecOk, Native, EffectOf, Owed, Backing, Mirrors;
    var a, b := net.Of(home), net.Of(!home);
    if event.0 == home {
      HomeKeepsLaw(net.codec, a, b, At(p, home), At(q, home), At(p, !home), event.1, d);
    } else {
      AwayKeepsLaw(net.codec, a, b, At(p, home), At(p, !home), At(q, !home), event.1, d);
    }
  }

  lemma NothingYet(net: Net, home: bool, p: (Node, Node), d: string)
    requires Init(net.left.k, p.0) && Init(net.right.k, p.1)
    ensures OwedAt(net, home, p, d) == 0 && BackingAt(net, home, p, d) == 0
  {
    var a, b, x, y := net.Of(home), net.Of(!home), At(p, home), At(p, !home);
    b.k.VoucherHashOfFactory(WireName(b, d));
    hide MakeForeignDenom, Contract.FactoryDenom, Contract.VoucherHash;
    NothingWaiting(net.codec, a, b, x, y, d, NextSeq(x, a.Channel()));
    NothingWaiting(net.codec, b, a, y, x, WireName(b, d), NextSeq(y, b.Channel()));
  }

  lemma {:induction false} NothingWaiting(c: AckCodec, a: Side, b: Side, x: Node, y: Node, p: string, n: nat)
    requires x.pending == map[]
    ensures WaitingBelow(c, a, b, x, y, p, n) == 0
  {
    if n != 0 {
      NothingWaiting(c, a, b, x, y, p, n - 1);
    }
  }

  /** In every state of every run of the two ends, with forwards over any channels at either, for every
      denomination of either end: what is owed for it on the channel, plus what failures have stranded,
      equals the vouchers the other end has issued, plus what travels either way, plus what was taken for
      hops over the channel that were not sent. */
  lemma {:induction false} CrossChainSupply(net: Net, trace: seq<(Node, Node)>, events: seq<(bool, Event)>,
                                            home: bool, d: string, i: nat)
    requires IsJointRun(net, trace, events) && i < |trace| && Native(net.Of(home), net.Of(!home), d)
    ensures OwedAt(net, home, trace[i], d) + StrandedSoFar(net, trace, events, home, d, i)
            == BackingAt(net, home, trace[i], d) + NotSentSoFar(net, trace, events, home, d, i)
  {
    hide Init, PairInv, Linked, Acts, Native, OwedAt, BackingAt, Stranded, NotSent;
    if i == 0 {
      NothingYet(net, home, trace[0], d);
    } else {
      var j := i - 1;
      CrossChainSupply(net, trace, events, home, d, j);
      AlwaysJoined(net, trace, events, j);
      assert JointStep(net, trace[j], trace[j + 1], events[j]);
      JointStepKeepsLaw(net, home, d, trace[j], trace[j + 1], events[j]);
    }
  }

  // ---------------------------------------------------------------- which refunds pass

  ghost predicate Refundable(a: Side, x: Node, data: PacketData) {
    ForTokens(a.k, Refunding(data.sender), x.state.store.outstanding, a.info.endpoint, data.tokens).1.Ok?
  }

  /** A packet that is not settled can be refunded exactly when, for each denomination it escrowed, no more is
      stranded than the vouchers at the other end, the other travelling tokens and the amounts not sent
      come to. */
  lemma RefundPassesIff(net: Net, trace: seq<(Node, Node)>, events: seq<(bool, Event)>, home: bool, i: nat, s: nat)
    requires IsJointRun(net, trace, events) && i < |trace|
    requires (net.Of(home).Channel(), s) in At(trace[i], home).pending
    requires InPlay(net.Of(!home).k, net.Of(!home).info, At(trace[i], home).pending[(net.Of(home).Channel(), s)].tokens)
    ensures var data := At(trace[i], home).pending[(net.Of(home).Channel(), s)];
            Refundable(net.Of(home), At(trace[i], home), data) <==>
            forall j :: 0 <= j < |data.tokens| && Origin(data.tokens[j].denom, net.Of(home).info.endpoint).Remote? ==>
              var d := data.tokens[j].denom;
              StrandedSoFar(net, trace, events, home, d, i)
              <= BackingAt(net, home, trace[i], d) + NotSentSoFar(net, trace, events, home, d, i)
                - SumTokens(data.tokens, d)
  {
    hide Init, StrandedSoFar, NotSentSoFar, BackingAt, JointStep, Inv, ForwardInv, CodecOk, SumTokens, ForTokens,
      Origin, MakeForeignDenom;
    var a, b, x := net.Of(home), net.Of(!home), At(trace[i], home);
    var id := (a.Channel(), s);
    var tokens, e := x.pending[id].tokens, x.state.store.outstanding;
    AlwaysJoined(net, trace, events, i);
    assert TokensOk(a.k, x.state.store, a.Channel(), tokens);
    RefundOkIff(a.k, x.pending[id].sender, e, a.info.endpoint, tokens);
    forall j | 0 <= j < |tokens| && Origin(tokens[j].denom, a.info.endpoint).Remote?
      ensures var d := tokens[j].denom;
              Covered(e, a.info.endpoint, tokens, d) <==>
              StrandedSoFar(net, trace, events, home, d, i)
              <= BackingAt(net, home, trace[i], d) + NotSentSoFar(net, trace, events, home, d, i) - SumTokens(tokens, d)
    {
      CrossChainSupply(net, trace, events, home, tokens[j].denom, i);
    }
  }

  /** While nothing is stranded of the denominations it escrowed, a packet that the other end has not accepted
      can be refunded. */
  lemma RefundPasses(net: Net, trace: seq<(Node, Node)>, events: seq<(bool, Event)>, home: bool, i: nat, s: nat)
    requires IsJointRun(net, trace, events) && i < |trace|
    requires Waits(net.codec, net.Of(home), net.Of(!home), At(trace[i], home), At(trace[i], !home), s)
    requires InPlay(net.Of(!home).k, net.Of(!home).info, At(trace[i], home).pending[(net.Of(home).Channel(), s)].tokens)
    requires forall d :: StrandedSoFar(net, trace, events, home, d, i) == 0
    ensures Refundable(net.Of(home), At(trace[i], home), At(trace[i], home).pending[(net.Of(home).Channel(), s)])
  {
    hide IsJointRun, StrandedSoFar, NotSentSoFar, InPlay, Refundable, Inv, HopsTracked, AckedOnce, Origin,
      VoucherSupply, Accepts, SumTokens;
    var a, b, x, y := net.Of(home), net.Of(!home), At(trace[i], home), At(trace[i], !home);
    var tokens := x.pending[(a.Channel(), s)].tokens;
    RefundPassesIff(net, trace, events, home, i, s);
    AlwaysJoined(net, trace, events, i);
    forall j | 0 <= j < |tokens|
      ensures SumTokens(tokens, tokens[j].denom) <= BackingAt(net, home, trace[i], tokens[j].denom)
    {
      WaitingWithin(net.codec, a, b, x, y, tokens[j].denom, NextSeq(x, a.Channel()), s);
    }
  }

  // ---------------------------------------------------------------- an answer that cannot be read

  /** An acknowledgement that has been written stays as it is. */
  lemma AcksStay(c: AckCodec, k: Contract, n: Node, n': Node, e: Event, effect: Effect)
    requires Shows(c, k, n, n', e, effect) && AckedOnce(n.state.store.inFlight, n.acks)
    requires e.Recv? ==> (e.channel, e.packet.sequence) !in n.acks
    ensures forall id :: id in n.acks && n.acks[id] != [] ==> id in n'.acks && n'.acks[id] == n.acks[id]
  {
    hide Accepts, Carries, AckedOnce;
    if (effect.Succeeded? || effect.Failed?) && effect.hop.Some? {
      OriginUnacked(n.state.store.inFlight, n.acks, HopKey(e.channel, k.Port(), e.sequence));
    }
  }

  /** A pending packet of `a` whose acknowledgement at `b` does not decode. */
  ghost predicate Unreadable(c: AckCodec, a: Side, b: Side, x: Node, y: Node, s: nat) {
    && (a.Channel(), s) in x.pending
    && (b.Channel(), s) in y.acks && |y.acks[(b.Channel(), s)]| == 1
    && DecodeAck(c, a.info.version, y.acks[(b.Channel(), s)][0]).None?
  }

  /** Nothing that the sending end does settles the packet: the acknowledgement is rejected, and a packet that
      was received does not expire. */
  lemma SenderStuck(c: AckCodec, a: Side, b: Side, x: Node, x': Node, y: Node, e: Event, s: nat)
    requires CodecOk(c) && a.k.Injective() && PairInv(a, b, x, y) && Acts(c, a, b, x, x', y, e)
    requires Unreadable(c, a, b, x, y, s)
    ensures Unreadable(c, a, b, x', y, s) && x'.pending[(a.Channel(), s)] == x.pending[(a.Channel(), s)]
  {
    hide Step, NodeInv, Inv, ForwardInv, CodecOk, AckedOnce, SequencesFresh, Shows, EffectOf, OriginsPending,
      AcksWereSent;
    ForwardParts(a.k, x);
    EffectShown(c, a.k, x, e);
    PendingStays(c, a.k, x, x', e, EffectOf(c, a.k, x, e));
    if e.Acked? && e.channel == a.Channel() && e.sequence == s {
      RejectedAck(c, a.k, x, e);
    }
  }

  lemma ReceiverStuck(c: AckCodec, a: Side, b: Side, x: Node, y: Node, y': Node, e: Event, s: nat)
    requires CodecOk(c) && b.k.Injective() && PairInv(b, a, y, x) && Acts(c, b, a, y, y', x, e)
    requires Unreadable(c, a, b, x, y, s)
    ensures Unreadable(c, a, b, x, y', s)
  {
    hide Step, NodeInv, Inv, ForwardInv, CodecOk, AckedOnce, SequencesFresh, Shows, EffectOf, OriginsPending,
      AcksWereSent;
    ForwardParts(b.k, y);
    EffectShown(c, b.k, y, e);
    AcksStay(c, b.k, y, y', e, EffectOf(c, b.k, y, e));
  }

  ghost predicate UnreadableAt(net: Net, home: bool, p: (Node, Node), s: nat) {
    Unreadable(net.codec, net.Of(home), net.Of(!home), At(p, home), At(p, !home), s)
  }

  lemma StaysUnreadable(net: Net, home: bool, p: (Node, Node), q: (Node, Node), event: (bool, Event), s: nat)
    requires Linked(net) && JointStep(net, p, q, event) && PairInv(net.left, net.right, p.0, p.1)
    requires UnreadableAt(net, home, p, s)
    ensures UnreadableAt(net, home, q, s)
    ensures At(q, home).pending[(net.Of(home).Channel(), s)] == At(p, home).pending[(net.Of(home).Channel(), s)]
  {
    hide Joined, Acts, CodecOk, DecodeAck;
    var a, b := net.Of(home), net.Of(!home);
    if event.0 == home {
      SenderStuck(net.codec, a, b, At(p, home), At(q, home), At(p, !home), event.1, s);
    } else {
      ReceiverStuck(net.codec, a, b, At(p, home), At(p, !home), At(q, !home), event.1, s);
    }
  }

  /** In every later state of the joint run the packet is still pending: neither acknowledged, nor expired,
      nor refunded. */
  lemma {:induction false} UnreadableForever(net: Net, trace: seq<(Node, Node)>, events: seq<(bool, Event)>, home: bool,
                                             i: nat, j: nat, s: nat)
    requires IsJointRun(net, trace, events) && i <= j < |trace| && UnreadableAt(net, home, trace[i], s)
    ensures UnreadableAt(net, home, trace[j], s)
    ensures At(trace[j], home).pending[(net.Of(home).Channel(), s)]
            == At(trace[i], home).pending[(net.Of(home).Channel(), s)]
    decreases j
  {
    hide Init, PairInv, Linked, JointStep, DecodeAck;
    if i < j {
      var m := j - 1;
      UnreadableForever(net, trace, events, home, i, m, s);
      AlwaysJoined(net, trace, events, m);
      StaysUnreadable(net, home, trace[m], trace[j], events[m], s);
    }
  }

  /** The event is the timeout, at `y`, of a hop for packet `s` of the other end, over a channel of the same
      version as the one the packet came in on. */
  ghost predicate TimesOutHop(b: Side, y: Node, e: Event, s: nat) {
    && e.Expired? && e.channel in y.state.store.channels
    && y.state.store.channels[e.channel].version == b.info.version
    && var key := HopKey(e.channel, b.k.Port(), e.sequence);
    && key in y.state.store.inFlight && OriginId(y.state.store.inFlight[key]) == (b.Channel(), s)
  }

  lemma TimeoutUnreadable(c: AckCodec, a: Side, b: Side, x: Node, y: Node, y': Node, e: Event, s: nat)
    requires CodecOk(c) && Mirrors(a, b) && PairInv(b, a, y, x) && Acts(c, b, a, y, y', x, e) && TimesOutHop(b, y, e, s)
    ensures Unreadable(c, a, b, x, y', s)
  {
    hide Inv, HopsTracked, SequencesFresh, KeysFresh, AckedOnce, Settle, DoSettle, DecodeAck, ConvertAck, CodecOk;
    ForwardParts(b.k, y);
    ChannelNamed(b.k, y, e.channel);
    var v := b.info.version;
    var hop := y.state.store.inFlight[HopKey(e.channel, b.k.Port(), e.sequence)];
    SettleTellsOrigin(c, b.k, y, y.state.store.channels[e.channel], (e.channel, e.sequence), AckErr(TIMEOUT_MSG));
    DeferredTimeoutReadableIff(c, v, v);
  }

  /** When a hop times out over a channel of the same version, the packet it was for is still pending at its
      sender in every later state of the joint run: the answer can never be read, and the packet cannot
      expire. */
  lemma TimedOutHopPendsForever(net: Net, trace: seq<(Node, Node)>, events: seq<(bool, Event)>, home: bool, i: nat,
                                j: nat, s: nat)
    requires IsJointRun(net, trace, events) && i < j < |trace| && events[i].0 == !home
    requires TimesOutHop(net.Of(!home), At(trace[i], !home), events[i].1, s)
    ensures UnreadableAt(net, home, trace[j], s)
  {
    hide Init, PairInv, Acts, Mirrors, CodecOk, Unreadable, TimesOutHop;
    AlwaysJoined(net, trace, events, i);
    assert JointStep(net, trace[i], trace[i + 1], events[i]);
    TimeoutHere(net, home, trace[i], trace[i + 1], events[i].1, s);
    UnreadableForever(net, trace, events, home, i + 1, j, s);
  }

  lemma TimeoutHere(net: Net, home: bool, p: (Node, Node), q: (Node, Node), e: Event, s: nat)
    requires Linked(net) && JointStep(net, p, q, (!home, e)) && PairInv(net.left, net.right, p.0, p.1)
    requires TimesOutHop(net.Of(!home), At(p, !home), e, s)
    ensures UnreadableAt(net, home, q, s)
  {
    hide Joined, Acts, CodecOk, Unreadable, TimesOutHop, Mirrors;
    TimeoutUnreadable(net.codec, net.Of(home), net.Of(!home), At(p, home), At(p, !home), At(q, !home), e, s);
  }
}
