/** Packet forwarding: over every run each packet received is acknowledged exactly once, either when
    it arrives or when its hop is settled. */
module Forwarding {
  import opened Wrappers
  import opened Denoms
  import opened Fees
  import opened RelaySpec
  import opened Host
  import opened Solvency
  import opened Reachable

  function OriginId(f: InFlight): (string, nat) { (f.origin.dst.channel, f.origin.sequence) }

  function PacketId(key: HopKey): (string, nat) { (key.channel, key.sequence) }

  type Hops = map<HopKey, InFlight>

  type Pending = map<(string, nat), PacketData>

  type Acks = map<(string, nat), seq<string>>

  ghost predicate IsHop(k: Contract, data: PacketData) { data.sender == k.addr }

  /** The entries under the contract's own port belong to unsettled hops, and every unsettled hop has an
      entry, under the port that its forward named. */
  ghost predicate HopsTracked(k: Contract, hops: Hops, pending: Pending) {
    && (forall key :: key in hops && key.port == k.Port() ==>
          PacketId(key) in pending && IsHop(k, pending[PacketId(key)]))
    && (forall id :: id in pending && IsHop(k, pending[id]) ==> exists port :: HopKey(id.0, port, id.1) in hops)
  }

  /** No entry has a sequence that is still to be assigned. */
  ghost predicate KeysFresh(hops: Hops, nextSeq: map<string, nat>) {
    forall key :: key in hops ==> key.channel in nextSeq && key.sequence < nextSeq[key.channel]
  }

  ghost predicate HopOf(hops: Hops, key: HopKey, id: (string, nat)) {
    key in hops && OriginId(hops[key]) == id
  }

  /** A received packet has one acknowledgement, or none and then exactly one hop in flight. */
  ghost predicate AckedOnce(hops: Hops, acks: Acks) {
    && (forall key :: key in hops ==> OriginId(hops[key]) in acks && acks[OriginId(hops[key])] == [])
    && (forall k1, k2, id :: HopOf(hops, k1, id) && HopOf(hops, k2, id) ==> k1 == k2)
    && (forall id :: id in acks ==> |acks[id]| <= 1)
    && (forall id :: id in acks && acks[id] == [] ==> exists key :: HopOf(hops, key, id))
  }

  ghost predicate SequencesFresh(pending: Pending, nextSeq: map<string, nat>) {
    forall id :: id in pending ==> id.0 in nextSeq && id.1 < nextSeq[id.0]
  }

  /** The version recorded with a hop is that of the channel its origin arrived on. */
  ghost predicate VersionsRecorded(channels: map<string, ChannelInfo>, hops: Hops) {
    forall key :: key in hops ==>
      && hops[key].origin.dst.channel in channels
      && channels[hops[key].origin.dst.channel].version == hops[key].originVersion
  }

  ghost predicate ForwardInv(k: Contract, n: Node) {
    && HopsTracked(k, n.state.store.inFlight, n.pending)
    && AckedOnce(n.state.store.inFlight, n.acks)
    && SequencesFresh(n.pending, n.nextSeq)
    && KeysFresh(n.state.store.inFlight, n.nextSeq)
    && VersionsRecorded(n.state.store.channels, n.state.store.inFlight)
  }

  /** A forward names the contract's own port, under which its hops are sent. */
  ghost predicate OwnPort(k: Contract, e: Event) {
    e.Recv? && e.packet.data.Some? && e.packet.data.value.memo.Forward? ==>
      e.packet.data.value.memo.forward.port == k.Port()
  }

  /** On a UCS01 channel an acknowledgement is one byte: 1 for a success, 0 for a failure. */
  lemma Ucs01AckIff(c: AckCodec, bytes: string)
    ensures DecodeAck(c, Ucs01, bytes).Some? <==> bytes == [1 as char] || bytes == [0 as char]
    ensures DecodeAck(c, Ucs01, bytes).Some? ==> (DecodeAck(c, Ucs01, bytes).value.AckOk? <==> bytes == [1 as char])
  {
    assert UCS01_SUCCESS[0] == 1 as char && UCS01_FAILURE[0] == 0 as char;
  }

  // ---------------------------------------------------------------- the elementary changes

  lemma TrackAdd(k: Contract, hops: Hops, pending: Pending, id: (string, nat), port: string, hop: InFlight,
                 data: PacketData)
    requires HopsTracked(k, hops, pending) && id !in pending
    ensures HopsTracked(k, if IsHop(k, data) then hops[HopKey(id.0, port, id.1) := hop] else hops, pending[id := data])
  {
    var hops' := if IsHop(k, data) then hops[HopKey(id.0, port, id.1) := hop] else hops;
    var pending' := pending[id := data];
    forall x | x in pending' && IsHop(k, pending'[x]) ensures exists p :: HopKey(x.0, p, x.1) in hops' {
      if x == id {
        assert HopKey(x.0, port, x.1) in hops';
      } else {
        var p :| HopKey(x.0, p, x.1) in hops;
        assert HopKey(x.0, p, x.1) in hops';
      }
    }
  }

  lemma TrackRemove(k: Contract, hops: Hops, pending: Pending, id: (string, nat))
    requires HopsTracked(k, hops, pending) && id in pending
    ensures HopsTracked(k, hops - {HopKey(id.0, k.Port(), id.1)}, pending - {id})
  {
    var hops', pending' := hops - {HopKey(id.0, k.Port(), id.1)}, pending - {id};
    forall x | x in pending' && IsHop(k, pending'[x]) ensures exists p :: HopKey(x.0, p, x.1) in hops' {
      var p :| HopKey(x.0, p, x.1) in hops;
      assert HopKey(x.0, p, x.1) in hops';
    }
  }

  lemma AckNow(hops: Hops, acks: Acks, id: (string, nat), bytes: string)
    requires AckedOnce(hops, acks) && id !in acks
    ensures AckedOnce(hops, acks[id := [bytes]])
  {
  }

  lemma AckLater(hops: Hops, acks: Acks, key: HopKey, hop: InFlight)
    requires AckedOnce(hops, acks) && key !in hops && OriginId(hop) !in acks
    ensures AckedOnce(hops[key := hop], acks[OriginId(hop) := []])
  {
    var hops', acks' := hops[key := hop], acks[OriginId(hop) := []];
    assert forall key', id ::
        HopOf(hops', key', id)
        <==> (if key' == key then id == OriginId(hop) else HopOf(hops, key', id));
    assert forall key' :: key' in hops ==> OriginId(hops[key']) != OriginId(hop);
    assert HopOf(hops', key, OriginId(hop));
    forall id | id in acks' && acks'[id] == []
      ensures exists key' :: HopOf(hops', key', id)
    {
      if id != OriginId(hop) {
        var key' :| HopOf(hops, key', id);
        assert HopOf(hops', key', id);
      }
    }
  }

  lemma AckDeferred(hops: Hops, acks: Acks, key: HopKey, bytes: string)
    requires AckedOnce(hops, acks) && key in hops
    ensures AckedOnce(hops - {key}, acks[OriginId(hops[key]) := [bytes]])
  {
    var origin := OriginId(hops[key]);
    var hops', acks' := hops - {key}, acks[origin := [bytes]];
    assert HopOf(hops, key, origin);
    assert forall key', id :: HopOf(hops', key', id) <==> key' != key && HopOf(hops, key', id);
    assert forall key' :: key' in hops' ==> HopOf(hops, key', OriginId(hops[key']));
    forall id | id in acks' && acks'[id] == []
      ensures exists key' :: HopOf(hops', key', id)
    {
      var key' :| HopOf(hops, key', id);
      assert HopOf(hops', key', id);
    }
  }

  lemma FreshPut(pending: Pending, nextSeq: map<string, nat>, channel: string, data: PacketData)
    requires SequencesFresh(pending, nextSeq)
    ensures var seqn := if channel in nextSeq then nextSeq[channel] else 1;
            (channel, seqn) !in pending
              && SequencesFresh(pending[(channel, seqn) := data], nextSeq[channel := seqn + 1])
  {
  }

  lemma FreshRemove(pending: Pending, nextSeq: map<string, nat>, id: (string, nat))
    requires SequencesFresh(pending, nextSeq)
    ensures SequencesFresh(pending - {id}, nextSeq)
  {
  }

  lemma KeysPut(hops: Hops, nextSeq: map<string, nat>, channel: string, port: string, hop: InFlight)
    requires KeysFresh(hops, nextSeq)
    ensures var seqn := if channel in nextSeq then nextSeq[channel] else 1;
            && HopKey(channel, port, seqn) !in hops
            && KeysFresh(hops, nextSeq[channel := seqn + 1])
            && KeysFresh(hops[HopKey(channel, port, seqn) := hop], nextSeq[channel := seqn + 1])
  {
  }

  lemma KeysRemove(hops: Hops, nextSeq: map<string, nat>, key: HopKey)
    requires KeysFresh(hops, nextSeq)
    ensures KeysFresh(hops - {key}, nextSeq)
  {
  }

  lemma VersionsAdd(channels: map<string, ChannelInfo>, hops: Hops, key: HopKey, hop: InFlight)
    requires VersionsRecorded(channels, hops)
    requires hop.origin.dst.channel in channels && channels[hop.origin.dst.channel].version == hop.originVersion
    ensures VersionsRecorded(channels, hops[key := hop])
  {
  }

  lemma VersionsRemove(channels: map<string, ChannelInfo>, hops: Hops, key: HopKey)
    requires VersionsRecorded(channels, hops)
    ensures VersionsRecorded(channels, hops - {key})
  {
  }

  // ---------------------------------------------------------------- the events

  lemma {:induction false} ExecAllFrame(k: Contract, s: State, msgs: seq<Msg>)
    requires ExecAll(k, s, msgs).Some?
    ensures var s' := ExecAll(k, s, msgs).value;
            s'.store == s.store.(denomToHash := s'.store.denomToHash, hashToDenom := s'.store.hashToDenom)
  {
    ExecAllBalance(k, s, msgs, "");
  }

  lemma ExecuteTransferFrame(k: Contract, s: Store, sender: string, funds: seq<Coin>, msg: TransferMsg)
    ensures var (s', r) := ExecuteTransfer(k, s, sender, funds, msg);
            s' == s.(outstanding := s'.outstanding) && (r.Ok? ==> r.value.packet.sender == sender)
  {
  }

  /** A value for the hop that a plain send does not record. */
  ghost function SomeHop(): InFlight {
    InFlight(IbcPacket(Endpoint("", ""), Endpoint("", ""), 0, None), Ics20, "", "")
  }

  lemma TransferKeeps(k: Contract, n: Node, sender: string, funds: seq<Coin>, msg: TransferMsg)
    requires ForwardInv(k, n) && sender != k.addr && DoTransfer(k, n, sender, funds, msg).Some?
    ensures ForwardInv(k, DoTransfer(k, n, sender, funds, msg).value)
  {
    var n' := DoTransfer(k, n, sender, funds, msg).value;
    var bank := MoveCoins(n.state.bank, sender, k.addr, funds).value;
    var (store, r) := ExecuteTransfer(k, n.state.store, sender, funds, msg);
    ExecuteTransferFrame(k, n.state.store, sender, funds, msg);
    ExecAllFrame(k, State(store, bank), r.value.msgs);
    hide HopsTracked, AckedOnce, SequencesFresh, KeysFresh, VersionsRecorded;
    var id := (r.value.channel, NextSeq(n, r.value.channel));
    FreshPut(n.pending, n.nextSeq, r.value.channel, r.value.packet);
    KeysPut(n.state.store.inFlight, n.nextSeq, r.value.channel, "", SomeHop());
    TrackAdd(k, n.state.store.inFlight, n.pending, id, "", SomeHop(), r.value.packet);
  }

  lemma DeliverKeeps(c: AckCodec, k: Contract, n: Node, id: (string, nat), v: Version, batch: seq<Msg>, hostOk: bool)
    requires ForwardInv(k, n) && id !in n.acks
    ensures ForwardInv(k, DoDeliver(c, k, n, id, v, batch, hostOk))
    ensures |DoDeliver(c, k, n, id, v, batch, hostOk).acks[id]| == 1
  {
    var n' := DoDeliver(c, k, n, id, v, batch, hostOk);
    if ExecAll(k, n.state, batch).Some? {
      ExecAllFrame(k, n.state, batch);
    }
    AckNow(n.state.store.inFlight, n.acks, id, n'.acks[id][0]);
  }

  lemma RefuseKeeps(c: AckCodec, k: Contract, n: Node, id: (string, nat), v: Version)
    requires ForwardInv(k, n) && id !in n.acks
    ensures ForwardInv(k, WriteAck(n, id, FailureBytes(c, v, "refused")))
  {
  }

  lemma ForwardKeeps(c: AckCodec, k: Contract, n: Node, id: (string, nat), v: Version, r: Response, hostOk: bool)
    requires ForwardInv(k, n) && id !in n.acks && r.Forwarded?
    requires OriginId(r.payload) == id && IsHop(k, r.hop.packet)
    requires r.hop.channel == r.payload.forwardChannel
    requires id.0 in n.state.store.channels && n.state.store.channels[id.0].version == r.payload.originVersion == v
    requires DoForward(c, k, n, id, v, r, hostOk).Some?
    ensures ForwardInv(k, DoForward(c, k, n, id, v, r, hostOk).value)
  {
    hide HopsTracked, AckedOnce, SequencesFresh, KeysFresh, VersionsRecorded;
    var state := ExecAll(k, n.state, r.burns).value;
    ExecAllFrame(k, n.state, r.burns);
    if hostOk {
      var seqn := NextSeq(n, r.hop.channel);
      var port := r.payload.forwardPort;
      var key := HopKey(r.hop.channel, port, seqn);
      ExecAllFrame(k, state.(store := SaveInFlight(state.store, r.payload, seqn)), r.batch);
      FreshPut(n.pending, n.nextSeq, r.hop.channel, r.hop.packet);
      KeysPut(n.state.store.inFlight, n.nextSeq, r.hop.channel, port, r.payload);
      TrackAdd(k, n.state.store.inFlight, n.pending, (r.hop.channel, seqn), port, r.payload, r.hop.packet);
      AckLater(n.state.store.inFlight, n.acks, key, r.payload);
      VersionsAdd(n.state.store.channels, n.state.store.inFlight, key, r.payload);
    } else {
      ExecAllFrame(k, state, r.batch);
      AckNow(n.state.store.inFlight, n.acks, id, FailureBytes(c, v, "hop"));
    }
  }

  lemma RecvKeeps(c: AckCodec, k: Contract, n: Node, ch: ChannelInfo, packet: IbcPacket, relayer: string, hostOk: bool)
    requires Inv(k, n.state) && ForwardInv(k, n)
    requires ch.endpoint == packet.dst && packet.dst.channel in n.state.store.channels
    requires n.state.store.channels[packet.dst.channel] == ch
    requires (packet.dst.channel, packet.sequence) !in n.acks
    requires packet.data.Some? ==> InPlay(k, ch, packet.data.value.tokens)
    requires DoRecv(c, k, n, ch, packet, relayer, hostOk).Some?
    ensures ForwardInv(k, DoRecv(c, k, n, ch, packet, relayer, hostOk).value)
  {
    hide ForwardPacket, ReceiveTokens, DoForward, DoDeliver, ForwardInv;
    var id := (packet.dst.channel, packet.sequence);
    var (store, r) := Receive(k, n.state.store, ch, relayer, packet);
    var n1 := n.(state := n.state.(store := store));
    assert store == n.state.store.(outstanding := store.outstanding) by {
      if packet.data.Some? {
        var data := packet.data.value;
        match data.memo
        case Forward(fwd) => HopFlow(k, n.state, ch, relayer, packet, data, fwd, "");
        case NoMemo => ReceiveReleases(k, n.state.store, ch, data.receiver, relayer, true, data.tokens, "");
      }
    }
    OutstandingIrrelevant(k, n, n1);
    match r.value
    case Refused => RefuseKeeps(c, k, n1, id, ch.version);
    case Delivered(batch) => DeliverKeeps(c, k, n1, id, ch.version, batch, hostOk);
    case Forwarded(_, _, _, _) =>
      var data := packet.data.value;
      HopFlow(k, n.state, ch, relayer, packet, data, data.memo.forward, "");
      ForwardKeeps(c, k, n1, id, ch.version, r.value, hostOk);
  }

  lemma OutstandingIrrelevant(k: Contract, n: Node, n': Node)
    requires ForwardInv(k, n)
    requires n' == n.(state := n'.state) && n'.state.store == n.state.store.(outstanding := n'.state.store.outstanding)
    ensures ForwardInv(k, n')
  {
  }

  lemma BankIrrelevant(k: Contract, n: Node, bank: Bank)
    requires ForwardInv(k, n)
    ensures ForwardInv(k, n.(state := n.state.(bank := bank)))
  {
  }

  lemma ConnectKeeps(k: Contract, n: Node, channel: string, info: ChannelInfo)
    requires ForwardInv(k, n) && channel !in n.state.store.channels
    ensures ForwardInv(k, n.(state :=
            n.state.(store := n.state.store.(channels := n.state.store.channels[channel := info]))))
  {
  }

  lemma SettleKeeps(c: AckCodec, k: Contract, n: Node, ch: ChannelInfo, id: (string, nat), ack: GenericAck)
    requires ForwardInv(k, n) && id in n.pending && ch.endpoint == Endpoint(k.Port(), id.0)
    ensures var (store, r) := Settle(c, k, n.state.store, ch, id.1, n.pending[id], ack);
            var n' := DoSettle(k, n, id, store, r);
            n'.Some? ==> ForwardInv(k, n'.value)
  {
    hide ForTokens, ConvertAck, HopsTracked, AckedOnce, SequencesFresh, KeysFresh, VersionsRecorded;
    var (store, r) := Settle(c, k, n.state.store, ch, id.1, n.pending[id], ack);
    var n' := DoSettle(k, n, id, store, r);
    var hops := n.state.store.inFlight;
    var key := KeyOf(ch, id.1);
    if n'.Some? {
      ExecAllFrame(k, State(store, n.state.bank), r.value.msgs);
      TrackRemove(k, hops, n.pending, id);
      FreshRemove(n.pending, n.nextSeq, id);
      KeysRemove(hops, n.nextSeq, key);
      if key in hops {
        OriginUnacked(hops, n.acks, key);
        AckDeferred(hops, n.acks, key, r.value.deferred.value.1);
        VersionsRemove(n.state.store.channels, hops, key);
        assert [] + [r.value.deferred.value.1] == [r.value.deferred.value.1];
      } else {
        assert hops - {key} == hops;
      }
    }
  }

  lemma OriginUnacked(hops: Hops, acks: Acks, key: HopKey)
    requires AckedOnce(hops, acks) && key in hops
    ensures OriginId(hops[key]) in acks && acks[OriginId(hops[key])] == []
  {
  }

  lemma StepKeepsForward(c: AckCodec, k: Contract, n: Node, e: Event)
    requires Inv(k, n.state) && ForwardInv(k, n)
    requires Allowed(k, n, e) && Step(c, k, n, e).Some?
    ensures ForwardInv(k, Step(c, k, n, e).value)
  {
    hide DoTransfer, DoRecv, DoSettle, Settle, ForwardInv, ExternalOk, CleanCoins, Solvent, Index, KeysClean;
    match e
    case External(bank) => BankIrrelevant(k, n, bank);
    case Connect(channel, info) => ConnectKeeps(k, n, channel, info);
    case Transfer(sender, funds, msg) => TransferKeeps(k, n, sender, funds, msg);
    case Recv(channel, packet, relayer, hostOk) =>
      RecvKeeps(c, k, n, n.state.store.channels[channel], packet, relayer, hostOk);
    case Acked(channel, sequence, bytes) =>
      var ch := n.state.store.channels[channel];
      var ack := DecodeAck(c, ch.version, bytes);
      if ack.Some? {
        SettleKeeps(c, k, n, ch, (channel, sequence), ack.value);
      } else {
        RejectedAck(c, k, n, e);
      }
    case Expired(channel, sequence) =>
      SettleKeeps(c, k, n, n.state.store.channels[channel], (channel, sequence), AckErr(TIMEOUT_MSG));
  }

  /** Over every run no received packet is acknowledged twice or forgotten: it has one acknowledgement, or
      none and then exactly one hop in flight. */
  lemma {:induction false} ForwardingExactlyOnce(c: AckCodec, k: Contract, trace: seq<Node>, events: seq<Event>, i: nat)
    requires k.Injective() && IsRun(c, k, trace, events) && i < |trace|
    ensures ForwardInv(k, trace[i])
  {
    if i != 0 {
      var j := i - 1;
      ForwardingExactlyOnce(c, k, trace, events, j);
      ReachableInv(c, k, trace, events, j);
      assert Allowed(k, trace[j], events[j]) && Step(c, k, trace[j], events[j]) == Some(trace[j + 1]);
      StepKeepsForward(c, k, trace[j], events[j]);
    }
  }

  // ---------------------------------------------------------------- the port that a forward names

  /** What a received packet does to the hops and the acknowledgements: it is acknowledged at once, or a
      hop is recorded under the port that it names. */
  lemma RecvEffect(c: AckCodec, k: Contract, n: Node, ch: ChannelInfo, packet: IbcPacket, relayer: string, hostOk: bool)
    requires Inv(k, n.state) && ch.endpoint == packet.dst
    requires (packet.dst.channel, packet.sequence) !in n.acks
    requires packet.data.Some? ==> InPlay(k, ch, packet.data.value.tokens)
    requires DoRecv(c, k, n, ch, packet, relayer, hostOk).Some?
    ensures var n' := DoRecv(c, k, n, ch, packet, relayer, hostOk).value;
            var id := (packet.dst.channel, packet.sequence);
            && id in n'.acks && n'.acks - {id} == n.acks
            && (n'.acks[id] != [] ==> n'.state.store.inFlight == n.state.store.inFlight)
            && (n'.acks[id] == [] ==>
                  && packet.data.Some? && packet.data.value.memo.Forward?
                  && var fwd := packet.data.value.memo.forward;
                     var hop := InFlight(packet, ch.version, fwd.channel, fwd.port);
                     n'.state.store.inFlight
                     == n.state.store.inFlight[HopKey(fwd.channel, fwd.port, NextSeq(n, fwd.channel)) := hop])
  {
    hide ForwardPacket, ReceiveTokens, DoForward, DoDeliver;
    var (store, r) := Receive(k, n.state.store, ch, relayer, packet);
    var id := (packet.dst.channel, packet.sequence);
    if packet.data.Some? {
      var data := packet.data.value;
      match data.memo
      case Forward(fwd) => HopFlow(k, n.state, ch, relayer, packet, data, fwd, "");
      case NoMemo => ReceiveReleases(k, n.state.store, ch, data.receiver, relayer, true, data.tokens, "");
    }
    var n1 := n.(state := n.state.(store := store));
    if r.value.Delivered? {
      DeliverEffect(c, k, n1, id, ch.version, r.value.batch, hostOk);
    } else if r.value.Forwarded? {
      ForwardEffect(c, k, n1, id, ch.version, r.value, hostOk);
    }
  }

  lemma DeliverEffect(c: AckCodec, k: Contract, n: Node, id: (string, nat), v: Version, batch: seq<Msg>, hostOk: bool)
    requires id !in n.acks
    ensures var n' := DoDeliver(c, k, n, id, v, batch, hostOk);
            && id in n'.acks && n'.acks[id] != [] && n'.acks - {id} == n.acks
            && n'.state.store.inFlight == n.state.store.inFlight
  {
    hide ExecAll;
    if ExecAll(k, n.state, batch).Some? { ExecAllFrame(k, n.state, batch); }
  }

  lemma ForwardEffect(c: AckCodec, k: Contract, n: Node, id: (string, nat), v: Version, r: Response, hostOk: bool)
    requires id !in n.acks && r.Forwarded? && DoForward(c, k, n, id, v, r, hostOk).Some?
    ensures var n' := DoForward(c, k, n, id, v, r, hostOk).value;
            && id in n'.acks && n'.acks - {id} == n.acks
            && (n'.acks[id] == [] <==> hostOk)
            && n'.state.store.inFlight
               == (if hostOk then
                     n.state.store.inFlight[HopKey(r.payload.forwardChannel, r.payload.forwardPort,
                       NextSeq(n, r.hop.channel)) := r.payload]
                   else n.state.store.inFlight)
  {
    hide ExecAll;
    ExecAllFrame(k, n.state, r.burns);
    var state := ExecAll(k, n.state, r.burns).value;
    var state' := if hostOk then state.(store := SaveInFlight(state.store, r.payload, NextSeq(n, r.hop.channel)))
      else state;
    ExecAllFrame(k, state', r.batch);
  }

  /** What settling a packet does to them: an entry under the contract's own port is removed and its
      origin is answered, or nothing changes. */
  lemma SettleEffect(c: AckCodec, k: Contract, n: Node, ch: ChannelInfo, id: (string, nat), ack: GenericAck)
    requires id in n.pending && ch.endpoint == Endpoint(k.Port(), id.0)
    ensures var (store, r) := Settle(c, k, n.state.store, ch, id.1, n.pending[id], ack);
            var n' := DoSettle(k, n, id, store, r);
            var hops, key := n.state.store.inFlight, HopKey(id.0, k.Port(), id.1);
            n'.Some? ==>
              && n'.value.state.store.inFlight == hops - {key}
              && n'.value.pending == n.pending - {id}
              && (key !in hops ==> n'.value.acks == n.acks)
              && (key in hops ==>
                    && OriginId(hops[key]) in n'.value.acks
                    && n'.value.acks - {OriginId(hops[key])} == n.acks - {OriginId(hops[key])})
  {
    hide ForTokens, ConvertAck, ExecAll;
    var (store, r) := Settle(c, k, n.state.store, ch, id.1, n.pending[id], ack);
    var n' := DoSettle(k, n, id, store, r);
    if n'.Some? {
      ExecAllFrame(k, State(store, n.state.bank), r.value.msgs);
      if KeyOf(ch, id.1) !in n.state.store.inFlight {
        assert n.state.store.inFlight - {KeyOf(ch, id.1)} == n.state.store.inFlight;
      }
    }
  }

  /** All hops are recorded under the contract's own port. */
  ghost predicate AllOwn(k: Contract, hops: Hops) { forall key :: key in hops ==> key.port == k.Port() }

  lemma StepKeepsOwn(c: AckCodec, k: Contract, n: Node, e: Event)
    requires Inv(k, n.state) && AllOwn(k, n.state.store.inFlight) && OwnPort(k, e)
    requires Allowed(k, n, e) && Step(c, k, n, e).Some?
    ensures AllOwn(k, Step(c, k, n, e).value.state.store.inFlight)
  {
    hide DoTransfer, DoRecv, DoSettle, Settle, ExternalOk, CleanCoins, Solvent, Index, KeysClean;
    match e
    case External(bank) =>
    case Connect(channel, info) =>
    case Transfer(sender, funds, msg) => TransferFrame(k, n, sender, funds, msg);
    case Recv(channel, packet, relayer, hostOk) =>
      RecvEffect(c, k, n, n.state.store.channels[channel], packet, relayer, hostOk);
    case Acked(channel, sequence, bytes) =>
      var ch := n.state.store.channels[channel];
      var ack := DecodeAck(c, ch.version, bytes);
      if ack.Some? {
        SettleEffect(c, k, n, ch, (channel, sequence), ack.value);
      } else {
        RejectedAck(c, k, n, e);
      }
    case Expired(channel, sequence) =>
      SettleEffect(c, k, n, n.state.store.channels[channel], (channel, sequence), AckErr(TIMEOUT_MSG));
  }

  lemma TransferFrame(k: Contract, n: Node, sender: string, funds: seq<Coin>, msg: TransferMsg)
    requires DoTransfer(k, n, sender, funds, msg).Some?
    ensures var n' := DoTransfer(k, n, sender, funds, msg).value;
            n'.state.store.inFlight == n.state.store.inFlight && n'.acks == n.acks
  {
    var bank := MoveCoins(n.state.bank, sender, k.addr, funds).value;
    var (store, r) := ExecuteTransfer(k, n.state.store, sender, funds, msg);
    ExecuteTransferFrame(k, n.state.store, sender, funds, msg);
    ExecAllFrame(k, State(store, bank), r.value.msgs);
  }

  /** Over a run whose forwards all name the contract's own port, the in-flight map holds exactly the keys
      of the unsettled hops. */
  lemma {:induction false} OwnPortTracksExactly(c: AckCodec, k: Contract, trace: seq<Node>, events: seq<Event>, i: nat)
    requires k.Injective() && IsRun(c, k, trace, events) && i < |trace|
    requires forall j :: 0 <= j < |events| ==> OwnPort(k, events[j])
    ensures AllOwn(k, trace[i].state.store.inFlight)
    ensures forall key: HopKey :: key in trace[i].state.store.inFlight <==>
              && key.port == k.Port() && PacketId(key) in trace[i].pending
              && IsHop(k, trace[i].pending[PacketId(key)])
  {
    if i != 0 {
      var j := i - 1;
      OwnPortTracksExactly(c, k, trace, events, j);
      ReachableInv(c, k, trace, events, j);
      assert Allowed(k, trace[j], events[j]) && Step(c, k, trace[j], events[j]) == Some(trace[j + 1]);
      StepKeepsOwn(c, k, trace[j], events[j]);
    }
    ForwardingExactlyOnce(c, k, trace, events, i);
    ExactlyTracked(k, trace[i].state.store.inFlight, trace[i].pending);
  }

  lemma ExactlyTracked(k: Contract, hops: Hops, pending: Pending)
    requires HopsTracked(k, hops, pending) && AllOwn(k, hops)
    ensures forall key: HopKey :: key in hops <==>
              key.port == k.Port() && PacketId(key) in pending && IsHop(k, pending[PacketId(key)])
  {
    forall key: HopKey | key.port == k.Port() && PacketId(key) in pending && IsHop(k, pending[PacketId(key)])
      ensures key in hops
    {
      var port :| HopKey(key.channel, port, key.sequence) in hops;
      assert HopKey(key.channel, port, key.sequence).port == k.Port();
    }
  }

  /** The entry saved for a hop is the one its acknowledgement looks up exactly when the forward named
      the port of the channel it was sent over. */
  lemma HopIsFoundIff(s: Store, ch: ChannelInfo, hop: InFlight, sequence: nat)
    requires hop.forwardChannel == ch.endpoint.channel && KeyOf(ch, sequence) !in s.inFlight
    ensures KeyOf(ch, sequence) in SaveInFlight(s, hop, sequence).inFlight <==> hop.forwardPort == ch.endpoint.port
  {
  }

  /** A received packet that waits for a hop recorded under another port. */
  ghost predicate Abandoned(k: Contract, n: Node, id: (string, nat)) {
    && id in n.acks && n.acks[id] == []
    && forall key :: HopOf(n.state.store.inFlight, key, id) ==> key.port != k.Port()
  }

  lemma StepKeepsAbandoned(c: AckCodec, k: Contract, n: Node, e: Event, id: (string, nat))
    requires Inv(k, n.state) && Abandoned(k, n, id)
    requires Allowed(k, n, e) && Step(c, k, n, e).Some?
    ensures Abandoned(k, Step(c, k, n, e).value, id)
  {
    hide DoTransfer, DoRecv, DoSettle, Settle, ExternalOk, CleanCoins, Solvent, Index, KeysClean;
    match e
    case External(bank) =>
    case Connect(channel, info) =>
    case Transfer(sender, funds, msg) => TransferFrame(k, n, sender, funds, msg);
    case Recv(channel, packet, relayer, hostOk) =>
      RecvAbandons(c, k, n, e, id);
    case Acked(channel, sequence, bytes) =>
      var ch := n.state.store.channels[channel];
      var ack := DecodeAck(c, ch.version, bytes);
      if ack.Some? {
        SettleAbandons(c, k, n, ch, (channel, sequence), ack.value, id);
      } else {
        RejectedAck(c, k, n, e);
      }
    case Expired(channel, sequence) =>
      SettleAbandons(c, k, n, n.state.store.channels[channel], (channel, sequence), AckErr(TIMEOUT_MSG), id);
  }

  lemma RecvAbandons(c: AckCodec, k: Contract, n: Node, e: Event, id: (string, nat))
    requires Inv(k, n.state) && Abandoned(k, n, id) && e.Recv? && Allowed(k, n, e) && Step(c, k, n, e).Some?
    ensures Abandoned(k, Step(c, k, n, e).value, id)
  {
    hide DoRecv, Solvent, Index, KeysClean, InPlay;
    var n' := Step(c, k, n, e).value;
    var other := (e.packet.dst.channel, e.packet.sequence);
    RecvEffect(c, k, n, n.state.store.channels[e.channel], e.packet, e.relayer, e.hostOk);
    assert n.acks[id] == n'.acks[id] by { assert id in n'.acks - {other}; }
    forall key | HopOf(n'.state.store.inFlight, key, id) ensures key.port != k.Port() {
      assert HopOf(n.state.store.inFlight, key, id);
    }
  }

  lemma SettleAbandons(c: AckCodec, k: Contract, n: Node, ch: ChannelInfo, settled: (string, nat), ack: GenericAck,
                       id: (string, nat))
    requires Abandoned(k, n, id) && settled in n.pending && ch.endpoint == Endpoint(k.Port(), settled.0)
    ensures var (store, r) := Settle(c, k, n.state.store, ch, settled.1, n.pending[settled], ack);
            var n' := DoSettle(k, n, settled, store, r);
            n'.Some? ==> Abandoned(k, n'.value, id)
  {
    var (store, r) := Settle(c, k, n.state.store, ch, settled.1, n.pending[settled], ack);
    var n' := DoSettle(k, n, settled, store, r);
    SettleEffect(c, k, n, ch, settled, ack);
    hide Settle, DoSettle;
    var hops, key := n.state.store.inFlight, HopKey(settled.0, k.Port(), settled.1);
    if n'.Some? {
      if key in hops {
        assert HopOf(hops, key, OriginId(hops[key]));
        assert id in n.acks - {OriginId(hops[key])};
      }
      forall x | HopOf(n'.value.state.store.inFlight, x, id) ensures x.port != k.Port() {
        assert HopOf(hops, x, id);
      }
    }
  }

  /** A packet whose forward names another port and whose hop went out is never acknowledged: the entry is
      saved where no settlement looks for it. */
  lemma {:induction false} ForeignPortNeverAcked(c: AckCodec, k: Contract, trace: seq<Node>, events: seq<Event>,
                                                 i: nat, j: nat)
    requires k.Injective() && IsRun(c, k, trace, events) && i < j < |trace|
    requires events[i].Recv? && events[i].packet.data.Some? && events[i].packet.data.value.memo.Forward?
    requires events[i].packet.data.value.memo.forward.port != k.Port()
    requires var id := (events[i].channel, events[i].packet.sequence);
             id in trace[i + 1].acks && trace[i + 1].acks[id] == []
    ensures Abandoned(k, trace[j], (events[i].channel, events[i].packet.sequence))
    decreases j
  {
    var id := (events[i].channel, events[i].packet.sequence);
    var p := j - 1;
    ReachableInv(c, k, trace, events, p);
    assert Allowed(k, trace[p], events[p]) && Step(c, k, trace[p], events[p]) == Some(trace[p + 1]);
    if p == i {
      ForwardingExactlyOnce(c, k, trace, events, i);
      HopAbandoned(c, k, trace[i], events[i]);
    } else {
      ForeignPortNeverAcked(c, k, trace, events, i, p);
      StepKeepsAbandoned(c, k, trace[p], events[p], id);
    }
  }

  lemma HopAbandoned(c: AckCodec, k: Contract, n: Node, e: Event)
    requires Inv(k, n.state) && ForwardInv(k, n) && Allowed(k, n, e) && Step(c, k, n, e).Some?
    requires e.Recv? && e.packet.data.Some? && e.packet.data.value.memo.Forward?
    requires e.packet.data.value.memo.forward.port != k.Port()
    requires var n', id := Step(c, k, n, e).value, (e.channel, e.packet.sequence);
             id in n'.acks && n'.acks[id] == []
    ensures Abandoned(k, Step(c, k, n, e).value, (e.channel, e.packet.sequence))
  {
    hide DoRecv, Solvent, Index, KeysClean, InPlay, HopsTracked, SequencesFresh, KeysFresh, VersionsRecorded;
    var n', id := Step(c, k, n, e).value, (e.channel, e.packet.sequence);
    RecvEffect(c, k, n, n.state.store.channels[e.channel], e.packet, e.relayer, e.hostOk);
    forall key | HopOf(n'.state.store.inFlight, key, id) ensures key.port != k.Port() {
      if key in n.state.store.inFlight { assert OriginId(n.state.store.inFlight[key]) in n.acks; }
    }
  }

  // ---------------------------------------------------------------- what the origin is told

  /** Settling a hop writes the one acknowledgement of its origin, converted to the version of the
      channel the origin arrived on; settling anything else writes none. */
  lemma SettleTellsOrigin(c: AckCodec, k: Contract, n: Node, ch: ChannelInfo, id: (string, nat), ack: GenericAck)
    requires ForwardInv(k, n) && id in n.pending && ch.endpoint == Endpoint(k.Port(), id.0)
    ensures AllOwn(k, n.state.store.inFlight) ==>
            (KeyOf(ch, id.1) in n.state.store.inFlight <==> IsHop(k, n.pending[id]))
    ensures var (store, r) := Settle(c, k, n.state.store, ch, id.1, n.pending[id], ack);
            var n' := DoSettle(k, n, id, store, r);
            n'.Some? ==>
              && id !in n'.value.pending
              && (KeyOf(ch, id.1) !in n.state.store.inFlight ==> n'.value.acks == n.acks)
              && (KeyOf(ch, id.1) in n.state.store.inFlight ==>
                    var hop := n.state.store.inFlight[KeyOf(ch, id.1)];
                    n'.value.acks == n.acks[OriginId(hop) := [ConvertAck(c, ch.version, hop.originVersion, ack).bytes]])
  {
    hide ForTokens, ConvertAck, HopOf, SequencesFresh, VersionsRecorded;
    var (store, r) := Settle(c, k, n.state.store, ch, id.1, n.pending[id], ack);
    var n' := DoSettle(k, n, id, store, r);
    var key := KeyOf(ch, id.1);
    if AllOwn(k, n.state.store.inFlight) {
      ExactlyTracked(k, n.state.store.inFlight, n.pending);
    }
    assert PacketId(key) == id;
    if n'.Some? && key in n.state.store.inFlight {
      OriginUnacked(n.state.store.inFlight, n.acks, key);
      assert [] + [r.value.deferred.value.1] == [r.value.deferred.value.1];
    }
  }

  ghost predicate CodecOk(c: AckCodec) {
    && (forall a :: c.decode(c.encode(a)) == Some(a))
    && c.decode(TIMEOUT_MSG).None?
  }

  /** A hop that was acknowledged is reported to the origin with the same polarity, in bytes the
      origin's channel can decode, for every pair of versions. */
  lemma DeferredAckPolarity(c: AckCodec, hop: Version, origin: Version, bytes: string)
    requires CodecOk(c) && DecodeAck(c, hop, bytes).Some?
    ensures var ack := DecodeAck(c, hop, bytes).value;
            var told := DecodeAck(c, origin, ConvertAck(c, hop, origin, ack).bytes);
            told.Some? && (told.value.AckOk? <==> ack.AckOk?)
  {
  }

  /** A hop that timed out is readable as a failure by the origin exactly when the two channels speak
      different versions: with equal versions the raw text is passed on, which neither can decode. */
  lemma DeferredTimeoutReadableIff(c: AckCodec, hop: Version, origin: Version)
    requires CodecOk(c)
    ensures var told := DecodeAck(c, origin, ConvertAck(c, hop, origin, AckErr(TIMEOUT_MSG)).bytes);
            && (told.Some? <==> hop != origin)
            && (told.Some? ==> told.value.AckErr?)
  {
  }
}
