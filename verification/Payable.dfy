/** What can keep the chain from executing what the contract promised: over every run the registered vouchers
    are exactly the created ones, so a delivery fails only by an overflow or by a packet that repeats a
    voucher that is not registered yet, and a refund only by an overflow. */
module Payable {
  import opened Wrappers
  import opened Denoms
  import opened Fees
  import opened RelaySpec
  import opened Host
  import opened Solvency
  import opened Reachable
  import opened Forwarding
  import opened Vouchers
  import opened Exchange
  import opened Effects
  import opened Stranding

  // ---------------------------------------------------------------- registered and created

  /** Every registered voucher belongs to a channel of the contract and was created, and every voucher that was
      created is registered. */
  ghost predicate Vouched(k: Contract, s: State) {
    && (forall ep, x :: Registered(s.store, ep, x) ==>
          && k.FactoryDenom(x) in s.bank.created
          && ep.port == k.Port() && ep.channel in s.store.channels)
    && (forall d :: d in s.bank.created ==> StandsRegistered(k, s.store, d))
  }

  ghost predicate StandsRegistered(k: Contract, s: Store, d: string) {
    exists ep, x :: Registered(s, ep, x) && d == k.FactoryDenom(x)
  }

  ghost predicate Announces(msgs: seq<Msg>, ep: Endpoint, x: string) {
    exists i :: 0 <= i < |msgs| && msgs[i].RegisterDenom? && msgs[i].endpoint == ep && msgs[i].foreign == x
  }

  /** The messages register and create the same vouchers. */
  ghost predicate Matched(k: Contract, channels: map<string, ChannelInfo>, msgs: seq<Msg>) {
    && (forall ep, x :: Announces(msgs, ep, x) ==>
          CreateDenom(k.FactoryDenom(x)) in msgs && ep.port == k.Port() && ep.channel in channels)
    && (forall d :: CreateDenom(d) in msgs ==> exists ep, x :: Announces(msgs, ep, x) && d == k.FactoryDenom(x))
  }

  lemma {:induction false} ExecAllVouches(k: Contract, s: State, msgs: seq<Msg>)
    requires ExecAll(k, s, msgs).Some?
    ensures var s' := ExecAll(k, s, msgs).value;
            && s'.store.channels == s.store.channels
            && (forall d :: d in s'.bank.created <==> d in s.bank.created || CreateDenom(d) in msgs)
            && (forall ep, x :: Registered(s'.store, ep, x) <==> Registered(s.store, ep, x) || Announces(msgs, ep, x))
  {
    if msgs != [] {
      var n := |msgs| - 1;
      ExecAllVouches(k, s, msgs[..n]);
      assert msgs == msgs[..n] + [msgs[n]];
      ExecVouches(k, ExecAll(k, s, msgs[..n]).value, msgs[n]);
      forall ep, x ensures Announces(msgs, ep, x) <==> Announces(msgs[..n], ep, x) || Announces([msgs[n]], ep, x) {
        AnnouncesConcat(msgs[..n], [msgs[n]], ep, x);
      }
    }
  }

  lemma AnnouncesConcat(a: seq<Msg>, b: seq<Msg>, ep: Endpoint, x: string)
    ensures Announces(a + b, ep, x) <==> Announces(a, ep, x) || Announces(b, ep, x)
  {
    var all := a + b;
    if Announces(a, ep, x) {
      var i :| 0 <= i < |a| && a[i].RegisterDenom? && a[i].endpoint == ep && a[i].foreign == x;
      assert all[i] == a[i];
    }
    if Announces(b, ep, x) {
      var i :| 0 <= i < |b| && b[i].RegisterDenom? && b[i].endpoint == ep && b[i].foreign == x;
      assert all[|a| + i] == b[i];
    }
  }

  lemma ExecVouches(k: Contract, s: State, msg: Msg)
    requires Exec(k, s, msg).Some?
    ensures var s' := Exec(k, s, msg).value;
            && s'.store.channels == s.store.channels
            && (forall d :: d in s'.bank.created <==> d in s.bank.created || msg == CreateDenom(d))
            && (forall ep, x :: Registered(s'.store, ep, x) <==> Registered(s.store, ep, x) || Announces([msg], ep, x))
  {
    if msg.BankSend? {
      MoveBalance(s.bank, k.addr, msg.to, msg.denom, msg.amount, "", "");
    }
    hide Move;
    assert msg.RegisterDenom? ==> Announces([msg], msg.endpoint, msg.foreign) by {
      assert [msg][0] == msg;
    }
  }

  lemma ExecKeepsVouched(k: Contract, s: State, msgs: seq<Msg>)
    requires Vouched(k, s) && Matched(k, s.store.channels, msgs) && ExecAll(k, s, msgs).Some?
    ensures Vouched(k, ExecAll(k, s, msgs).value)
  {
    hide ExecAll, Contract.FactoryDenom, Announces;
    ExecAllVouches(k, s, msgs);
    var s' := ExecAll(k, s, msgs).value;
    forall d | d in s'.bank.created ensures StandsRegistered(k, s'.store, d) {
      if d in s.bank.created {
        var ep, x :| Registered(s.store, ep, x) && d == k.FactoryDenom(x);
        assert Registered(s'.store, ep, x);
      } else {
        var ep, x :| Announces(msgs, ep, x) && d == k.FactoryDenom(x);
        assert Registered(s'.store, ep, x);
      }
    }
  }

  lemma MatchedConcat(k: Contract, channels: map<string, ChannelInfo>, a: seq<Msg>, b: seq<Msg>)
    requires Matched(k, channels, a) && Matched(k, channels, b)
    ensures Matched(k, channels, a + b)
  {
    hide Contract.FactoryDenom, Announces;
    forall ep, x ensures Announces(a + b, ep, x) <==> Announces(a, ep, x) || Announces(b, ep, x) {
      AnnouncesConcat(a, b, ep, x);
    }
  }

  /** Messages that neither register nor create. */
  ghost predicate Plain(msgs: seq<Msg>) {
    forall i :: 0 <= i < |msgs| ==> !msgs[i].RegisterDenom? && !msgs[i].CreateDenom?
  }

  lemma PlainMatched(k: Contract, channels: map<string, ChannelInfo>, msgs: seq<Msg>)
    requires Plain(msgs)
    ensures Matched(k, channels, msgs)
  {
  }

  lemma {:induction false} ForTokensPlain(k: Contract, mode: Mode, e: Escrow, ep: Endpoint, tokens: seq<Token>)
    ensures var r := ForTokens(k, mode, e, ep, tokens).1;
            r.Ok? ==> Plain(r.value)
  {
    hide Origin, Contract.FactoryDenom, MakeForeignDenom;
    if tokens != [] {
      ForTokensPlain(k, mode, e, ep, tokens[..|tokens| - 1]);
    }
  }

  lemma {:induction false} ReceiveMatched(k: Contract, s: Store, ch: ChannelInfo, receiver: string, relayer: string,
                                          cutFees: bool, tokens: seq<Token>)
    requires ch.endpoint.port == k.Port() && ch.endpoint.channel in s.channels
    ensures var r := ReceiveTokens(k, s, ch, receiver, relayer, cutFees, tokens).1;
            r.Ok? ==> Matched(k, s.channels, r.value.msgs)
  {
    hide ReceiveToken, Matched;
    if tokens == [] {
      PlainMatched(k, s.channels, []);
    } else {
      var n := |tokens| - 1;
      ReceiveMatched(k, s, ch, receiver, relayer, cutFees, tokens[..n]);
      ReceiveReleases(k, s, ch, receiver, relayer, cutFees, tokens[..n], "");
      var (s1, r1) := ReceiveTokens(k, s, ch, receiver, relayer, cutFees, tokens[..n]);
      if r1.Ok? {
        TokenMatched(k, s1, ch, receiver, relayer, cutFees, tokens[n]);
        var r2 := ReceiveToken(k, s1, ch, receiver, relayer, cutFees, tokens[n]).1;
        if r2.Ok? { MatchedConcat(k, s.channels, r1.value.msgs, r2.value.msgs); }
      }
    }
  }

  /** What a token creates: a voucher that is not registered yet is registered and created first. */
  lemma TokenMatched(k: Contract, s: Store, ch: ChannelInfo, receiver: string, relayer: string, cutFees: bool, t: Token)
    requires ch.endpoint.port == k.Port() && ch.endpoint.channel in s.channels
    ensures var r := ReceiveToken(k, s, ch, receiver, relayer, cutFees, t).1;
            r.Ok? ==> Matched(k, s.channels, r.value.msgs)
  {
    hide Origin, MakeForeignDenom, Contract.FactoryDenom, Cut, Matched, Decrease;
    var (actual, fee) := Cut(cutFees, t);
    var r := ReceiveToken(k, s, ch, receiver, relayer, cutFees, t).1;
    match Origin(t.denom, ch.counterparty)
    case Local(d) =>
      if r.Ok? { PlainMatched(k, s.channels, r.value.msgs); }
    case Remote(d) =>
      var foreign := MakeForeignDenom(ch.endpoint, d);
      var v := k.FactoryDenom(foreign);
      var pay := Payments(Mint(v, actual, receiver), actual, Mint(v, fee, relayer), fee);
      PlainMatched(k, s.channels, pay);
      CreationMatched(k, s, ch.endpoint, foreign);
      MatchedConcat(k, s.channels, Creation(k, s, ch.endpoint, foreign), pay);
  }

  lemma CreationMatched(k: Contract, s: Store, ep: Endpoint, foreign: string)
    requires ep.port == k.Port() && ep.channel in s.channels
    ensures Matched(k, s.channels, Creation(k, s, ep, foreign))
  {
    hide Contract.FactoryDenom;
    var msgs := Creation(k, s, ep, foreign);
    if msgs != [] {
      assert msgs[0].RegisterDenom? && msgs[1] == CreateDenom(k.FactoryDenom(foreign));
      assert Announces(msgs, ep, foreign);
    }
  }

  // ---------------------------------------------------------------- over runs

  lemma VouchedElsewhere(k: Contract, s: State, s': State)
    requires Vouched(k, s) && s'.bank.created == s.bank.created
    requires s'.store.denomToHash == s.store.denomToHash && s.store.channels.Keys <= s'.store.channels.Keys
    ensures Vouched(k, s')
  {
    forall d | d in s'.bank.created ensures StandsRegistered(k, s'.store, d) {
      var ep, x :| Registered(s.store, ep, x) && d == k.FactoryDenom(x);
      assert Registered(s'.store, ep, x);
    }
  }

  lemma {:induction false} MoveCoinsCreates(b: Bank, from: string, to: string, coins: seq<Coin>)
    requires MoveCoins(b, from, to, coins).Some?
    ensures MoveCoins(b, from, to, coins).value.created == b.created
  {
    if coins != [] {
      MoveCoinsCreates(b, from, to, coins[..|coins| - 1]);
    }
  }

  lemma TransferKeepsVouched(k: Contract, n: Node, sender: string, funds: seq<Coin>, msg: TransferMsg)
    requires Vouched(k, n.state) && DoTransfer(k, n, sender, funds, msg).Some?
    ensures Vouched(k, DoTransfer(k, n, sender, funds, msg).value.state)
  {
    hide MoveCoins, ExecAll, Vouched, Matched, ForTokens, ToCoins, NormalizeTokens;
    var bank := MoveCoins(n.state.bank, sender, k.addr, funds).value;
    var (store, r) := ExecuteTransfer(k, n.state.store, sender, funds, msg);
    ExecuteTransferFrame(k, n.state.store, sender, funds, msg);
    MoveCoinsCreates(n.state.bank, sender, k.addr, funds);
    VouchedElsewhere(k, n.state, State(store, bank));
    ForTokensPlain(k, Escrowing, n.state.store.outstanding, n.state.store.channels[msg.channel].endpoint,
      r.value.packet.tokens);
    PlainMatched(k, store.channels, r.value.msgs);
    ExecKeepsVouched(k, State(store, bank), r.value.msgs);
  }

  lemma SettleKeepsVouched(c: AckCodec, k: Contract, n: Node, ch: ChannelInfo, id: (string, nat), ack: GenericAck)
    requires Vouched(k, n.state) && id in n.pending
    ensures var (store, r) := Settle(c, k, n.state.store, ch, id.1, n.pending[id], ack);
            var n' := DoSettle(k, n, id, store, r);
            n'.Some? ==> Vouched(k, n'.value.state)
  {
    hide ForTokens, ExecAll, Vouched, Matched, ConvertAck;
    var (store, r) := Settle(c, k, n.state.store, ch, id.1, n.pending[id], ack);
    var data := n.pending[id];
    if DoSettle(k, n, id, store, r).Some? {
      VouchedElsewhere(k, n.state, State(store, n.state.bank));
      ForTokensPlain(k, Refunding(data.sender), n.state.store.outstanding, ch.endpoint, data.tokens);
      PlainMatched(k, store.channels, r.value.msgs);
      ExecKeepsVouched(k, State(store, n.state.bank), r.value.msgs);
    }
  }

  /** The messages of a response to a packet. */
  ghost predicate ResponseMatched(k: Contract, channels: map<string, ChannelInfo>, r: Response) {
    match r
    case Refused => true
    case Delivered(batch) => Matched(k, channels, batch)
    case Forwarded(burns, _, _, batch) => Matched(k, channels, burns) && Matched(k, channels, batch)
  }

  lemma ReceiveResponds(k: Contract, s: State, ch: ChannelInfo, relayer: string, packet: IbcPacket)
    requires Inv(k, s) && (packet.data.Some? ==> InPlay(k, ch, packet.data.value.tokens))
    requires ch.endpoint.port == k.Port() && ch.endpoint.channel in s.store.channels
    ensures var (store, r) := Receive(k, s.store, ch, relayer, packet);
            && store == s.store.(outstanding := store.outstanding)
            && (r.Ok? ==> ResponseMatched(k, s.store.channels, r.value))
  {
    hide ReceiveTokens, ForwardPacket, Inv, InPlay, Matched;
    if packet.data.Some? {
      var data := packet.data.value;
      match data.memo
      case NoMemo =>
        ReceiveReleases(k, s.store, ch, data.receiver, relayer, true, data.tokens, "");
        ReceiveMatched(k, s.store, ch, data.receiver, relayer, true, data.tokens);
      case Forward(fwd) =>
        HopFlow(k, s, ch, relayer, packet, data, fwd, "");
        ForwardMatched(k, s, ch, relayer, packet, data, fwd);
    }
  }

  lemma ForwardMatched(k: Contract, s: State, ch: ChannelInfo, relayer: string, packet: IbcPacket, data: PacketData,
                       fwd: PacketForward)
    requires ch.endpoint.port == k.Port() && ch.endpoint.channel in s.store.channels
    ensures var r := ForwardPacket(k, s.store, ch, relayer, packet, data, fwd).1;
            r.Ok? ==> ResponseMatched(k, s.store.channels, r.value)
  {
    hide ReceiveTokens, Matched, RemapFees, ForTokens, ToCoins, NormalizeTokens;
    ReceiveMatched(k, s.store, ch, k.addr, relayer, false, data.tokens);
    var (s1, r1) := ReceiveTokens(k, s.store, ch, k.addr, relayer, false, data.tokens);
    var r := ForwardPacket(k, s.store, ch, relayer, packet, data, fwd).1;
    if r.Ok? {
      ForTokensPlain(k, Escrowing, s1.outstanding, s1.channels[fwd.channel].endpoint, r.value.hop.packet.tokens);
      PlainMatched(k, s.store.channels, r.value.burns);
    }
  }

  lemma RecvKeepsVouched(c: AckCodec, k: Contract, n: Node, e: Event)
    requires Inv(k, n.state) && Vouched(k, n.state) && e.Recv? && Allowed(k, n, e) && Step(c, k, n, e).Some?
    ensures Vouched(k, Step(c, k, n, e).value.state)
  {
    hide Receive, ExecAll, Vouched, Matched, Inv, InPlay;
    ChannelNamed(k, n, e.channel);
    var ch := n.state.store.channels[e.channel];
    var (store, r) := Receive(k, n.state.store, ch, e.relayer, e.packet);
    ReceiveResponds(k, n.state, ch, e.relayer, e.packet);
    var s1 := n.state.(store := store);
    VouchedElsewhere(k, n.state, s1);
    match r.value
    case Refused =>
    case Delivered(batch) =>
      if ExecAll(k, s1, batch).Some? { ExecKeepsVouched(k, s1, batch); }
    case Forwarded(burns, hop, payload, batch) =>
      ExecKeepsVouched(k, s1, burns);
      ExecAllFrame(k, s1, burns);
      var mid := ExecAll(k, s1, burns).value;
      var mid' :=
        if e.hostOk then mid.(store := SaveInFlight(mid.store, payload, NextSeq(n.(state := s1), hop.channel)))
          else mid;
      VouchedElsewhere(k, mid, mid');
      ExecKeepsVouched(k, mid', batch);
  }

  lemma StepKeepsVouched(c: AckCodec, k: Contract, n: Node, e: Event)
    requires Inv(k, n.state) && Vouched(k, n.state) && Allowed(k, n, e) && Step(c, k, n, e).Some?
    ensures Vouched(k, Step(c, k, n, e).value.state)
  {
    hide DoTransfer, DoRecv, DoSettle, Settle, Inv, Vouched, CleanCoins, InPlay;
    match e
    case External(_) => VouchedElsewhere(k, n.state, Step(c, k, n, e).value.state);
    case Connect(_, _) => VouchedElsewhere(k, n.state, Step(c, k, n, e).value.state);
    case Transfer(sender, funds, msg) => TransferKeepsVouched(k, n, sender, funds, msg);
    case Recv(_, _, _, _) => RecvKeepsVouched(c, k, n, e);
    case Acked(channel, sequence, bytes) =>
      var ch := n.state.store.channels[channel];
      var ack := DecodeAck(c, ch.version, bytes);
      if ack.Some? {
        SettleKeepsVouched(c, k, n, ch, (channel, sequence), ack.value);
      } else {
        RejectedAck(c, k, n, e);
      }
    case Expired(channel, sequence) =>
      SettleKeepsVouched(c, k, n, n.state.store.channels[channel], (channel, sequence), AckErr(TIMEOUT_MSG));
  }

  /** Over every run the registered vouchers are exactly the created ones. */
  lemma {:induction false} RegisteredIsCreated(c: AckCodec, k: Contract, trace: seq<Node>, events: seq<Event>, i: nat)
    requires k.Injective() && IsRun(c, k, trace, events) && i < |trace|
    ensures Vouched(k, trace[i].state)
  {
    hide Inv, Step, Allowed;
    if i != 0 {
      var j := i - 1;
      RegisteredIsCreated(c, k, trace, events, j);
      ReachableInv(c, k, trace, events, j);
      assert Allowed(k, trace[j], events[j]) && Step(c, k, trace[j], events[j]) == Some(trace[j + 1]);
      StepKeepsVouched(c, k, trace[j], events[j]);
    }
  }

  // ---------------------------------------------------------------- the messages of a delivery

  /** A foreign token whose voucher is not registered yet. */
  ghost predicate Fresh(s: Store, ch: ChannelInfo, t: Token) {
    Origin(t.denom, ch.counterparty).Remote? && !Registered(s, ch.endpoint, MakeForeignDenom(ch.endpoint, t.denom))
  }

  function VoucherFor(k: Contract, ch: ChannelInfo, t: Token): string {
    k.FactoryDenom(MakeForeignDenom(ch.endpoint, t.denom))
  }

  /** The messages of one token: a fresh voucher is created second, and whatever is minted is that voucher. */
  lemma TokenMessages(k: Contract, s: Store, ch: ChannelInfo, receiver: string, relayer: string, cutFees: bool,
                      t: Token)
    ensures var r := ReceiveToken(k, s, ch, receiver, relayer, cutFees, t).1;
            r.Ok? ==>
              var msgs := r.value.msgs;
              && (Fresh(s, ch, t) ==> |msgs| >= 2 && msgs[1] == CreateDenom(VoucherFor(k, ch, t)))
              && (forall i :: 0 <= i < |msgs| && msgs[i].CreateDenom? ==> i == 1 && Fresh(s, ch, t))
              && (forall i :: 0 <= i < |msgs| && msgs[i].Mint? ==>
                    && msgs[i].denom == VoucherFor(k, ch, t) && Origin(t.denom, ch.counterparty).Remote?
                    && (Fresh(s, ch, t) ==> i > 1))
  {
    var d := Origin(t.denom, ch.counterparty).denom;
    OriginLocalIff(t.denom, ch.counterparty, d);
    hide Origin, MakeForeignDenom, Contract.FactoryDenom, Cut, Decrease;
  }

  /** Token `i` creates the voucher `d`. */
  ghost predicate CreatesAt(k: Contract, s: Store, ch: ChannelInfo, tokens: seq<Token>, d: string, i: int) {
    0 <= i < |tokens| && Fresh(s, ch, tokens[i]) && d == VoucherFor(k, ch, tokens[i])
  }

  ghost predicate CreatedFor(k: Contract, s: Store, ch: ChannelInfo, tokens: seq<Token>, d: string) {
    exists i :: CreatesAt(k, s, ch, tokens, d, i)
  }

  lemma CreatedForOne(k: Contract, s: Store, ch: ChannelInfo, tokens: seq<Token>, d: string)
    requires tokens != []
    ensures CreatedFor(k, s, ch, tokens, d)
            <==> CreatedFor(k, s, ch, tokens[..|tokens| - 1], d) || CreatesAt(k, s, ch, tokens, d, |tokens| - 1)
  {
    hide Fresh, VoucherFor;
    var before := tokens[..|tokens| - 1];
    forall i: int ensures CreatesAt(k, s, ch, before, d, i) <==> i < |before| && CreatesAt(k, s, ch, tokens, d, i) {
      if 0 <= i < |before| { assert before[i] == tokens[i]; }
    }
  }

  /** The registry alone decides what is fresh. */
  lemma SameFresh(s: Store, s': Store, ch: ChannelInfo, t: Token)
    requires s'.denomToHash == s.denomToHash
    ensures Fresh(s', ch, t) == Fresh(s, ch, t)
  {
  }

  /** The parts of a delivery: the messages of the tokens before the last, and those of the last. */
  lemma DeliveryParts(k: Contract, s: Store, ch: ChannelInfo, receiver: string, relayer: string, cutFees: bool,
                      tokens: seq<Token>) returns (a: seq<Msg>, b: seq<Msg>)
    requires tokens != [] && ReceiveTokens(k, s, ch, receiver, relayer, cutFees, tokens).1.Ok?
    ensures ReceiveTokens(k, s, ch, receiver, relayer, cutFees, tokens[..|tokens| - 1]).1.Ok?
    ensures a == ReceiveTokens(k, s, ch, receiver, relayer, cutFees, tokens[..|tokens| - 1]).1.value.msgs
    ensures ReceiveTokens(k, s, ch, receiver, relayer, cutFees, tokens).1.value.msgs == a + b
    ensures var t := tokens[|tokens| - 1];
            && (Fresh(s, ch, t) ==> |b| >= 2 && b[1] == CreateDenom(VoucherFor(k, ch, t)))
            && (forall i :: 0 <= i < |b| && b[i].CreateDenom? ==> i == 1 && Fresh(s, ch, t))
            && (forall i :: 0 <= i < |b| && b[i].Mint? ==>
                  && b[i].denom == VoucherFor(k, ch, t) && Origin(t.denom, ch.counterparty).Remote?
                  && (Fresh(s, ch, t) ==> i > 1))
  {
    hide Fresh, VoucherFor, ReceiveToken;
    var n := |tokens| - 1;
    var (s1, r1) := ReceiveTokens(k, s, ch, receiver, relayer, cutFees, tokens[..n]);
    ReceiveReleases(k, s, ch, receiver, relayer, cutFees, tokens[..n], "");
    SameFresh(s, s1, ch, tokens[n]);
    TokenMessages(k, s1, ch, receiver, relayer, cutFees, tokens[n]);
    a, b := r1.value.msgs, ReceiveToken(k, s1, ch, receiver, relayer, cutFees, tokens[n]).1.value.msgs;
  }

  /** A delivery creates the vouchers of its fresh tokens. */
  lemma {:induction false} CreatedIff(k: Contract, s: Store, ch: ChannelInfo, receiver: string, relayer: string,
                                      cutFees: bool, tokens: seq<Token>, d: string)
    requires ReceiveTokens(k, s, ch, receiver, relayer, cutFees, tokens).1.Ok?
    ensures CreateDenom(d) in ReceiveTokens(k, s, ch, receiver, relayer, cutFees, tokens).1.value.msgs
            <==> CreatedFor(k, s, ch, tokens, d)
  {
    if tokens != [] {
      hide ReceiveTokens, Fresh, VoucherFor, CreatedFor;
      var a, b := DeliveryParts(k, s, ch, receiver, relayer, cutFees, tokens);
      CreatedIff(k, s, ch, receiver, relayer, cutFees, tokens[..|tokens| - 1], d);
      CreatedForOne(k, s, ch, tokens, d);
      assert CreateDenom(d) in b <==> CreatesAt(k, s, ch, tokens, d, |tokens| - 1);
    }
  }

  lemma InFront(a: seq<Msg>, b: seq<Msg>, i: nat, j: nat)
    requires i < j <= |b|
    ensures b[i] in (a + b)[..|a| + j]
  {
    assert (a + b)[..|a| + j][|a| + i] == b[i];
  }

  /** Whatever is minted is the voucher of a foreign token, created before if it is fresh. */
  lemma {:induction false} MintsCreated(k: Contract, s: Store, ch: ChannelInfo, receiver: string, relayer: string,
                                        cutFees: bool, tokens: seq<Token>, j: nat) returns (i: nat)
    requires ReceiveTokens(k, s, ch, receiver, relayer, cutFees, tokens).1.Ok?
    requires var msgs := ReceiveTokens(k, s, ch, receiver, relayer, cutFees, tokens).1.value.msgs;
             j < |msgs| && msgs[j].Mint?
    ensures var msgs := ReceiveTokens(k, s, ch, receiver, relayer, cutFees, tokens).1.value.msgs;
            && i < |tokens| && Origin(tokens[i].denom, ch.counterparty).Remote?
            && msgs[j].denom == VoucherFor(k, ch, tokens[i])
            && (Fresh(s, ch, tokens[i]) ==> CreateDenom(msgs[j].denom) in msgs[..j])
  {
    assert tokens != [];
    hide ReceiveTokens, Fresh, VoucherFor;
    var n := |tokens| - 1;
    var a, b := DeliveryParts(k, s, ch, receiver, relayer, cutFees, tokens);
    if j < |a| {
      assert (a + b)[..j] == a[..j] && (a + b)[j] == a[j];
      i := MintsCreated(k, s, ch, receiver, relayer, cutFees, tokens[..n], j);
    } else {
      i := n;
      assert (a + b)[j] == b[j - |a|];
      if Fresh(s, ch, tokens[n]) {
        InFront(a, b, 1, j - |a|);
      }
    }
  }

  /** Two tokens of the packet stand for one fresh voucher. */
  ghost predicate Repeats(s: Store, ch: ChannelInfo, tokens: seq<Token>) {
    exists i, j :: RepeatsAt(s, ch, tokens, i, j)
  }

  ghost predicate RepeatsAt(s: Store, ch: ChannelInfo, tokens: seq<Token>, i: int, j: int) {
    0 <= i < j < |tokens| && tokens[i].denom == tokens[j].denom && Fresh(s, ch, tokens[i])
  }

  lemma RepeatsMore(s: Store, ch: ChannelInfo, tokens: seq<Token>, n: nat)
    requires n <= |tokens| && Repeats(s, ch, tokens[..n])
    ensures Repeats(s, ch, tokens)
  {
    hide Fresh;
    var i, j :| RepeatsAt(s, ch, tokens[..n], i, j);
    assert RepeatsAt(s, ch, tokens, i, j);
  }

  lemma SameVoucherSameToken(k: Contract, ch: ChannelInfo, t: Token, t': Token)
    requires k.Injective() && VoucherFor(k, ch, t) == VoucherFor(k, ch, t')
    requires MakeForeignDenom(ch.endpoint, t.denom) in k.names && MakeForeignDenom(ch.endpoint, t'.denom) in k.names
    ensures t.denom == t'.denom
  {
    hide Contract.FactoryDenom, MakeForeignDenom;
    SameVoucherIff(k, MakeForeignDenom(ch.endpoint, t.denom), MakeForeignDenom(ch.endpoint, t'.denom));
    ForeignDenomInjective(ch.endpoint, t.denom, t'.denom);
  }

  lemma FreshNamed(k: Contract, s: Store, ch: ChannelInfo, tokens: seq<Token>, i: nat)
    requires InPlay(k, ch, tokens) && i < |tokens| && Fresh(s, ch, tokens[i])
    ensures MakeForeignDenom(ch.endpoint, tokens[i].denom) in k.names
  {
    hide Origin, MakeForeignDenom;
  }

  /** A voucher is created twice only for two tokens of one denomination. */
  lemma {:induction false} CreatedTwice(k: Contract, s: Store, ch: ChannelInfo, receiver: string, relayer: string,
                                        cutFees: bool, tokens: seq<Token>, j: nat)
    requires k.Injective() && InPlay(k, ch, tokens) && ReceiveTokens(k, s, ch, receiver, relayer, cutFees, tokens).1.Ok?
    requires var msgs := ReceiveTokens(k, s, ch, receiver, relayer, cutFees, tokens).1.value.msgs;
             j < |msgs| && msgs[j].CreateDenom? && msgs[j] in msgs[..j]
    ensures Repeats(s, ch, tokens)
  {
    assert tokens != [];
    hide ReceiveTokens, Fresh, VoucherFor, InPlay;
    var n := |tokens| - 1;
    InPlayFront(k, ch, tokens);
    var a, b := DeliveryParts(k, s, ch, receiver, relayer, cutFees, tokens);
    if j < |a| {
      assert (a + b)[..j] == a[..j] && (a + b)[j] == a[j];
      CreatedTwice(k, s, ch, receiver, relayer, cutFees, tokens[..n], j);
      RepeatsMore(s, ch, tokens, n);
    } else {
      var d := (a + b)[j].denom;
      assert (a + b)[j] == b[j - |a|] && j == |a| + 1;
      assert (a + b)[..j] == a + [b[0]] && !b[0].CreateDenom?;
      CreatedIff(k, s, ch, receiver, relayer, cutFees, tokens[..n], d);
      var i :| CreatesAt(k, s, ch, tokens[..n], d, i);
      FreshNamed(k, s, ch, tokens, i);
      FreshNamed(k, s, ch, tokens, n);
      SameVoucherSameToken(k, ch, tokens[i], tokens[n]);
      assert RepeatsAt(s, ch, tokens, i, n);
    }
  }

  lemma InPlayFront(k: Contract, ch: ChannelInfo, tokens: seq<Token>)
    requires InPlay(k, ch, tokens) && tokens != []
    ensures InPlay(k, ch, tokens[..|tokens| - 1])
  {
    hide Origin, MakeForeignDenom;
  }

  // ---------------------------------------------------------------- why messages fail

  lemma {:induction false} PrefixExecutes(k: Contract, s: State, msgs: seq<Msg>, i: nat)
    requires i <= |msgs| && ExecAll(k, s, msgs).Some?
    ensures ExecAll(k, s, msgs[..i]).Some?
  {
    if i < |msgs| {
      assert msgs[..|msgs| - 1][..i] == msgs[..i];
      PrefixExecutes(k, s, msgs[..|msgs| - 1], i);
    } else {
      assert msgs[..i] == msgs;
    }
  }

  /** The recipient of a message cannot hold so much. */
  ghost predicate Overflows(k: Contract, s: State, msg: Msg) {
    match msg
    case BankSend(to, d, amount) =>
      amount <= Balance(s.bank, k.addr, d) && Balance(Debit(s.bank, k.addr, d, amount), to, d) + amount > BALANCE_MAX
    case Mint(d, amount, to) => Balance(s.bank, to, d) + amount > BALANCE_MAX
    case _ => false
  }

  ghost predicate OverflowsAt(k: Contract, s: State, msgs: seq<Msg>, i: int) {
    && 0 <= i < |msgs|
    && ExecAll(k, s, msgs[..i]).Some? && Overflows(k, ExecAll(k, s, msgs[..i]).value, msgs[i])
  }

  lemma OverflowFails(k: Contract, s: State, msgs: seq<Msg>, i: int)
    requires OverflowsAt(k, s, msgs, i)
    ensures ExecAll(k, s, msgs).None?
  {
    assert msgs[..i + 1][..i] == msgs[..i];
    if ExecAll(k, s, msgs).Some? {
      PrefixExecutes(k, s, msgs, i + 1);
    }
  }

  /** A repeated fresh voucher makes a delivery fail. */
  lemma {:induction false} RepeatFails(k: Contract, s: Store, ch: ChannelInfo, receiver: string, relayer: string,
                                       cutFees: bool, tokens: seq<Token>, st: State)
    requires ReceiveTokens(k, s, ch, receiver, relayer, cutFees, tokens).1.Ok? && Repeats(s, ch, tokens)
    ensures ExecAll(k, st, ReceiveTokens(k, s, ch, receiver, relayer, cutFees, tokens).1.value.msgs).None?
  {
    hide ReceiveTokens, Fresh, VoucherFor, Exec;
    var i, j :| RepeatsAt(s, ch, tokens, i, j);
    var n := |tokens| - 1;
    var a, b := DeliveryParts(k, s, ch, receiver, relayer, cutFees, tokens);
    if ExecAll(k, st, a + b).Some? {
      PrefixExecutes(k, st, a + b, |a|);
      assert (a + b)[..|a|] == a;
      if j < n {
        assert RepeatsAt(s, ch, tokens[..n], i, j);
        RepeatFails(k, s, ch, receiver, relayer, cutFees, tokens[..n], st);
      } else {
        var d := VoucherFor(k, ch, tokens[n]);
        SameDenomSameVoucher(k, s, ch, tokens[i], tokens[n]);
        assert CreatesAt(k, s, ch, tokens[..n], d, i);
        CreatedIff(k, s, ch, receiver, relayer, cutFees, tokens[..n], d);
        CreateExisting(k, st, a + b, |a| + 1, d);
      }
    }
  }

  lemma SameDenomSameVoucher(k: Contract, s: Store, ch: ChannelInfo, t: Token, t': Token)
    requires t.denom == t'.denom
    ensures VoucherFor(k, ch, t) == VoucherFor(k, ch, t') && Fresh(s, ch, t) == Fresh(s, ch, t')
  {
  }

  lemma CreateExisting(k: Contract, s: State, msgs: seq<Msg>, j: nat, d: string)
    requires j < |msgs| && msgs[j] == CreateDenom(d) && CreateDenom(d) in msgs[..j]
    ensures ExecAll(k, s, msgs).None?
  {
    assert msgs[..j + 1][..j] == msgs[..j];
    if ExecAll(k, s, msgs).Some? {
      PrefixExecutes(k, s, msgs, j);
      ExecAllVouches(k, s, msgs[..j]);
      PrefixExecutes(k, s, msgs, j + 1);
    }
  }

  /** In a run a fresh voucher does not exist yet. */
  lemma FreshNotCreated(k: Contract, n: Node, ch: ChannelInfo, t: Token)
    requires k.Injective() && Inv(k, n.state) && Vouched(k, n.state) && PlainChannels(n)
    requires ch.endpoint == Endpoint(k.Port(), ch.endpoint.channel) && ch.endpoint.channel in n.state.store.channels
    requires MakeForeignDenom(ch.endpoint, t.denom) in k.names && Fresh(n.state.store, ch, t)
    ensures VoucherFor(k, ch, t) !in n.state.bank.created
  {
    hide Contract.FactoryDenom, MakeForeignDenom, Origin, Solvent, KeysClean, Identifier;
    if VoucherFor(k, ch, t) in n.state.bank.created {
      var x := MakeForeignDenom(ch.endpoint, t.denom);
      var ep, y :| Registered(n.state.store, ep, y) && VoucherFor(k, ch, t) == k.FactoryDenom(y);
      SameVoucherIff(k, x, y);
      OriginLocalIff(y, ep, Origin(y, ep).denom);
      ForeignDenomSeparatesChannels(k.Port(), ch.endpoint.channel, t.denom, ep.channel, Origin(y, ep).denom);
    }
  }

  // ---------------------------------------------------------------- deliveries

  /** A message of a delivery that the chain refuses overflows its recipient, or the packet repeats a fresh
      voucher. */
  lemma BlockedDelivery(k: Contract, n: Node, ch: ChannelInfo, receiver: string, relayer: string, tokens: seq<Token>,
                        j: nat)
    requires k.Injective() && Inv(k, n.state) && Vouched(k, n.state) && PlainChannels(n) && InPlay(k, ch, tokens)
    requires ch.endpoint == Endpoint(k.Port(), ch.endpoint.channel) && ch.endpoint.channel in n.state.store.channels
    requires ReceiveTokens(k, n.state.store, ch, receiver, relayer, true, tokens).1.Ok?
    requires var (s', r) := ReceiveTokens(k, n.state.store, ch, receiver, relayer, true, tokens);
             j < |r.value.msgs| && BlockedAt(k, n.state.(store := s'), r.value.msgs, j)
    ensures var (s', r) := ReceiveTokens(k, n.state.store, ch, receiver, relayer, true, tokens);
            OverflowsAt(k, n.state.(store := s'), r.value.msgs, j) || Repeats(n.state.store, ch, tokens)
  {
    hide ReceiveTokens, Fresh, VoucherFor, InPlay, Inv, PlainChannels, Repeats, ExecAll;
    var s := n.state.store;
    var (s', r) := ReceiveTokens(k, s, ch, receiver, relayer, true, tokens);
    var paid, msgs := n.state.(store := s'), r.value.msgs;
    ExecAllVouches(k, paid, msgs[..j]);
    match msgs[j]
    case BankSend(_, _, _) =>
    case RegisterDenom(_, _, _) =>
    case Burn(_, _) =>
    case CreateDenom(d) =>
      CreatedIff(k, s, ch, receiver, relayer, true, tokens, d);
      var i :| CreatesAt(k, s, ch, tokens, d, i);
      FreshNamed(k, s, ch, tokens, i);
      FreshNotCreated(k, n, ch, tokens[i]);
      CreatedTwice(k, s, ch, receiver, relayer, true, tokens, j);
    case Mint(d, _, _) =>
      var i := MintsCreated(k, s, ch, receiver, relayer, true, tokens, j);
      StaleCreated(k, n.state, ch, tokens[i]);
  }

  lemma StaleCreated(k: Contract, s: State, ch: ChannelInfo, t: Token)
    requires Vouched(k, s) && Origin(t.denom, ch.counterparty).Remote?
    ensures Fresh(s.store, ch, t) || VoucherFor(k, ch, t) in s.bank.created
  {
    hide Origin, MakeForeignDenom, Contract.FactoryDenom;
  }

  /** In every state of every run, over channels with plain identifiers: a delivery that passes the escrow
      checks fails to execute if and only if a recipient overflows, or two tokens of the packet stand for one
      voucher that is not registered yet. */
  lemma DeliveryFailsIff(c: AckCodec, k: Contract, trace: seq<Node>, events: seq<Event>, i: nat, ch: ChannelInfo,
                         receiver: string, relayer: string, tokens: seq<Token>)
    requires k.Injective() && IsRun(c, k, trace, events) && i < |trace| && PlainChannels(trace[i])
    requires InPlay(k, ch, tokens)
    requires ch.endpoint.channel in trace[i].state.store.channels
    requires trace[i].state.store.channels[ch.endpoint.channel] == ch
    requires ReceiveTokens(k, trace[i].state.store, ch, receiver, relayer, true, tokens).1.Ok?
    ensures var (s', r) := ReceiveTokens(k, trace[i].state.store, ch, receiver, relayer, true, tokens);
            var paid := trace[i].state.(store := s');
            ExecAll(k, paid, r.value.msgs).None?
            <==> Repeats(trace[i].state.store, ch, tokens) || exists j :: OverflowsAt(k, paid, r.value.msgs, j)
  {
    hide IsRun, ReceiveTokens, InPlay, Vouched, Inv, Repeats, BlockedAt, OverflowsAt, ExecAll, PaysOthers, OutFlow;
    var n := trace[i];
    var (s', r) := ReceiveTokens(k, n.state.store, ch, receiver, relayer, true, tokens);
    var paid, msgs := n.state.(store := s'), r.value.msgs;
    ReachableInv(c, k, trace, events, i);
    RegisteredIsCreated(c, k, trace, events, i);
    ChannelNamed(k, n, ch.endpoint.channel);
    if ExecAll(k, paid, msgs).None? {
      DeliveryCovered(k, n.state, ch, receiver, relayer, tokens);
      NeverShort(k, paid, msgs, Outsider(receiver, relayer));
      var j :| 0 <= j < |msgs| && BlockedAt(k, paid, msgs, j);
      BlockedDelivery(k, n, ch, receiver, relayer, tokens, j);
    }
    if Repeats(n.state.store, ch, tokens) {
      RepeatFails(k, n.state.store, ch, receiver, relayer, true, tokens, paid);
    }
    if j :| OverflowsAt(k, paid, msgs, j) {
      OverflowFails(k, paid, msgs, j);
    }
  }

  /** An account that is neither the receiver nor the relayer. */
  function Outsider(receiver: string, relayer: string): (r: string)
    ensures r != receiver && r != relayer
  {
    var r := receiver + relayer + "x";
    assert |r| > |receiver| && |r| > |relayer|;
    r
  }

  lemma DeliveryCovered(k: Contract, s: State, ch: ChannelInfo, receiver: string, relayer: string, tokens: seq<Token>)
    requires Inv(k, s) && ReceiveTokens(k, s.store, ch, receiver, relayer, true, tokens).1.Ok?
    ensures var (s', r) := ReceiveTokens(k, s.store, ch, receiver, relayer, true, tokens);
            var outsider := Outsider(receiver, relayer);
            && PaysOthers(r.value.msgs, outsider)
            && forall d :: OutFlow(r.value.msgs, outsider, d) <= Balance(s.bank, k.addr, d)
  {
    hide ReceiveTokens, Index, KeysClean, ChannelsOk, PaysOthers, OutFlow, Total, Outsider;
    var (s', r) := ReceiveTokens(k, s.store, ch, receiver, relayer, true, tokens);
    var outsider := Outsider(receiver, relayer);
    forall d ensures OutFlow(r.value.msgs, outsider, d) <= Balance(s.bank, k.addr, d) {
      ReceivePays(k, s.store, ch, receiver, relayer, true, tokens, outsider, d);
    }
    ReceivePays(k, s.store, ch, receiver, relayer, true, tokens, outsider, "");
  }

  // ---------------------------------------------------------------- refunds

  lemma {:induction false} RefundMints(k: Contract, to: string, e: Escrow, ep: Endpoint, wire: seq<Token>, j: nat)
    returns (i: nat)
    requires ForTokens(k, Refunding(to), e, ep, wire).1.Ok?
    requires var msgs := ForTokens(k, Refunding(to), e, ep, wire).1.value; j < |msgs| && msgs[j].Mint?
    ensures i < |wire| && Origin(wire[i].denom, ep).Local?
    ensures ForTokens(k, Refunding(to), e, ep, wire).1.value[j].denom == k.FactoryDenom(wire[i].denom)
  {
    hide Origin, MakeForeignDenom, Contract.FactoryDenom, Amounts, Decrease;
    var n := |wire| - 1;
    var before := ForTokens(k, Refunding(to), e, ep, wire[..n]).1.value;
    if j < |before| {
      i := RefundMints(k, to, e, ep, wire[..n], j);
    } else {
      i := n;
      OriginLocalIff(wire[n].denom, ep, Origin(wire[n].denom, ep).denom);
    }
  }

  lemma BlockedRefund(k: Contract, s: State, to: string, ep: Endpoint, tokens: seq<Token>, j: nat)
    requires Vouched(k, s) && RegisteredTokens(s.store, ep, tokens)
    requires ForTokens(k, Refunding(to), s.store.outstanding, ep, tokens).1.Ok?
    requires var (e', r) := ForTokens(k, Refunding(to), s.store.outstanding, ep, tokens);
             j < |r.value| && BlockedAt(k, s.(store := s.store.(outstanding := e')), r.value, j)
    ensures var (e', r) := ForTokens(k, Refunding(to), s.store.outstanding, ep, tokens);
            OverflowsAt(k, s.(store := s.store.(outstanding := e')), r.value, j)
  {
    hide ForTokens, ExecAll, Contract.FactoryDenom, Origin;
    var (e', r) := ForTokens(k, Refunding(to), s.store.outstanding, ep, tokens);
    var repaid, msgs := s.(store := s.store.(outstanding := e')), r.value;
    ForTokensPlain(k, Refunding(to), s.store.outstanding, ep, tokens);
    ExecAllVouches(k, repaid, msgs[..j]);
    if msgs[j].Mint? {
      var i := RefundMints(k, to, s.store.outstanding, ep, tokens, j);
      assert Registered(s.store, ep, tokens[i].denom);
    }
  }

  lemma RefundCovered(k: Contract, s: State, to: string, ep: Endpoint, tokens: seq<Token>)
    requires Inv(k, s) && ForTokens(k, Refunding(to), s.store.outstanding, ep, tokens).1.Ok?
    ensures var r := ForTokens(k, Refunding(to), s.store.outstanding, ep, tokens).1;
            && PaysOthers(r.value, Outsider(to, ""))
            && forall d :: OutFlow(r.value, Outsider(to, ""), d) <= Balance(s.bank, k.addr, d)
  {
    hide ForTokens, Index, KeysClean, ChannelsOk, PaysOthers, OutFlow, Total, Outsider;
    var r := ForTokens(k, Refunding(to), s.store.outstanding, ep, tokens).1;
    forall d ensures OutFlow(r.value, Outsider(to, ""), d) <= Balance(s.bank, k.addr, d) {
      RefundFlow(k, s.store.outstanding, ep, tokens, to, Outsider(to, ""), d);
    }
    RefundPaysOthers(k, to, s.store.outstanding, ep, tokens, Outsider(to, ""));
  }

  /** In every state of every run: the refund of an unsettled packet that passes the escrow checks fails to
      execute if and only if the sender overflows. */
  lemma RefundFailsIff(c: AckCodec, k: Contract, trace: seq<Node>, events: seq<Event>, i: nat, id: (string, nat))
    requires k.Injective() && IsRun(c, k, trace, events) && i < |trace| && id in trace[i].pending
    requires var data := trace[i].pending[id];
             ForTokens(k, Refunding(data.sender), trace[i].state.store.outstanding, Endpoint(k.Port(), id.0),
               data.tokens).1.Ok?
    ensures var s, data := trace[i].state, trace[i].pending[id];
            var (e', r) := ForTokens(k, Refunding(data.sender), s.store.outstanding, Endpoint(k.Port(), id.0),
              data.tokens);
            var repaid := s.(store := s.store.(outstanding := e'));
            ExecAll(k, repaid, r.value).None? <==> exists j :: OverflowsAt(k, repaid, r.value, j)
  {
    hide IsRun, ForTokens, Vouched, Inv, BlockedAt, OverflowsAt, ExecAll, PaysOthers, OutFlow, OwnNames, KeyedTokens,
      RegisteredTokens;
    var s, data, ep := trace[i].state, trace[i].pending[id], Endpoint(k.Port(), id.0);
    var (e', r) := ForTokens(k, Refunding(data.sender), s.store.outstanding, ep, data.tokens);
    var repaid := s.(store := s.store.(outstanding := e'));
    ReachableInv(c, k, trace, events, i);
    RegisteredIsCreated(c, k, trace, events, i);
    AlwaysOnWire(c, k, trace, events, i);
    if ExecAll(k, repaid, r.value).None? {
      RefundCovered(k, s, data.sender, ep, data.tokens);
      NeverShort(k, repaid, r.value, Outsider(data.sender, ""));
      var j :| 0 <= j < |r.value| && BlockedAt(k, repaid, r.value, j);
      BlockedRefund(k, s, data.sender, ep, data.tokens, j);
    }
    if j :| OverflowsAt(k, repaid, r.value, j) {
      OverflowFails(k, repaid, r.value, j);
    }
  }
}
