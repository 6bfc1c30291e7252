/** What the contract admits: exactly when a transfer goes out and with which error it does not, and exactly
    what becomes of an incoming packet, with and without a forwarding memo. */
module Admission {
  import opened Wrappers
  import opened Denoms
  import opened Fees
  import opened RelaySpec
  import opened Host
  import opened Solvency
  import opened Reachable
  import opened Payouts
  import opened HopFees
  import opened Exchange

  // ---------------------------------------------------------------- the coins

  /** Two nonzero coins have one denomination. */
  ghost predicate Repeated(funds: seq<Coin>) {
    exists i, j :: RepeatedAt(funds, i, j)
  }

  ghost predicate RepeatedAt(funds: seq<Coin>, i: int, j: int) {
    0 <= i < j < |funds| && funds[i].amount != 0 && funds[j].amount != 0 && funds[i].denom == funds[j].denom
  }

  lemma RepeatedMore(funds: seq<Coin>)
    requires funds != []
    ensures var n := |funds| - 1;
            Repeated(funds) <==> Repeated(funds[..n]) || exists i :: RepeatedAt(funds, i, n)
  {
    var n := |funds| - 1;
    forall i: int, j: int ensures RepeatedAt(funds[..n], i, j) <==> j < n && RepeatedAt(funds, i, j) {
      if 0 <= i < j < n { assert funds[..n][i] == funds[i] && funds[..n][j] == funds[j]; }
    }
  }

  /** Coins are refused for a repeated denomination, and for nothing else. */
  lemma {:induction false} ToCoinsIff(funds: seq<Coin>)
    ensures if Repeated(funds) then ToCoins(funds) == Err(DuplicateDenom) else ToCoins(funds).Ok?
  {
    if funds != [] {
      var n := |funds| - 1;
      ToCoinsIff(funds[..n]);
      RepeatedMore(funds);
      if ToCoins(funds[..n]).Ok? && funds[n].amount != 0 {
        LastRepeats(funds);
      }
    }
  }

  lemma LastRepeats(funds: seq<Coin>)
    requires funds != [] && ToCoins(funds[..|funds| - 1]).Ok? && funds[|funds| - 1].amount != 0
    ensures var n := |funds| - 1;
            var coins := ToCoins(funds[..n]).value;
            (exists i :: 0 <= i < |coins| && coins[i].denom == funds[n].denom) <==> exists i :: RepeatedAt(funds, i, n)
  {
    hide ToCoins, Ordered;
    var n := |funds| - 1;
    var coins := ToCoins(funds[..n]).value;
    if i :| 0 <= i < |coins| && coins[i].denom == funds[n].denom {
      CoinsOrdered(funds[..n]);
      assert coins[i] in multiset(coins);
      assert coins[i] in NonZeroCoins(funds[..n]);
      var j := NonZeroFrom(funds[..n], coins[i]);
      assert RepeatedAt(funds, j, n);
    }
    if i :| RepeatedAt(funds, i, n) {
      KeptCoin(funds[..n], i);
      var j :| 0 <= j < |coins| && coins[j] == funds[i];
      assert coins[j].denom == funds[n].denom;
    }
  }

  lemma {:induction false} NonZeroFrom(funds: seq<Coin>, coin: Coin) returns (i: nat)
    requires coin in NonZeroCoins(funds)
    ensures i < |funds| && funds[i] == coin && coin.amount != 0
  {
    var n := |funds| - 1;
    if coin in NonZeroCoins(funds[..n]) {
      i := NonZeroFrom(funds[..n], coin);
    } else {
      i := n;
    }
  }

  lemma SameSize(funds: seq<Coin>)
    requires ToCoins(funds).Ok?
    ensures |ToCoins(funds).value| == |NonZeroCoins(funds)|
    ensures |ToCoins(funds).value| == 1 ==> ToCoins(funds).value == NonZeroCoins(funds)
  {
    hide ToCoins, NonZeroCoins, Ordered;
    CoinsOrdered(funds);
    var a, b := ToCoins(funds).value, NonZeroCoins(funds);
    assert |multiset(a)| == |a| && |multiset(b)| == |b|;
    if |a| == 1 {
      assert a == [a[0]] && b == [b[0]];
      assert b[0] in multiset(b);
    }
  }

  // ---------------------------------------------------------------- the counters

  /** Every counter has room for what the list escrows in its denomination. */
  ghost predicate Room(e: Escrow, ep: Endpoint, wire: seq<Token>) {
    forall i :: 0 <= i < |wire| && Origin(wire[i].denom, ep).Remote? ==>
      Outstanding(e, ep.channel, wire[i].denom) + SumTokens(wire, wire[i].denom) <= U512_MAX
  }

  lemma RoomMore(e: Escrow, ep: Endpoint, wire: seq<Token>)
    requires wire != []
    ensures var n := |wire| - 1;
            Room(e, ep, wire) <==>
            && Room(e, ep, wire[..n])
            && (Origin(wire[n].denom, ep).Remote? ==>
                  Outstanding(e, ep.channel, wire[n].denom) + SumTokens(wire, wire[n].denom) <= U512_MAX)
  {
    hide Origin, Outstanding;
    var n := |wire| - 1;
    forall i | 0 <= i < n ensures wire[..n][i] == wire[i] {
    }
    if Room(e, ep, wire) {
      forall i | 0 <= i < n && Origin(wire[..n][i].denom, ep).Remote?
        ensures Outstanding(e, ep.channel, wire[..n][i].denom) + SumTokens(wire[..n], wire[..n][i].denom) <= U512_MAX
      {
        assert Origin(wire[i].denom, ep).Remote?;
      }
    }
    if && Room(e, ep, wire[..n])
       && (Origin(wire[n].denom, ep).Remote? ==>
             Outstanding(e, ep.channel, wire[n].denom) + SumTokens(wire, wire[n].denom) <= U512_MAX) {
      forall i | 0 <= i < |wire| && Origin(wire[i].denom, ep).Remote?
        ensures Outstanding(e, ep.channel, wire[i].denom) + SumTokens(wire, wire[i].denom) <= U512_MAX
      {
        if i < n && wire[i].denom != wire[n].denom { assert wire[..n][i] == wire[i]; }
      }
    }
  }

  /** Escrowing fails for want of room, and for nothing else. */
  lemma {:induction false} EscrowOkIff(k: Contract, e: Escrow, ep: Endpoint, wire: seq<Token>)
    ensures var r := ForTokens(k, Escrowing, e, ep, wire).1;
            if Room(e, ep, wire) then r.Ok? else r == Err(Overflow)
  {
    hide Origin, MakeForeignDenom, Contract.FactoryDenom, Amounts, Room;
    if wire == [] {
      RoomForNothing(e, ep);
    } else {
      var n := |wire| - 1;
      EscrowOkIff(k, e, ep, wire[..n]);
      EscrowExact(k, e, ep, wire[..n], ep.channel, wire[n].denom);
      OriginLocalIff(wire[n].denom, ep, "");
      RoomMore(e, ep, wire);
    }
  }

  lemma RoomForNothing(e: Escrow, ep: Endpoint)
    ensures Room(e, ep, [])
  {
  }

  // ---------------------------------------------------------------- when a transfer goes out

  /** The first reason, in the order of the checks, for which a transfer is refused. */
  ghost function Refusal(s: Store, funds: seq<Coin>, msg: TransferMsg): Option<Error> {
    var coins := NonZeroCoins(funds);
    if Repeated(funds) then Some(DuplicateDenom)
    else if coins == [] then Some(NoFunds)
    else if msg.channel !in s.channels then Some(NoSuchChannel)
    else if s.channels[msg.channel].version == Ucs01 then None
    else if |coins| != 1 then Some(Ics20OnlyOneCoin)
    else if FeeOf(msg.fees, coins[0].denom) != 0 then Some(Ics20CannotHandleFee)
    else None
  }

  /** The packet as it would go on the wire. */
  function Wire(k: Contract, s: Store, funds: seq<Coin>, msg: TransferMsg): seq<Token> {
    if ToCoins(funds).Ok? && msg.channel in s.channels then
      var r := NormalizeTokens(k, s, s.channels[msg.channel].endpoint, AttachFees(ToCoins(funds).value, msg.fees));
      if r.Ok? then r.value else []
    else []
  }

  /** A transfer is refused with that error, or for want of room in a counter, and goes out otherwise. */
  lemma TransferOutcome(k: Contract, s: Store, sender: string, funds: seq<Coin>, msg: TransferMsg)
    requires Index(k, s) && ChannelsOk(k, s) && CleanCoins(k, funds)
    ensures var r := ExecuteTransfer(k, s, sender, funds, msg).1;
            match Refusal(s, funds, msg)
            case Some(error) => r == Err(error)
            case None =>
              if Room(s.outstanding, Endpoint(k.Port(), msg.channel), Wire(k, s, funds, msg)) then r.Ok?
              else r == Err(Overflow)
  {
    hide ToCoins, NormalizeTokens, ForTokens, Index, CleanCoins, Clean, NonZeroCoins, Repeated, Room, SameTokens;
    ToCoinsIff(funds);
    if ToCoins(funds).Ok? {
      SameSize(funds);
      if msg.channel in s.channels {
        var ch := s.channels[msg.channel];
        var tokens := AttachFees(ToCoins(funds).value, msg.fees);
        FundsClean(k, funds, msg.fees);
        NormalizeTokensSound(k, s, ch.endpoint, tokens);
        NormalizeKeepsAmounts(k, s, ch.endpoint, tokens);
        EscrowOkIff(k, s.outstanding, ch.endpoint, Wire(k, s, funds, msg));
      }
    }
  }

  lemma FundsClean(k: Contract, funds: seq<Coin>, fees: Option<FeeMap>)
    requires CleanCoins(k, funds) && ToCoins(funds).Ok?
    ensures var coins := ToCoins(funds).value;
            CleanCoins(k, coins)
            && forall i :: 0 <= i < |coins| ==> Clean(k, AttachFees(coins, fees)[i].denom)
  {
    hide ToCoins, Clean;
    ToCoinsSound(funds, "");
    var coins := ToCoins(funds).value;
    forall i | 0 <= i < |coins| ensures Clean(k, coins[i].denom) {
      assert coins[i] in funds;
    }
  }

  /** What every run keeps of the storage: the indexes agree, channels are saved under the contract's own port,
      and counters are of clean denominations and fit the chain's amounts. */
  ghost predicate Ready(k: Contract, s: Store) {
    && Index(k, s) && ChannelsOk(k, s) && KeysClean(k, s.outstanding)
    && forall c, d :: Outstanding(s.outstanding, c, d) <= BALANCE_MAX
  }

  lemma InvReady(k: Contract, s: State)
    requires Inv(k, s)
    ensures Ready(k, s.store)
  {
    hide Index, KeysClean, ChannelsOk, Outstanding;
    forall c, d ensures Outstanding(s.store.outstanding, c, d) <= BALANCE_MAX {
      SmallOutstanding(k, s, c, d);
    }
  }

  /** Then there is room: a transfer of clean funds goes out if and only if nothing speaks against it. */
  lemma TransferGoesOutIff(k: Contract, s: Store, sender: string, funds: seq<Coin>, msg: TransferMsg)
    requires Ready(k, s) && CleanCoins(k, funds)
    ensures var r := ExecuteTransfer(k, s, sender, funds, msg).1;
            match Refusal(s, funds, msg) case Some(error) => r == Err(error) case None => r.Ok?
  {
    hide ExecuteTransfer, Index, KeysClean, Refusal, CleanCoins, Room, Wire, Outstanding;
    TransferOutcome(k, s, sender, funds, msg);
    if Refusal(s, funds, msg).None? {
      RoomWhenReady(k, s, funds, msg);
    }
  }

  lemma RoomWhenReady(k: Contract, s: Store, funds: seq<Coin>, msg: TransferMsg)
    requires Ready(k, s) && CleanCoins(k, funds) && Refusal(s, funds, msg).None?
    ensures Room(s.outstanding, Endpoint(k.Port(), msg.channel), Wire(k, s, funds, msg))
  {
    hide ToCoins, NormalizeTokens, ForTokens, Index, Clean, NonZeroCoins, Repeated, Room, SameTokens, KeysClean,
      Outstanding;
    ToCoinsIff(funds);
    ToCoinsSound(funds, "");
    FundsClean(k, funds, msg.fees);
    var ch := s.channels[msg.channel];
    NormalizeTokensSound(k, s, ch.endpoint, AttachFees(ToCoins(funds).value, msg.fees));
    WireFits(k, s.outstanding, ch.endpoint, ToCoins(funds).value, msg.fees, Wire(k, s, funds, msg));
    EscrowOkIff(k, s.outstanding, ch.endpoint, Wire(k, s, funds, msg));
  }

  /** What goes out: over the channel named, from the sender to the receiver named, with the memo given; on a
      channel for ICS-20 one token without a fee. */
  lemma TransferAddresses(k: Contract, s: Store, sender: string, funds: seq<Coin>, msg: TransferMsg)
    requires ChannelsOk(k, s) && ExecuteTransfer(k, s, sender, funds, msg).1.Ok?
    ensures var sent := ExecuteTransfer(k, s, sender, funds, msg).1.value;
            && msg.channel in s.channels && sent.channel == msg.channel
            && sent.packet.sender == sender && sent.packet.receiver == msg.receiver && sent.packet.memo == msg.memo
            && (s.channels[msg.channel].version == Ics20 ==>
                  |sent.packet.tokens| == 1 && sent.packet.tokens[0].fee == 0)
  {
    hide ToCoins, AttachFees, NormalizeTokens, ForTokens;
  }

  // ---------------------------------------------------------------- what becomes of a packet

  /** The tokens of a packet under the names they have here. */
  function Here(k: Contract, ch: ChannelInfo, tokens: seq<Token>): (r: seq<NormalizedToken>)
    ensures |r| == |tokens|
  {
    seq(|tokens|, i requires 0 <= i < |tokens| =>
      NormalizedToken(tokens[i].denom, tokens[i].(denom := NameHere(k, ch, tokens[i].denom))))
  }

  /** The transfer that a memo asks for. */
  function Onward(k: Contract, ch: ChannelInfo, tokens: seq<Token>, fwd: PacketForward): TransferMsg {
    TransferMsg(fwd.channel, fwd.receiver, fwd.next, RemapFees(fwd.fees, Here(k, ch, tokens)))
  }

  /** All tokens pass, and nothing speaks against the transfer of the coins they are here. */
  ghost predicate GoesOn(k: Contract, s: Store, ch: ChannelInfo, tokens: seq<Token>, fwd: PacketForward) {
    && Passing(s, ch, tokens) == |tokens|
    && Refusal(s, CoinsOf(Here(k, ch, tokens)), Onward(k, ch, tokens, fwd)).None?
  }

  /** A receive either passes all tokens, under the names they have here, or is an error. */
  lemma ReceivedHere(k: Contract, s: Store, ch: ChannelInfo, receiver: string, relayer: string, cutFees: bool,
                     tokens: seq<Token>)
    ensures var r := ReceiveTokens(k, s, ch, receiver, relayer, cutFees, tokens).1;
            if Passing(s, ch, tokens) == |tokens| then r.Ok? && r.value.tokens == Here(k, ch, tokens) else r.Err?
  {
    hide ReceiveTokens, NameHere, Passing, Outstanding, CarriedOut, DueOf, Paid;
    ReceivePasses(k, s, ch, receiver, relayer, cutFees, tokens, "", "");
    ReceiveReturns(k, s, ch, receiver, relayer, cutFees, tokens);
    if Passing(s, ch, tokens) == |tokens| {
      DeliveryPaysExactly(k, s, ch, receiver, relayer, cutFees, tokens, "", "");
    }
  }

  lemma ReceiveKeepsReady(k: Contract, s: Store, ch: ChannelInfo, relayer: string, tokens: seq<Token>)
    requires Ready(k, s)
    ensures var (s', r) := ReceiveTokens(k, s, ch, k.addr, relayer, false, tokens);
            && Ready(k, s') && s'.channels == s.channels
            && (r.Ok? ==> CleanCoins(k, CoinsOf(r.value.tokens)))
  {
    hide ReceiveTokens, KeysClean, CleanCoins, Outstanding;
    ReceiveReleases(k, s, ch, k.addr, relayer, false, tokens, "");
    HopCoinsClean(k, s, ch, relayer, tokens);
    var s' := ReceiveTokens(k, s, ch, k.addr, relayer, false, tokens).0;
    forall c, d ensures Outstanding(s'.outstanding, c, d) <= BALANCE_MAX {
      ReceiveShrinks(k, s, ch, k.addr, relayer, false, tokens, c, d);
    }
  }

  /** Nothing but the channels decides whether a transfer is refused. */
  lemma RefusalOfChannels(s: Store, s': Store, funds: seq<Coin>, msg: TransferMsg)
    requires s'.channels == s.channels
    ensures Refusal(s', funds, msg) == Refusal(s, funds, msg)
  {
  }

  /** A packet whose memo asks for a forward is never paid out here. It is forwarded if and only if all its
      tokens pass and nothing speaks against the onward transfer of the coins they are here, over the channel
      that the memo names, to its receiver and with its next memo; otherwise it is refused. */
  lemma ForwardedIff(k: Contract, s: Store, ch: ChannelInfo, relayer: string, packet: IbcPacket)
    requires Ready(k, s) && packet.data.Some? && packet.data.value.memo.Forward?
    ensures var r := Receive(k, s, ch, relayer, packet).1;
            var tokens, fwd := packet.data.value.tokens, packet.data.value.memo.forward;
            && r.Ok? && (r.value.Forwarded? || r.value == Refused)
            && (r.value.Forwarded? <==> GoesOn(k, s, ch, tokens, fwd))
            && (r.value.Forwarded? ==>
                  && r.value.hop.channel == fwd.channel && r.value.hop.packet.sender == k.addr
                  && r.value.hop.packet.receiver == fwd.receiver && r.value.hop.packet.memo == fwd.next
                  && r.value.payload == InFlight(packet, ch.version, fwd.channel, fwd.port))
  {
    hide ReceiveTokens, ExecuteTransfer, Ready, Refusal, CleanCoins, Here, Passing, RemapFees;
    var data := packet.data.value;
    var (s1, r1) := ReceiveTokens(k, s, ch, k.addr, relayer, false, data.tokens);
    ReceivedHere(k, s, ch, k.addr, relayer, false, data.tokens);
    ReceiveKeepsReady(k, s, ch, relayer, data.tokens);
    if r1.Ok? {
      var coins, msg := CoinsOf(r1.value.tokens), Onward(k, ch, data.tokens, data.memo.forward);
      TransferGoesOutIff(k, s1, k.addr, coins, msg);
      RefusalOfChannels(s, s1, coins, msg);
      ReadyChannels(k, s1);
      if ExecuteTransfer(k, s1, k.addr, coins, msg).1.Ok? { TransferAddresses(k, s1, k.addr, coins, msg); }
    }
  }

  lemma ReadyChannels(k: Contract, s: Store)
    requires Ready(k, s)
    ensures ChannelsOk(k, s)
  {
  }

  /** A packet without a memo is never forwarded: it is paid out if and only if all its tokens pass. One that
      does not decode is refused and changes nothing. */
  lemma DeliveredIff(k: Contract, s: Store, ch: ChannelInfo, relayer: string, packet: IbcPacket)
    requires packet.data.Some? ==> packet.data.value.memo.NoMemo?
    ensures var (s', r) := Receive(k, s, ch, relayer, packet);
            && r.Ok? && (r.value.Delivered? || r.value == Refused)
            && (r.value.Delivered? <==>
                  && packet.data.Some?
                  && Passing(s, ch, packet.data.value.tokens) == |packet.data.value.tokens|)
            && (packet.data.None? ==> s' == s)
  {
    hide ReceiveTokens, Here, Passing;
    if packet.data.Some? {
      var data := packet.data.value;
      ReceivedHere(k, s, ch, data.receiver, relayer, true, data.tokens);
    }
  }

  // ---------------------------------------------------------------- when a transfer takes effect

  /** The sender holds what the list carries in a denomination, and the receiver has room for it. */
  ghost predicate Affords(b: Bank, from: string, to: string, coins: seq<Coin>, d: string) {
    && SumCoins(coins, d) <= Balance(b, from, d)
    && Balance(b, to, d) + SumCoins(coins, d) <= BALANCE_MAX
  }

  ghost predicate Affordable(b: Bank, from: string, to: string, coins: seq<Coin>) {
    forall i :: 0 <= i < |coins| ==> Affords(b, from, to, coins, coins[i].denom)
  }

  lemma AffordableMore(b: Bank, from: string, to: string, coins: seq<Coin>)
    requires coins != []
    ensures var n := |coins| - 1;
            Affordable(b, from, to, coins)
            <==> Affordable(b, from, to, coins[..n]) && Affords(b, from, to, coins, coins[n].denom)
  {
    hide Balance;
    var n := |coins| - 1;
    if Affordable(b, from, to, coins) {
      forall i | 0 <= i < n ensures Affords(b, from, to, coins[..n], coins[..n][i].denom) {
        assert Affords(b, from, to, coins, coins[i].denom);
      }
    }
    if Affordable(b, from, to, coins[..n]) && Affords(b, from, to, coins, coins[n].denom) {
      forall i | 0 <= i < |coins| ensures Affords(b, from, to, coins, coins[i].denom) {
        if i < n { assert Affords(b, from, to, coins[..n], coins[..n][i].denom); }
      }
    }
  }

  lemma MoveIff(b: Bank, from: string, to: string, d: string, amount: nat)
    requires from != to
    ensures Move(b, from, to, d, amount).Some?
            <==> amount <= Balance(b, from, d) && Balance(b, to, d) + amount <= BALANCE_MAX
  {
  }

  /** Coins move if and only if, per denomination, the list as a whole can be paid and received. */
  lemma {:induction false} MoveCoinsIff(b: Bank, from: string, to: string, coins: seq<Coin>)
    requires from != to
    ensures MoveCoins(b, from, to, coins).Some? <==> Affordable(b, from, to, coins)
    ensures MoveCoins(b, from, to, coins).Some? ==>
              forall d :: Balance(MoveCoins(b, from, to, coins).value, from, d)
                          == Balance(b, from, d) - SumCoins(coins, d)
    ensures MoveCoins(b, from, to, coins).Some? ==>
              forall d :: Balance(MoveCoins(b, from, to, coins).value, to, d) == Balance(b, to, d) + SumCoins(coins, d)
  {
    hide Move, Balance, Affordable;
    if coins == [] {
      NothingToAfford(b, from, to);
    } else {
      var n := |coins| - 1;
      MoveCoinsIff(b, from, to, coins[..n]);
      AffordableMore(b, from, to, coins);
      var b1 := MoveCoins(b, from, to, coins[..n]);
      if b1.Some? {
        MoveIff(b1.value, from, to, coins[n].denom, coins[n].amount);
        if Move(b1.value, from, to, coins[n].denom, coins[n].amount).Some? {
          forall d
            ensures Balance(MoveCoins(b, from, to, coins).value, from, d) == Balance(b, from, d) - SumCoins(coins, d)
            ensures Balance(MoveCoins(b, from, to, coins).value, to, d) == Balance(b, to, d) + SumCoins(coins, d)
          {
            MoveBalance(b1.value, from, to, coins[n].denom, coins[n].amount, from, d);
            MoveBalance(b1.value, from, to, coins[n].denom, coins[n].amount, to, d);
          }
        }
      }
    }
  }

  lemma NothingToAfford(b: Bank, from: string, to: string)
    ensures Affordable(b, from, to, [])
  {
  }

  /** The contract holds, and the bank has issued, what the list burns in a denomination. */
  ghost predicate Burns(k: Contract, s: State, msgs: seq<Msg>, d: string) {
    BurnSum(msgs, d) <= Balance(s.bank, k.addr, d) && BurnSum(msgs, d) <= Supply(s.bank, d)
  }

  ghost predicate Burnable(k: Contract, s: State, msgs: seq<Msg>) {
    forall i :: 0 <= i < |msgs| && msgs[i].Burn? ==> Burns(k, s, msgs, msgs[i].denom)
  }

  ghost predicate OnlyBurns(msgs: seq<Msg>) { forall i :: 0 <= i < |msgs| ==> msgs[i].Burn? }

  lemma BurnableMore(k: Contract, s: State, msgs: seq<Msg>)
    requires msgs != [] && OnlyBurns(msgs)
    ensures var n := |msgs| - 1;
            Burnable(k, s, msgs) <==> Burnable(k, s, msgs[..n]) && Burns(k, s, msgs, msgs[n].denom)
  {
    hide Balance, Supply;
    var n := |msgs| - 1;
    if Burnable(k, s, msgs) {
      forall i | 0 <= i < n ensures Burns(k, s, msgs[..n], msgs[..n][i].denom) {
        assert Burns(k, s, msgs, msgs[i].denom);
      }
    }
    if Burnable(k, s, msgs[..n]) && Burns(k, s, msgs, msgs[n].denom) {
      forall i | 0 <= i < |msgs| ensures Burns(k, s, msgs, msgs[i].denom) {
        if i < n { assert Burns(k, s, msgs[..n], msgs[..n][i].denom); }
      }
    }
  }

  /** A list of burns executes if and only if, per denomination, it is covered as a whole. */
  lemma {:induction false} BurnsIff(k: Contract, s: State, msgs: seq<Msg>)
    requires OnlyBurns(msgs)
    ensures ExecAll(k, s, msgs).Some? <==> Burnable(k, s, msgs)
  {
    hide Balance, Supply, Burnable;
    if msgs == [] {
      NothingToBurn(k, s);
    } else {
      var n := |msgs| - 1;
      BurnsIff(k, s, msgs[..n]);
      BurnableMore(k, s, msgs);
      if ExecAll(k, s, msgs[..n]).Some? {
        ExecAllBalance(k, s, msgs[..n], msgs[n].denom);
        ExecAllSupply(k, s, msgs[..n], msgs[n].denom);
        BurnFlow(msgs[..n], k.addr, msgs[n].denom);
      }
    }
  }

  lemma NothingToBurn(k: Contract, s: State)
    ensures Burnable(k, s, [])
  {
  }

  lemma {:induction false} BurnFlow(msgs: seq<Msg>, self: string, d: string)
    requires OnlyBurns(msgs)
    ensures OutFlow(msgs, self, d) == BurnSum(msgs, d) && InFlow(msgs, self, d) == 0 && MintSum(msgs, d) == 0
  {
    if msgs != [] {
      BurnFlow(msgs[..|msgs| - 1], self, d);
    }
  }

  lemma {:induction false} EscrowOnlyBurns(k: Contract, e: Escrow, ep: Endpoint, wire: seq<Token>)
    ensures var r := ForTokens(k, Escrowing, e, ep, wire).1;
            r.Ok? ==> OnlyBurns(r.value)
  {
    hide Origin, MakeForeignDenom, Contract.FactoryDenom, Amounts;
    if wire != [] {
      EscrowOnlyBurns(k, e, ep, wire[..|wire| - 1]);
    }
  }

  lemma TransferOnlyBurns(k: Contract, s: Store, sender: string, funds: seq<Coin>, msg: TransferMsg)
    ensures var r := ExecuteTransfer(k, s, sender, funds, msg).1;
            r.Ok? ==> OnlyBurns(r.value.msgs)
  {
    hide ToCoins, AttachFees, NormalizeTokens, ForTokens, OnlyBurns;
    var r := ExecuteTransfer(k, s, sender, funds, msg).1;
    if r.Ok? {
      EscrowOnlyBurns(k, s.outstanding, s.channels[msg.channel].endpoint, r.value.packet.tokens);
    }
  }

  /** The bank has issued what the list burns. */
  ghost predicate Issued(b: Bank, msgs: seq<Msg>) {
    forall i :: 0 <= i < |msgs| && msgs[i].Burn? ==> BurnSum(msgs, msgs[i].denom) <= Supply(b, msgs[i].denom)
  }

  /** A user's transfer takes effect if and only if the user can pay it, nothing speaks against it, and the bank
      has issued the vouchers that it burns. Nothing else can make it fail. */
  lemma TransferTakesEffectIff(k: Contract, n: Node, sender: string, funds: seq<Coin>, msg: TransferMsg)
    requires Inv(k, n.state) && CleanCoins(k, funds) && sender != k.addr
    ensures var burns := ExecuteTransfer(k, n.state.store, sender, funds, msg).1;
            DoTransfer(k, n, sender, funds, msg).Some? <==>
            && Affordable(n.state.bank, sender, k.addr, funds)
            && Refusal(n.state.store, funds, msg).None?
            && burns.Ok? && Issued(n.state.bank, burns.value.msgs)
  {
    hide ExecuteTransfer, MoveCoins, ExecAll, Affordable, Refusal, Inv, CleanCoins, Supply, Balance, Ready;
    InvReady(k, n.state);
    MoveCoinsIff(n.state.bank, sender, k.addr, funds);
    TransferGoesOutIff(k, n.state.store, sender, funds, msg);
    TransferOnlyBurns(k, n.state.store, sender, funds, msg);
    var (store, r) := ExecuteTransfer(k, n.state.store, sender, funds, msg);
    var moved := MoveCoins(n.state.bank, sender, k.addr, funds);
    if r.Ok? && moved.Some? {
      var s := State(store, moved.value);
      BurnsIff(k, s, r.value.msgs);
      MoveCoinsSupply(n.state.bank, sender, k.addr, funds);
      forall i | 0 <= i < |r.value.msgs|
        ensures var d := r.value.msgs[i].denom;
                Burns(k, s, r.value.msgs, d) <==> BurnSum(r.value.msgs, d) <= Supply(n.state.bank, d)
      {
        var d := r.value.msgs[i].denom;
        HoldsBurnt(k, n.state, sender, funds, msg, d);
        SupplySame(n.state.bank, moved.value, d);
      }
    }
  }

  lemma HoldsBurnt(k: Contract, s: State, sender: string, funds: seq<Coin>, msg: TransferMsg, d: string)
    requires Inv(k, s) && CleanCoins(k, funds) && ExecuteTransfer(k, s.store, sender, funds, msg).1.Ok?
    ensures BurnSum(ExecuteTransfer(k, s.store, sender, funds, msg).1.value.msgs, d)
            <= Balance(s.bank, k.addr, d) + SumCoins(funds, d)
  {
    hide ExecuteTransfer, Index, KeysClean, CleanCoins, Balance;
    InvReady(k, s);
    TransferFlow(k, s.store, sender, funds, msg, d);
    TransferOnlyBurns(k, s.store, sender, funds, msg);
    BurnFlow(ExecuteTransfer(k, s.store, sender, funds, msg).1.value.msgs, k.addr, d);
  }
}
