/** Who is paid what: the messages that a delivery or a refund emits for a whole list of tokens pay every
    account exactly its share of their amounts. */
module Payouts {
  import opened Wrappers
  import opened Denoms
  import opened Fees
  import opened RelaySpec

  function PaidBy(m: Msg, to: string, denom: string): nat {
    match m
    case BankSend(account, d, amount) => if account == to && d == denom then amount else 0
    case Mint(d, amount, account) => if account == to && d == denom then amount else 0
    case _ => 0
  }

  function Paid(msgs: seq<Msg>, to: string, denom: string): nat {
    if msgs == [] then 0 else Paid(msgs[..|msgs| - 1], to, denom) + PaidBy(msgs[|msgs| - 1], to, denom)
  }

  lemma {:induction false} PaidConcat(a: seq<Msg>, b: seq<Msg>, to: string, denom: string)
    ensures Paid(a + b, to, denom) == Paid(a, to, denom) + Paid(b, to, denom)
  {
    if b == [] {
      assert a + b == a;
    } else {
      var n := |b| - 1;
      PaidConcat(a, b[..n], to, denom);
      assert (a + b)[..|a + b| - 1] == a + b[..n];
    }
  }

  lemma PaidOne(m: Msg, to: string, denom: string)
    ensures Paid([m], to, denom) == PaidBy(m, to, denom)
  {
  }

  lemma PaidPayments(m1: Msg, a1: nat, m2: Msg, a2: nat, to: string, denom: string)
    ensures Paid(Payments(m1, a1, m2, a2), to, denom)
            == (if a1 == 0 then 0 else PaidBy(m1, to, denom)) + (if a2 == 0 then 0 else PaidBy(m2, to, denom))
  {
    PaidConcat(if a1 == 0 then [] else [m1], if a2 == 0 then [] else [m2], to, denom);
    PaidOne(m1, to, denom);
    PaidOne(m2, to, denom);
  }

  // ---------------------------------------------------------------- deliveries

  /** The name a token of the packet has on this chain. */
  function NameHere(k: Contract, ch: ChannelInfo, denom: string): string {
    match Origin(denom, ch.counterparty)
    case Local(d) => d
    case Remote(d) => k.FactoryDenom(MakeForeignDenom(ch.endpoint, d))
  }

  /** The relayer's share of one token, rounded down. */
  function Share(t: Token): (r: nat)
    ensures r <= t.amount
  {
    ShareBound(t.amount, t.fee, U128_MAX);
    t.amount * t.fee / U128_MAX
  }

  /** What an account is due of one token: the relayer its share if fees are cut, the receiver the rest. */
  function Due(t: Token, cutFees: bool, receiver: string, relayer: string, to: string): nat {
    var fee := if cutFees then Share(t) else 0;
    (if to == receiver then t.amount - fee else 0) + (if to == relayer then fee else 0)
  }

  /** The split that the contract makes is this one, and not the other way around. */
  lemma CutIsShare(t: Token, cutFees: bool)
    ensures var fee := if cutFees then Share(t) else 0;
            Cut(cutFees, t).0 == t.amount - fee && Cut(cutFees, t).1 == fee
  {
  }

  function DueOf(k: Contract, ch: ChannelInfo, tokens: seq<Token>, cutFees: bool, receiver: string, relayer: string,
                 to: string, denom: string): nat
  {
    if tokens == [] then 0
    else
      var n := |tokens| - 1;
      DueOf(k, ch, tokens[..n], cutFees, receiver, relayer, to, denom)
      + (if NameHere(k, ch, tokens[n].denom) == denom then Due(tokens[n], cutFees, receiver, relayer, to) else 0)
  }

  /** A token that is received with its fees cut pays a relayer other than the receiver the share of the amount
      that the fee names, and the receiver all the rest; without, it pays the receiver all of it. */
  lemma TokenPaysDue(k: Contract, s: Store, ch: ChannelInfo, receiver: string, relayer: string, cutFees: bool, t: Token,
                     to: string, denom: string)
    requires ReceiveToken(k, s, ch, receiver, relayer, cutFees, t).1.Ok?
    ensures var r := ReceiveToken(k, s, ch, receiver, relayer, cutFees, t).1.value;
            && Paid(r.msgs, to, denom)
               == (if NameHere(k, ch, t.denom) == denom then Due(t, cutFees, receiver, relayer, to) else 0)
            && (to == relayer != receiver && denom == NameHere(k, ch, t.denom) ==>
                  Paid(r.msgs, to, denom) == if cutFees then t.amount * t.fee / U128_MAX else 0)
            && (to == receiver != relayer && denom == NameHere(k, ch, t.denom) ==>
                  Paid(r.msgs, to, denom) == t.amount - if cutFees then t.amount * t.fee / U128_MAX else 0)
            && r.tokens == [NormalizedToken(t.denom, t.(denom := NameHere(k, ch, t.denom)))]
  {
    CutIsShare(t, cutFees);
    hide Contract.FactoryDenom, MakeForeignDenom, Origin, Cut, Paid, Payments;
    var (actual, fee) := Cut(cutFees, t);
    match Origin(t.denom, ch.counterparty) {
      case Local(d) =>
        PaidPayments(BankSend(receiver, d, actual), actual, BankSend(relayer, d, fee), fee, to, denom);
      case Remote(d) =>
        var foreign := MakeForeignDenom(ch.endpoint, d);
        var voucher := k.FactoryDenom(foreign);
        var payments := Payments(Mint(voucher, actual, receiver), actual, Mint(voucher, fee, relayer), fee);
        PaidPayments(Mint(voucher, actual, receiver), actual, Mint(voucher, fee, relayer), fee, to, denom);
        CreationPaysNobody(k, s, ch.endpoint, foreign, to, denom);
        PaidConcat(Creation(k, s, ch.endpoint, foreign), payments, to, denom);
    }
  }

  predicate IsPayment(m: Msg) { m.BankSend? || m.Mint? }

  /** The payments of a token come last, the receiver's before the relayer's, and nobody is sent nothing. */
  lemma TokenPaysInOrder(k: Contract, s: Store, ch: ChannelInfo, receiver: string, relayer: string, cutFees: bool,
                         t: Token)
    requires ReceiveToken(k, s, ch, receiver, relayer, cutFees, t).1.Ok?
    ensures var msgs := ReceiveToken(k, s, ch, receiver, relayer, cutFees, t).1.value.msgs;
            var fee := if cutFees then Share(t) else 0;
            var payments := (if fee == t.amount then 0 else 1) + (if fee == 0 then 0 else 1);
            && payments <= |msgs|
            && (forall i :: 0 <= i < |msgs| ==> (IsPayment(msgs[i]) <==> i >= |msgs| - payments))
            && (fee < t.amount ==>
                  PaidBy(msgs[|msgs| - payments], receiver, NameHere(k, ch, t.denom)) == t.amount - fee)
            && (fee > 0 ==> PaidBy(msgs[|msgs| - 1], relayer, NameHere(k, ch, t.denom)) == fee)
  {
    CutIsShare(t, cutFees);
    hide Contract.FactoryDenom, MakeForeignDenom, Origin, Cut, Decrease, Share, Creation, Payments;
    var (actual, fee) := Cut(cutFees, t);
    match Origin(t.denom, ch.counterparty) {
      case Local(d) =>
        var pays := Payments(BankSend(receiver, d, actual), actual, BankSend(relayer, d, fee), fee);
        PaysLast([], BankSend(receiver, d, actual), actual, BankSend(relayer, d, fee), fee);
        assert [] + pays == pays;
      case Remote(d) =>
        var voucher := k.FactoryDenom(MakeForeignDenom(ch.endpoint, d));
        CreationIsNoPayment(k, s, ch.endpoint, MakeForeignDenom(ch.endpoint, d));
        PaysLast(Creation(k, s, ch.endpoint, MakeForeignDenom(ch.endpoint, d)), Mint(voucher, actual, receiver), actual,
                 Mint(voucher, fee, relayer), fee);
    }
  }

  lemma CreationIsNoPayment(k: Contract, s: Store, ep: Endpoint, foreign: string)
    ensures forall m :: m in Creation(k, s, ep, foreign) ==> !IsPayment(m)
  {
  }

  lemma PaysLast(front: seq<Msg>, m1: Msg, a1: nat, m2: Msg, a2: nat)
    requires (forall m :: m in front ==> !IsPayment(m)) && IsPayment(m1) && IsPayment(m2)
    ensures var msgs := front + Payments(m1, a1, m2, a2);
            var payments := (if a1 == 0 then 0 else 1) + (if a2 == 0 then 0 else 1);
            && |msgs| == |front| + payments
            && (forall i :: 0 <= i < |msgs| ==> (IsPayment(msgs[i]) <==> i >= |front|))
            && (a1 > 0 ==> msgs[|front|] == m1)
            && (a2 > 0 ==> msgs[|msgs| - 1] == m2)
  {
    hide IsPayment;
    assert forall i :: 0 <= i < |front| ==> front[i] in front;
  }

  lemma CreationPaysNobody(k: Contract, s: Store, ep: Endpoint, foreign: string, to: string, denom: string)
    ensures Paid(Creation(k, s, ep, foreign), to, denom) == 0
  {
    var creation := Creation(k, s, ep, foreign);
    if creation != [] {
      assert creation == [creation[0]] + [creation[1]];
      PaidConcat([creation[0]], [creation[1]], to, denom);
      PaidOne(creation[0], to, denom);
      PaidOne(creation[1], to, denom);
    }
  }

  /** A delivered token list pays every account exactly what it is due, per denomination, nothing else
      to anyone, and reports every token under the name it has here. */
  lemma {:induction false} DeliveryPaysExactly(k: Contract, s: Store, ch: ChannelInfo, receiver: string,
                                               relayer: string,
                                               cutFees: bool, tokens: seq<Token>, to: string, denom: string)
    requires ReceiveTokens(k, s, ch, receiver, relayer, cutFees, tokens).1.Ok?
    ensures var r := ReceiveTokens(k, s, ch, receiver, relayer, cutFees, tokens).1.value;
            && Paid(r.msgs, to, denom) == DueOf(k, ch, tokens, cutFees, receiver, relayer, to, denom)
            && |r.tokens| == |tokens|
            && (forall i :: 0 <= i < |tokens| ==>
                  r.tokens[i] == NormalizedToken(tokens[i].denom,
                    tokens[i].(denom := NameHere(k, ch, tokens[i].denom))))
  {
    hide NameHere, Due, ReceiveToken;
    if tokens != [] {
      var n := |tokens| - 1;
      DeliveryPaysExactly(k, s, ch, receiver, relayer, cutFees, tokens[..n], to, denom);
      var (s1, r1) := ReceiveTokens(k, s, ch, receiver, relayer, cutFees, tokens[..n]);
      TokenPaysDue(k, s1, ch, receiver, relayer, cutFees, tokens[n], to, denom);
      var (_, r2) := ReceiveToken(k, s1, ch, receiver, relayer, cutFees, tokens[n]);
      PaidConcat(r1.value.msgs, r2.value.msgs, to, denom);
    }
  }

  function AmountsOf(k: Contract, ch: ChannelInfo, tokens: seq<Token>, denom: string): nat {
    if tokens == [] then 0
    else
      var n := |tokens| - 1;
      AmountsOf(k, ch, tokens[..n], denom) + (if NameHere(k, ch, tokens[n].denom) == denom then tokens[n].amount else 0)
  }

  /** Receiver and relayer together get the amounts of the packet, nothing lost to rounding. */
  lemma {:induction false} DuesAddUp(k: Contract, ch: ChannelInfo, tokens: seq<Token>, cutFees: bool, receiver: string,
                                     relayer: string, denom: string)
    ensures DueOf(k, ch, tokens, cutFees, receiver, relayer, receiver, denom)
            + (if relayer == receiver then 0 else DueOf(k, ch, tokens, cutFees, receiver, relayer, relayer, denom))
            == AmountsOf(k, ch, tokens, denom)
  {
    hide NameHere, Share;
    if tokens != [] {
      DuesAddUp(k, ch, tokens[..|tokens| - 1], cutFees, receiver, relayer, denom);
    }
  }

  // ---------------------------------------------------------------- refunds

  /** The name under which a token left: its own, or that of the voucher that was burnt. */
  function NameSent(k: Contract, ep: Endpoint, denom: string): string {
    match Origin(denom, ep)
    case Local(d) => k.FactoryDenom(MakeForeignDenom(ep, d))
    case Remote(d) => d
  }

  function Returned(k: Contract, ep: Endpoint, tokens: seq<Token>, denom: string): nat {
    if tokens == [] then 0
    else
      var n := |tokens| - 1;
      Returned(k, ep, tokens[..n], denom) + (if NameSent(k, ep, tokens[n].denom) == denom then tokens[n].amount else 0)
  }

  lemma TokenRefunded(k: Contract, sender: string, e: Escrow, ep: Endpoint, t: Token, to: string, denom: string)
    requires ForToken(k, Refunding(sender), e, ep, t).1.Ok?
    ensures Paid(ForToken(k, Refunding(sender), e, ep, t).1.value, to, denom)
            == if to == sender && NameSent(k, ep, t.denom) == denom then t.amount else 0
  {
  }

  /** A refund that goes through pays the sender every amount in full, fees included, and nobody else. */
  lemma {:induction false} RefundPaysExactly(k: Contract, sender: string, e: Escrow, ep: Endpoint, tokens: seq<Token>,
                                             to: string, denom: string)
    requires ForTokens(k, Refunding(sender), e, ep, tokens).1.Ok?
    ensures Paid(ForTokens(k, Refunding(sender), e, ep, tokens).1.value, to, denom)
            == if to == sender then Returned(k, ep, tokens, denom) else 0
  {
    hide NameSent, ForToken;
    if tokens != [] {
      var n := |tokens| - 1;
      RefundPaysExactly(k, sender, e, ep, tokens[..n], to, denom);
      var (e1, r1) := ForTokens(k, Refunding(sender), e, ep, tokens[..n]);
      TokenRefunded(k, sender, e1, ep, tokens[n], to, denom);
      PaidConcat(r1.value, ForToken(k, Refunding(sender), e1, ep, tokens[n]).1.value, to, denom);
    }
  }
}
