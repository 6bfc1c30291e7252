# Formal model of the UCS01 relay, the galoisd light client and two service cores

This project models the parts of the Union repository whose correctness spans many functions or many
events, and proves their properties in Dafny. `dafny verify dfyconfig.toml` checks everything.

## The relay contract

`RelaySpec` says, for each entry point of the UCS01/ICS-20 relay, what it does to the contract's storage
and which messages it emits. Writes made before an error stay in the returned storage, because the
contract itself decides whether they survive: `receive` turns an error into a successful response that
carries a failure acknowledgement. `RelayContract.Relay` is the contract as an object whose fields are
the storage maps; each of its methods is proved to do what the specification says.

`Host` puts the contract on a chain: a bank, packet sequences, submessages with their replies, and
events (transfer, receive, acknowledgement, timeout, a new channel, and anything other accounts do). A
run is any sequence of events that take effect. The main results are about every run:

* `Reachable.ReachableInv`: the contract is solvent in every denomination and its denomination maps agree.
* `Admission`: exactly when a transfer goes out and with which error it does not (`TransferGoesOutIff`), when
  it takes effect on the chain (`TransferTakesEffectIff`), and exactly when a packet is paid out, forwarded or
  refused (`DeliveredIff`, `ForwardedIff`). Its condition on the storage, `Ready`, holds in every state of
  every run (`InvReady`).
* `Payable.DeliveryFailsIff`, `Payable.RefundFailsIff`: exactly when the chain cannot execute what passed the
  contract's checks.
* `Forwarding.ForwardingExactlyOnce`: every unsettled hop has an in-flight entry, and a received packet has
  one acknowledgement, or none and exactly one hop in flight.
* `Vouchers.VoucherRoundTrip`: a voucher can always go home as the token it stands for.
* `Payouts` and `HopFees`: who is paid what, by amount and account, and what a forwarded packet carries.

`Exchange`, `Effects` and `Stranding` measure each event from the outside: the packets it sends, the packets
it accepts or fails, and what it moves on the counters and the voucher supply of a channel. `Network` joins
two such contracts by a channel. Both ends take any events, have other channels to chains that are not
modelled, and forward packets over any of them. The main results are about every joint run:

* `Network.CrossChainSupply`: what one end owes plus what is stranded equals the vouchers of the other end
  plus what travels either way plus what was taken for hops that were not sent. `stranded` and `not sent`
  are sums over the packets of the run. Three kinds of failure strand amounts: a refused receive keeps off
  the counters what it released before the first token that did not pass (`Exchange.ReceivePasses`); a hop
  that the host does not send keeps what its receive released or minted; and a hop that fails or times out
  is refunded to the contract itself, while the origin refunds its own sender too
  (`Stranding.FailedHopStrands`, `Stranding.StrandedSources`).
* `Network.RefundPassesIff`: which refunds pass their checks.
* `Network.TimedOutHopPendsForever`: a packet whose hop timed out can stay pending at its sender for ever.

Hypotheses, all stated in `requires` clauses, in `Host.Allowed` or in `Network.Faithful`:

* The denominations in use do not collide under `hash_denom` (`Contract.Injective`). No function into 21
  bytes is injective on all strings, so the names in use are a parameter.
* No denomination of the bank starts with the contract's own `port/channel/`, and those in its factory
  namespace were created by it. Bank amounts fit in 256 bits. In `Network` and `Payable.DeliveryFailsIff`,
  channel identifiers hold no slash, as ICS-24 has it.
* The host delivers every packet once, settles a sent packet once, and runs the messages of a response in
  order with submessages undone on failure. A burn or a batch that fails while a packet is being forwarded
  is no submessage: the whole transaction is taken to abort, which leaves no acknowledgement and no trace.
* In `Network`, the host of each end delivers the packets that the other end sent, acknowledges them with
  what the other end wrote, and times out only packets that were not received.
* Acknowledgement codecs decode what they encode, and the plain text of the timeout message is no JSON
  acknowledgement.

Found on the way: the deferred answer to a timed-out hop is the plain text
`giving up on forwarded packet after timeout` when both channels speak the same version, which the origin
chain cannot decode (`Forwarding.DeferredTimeoutReadableIff`, `Network.TimedOutHopPendsForever`). And a
forward may name any port, but the entry of its hop is looked up under the contract's own: if the two
differ, the packet is never acknowledged (`Forwarding.ForeignPortNeverAcked`).

## The light client and its prover

* `Merkle`: the in-place, masked loops of `RootHash` compute the recursive tree of section 2.1 of RFC
  6962. The number of slots must be even or one, because the first level reads the slot after an even
  index; all callers comply.
* `LightClient`: the voting loop, the key aggregation and the threshold. The mask does not stay at zero
  past the validators but alternates, and the slots and the bitmap are the prover's. So acceptance implies
  the threshold over the committed validators for all witnesses if and only if at most one slot is left over
  (`AcceptanceBindsIff`); with more, a slot past the validators can outweigh them (`TailOutweighs`). Where no
  admitted slot past the validators has power or a bit, as `MarshalValidators` builds them, acceptance is
  exactly the threshold (`ThresholdExact`, `PaddedThreshold`). The addition of keys is partial, as in the
  source, where equal or opposite points leave the slope free.
* `Encoding`, over `Positional`: bit and byte packing, and exactly when the circuit and the server hash
  the same bytes. The server writes the magnitude of an integer and hashes the chain identifier of the
  vote; the circuit sees a residue and the header's identifier.
* `HeaderHash`: the block hash written out from the fields of the header, and of two headers with one block
  hash, comparing their trees finds two different inputs with one hash, one hashed for each header.
  `Merkle.RootBindsValues` does it for lists of any two lengths, which matters because the number of
  validators is the prover's (`LightClient.CommitmentBinds`).
* `Fields`, `Curve`: the affine formulas over any field. `Curve.IsSum` is the chord-and-tangent law that
  `Add` and `Double` are proved to compute; the fused step is two additions.
* `Groups`, `AdditionChain`: the multiplication by the BN254 seed in any abelian group, and, for points of
  larger order, that the affine formulas stay in their domain.
* `Extension`, `Svdw`: the quadratic extension is a ring, and the algebra of the map over any ring.
* `MapToCurve`: the map of appendix F.1 of RFC 9380 with concrete field arithmetic and the prover's hints as
  free values. Its three candidates are stated as the solutions of their equations (`CandidatesIff`), and
  the curve equation takes values at them whose product is a square (`CandidateProduct`). The limbs of a
  hint are constrained to 254 bits, and the sign gadget reads their parity as they are. Its test for zero
  asserts that the first coordinate of the root is below the prime, so the root can be misread only when
  that coordinate is zero.
* `HashToField`: the element that is mapped is a sum with a remainder which is constrained to 254 bits as
  well, and for which the test for zero asserts nothing. The sign read from it is that of its value for all
  remainders under a condition on the hashed bytes (`HashBindsSignIff`), and `OtherRemainderFlips` shows
  what happens otherwise. `HashOutputsExactly` puts the two together.
* `ProverJobs`: `Poll` as a state machine whose steps are the atomic accesses to the counter and the map. A call
  is turned away only when the maximum of jobs runs (`RejectedOnlyWhenFull`), and below it a call can run to
  its end (`ProvesWhenFree`).

## Two service cores

* `Indexer`: the block indexer against an arbitrary provider, arbitrary grouping of ready results and
  arbitrary commit failures.
* `Keyring`: the signer pool under any interleaving of tasks, first in, first out.

## Model

| member | source | states |
|---|---|---|
| Denoms.OriginLocalIff | cosmwasm/ucs01-relay-api/src/types.rs:403-428 | a denomination is `Local(d)` for an endpoint if and only if it is `make_foreign_denom(endpoint, d)` |
| Denoms.OriginOfForeign | cosmwasm/ucs01-relay-api/src/types.rs:403-428 | classifying a denomination made for an endpoint gives back `Local` with the original name, for every endpoint and name |
| Denoms.ForeignDenomInjective | cosmwasm/ucs01-relay-api/src/types.rs:403-405 | two names made foreign for one endpoint are equal only if the names are |
| Denoms.ForeignDenomSeparatesEndpoints | cosmwasm/ucs01-relay-api/src/types.rs:403-405 | when ports and channels hold no slash, a wire name determines its endpoint and its denomination |
| Denoms.ForeignDenomSeparatesChannels | cosmwasm/ucs01-relay-api/src/types.rs:403-405 | on one port, whatever it is, slash-free channels never share a wire name |
| Denoms.UnhexHex | cosmwasm/ucs01-relay/src/protocol.rs:238-240 | decoding the hexadecimal form of a hash gives the hash back, and the form has two digits a byte |
| Denoms.HexUnhex | cosmwasm/ucs01-relay/src/protocol.rs:310-349 | re-encoding a decoded factory suffix gives it back if and only if it holds no upper-case digit |
| Denoms.Contract.FactoryDenomInjective | cosmwasm/ucs01-relay/src/protocol.rs:437-446 | vouchers of different names in use differ |
| Denoms.Contract.VoucherHashOfFactory | cosmwasm/ucs01-relay/src/protocol.rs:310-349 | the factory prefix of this contract is recognised in each of its vouchers and leaves exactly the hash |
| Fees.Amounts | cosmwasm/ucs01-relay-api/src/types.rs:90-97 | the split never underflows, conserves the amount, and takes nothing when the fee is zero |
| Fees.PercentFeeBounds | cosmwasm/ucs01-relay-api/src/types.rs:90-114 | for every amount and every percentage the fee is the rounded-down share or one unit less |
| Fees.PercentFeeExact | cosmwasm/ucs01-relay-api/src/types.rs:102-114 | the fee is the rounded-down share on every amount if and only if the percentage is a multiple of 20 |
| Fees.WidthOfCounters | cosmwasm/ucs01-relay/src/state.rs:128-136 | counters have 512 bits |
| RelayContract.Relay.constructor | cosmwasm/ucs01-relay/src/contract.rs:33-65 | a new contract has empty storage maps, but for the channel it may be given, which is saved under the contract's own port |
| RelayContract.Relay.IncreaseOutstanding | cosmwasm/ucs01-relay/src/protocol.rs:262-294 | one counter grows by the amount, or overflows 512 bits and nothing changes |
| RelayContract.Relay.DecreaseOutstanding | cosmwasm/ucs01-relay/src/protocol.rs:262-308 | a missing counter and a too small one are different errors; otherwise exactly that counter shrinks |
| RelayContract.Relay.HandleLocal | cosmwasm/ucs01-relay/src/protocol.rs:600-660 | exactly one counter moves, up on sending and down on refunding, by the amount, and a refund pays its receiver that amount and nobody else; an error changes nothing |
| RelayContract.Relay.Execute | cosmwasm/ucs01-relay/src/protocol.rs:559-598 | the loop over the tokens leaves the escrow and the messages of the specification, also when it stops at an error half way |
| RelayContract.Relay.ReceiveOne | cosmwasm/ucs01-relay/src/protocol.rs:382-496 | with fees cut, the relayer is paid the amount times the fee over 2^128 - 1, rounded down, and the receiver the rest; without, the receiver is paid it all; under the local name of the token and to nobody else; and the total owed falls by the amount of a local token and by nothing for a foreign one |
| RelayContract.Relay.ReceivePhase1Transfer | cosmwasm/ucs01-relay/src/protocol.rs:366-497 | the whole list, with the writes made before an error kept |
| RelayContract.Relay.SendPacket | cosmwasm/ucs01-relay-api/src/protocol.rs:185-233 | a packet that goes out has the sender, receiver and memo given and carries the tokens given with their amounts and fees, one of them without a fee on an ICS-20 channel; each counter of the channel grows by exactly what it carries in that denomination, all others staying |
| RelayContract.Relay.HandleTransfer | cosmwasm/ucs01-relay/src/contract.rs:112-175 | in the states that runs reach and for funds the bank can hold, a transfer goes out if and only if no nonzero coin repeats a denomination, some coin is nonzero, the channel is known and, if it is for ICS-20, there is one nonzero coin whose named fee is 0; otherwise it is the error of the first of these checks that fails and the escrow stays. It goes over the channel named, from the sender to the receiver named, with the memo given, and escrow and burns account for all the funds |
| RelayContract.Relay.Remap | cosmwasm/ucs01-relay-api/src/protocol.rs:453-466 | the fee map is rewritten token by token as the specification folds it |
| RelayContract.Relay.PacketForwardHop | cosmwasm/ucs01-relay-api/src/protocol.rs:435-482 | a hop takes off the incoming channel exactly what arrived and adds to the outgoing one exactly what it sends, from the contract to the next receiver, with the packet recorded as its origin |
| RelayContract.Relay.OnReceive | cosmwasm/ucs01-relay-api/src/protocol.rs:369-420 | a packet with a forwarding memo is never paid out: it is forwarded, over the channel, to the receiver and with the memo that it names, if and only if its tokens pass and nothing speaks against the onward transfer, and refused otherwise. Without a memo it is never forwarded: it is paid out if and only if its tokens pass, counters falling by exactly what they carry and every account being paid exactly what it is due |
| RelayContract.Relay.Register | cosmwasm/ucs01-relay/src/contract.rs:80-101 | both directions of the index are written together |
| RelayContract.Relay.SettlePacket | cosmwasm/ucs01-relay-api/src/protocol.rs:235-354 | the in-flight entry goes and its origin is answered; a success moves nothing; a failure lowers the counters by what the packet carries and repays its sender alone, in full |
| RelayContract.Relay.OnAcknowledge | cosmwasm/ucs01-relay-api/src/protocol.rs:235-313 | an undecodable acknowledgement is an error that changes nothing; a success moves nothing; a failure refunds in full |
| RelayContract.Relay.OnTimeout | cosmwasm/ucs01-relay-api/src/protocol.rs:315-354 | a timeout refunds in full and clears the in-flight entry |
| RelayContract.StopsAt | cosmwasm/ucs01-relay/src/protocol.rs:559-598 | an error on a prefix of the tokens is the outcome of the whole list |
| RelayContract.MessagesInOrder | cosmwasm/ucs01-relay/src/protocol.rs:559-598 | the messages of a list come in the order of its tokens |
| RelayContract.DeliveryInOrder | cosmwasm/ucs01-relay/src/protocol.rs:366-497 | the messages of a delivery come in the order of its tokens |
| Payouts.TokenPaysDue | cosmwasm/ucs01-relay/src/protocol.rs:382-496 | one received token pays, under the name it has here, a relayer other than the receiver the amount times the fee over 2^128 - 1, rounded down, when fees are cut and nothing otherwise; the receiver all the rest; and nobody else |
| Payouts.TokenPaysInOrder | cosmwasm/ucs01-relay/src/protocol.rs:396-491 | the payments of a token come after all its other messages, the receiver's before the relayer's, and there is none of amount zero |
| Payouts.DeliveryPaysExactly | cosmwasm/ucs01-relay/src/protocol.rs:366-497 | a delivered list pays every account, per denomination, exactly the sum of these parts and reports every token under its local name |
| Payouts.DuesAddUp | cosmwasm/ucs01-relay-api/src/types.rs:90-97 | receiver and relayer together are due the amounts of the packet |
| Payouts.RefundPaysExactly | cosmwasm/ucs01-relay/src/protocol.rs:638-677 | a refund pays the sender every amount in full, fees included, and nobody else |
| HopFees.RemapMovesFees | cosmwasm/ucs01-relay-api/src/protocol.rs:453-466 | each fee moves from the name its token arrived with to the name it has here, whatever else the fee map holds, as long as no token takes the name of a later one; all other entries stay |
| HopFees.FeesFollowIff | cosmwasm/ucs01-relay-api/src/protocol.rs:453-466 | every token finds its fee under its new name if and only if no token with a fee takes the name of a later one, and no token without a fee takes a name whose fee stays |
| HopFees.BeforeIff | cosmwasm/ucs01-relay/src/contract.rs:119-123 | the order of denominations is lexicographic: the first difference decides, and a proper beginning comes first |
| HopFees.CoinsOrdered | cosmwasm/ucs01-relay/src/contract.rs:119-123 | the coins of a transfer are the nonzero ones, all of them, ordered by denomination |
| HopFees.TransferCarries | cosmwasm/ucs01-relay/src/contract.rs:112-175 | a transfer puts on the wire its nonzero coins, ordered by denomination, each with its amount and the fee named for it |
| HopFees.HopCarriesAmountsAndFees | cosmwasm/ucs01-relay-api/src/protocol.rs:435-482 | a forwarded packet carries, from the contract to the next receiver, exactly the nonzero amounts that arrived, each with the fee the memo named for it |
| Admission.ToCoinsIff | cosmwasm/ucs01-relay/src/contract.rs:119-123 | funds are refused for a denomination that two nonzero coins share, and for nothing else |
| Admission.EscrowOkIff | cosmwasm/ucs01-relay/src/protocol.rs:559-614 | escrowing a list fails, as an overflow, if and only if some counter has no room for the sum that the list carries in its denomination |
| Admission.TransferOutcome | cosmwasm/ucs01-relay/src/contract.rs:112-175 | in every storage whose indexes agree, for clean funds, a transfer is the error of the first check that fails, or an overflow if a counter has no room, and goes out otherwise |
| Admission.TransferGoesOutIff | cosmwasm/ucs01-relay-api/src/types.rs:363-391 | in the storages that runs reach there is room: a transfer goes out if and only if no check fails; an ICS-20 channel admits one nonzero coin whose fee is 0, a UCS01 channel any |
| Admission.TransferAddresses | cosmwasm/ucs01-relay/src/contract.rs:112-175 | what goes out has the channel, sender, receiver and memo given, and is one token without a fee on an ICS-20 channel |
| Admission.ForwardedIff | cosmwasm/ucs01-relay-api/src/protocol.rs:369-482 | a packet whose memo asks for a forward is never paid out; it is forwarded if and only if all its tokens pass and nothing speaks against the transfer of the coins they are here, and the hop has the channel, receiver and memo that the memo names and the contract as its sender; otherwise it is refused |
| Admission.DeliveredIff | cosmwasm/ucs01-relay-api/src/protocol.rs:369-433 | a packet without a memo is never forwarded; it is paid out if and only if all its tokens pass; one that does not decode is refused and changes nothing |
| Admission.TransferTakesEffectIff | cosmwasm/ucs01-relay/src/contract.rs:112-175 | on the chain, a user's transfer takes effect if and only if the user can pay the coins per denomination, no check fails, and the bank has issued the vouchers that it burns |
| Solvency.ExecAllBalance | cosmwasm/ucs01-relay/src/protocol.rs:250-260 | executing a batch changes the contract's balance by exactly the flow of its messages |
| Solvency.ReceiveReleases | cosmwasm/ucs01-relay/src/protocol.rs:366-497 | a receive only ever lowers what is owed, and pays out at most what it released, error or not |
| Solvency.ReceiveLocalReleases | cosmwasm/ucs01-relay/src/protocol.rs:396-436 | a release lowers the total owed by the amount and pays it out except for what the contract pays itself |
| Solvency.FlowOfMint | cosmwasm/ucs01-relay/src/protocol.rs:437-491 | minting a foreign token takes nothing out of the contract's account |
| Solvency.HopReceiveKeeps | cosmwasm/ucs01-relay-api/src/protocol.rs:435-482 | what a hop receives on the contract's account is, per denomination, exactly what the hop sends on |
| Solvency.ExecAllKeepsIndex | cosmwasm/ucs01-relay/src/contract.rs:80-101 | executing any batch of registrations keeps the two indexes inverse of each other |
| Solvency.NormalizeSound | cosmwasm/ucs01-relay/src/protocol.rs:310-349 | a normalised voucher of this channel burns as that very voucher; every other coin escrows as itself |
| Solvency.EscrowExact | cosmwasm/ucs01-relay/src/protocol.rs:559-614 | sending raises each counter by exactly what the packet carries in that denomination |
| Solvency.EscrowFlow | cosmwasm/ucs01-relay/src/protocol.rs:559-636 | what a send escrows and burns adds up, per denomination, to the coins it was given |
| Solvency.RefundFlow | cosmwasm/ucs01-relay/src/protocol.rs:638-677 | what a refund takes out of an account other than its receiver's is exactly what it takes off the counters |
| Solvency.TransferFlow | cosmwasm/ucs01-relay/src/contract.rs:112-175 | a transfer never panics on clean funds, an error leaves the storage as it was, and a success owes and burns exactly its funds |
| Reachable.StepKeepsInv | cosmwasm/ucs01-relay-api/src/protocol.rs:185-482 | every event keeps the contract solvent and its indexes in agreement |
| Reachable.HopFlow | cosmwasm/ucs01-relay/src/protocol.rs:139-207 | a prepared hop neither creates nor loses value: owed, burnt and minted amounts balance |
| Reachable.ReachableInv | cosmwasm/ucs01-relay/src/protocol.rs:262-308 | in every state of every run, with forwards, refused receives, failed hops and refunds, the total owed in a denomination is at most the contract's balance, and the denomination maps are inverse, hashed right and prefixed right |
| Reachable.PayoutsCovered | cosmwasm/ucs01-relay/src/protocol.rs:531-540 | in every reachable state the contract holds what such a delivery or refund pays out on top of all it still owes |
| Reachable.NeverShort | cosmwasm/ucs01-relay/src/protocol.rs:250-260 | a batch whose transfers the contract's balances cover fails only at a message the chain blocks: a recipient that overflows, or a voucher missing or existing already |
| Reachable.BlockedFails | cosmwasm/ucs01-relay/src/protocol.rs:250-260 | a blocked message, wherever it stands, makes the whole batch fail |
| Payable.RegisteredIsCreated | cosmwasm/ucs01-relay/src/protocol.rs:437-491 | over every run the registered vouchers are exactly those created in the token factory, each under a channel of the contract |
| Payable.DeliveryFailsIff | cosmwasm/ucs01-relay/src/protocol.rs:366-497 | in every reachable state a delivery that passes the escrow checks fails to execute if and only if a recipient overflows or two tokens of the packet stand for one voucher that is not registered yet |
| Payable.RefundFailsIff | cosmwasm/ucs01-relay/src/protocol.rs:638-677 | in every reachable state a refund of an unsettled packet that passes the escrow checks fails to execute if and only if its sender overflows |
| Reachable.RejectedAck | cosmwasm/ucs01-relay-api/src/protocol.rs:235-313 | an acknowledgement that does not decode aborts and the packet stays pending |
| Forwarding.StepKeepsForward | cosmwasm/ucs01-relay/src/protocol.rs:52-207 | every event keeps the in-flight map and the acknowledgements consistent |
| Forwarding.ForwardingExactlyOnce | cosmwasm/ucs01-relay/src/ibc.rs:44-115 | over every run, whatever ports the forwards name: a received packet has one acknowledgement, or none and exactly one hop in flight; every unsettled hop has an entry |
| Forwarding.OwnPortTracksExactly | cosmwasm/ucs01-relay/src/protocol.rs:139-207 | when all forwards name the contract's own port, the in-flight map holds exactly the keys of the unsettled hops |
| Forwarding.ForeignPortNeverAcked | cosmwasm/ucs01-relay/src/protocol.rs:39-50 | a packet whose forward names another port and whose hop went out is unacknowledged in every later state of the run |
| Forwarding.HopIsFoundIff | cosmwasm/ucs01-relay/src/protocol.rs:39-50 | the entry saved for a hop is the one its settlement looks up if and only if the forward named the port of the channel |
| Forwarding.SettleTellsOrigin | cosmwasm/ucs01-relay/src/protocol.rs:52-137 | a settlement that finds an entry writes exactly one acknowledgement, for its origin, converted to the origin's version; otherwise none; under the own port it finds one if and only if the packet is a hop |
| Forwarding.Ucs01AckIff | cosmwasm/ucs01-relay-api/src/types.rs:317-357 | on a UCS01 channel exactly two acknowledgements decode: the byte 1, a success, and the byte 0, a failure |
| Forwarding.DeferredAckPolarity | cosmwasm/ucs01-relay/src/protocol.rs:1079-1096 | for every pair of versions the origin decodes what it is told, with the polarity of the hop's acknowledgement |
| Forwarding.DeferredTimeoutReadableIff | cosmwasm/ucs01-relay-api/src/protocol.rs:315-354 | the origin can read the deferred answer to a timed-out hop if and only if the two channels speak different versions |
| Vouchers.SendBack | cosmwasm/ucs01-relay/src/protocol.rs:310-349 | a registered voucher sent back burns exactly itself, and the other chain sees its own token |
| Vouchers.DeliveryRegisters | cosmwasm/ucs01-relay/src/protocol.rs:437-491 | a delivery that succeeds leaves every foreign token registered |
| Vouchers.StepGrows | cosmwasm/ucs01-relay/src/contract.rs:80-101 | no event ever unregisters a voucher |
| Vouchers.VoucherRoundTrip | cosmwasm/ucs01-relay/src/protocol.rs:569-590 | at any later point of a run the holder of a received voucher can send it back: the minted voucher is burnt and the origin classifies the wire name as local with its original name |
| Exchange.RefundOkIff | cosmwasm/ucs01-relay/src/protocol.rs:638-660 | a refund of a list passes its checks if and only if each escrowed denomination has a counter that covers the sum of the list |
| Exchange.RefundExact | cosmwasm/ucs01-relay/src/protocol.rs:638-677 | a refund takes off each counter of its channel exactly what the wire tokens carry, and touches no other |
| Exchange.ReceiveReleasesLocal | cosmwasm/ucs01-relay/src/protocol.rs:396-436 | a receive releases exactly what the tokens carry under the local wire name, on its own channel alone |
| Exchange.ReceiveShrinks | cosmwasm/ucs01-relay/src/protocol.rs:366-497 | a receive only lowers counters, and only those of its channel, also when it stops at an error half way |
| Exchange.PassingIsFirst | cosmwasm/ucs01-relay/src/protocol.rs:262-308 | the number of tokens that pass is the index of the first one whose counter does not cover it together with those of its denomination before it |
| Exchange.ReceivePasses | cosmwasm/ucs01-relay/src/protocol.rs:366-497 | a receive succeeds if and only if all tokens pass, and in every case releases exactly those before the first that does not |
| Exchange.ReceiveMints | cosmwasm/ucs01-relay/src/protocol.rs:437-491 | a receive mints of every voucher exactly what the tokens carry under the name it stands for |
| Exchange.ForTokensVouchers | cosmwasm/ucs01-relay/src/protocol.rs:559-598 | sending burns of every voucher, and refunding mints of it, exactly what the wire tokens carry under its name if it belongs to the channel, and nothing otherwise |
| Effects.EffectShown | cosmwasm/ucs01-relay/src/protocol.rs:52-207 | every event shows the other ends exactly its effect: which packet leaves, and which received packet is answered with what polarity, at once or when its hop is settled |
| Effects.HopEffectIff | cosmwasm/ucs01-relay-api/src/protocol.rs:369-482 | in every state that runs reach a forward is sent on by the host, over the channel its memo names, if and only if its tokens pass, no check of the onward transfer fails and the host sends it; a packet without a memo never is |
| Effects.AlwaysOnWire | cosmwasm/ucs01-relay/src/protocol.rs:262-308 | over every run each packet that is not settled stands for registered vouchers, the counters its refund needs are never missing, and on an ICS-20 channel it carries one token without a fee |
| Stranding.CountersBalance | cosmwasm/ucs01-relay/src/protocol.rs:262-308 | every event, forwards included, moves each counter of each channel by what is sent and what is accepted over it, up to the tokens that a refused receive released before it stopped, those of a failed hop, and those taken for an unsent hop |
| Stranding.VouchersBalance | cosmwasm/ucs01-relay/src/protocol.rs:437-491 | every event, forwards included, moves the supply of each voucher by what is accepted and what is sent back over its channel, up to what was minted for a failed hop and burnt for an unsent one |
| Stranding.StrandedSources | cosmwasm/ucs01-relay-api/src/protocol.rs:249-335 | stranded amounts never shrink and grow only by a refused receive, a hop the host does not send, or a hop that fails or times out, each on the channel the packet came in on |
| Stranding.FailedHopStrands | cosmwasm/ucs01-relay/src/protocol.rs:52-137 | settling a hop as failed leaves the counter of the incoming channel reduced, pays the refund to the contract alone, and answers the origin with one failure |
| Stranding.FailedHopStrandsItsRelease | cosmwasm/ucs01-relay/src/protocol.rs:396-436 | over a run, what receiving a packet took off its channel's counter for a hop over another channel is exactly what is stranded when that hop fails |
| Network.OutgoingFollows | cosmwasm/ucs01-relay-api/src/protocol.rs:185-233 | every event at one end changes what travels from it by what it sends, less what it learns has failed |
| Network.IncomingFollows | cosmwasm/ucs01-relay-api/src/protocol.rs:369-420 | every event at one end changes what travels to it by what it accepts, less what turns out to fail with its hop |
| Network.AlwaysJoined | cosmwasm/ucs01-relay/src/ibc.rs:44-115 | over every joint run a packet that one end is forwarding stays pending, with the same data, at the end that sent it |
| Network.CrossChainSupply | cosmwasm/ucs01-relay/src/protocol.rs:262-308 | in every state of every joint run of two ends of a channel, with forwards over any channels at both and other channels to elsewhere, for every denomination native to either end: owed plus stranded equals the other end's vouchers plus what travels either way plus what was taken for hops not sent |
| Network.RefundPassesIff | cosmwasm/ucs01-relay-api/src/protocol.rs:235-354 | in every such state an unsettled packet can be refunded if and only if, for each denomination it escrowed, what is stranded is at most the rest of the backing |
| Network.RefundPasses | cosmwasm/ucs01-relay-api/src/protocol.rs:235-354 | while nothing is stranded every packet that the other end has not accepted can be refunded |
| Network.UnreadableForever | cosmwasm/ucs01-relay-api/src/protocol.rs:235-313 | a packet whose acknowledgement does not decode is pending in every later state of the joint run |
| Network.TimedOutHopPendsForever | cosmwasm/ucs01-relay-api/src/protocol.rs:315-354 | when a hop times out over a channel of the version its packet came in on, the sender of the packet cannot read the answer, and the packet is pending there in every later state of the joint run |
| Merkle.SplitIsPower | galoisd/pkg/merkle/api.go:49-76 | the split point of the recursive tree is a power of two, below the size and at least half of it |
| Merkle.LevelKeepsTreeHash | galoisd/pkg/merkle/api.go:58-71 | hashing one level in pairs, with the orphan promoted, does not change the recursive tree hash |
| Merkle.WidthIsCeilDiv | galoisd/pkg/merkle/api.go:61 | the bound of the inner loop at level i is the slot count divided by 2^i, rounded up |
| Merkle.HashLevel | galoisd/pkg/merkle/api.go:58-71 | one pass, in place: the first slots hold the next level and the size is halved, rounding up, all accesses in bounds |
| Merkle.RootHash | galoisd/pkg/merkle/api.go:52-76 | for every even or single slot count and every size up to it, the in-place loops return the tree hash of section 2.1 of RFC 6962 over the first slots, whatever fills the others |
| Merkle.RootBindsValues | galoisd/pkg/merkle/api.go:18-76 | of two different lists of values with one root, of whatever lengths, walking the two trees finds two different things with one hash, each hashed in its own tree: two values, two pairs, or a value and a pair |
| LightClient.MaskClosedForm | galoisd/pkg/lightclient/common.go:84-122 | the mask counts down to zero and then alternates between 1 and 0 |
| LightClient.MaskExactIff | galoisd/pkg/lightclient/common.go:84-122 | the mask admits exactly the first slots if and only if at most one slot is left over |
| LightClient.Aggregation.constructor | galoisd/pkg/bls/api.go:52-55 | the aggregate starts from the placeholder point with a count of zero |
| LightClient.Aggregation.Aggregate | galoisd/pkg/bls/api.go:55-70 | after each call the count is the number of selected keys, and the aggregate is their group sum whenever adding them one by one stays in the domain of the addition formula |
| LightClient.Verify | galoisd/pkg/lightclient/common.go:69-170 | the loop accepts only witnesses that meet the declarative conditions, all of them unless an addition is unsatisfiable, and returns the sum of the selected keys while the additions are in their domain |
| LightClient.CommitmentBinds | galoisd/pkg/lightclient/common.go:69-170 | two witnesses for one root commit to the same values and the same number of validators, or walking their trees finds such a clash |
| LightClient.ThresholdExact | galoisd/pkg/lightclient/common.go:157-167 | when no admitted slot past the validators has power or a bit, acceptance is exactly: as many signers as claimed among the committed validators, at least the fraction of their power, no wrap-around, and the root of exactly these validators |
| LightClient.FullSlotsAreQuiet | galoisd/pkg/lightclient/common.go:84-122 | with at most one slot left over this holds whatever fills the slots |
| LightClient.TailOutweighs | galoisd/pkg/lightclient/common.go:113-167 | with two slots or more left over, every validator set has an accepted witness for its own root that none of its validators signed |
| LightClient.AcceptanceBindsIff | galoisd/pkg/lightclient/common.go:69-170 | for all witnesses, acceptance means the threshold over the committed validators if and only if at most one slot is left over |
| LightClient.PaddedThreshold | galoisd/grpc/server.go:78-115 | inputs padded as the server builds them are accepted exactly when they meet the threshold, for any number of validators |
| LightClient.QuorumsIntersect | galoisd/pkg/lightclient/common.go:160-163 | two signer sets accepted at 2/3 for one validator set, with quiet tails, share at least a third of its power |
| LightClient.MarshalValidators | galoisd/grpc/server.go:78-113 | the slots start with the validators and are padded for every bitmap with no bit past them |
| Encoding.Unpack | galoisd/pkg/lightclient/common.go:44-56 | the limbs of a variable are its digits in the limb base; the constraint is unsatisfiable exactly when the variable does not fit the given bits |
| Encoding.Repack | galoisd/pkg/lightclient/common.go:59-66 | each limb is the value of its group of bits in the field |
| Encoding.RebuildCoordinate | galoisd/pkg/lightclient/common.go:97-111 | the four rebuilt limbs denote the hashed coordinate with bit 253 replaced |
| Encoding.CoordinateRoundTrip | galoisd/pkg/lightclient/common.go:97-111 | taking bit 253 out of a 254-bit coordinate and putting it back is the identity |
| Encoding.ReverseInPlace | galoisd/pkg/lightclient/header.go:80-90 | the slice is reversed in place |
| Encoding.UnpackVariable | galoisd/pkg/lightclient/header.go:80-90 | the bytes are the 32-byte big-endian notation of the variable |
| Encoding.BigEndianAt | galoisd/pkg/lightclient/header.go:80-90 | the byte at a position is the digit of its weight, most significant first |
| Encoding.UnpackHash | galoisd/pkg/lightclient/header.go:92-118 | head and tail come back as one byte string, or the bit decomposition is unsatisfiable |
| Encoding.UnpackUncons | galoisd/grpc/server.go:194-199 | `unpackHash` of `uncons` of a 32-byte hash is the hash |
| Encoding.GetInputsBytes | galoisd/grpc/server.go:201-224 | the buffer the server hashes, or a panic when a number does not fit 32 bytes |
| Encoding.InputsBytes | galoisd/pkg/lightclient/header.go:133-149 | the bytes the circuit hashes |
| Encoding.WordAt | galoisd/grpc/server.go:201-222 | each number is at its own 32-byte offset |
| Encoding.ServerLayout | galoisd/grpc/server.go:201-222 | the server hashes, each in 32 bytes, the chain identifier of the vote, height, seconds, nanoseconds and the two validator roots, then the application hash as it is, then the trusted root |
| Encoding.CircuitLayout | galoisd/pkg/lightclient/header.go:133-149 | the circuit hashes the same layout with the chain identifier of the header, numbers as field elements and the application hash put together from its two parts |
| Encoding.EncodersAgreeIff | galoisd/grpc/server.go:201-227 | server and circuit hash the same bytes if and only if integers are not negative, MiMC hashes are canonical, the application hash has 32 bytes and the vote's chain identifier is the header's |
| Encoding.VerifyInputs | galoisd/pkg/lightclient/header.go:120-131 | the public input is accepted if and only if it agrees with the hash on all bytes but the first |
| Encoding.TruncationMatches | galoisd/grpc/server.go:223-227 | the input the server computes by dropping the first byte is accepted |
| HeaderHash.HashTree | galoisd/pkg/lightclient/header.go:183-186 | leaves hashed in place and then the tree in place give the root over the original values |
| HeaderHash.HashUncons | galoisd/pkg/lightclient/header.go:153-162 | a split hash enters the header tree as the root of its two halves |
| HeaderHash.BlockHash | galoisd/pkg/lightclient/header.go:151-187 | the block hash is the tree hash over the eighteen fields in their order |
| HeaderHash.BlockHashWrittenOut | galoisd/pkg/lightclient/header.go:151-187 | the block hash written out node by node from the fields of the header, a split hash entering as the hash of the pair of its halves |
| HeaderHash.BlockHashBinds | galoisd/pkg/lightclient/header.go:151-187 | of two different headers with one block hash, comparing their trees finds two different inputs with one hash, one hashed while computing each block hash |
| Curve.LineMeetsCurve | galoisd/pkg/emulated/g2.go:309-331 | a chord or tangent meets the curve exactly at its two points and at the abscissa of the sum, as a polynomial identity |
| Curve.AddIsChordLaw | galoisd/pkg/emulated/g2.go:309-331 | `Add` is the chord law: the line passes through both points, the sum is the reflected third intersection, and it is on the curve |
| Curve.DoubleIsTangentLaw | galoisd/pkg/emulated/g2.go:376-399 | `Double` is the tangent law: the line meets the curve twice at the point |
| Curve.FusedIsTwoAdditions | galoisd/pkg/emulated/g2.go:333-374 | `DoubleAndAdd(p, q)` is `Add(Add(p, q), p)` in both coordinates, in every field, where the denominators are nonzero |
| Curve.FusedOnCurve | galoisd/pkg/emulated/g2.go:333-374 | the fused step stays on the curve |
| AdditionChain.DoubleN | galoisd/pkg/emulated/g2.go:401-407 | n doublings multiply by 2^n, for every n and every point of every abelian group |
| AdditionChain.ScalarMulBySeed | galoisd/pkg/emulated/g2.go:424-457 | the chain multiplies every point of every abelian group by 4965661367192848881; for a point whose order exceeds that number it can be run with every use of a formula required to be in its domain: never equal or opposite points, never infinity |
| AdditionChain.SeedOfTheCurve | galoisd/pkg/emulated/g2.go:420-457 | the number is the seed of BN254: both primes of the curve are its polynomials |
| MapToCurve.ConstantsAsWritten | galoisd/pkg/emulated/g2.go:192-211 | the canonical constants are those of the source in Montgomery form |
| HashToField.Widths | galoisd/pkg/emulated/g2.go:186-211 | the radix of the Montgomery form is 2^256, and the width of a hint 254 bits |
| MapToCurve.ConstantsOfTheCurve | galoisd/pkg/emulated/g2.go:186-211 | the constants satisfy the equations of appendix F.1 of RFC 9380 for this curve and Z |
| MapToCurve.CandidatesIff | galoisd/pkg/emulated/g2.go:145-267 | each of the three equations has one solution, the candidate that the gadget computes, once 1 - t^2 is inverted |
| MapToCurve.CandidateProduct | galoisd/pkg/emulated/g2.go:145-267 | the curve equation takes values at the three candidates whose product is a square |
| Svdw.CandidateValues | galoisd/pkg/emulated/g2.go:145-267 | over any commutative ring: the three values, factored by the differences of the candidates, and the square root of their product |
| MapToCurve.Sgn0Neg | galoisd/pkg/emulated/g2.go:125-138 | negating an element flips the sgn0 of section 4.1 of RFC 9380, unless it is zero |
| MapToCurve.SignOfValueIff | galoisd/pkg/emulated/g2.go:126-138 | for limbs below twice the prime, the sign the gadget reads is the sgn0 of the value if and only if the coordinate that decides it is reduced, or is the prime itself beside an odd second value |
| MapToCurve.MapsOntoCurve | galoisd/pkg/emulated/g2.go:145-291 | for any hints that satisfy the constraints the point is on the curve, its abscissa x solves, for t = u^2 g(Z), the equation of the candidate that the two bits pick: (x + Z/2)(1 + t) = -u c3 or u c3, or (x - Z)(1 - t)^2 = c4 (1 + t)^2; a set bit names a square at its candidate; and the sgn0 of the ordinate is the sign read from u if and only if the root has a nonzero first coordinate or a reduced second one (at y = 0, if and only if that sign is 0) |
| MapToCurve.SignOfHintsKept | galoisd/pkg/emulated/g2.go:281-286 | an ordinate with a nonzero first coordinate has the sign read from u, for all hints |
| MapToCurve.UnreducedRootFlips | galoisd/pkg/emulated/g2.go:281-286 | adding the prime to the second coordinate of an accepted root (0, a1), where it leaves room, is accepted as well and negates the ordinate |
| MapToCurve.OnlySignsMatter | galoisd/pkg/emulated/g2.go:145-291 | two elements of one value are accepted with the same hints, and give one point or two opposite ones according to the signs read from their limbs |
| MapToCurve.MapOutputsExactly | galoisd/pkg/emulated/g2.go:145-291 | the points some hints produce are exactly those of the curve over the solutions of the three equations with the sign read from u, and those with the other sign whose first coordinate is zero and whose second, or its negation, leaves room for the prime |
| HashToField.RemainderIff | galoisd/pkg/emulated/g2.go:503-525 | the remainders that the constraints admit are the one below the prime and, where the product reaches the prime and the width allows it, the one a prime above |
| HashToField.HashedIsValue | galoisd/pkg/emulated/g2.go:503-525 | splitting the 384 bits after 17 bytes and recombining them gives the number they denote, reduced modulo the prime |
| HashToField.SignOfSumsIff | galoisd/pkg/emulated/g2.go:503-525 | for given remainders the sign read from u is the sgn0 of the hashed value if and only if the deciding sum of low part and remainder is below the prime, or the first sum is the prime and the second has an odd value |
| HashToField.SignOfHashIff | galoisd/pkg/emulated/g2.go:281-286 | a nonzero ordinate has the sgn0 of the hashed value if and only if the sign of the sums and the sign of the root are both kept or both lost |
| HashToField.OtherRemainderFlips | galoisd/pkg/emulated/g2.go:503-525 | where the first coordinate does not hash to zero, taking the other remainder keeps the value, is accepted with the same hints, and negates the ordinate |
| HashToField.ReadsIff | galoisd/pkg/emulated/g2.go:503-525 | which signs some remainders make the gadget read, as conditions on the hashed bytes alone |
| HashToField.HashBindsSignIff | galoisd/pkg/emulated/g2.go:126-138 | all remainders make the gadget read the sgn0 of the hashed value if and only if the bytes leave no other |
| HashToField.HashOutputsExactly | galoisd/pkg/emulated/g2.go:480-525 | the points that some remainders and hints produce from the hashed bytes: exactly those of the curve over the solutions of the three equations for the hashed value whose sign can be read from the bytes or misread from a root |
| ProverJobs.NextCounts | galoisd/grpc/server.go:366-397 | every atomic step keeps the counter equal to the number of running jobs, at most the maximum, without wrap-around |
| ProverJobs.JobsCountedAndOwned | galoisd/grpc/server.go:335-403 | in every state of every interleaving the counter is the number of admitted unfinished jobs, at most the maximum, and every pending entry has exactly one thread responsible for it |
| ProverJobs.ResultIsFinal | galoisd/grpc/server.go:335-403 | a result is never deleted nor replaced, so every later call gets the same answer |
| ProverJobs.ProvedOnce | galoisd/grpc/server.go:379-389 | however many calls ask, the outcome of a request is stored once |
| ProverJobs.FailedSwapMeansProgress | galoisd/grpc/server.go:366-397 | a compare-and-swap fails only if another thread's succeeded since the load |
| ProverJobs.RejectedOnlyWhenFull | galoisd/grpc/server.go:366-371 | over every run a call is turned away only if the maximum of jobs was running when it last loaded the counter |
| ProverJobs.AdmittedBelowMaximum | galoisd/grpc/server.go:366-378 | over every run a call that loads the counter while fewer jobs run becomes one of them if the counter has not moved by its swap |
| ProverJobs.OutcomeIsAnswered | galoisd/grpc/server.go:379-389 | the entry that a job leaves is the very outcome it stored, and every later call is answered with it |
| ProverJobs.ProvesWhenFree | galoisd/grpc/server.go:335-403 | from every state of a run with fewer jobs than the maximum, a call for a new request that is let run is admitted, leaves its outcome and gives its place back |
| ProverJobs.RejectsWhenFull | galoisd/grpc/server.go:366-371 | from every state with the maximum of jobs, such a call is turned away and leaves everything as it was |
| Indexer.Database.Commit | hubble/src/eth/indexer.rs:316-338 | a transaction inserts the matching logs in order and moves the indexed height to the last block, or nothing changes |
| Indexer.Database.IndexGroup | hubble/src/eth/indexer.rs:307-350 | the blocks before the first error are committed and the error names the first height that was not |
| Indexer.Database.IndexByChunk | hubble/src/eth/indexer.rs:256-353 | whatever is ready together, a pass commits a gap-free stretch, and says exactly why and where it stopped |
| Indexer.Database.IndexBlocks | hubble/src/eth/indexer.rs:202-254 | each height once, in order, the indexed height the last one, an error height the next one; the switch to single blocks is made if and only if the first pass stops at a block that is not there yet, and the pass made last says why it stopped |
| Indexer.LogInOrder | hubble/src/eth/indexer.rs:316-338 | a matching log comes right after those of the heights before it |
| Indexer.Restart | hubble/src/eth/indexer.rs:100-134 | a restart above the indexed height keeps the heights of both runs gap-free |
| Keyring.ConcurrentKeyring.constructor | lib/chain-utils/src/keyring.rs:49-80 | every address has its key name and signer, and the queue holds the addresses in the shuffled order without overflowing |
| Keyring.LastWins | lib/chain-utils/src/keyring.rs:60-76 | every entry is found under its address and its name, and where one of these comes again, the last entry is |
| Keyring.ConcurrentKeyring.Pop | lib/chain-utils/src/keyring.rs:90-99 | the front address is taken and its signer found, or the queue is empty |
| Keyring.ConcurrentKeyring.Push | lib/chain-utils/src/keyring.rs:110-113 | the address goes to the back, or the queue is full |
| Keyring.SignersConserved | lib/chain-utils/src/keyring.rs:86-116 | in every state of every run, queued and used addresses together are the configured ones, a return never finds the queue full, and a task is turned away only when every signer is in use |
| Keyring.FirstInFirstOut | lib/chain-utils/src/keyring.rs:86-116 | over every run addresses are taken in the order in which they were configured or given back |
| Keyring.ExclusiveIffDistinct | lib/chain-utils/src/keyring.rs:49-116 | no run lets two tasks share a signer if and only if the configured addresses are distinct |

## Left out

Weaker than the source, or on values where the source is more concrete:

- LightClient.Verify: takes each slot's rebuilt key, hashed leaf and bitmap bits as inputs; the pairing check is not modelled, the rebuilding of a coordinate is proved separately (`Encoding.RebuildCoordinate`), and the result of a key addition outside the domain of its formula is arbitrary.
- LightClient.MarshalValidators: errors in decoding a key, and the Merkle root it returns beside the slots, are not modelled.
- LightClient.ThresholdExact: committed powers are below 2^63 and the two ratio constants below 2^64, which the types of their sources guarantee.
- Curve.AddIsChordLaw: `DivUnchecked` is a division, so nothing is said for a zero denominator; associativity of the curve group is not proved.
- Curve.DoubleIsTangentLaw: as for `Add`, a point of ordinate zero is outside the statement.
- Curve.FusedIsTwoAdditions: the two denominators are assumed nonzero.
- AdditionChain.ScalarMulBySeed: the group operations are abstract; that the affine formulas realise them is not proved beyond `Curve`.
- MapToCurve.MapOutputsExactly: the product of the three values is a square (`MapToCurve.CandidateProduct`), but that a product of two elements that are no squares is one is not proved, so existence of an output is not claimed.
- MapToCurve.MapsOntoCurve: the element u is a sum with overflow, as its only caller makes it; for an element without overflow the test for zero would also assert that its first coordinate is below the prime. Field operations of the vendored library are taken to satisfy their integer equations.
- HashToField.HashOutputsExactly: the bytes are parameters; `ExpandMsgXmd` is not modelled.
- Merkle.RootHash: `math.Ceil(math.Log2(n))` is an integer ceiling logarithm.
- Encoding.EncodersAgreeIff: SHA-256 is not modelled; the statement is about the bytes that enter it.
- Indexer.Database.IndexBlocks: one indexed height stands for the equal heights of all tracked contracts; upsert mode and the panic when a contract disappears are not modelled.
- Network.CrossChainSupply: bytes on the wire are values, so packets arrive as they were sent.
- HopFees.HopCarriesAmountsAndFees: the fees are claimed when they follow their tokens (`HopFees.FeesFollowIff` says when they do), and packets that repeat a denomination with a token that carries nothing are outside the statement.
- HopFees.FeesFollowIff: fee maps without zero entries; that the fees follow is proved for all of them (`HopFees.UndisturbedFollow`).
- ProverJobs.JobsCountedAndOwned: `maxJobs` is a 32-bit number; a panic inside a proving job is not modelled.

Not modelled:

- Wire codecs (ethabi, protobuf, bech32 and the JSON of packets): packets are values, and acknowledgement encodings are parameters with a round-trip law.
- Canonical and human forms of addresses in the UCS01 packet: an address is one string.
- Events, attributes, memo text, timeouts as numbers, queries, migration and admin messages of the relay.
- Version strings other than `ics20-1` and `ucs01-relay-1`: the handshake admits no others.
- `BatchExecute`, other than as the batch of messages it wraps.
- The middleware module that parses forwarding memos: a memo is a value.
- MiMC, SHA-256, pairings and Groth16: hash functions are parameters.
- Psi, cofactor clearing and `ExpandMsgXmd`: correctness rests on properties of the curve and the hash that are parameters here.
- The request checks of `Poll` before the map access (its two signature-count checks compare a list with itself and never fail), and the other gRPC methods.
- `BlockInsert` and the reorganisation handling of the EVM indexer.
- Key loading and balances of the keyring.
- voyager, lib/block-message, the beacon, Arbitrum, Berachain and Scroll queriers, drip, unionvisor, ucs02-nft, ucs00-pingpong, and all TypeScript.
