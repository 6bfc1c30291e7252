/** A pool of signers shared by concurrent tasks: a bounded queue of addresses, popped while a signer is in
    use and pushed back afterwards. */
module Keyring {
  import opened Wrappers

  datatype Entry<S> = Entry(name: string, address: string, signer: S)

  /** The queue and, for every task that is using a signer, its address. */
  datatype Pool = Pool(capacity: nat, buffer: seq<string>, inUse: map<nat, string>)

  datatype Event = Begin(task: nat) | End(task: nat)

  function Addresses<S>(entries: seq<Entry<S>>): (r: seq<string>)
    ensures |r| == |entries|
  {
    seq(|entries|, i requires 0 <= i < |entries| => entries[i].address)
  }

  function Names<S>(entries: seq<Entry<S>>): (r: seq<string>)
    ensures |r| == |entries|
  {
    seq(|entries|, i requires 0 <= i < |entries| => entries[i].name)
  }

  /** The maps that the entries fill, a later one overwriting an earlier one. */
  function NamesByAddress<S>(entries: seq<Entry<S>>): map<string, string> {
    if entries == [] then map[]
    else NamesByAddress(entries[..|entries| - 1])[entries[|entries| - 1].address := entries[|entries| - 1].name]
  }

  function AddressesByName<S>(entries: seq<Entry<S>>): map<string, string> {
    if entries == [] then map[]
    else AddressesByName(entries[..|entries| - 1])[entries[|entries| - 1].name := entries[|entries| - 1].address]
  }

  function SignersByAddress<S>(entries: seq<Entry<S>>): map<string, S> {
    if entries == [] then map[]
    else SignersByAddress(entries[..|entries| - 1])[entries[|entries| - 1].address := entries[|entries| - 1].signer]
  }

  /** The string at `j` does not come again. */
  ghost predicate Last(s: seq<string>, j: nat)
    requires j < |s|
  {
    forall i :: j < i < |s| ==> s[i] != s[j]
  }

  lemma LastBefore(s: seq<string>, j: nat)
    requires j < |s| - 1 && Last(s, j)
    ensures Last(s[..|s| - 1], j) && s[|s| - 1] != s[j]
  {
  }

  /** Every entry is found under its address and its name, and where these come again the last one is. */
  lemma {:induction false} LastWins<S>(entries: seq<Entry<S>>, j: nat)
    requires j < |entries|
    ensures var e := entries[j];
            && e.address in NamesByAddress(entries) && e.address in SignersByAddress(entries)
            && e.name in AddressesByName(entries)
            && (Last(Addresses(entries), j) ==>
                  NamesByAddress(entries)[e.address] == e.name && SignersByAddress(entries)[e.address] == e.signer)
            && (Last(Names(entries), j) ==> AddressesByName(entries)[e.name] == e.address)
  {
    hide Last;
    var n := |entries| - 1;
    if j < n {
      LastWins(entries[..n], j);
      assert Addresses(entries)[..n] == Addresses(entries[..n]) && Names(entries)[..n] == Names(entries[..n]);
      if Last(Addresses(entries), j) { LastBefore(Addresses(entries), j); }
      if Last(Names(entries), j) { LastBefore(Names(entries), j); }
    }
  }

  function Fresh(addresses: seq<string>): Pool { Pool(|addresses|, addresses, map[]) }

  /** `with` up to the call of its argument: nothing is popped when the queue is empty. */
  function Acquire(p: Pool, task: nat): (Pool, Option<string>) {
    if p.buffer == [] then (p, None)
    else (p.(buffer := p.buffer[1..], inUse := p.inUse[task := p.buffer[0]]), Some(p.buffer[0]))
  }

  /** The rest of `with`; pushing to a full queue panics. */
  function Release(p: Pool, task: nat): Option<Pool>
    requires task in p.inUse
  {
    if |p.buffer| >= p.capacity then None
    else Some(p.(buffer := p.buffer + [p.inUse[task]], inUse := p.inUse - {task}))
  }

  function Next(p: Pool, e: Event): Option<Pool> {
    match e
    case Begin(t) => if t in p.inUse then None else Some(Acquire(p, t).0)
    case End(t) => if t !in p.inUse then None else Release(p, t)
  }

  // ---------------------------------------------------------------- the object

  class ConcurrentKeyring<S(!new)> {
    var addressToKey: map<string, string>
    var keyToAddress: map<string, string>
    var signers: map<string, S>
    const capacity: nat
    var addressesBuffer: seq<string>
    ghost var inUse: map<nat, string>

    ghost function State(): Pool
      reads this
    {
      Pool(capacity, addressesBuffer, inUse)
    }

    /** Every address of the pool has its key name and its signer. */
    ghost predicate Valid()
      reads this
    {
      && (forall a :: a in addressesBuffer ==> a in addressToKey && a in signers)
      && (forall t :: t in inUse ==> inUse[t] in addressToKey && inUse[t] in signers)
    }

    /** `new`; `shuffled` is the random order of the entries. */
    constructor (entries: seq<Entry<S>>, shuffled: seq<Entry<S>>)
      requires multiset(shuffled) == multiset(entries)
      ensures Valid() && State() == Fresh(Addresses(shuffled)) && capacity == |entries|
      ensures addressToKey == NamesByAddress(shuffled) && keyToAddress == AddressesByName(shuffled)
      ensures signers == SignersByAddress(shuffled)
    {
      assert |shuffled| == |entries| by { assert |multiset(shuffled)| == |multiset(entries)|; }
      capacity := |entries|;
      inUse := map[];
      addressToKey, keyToAddress, signers, addressesBuffer := map[], map[], map[], [];
      new;
      for i := 0 to |shuffled|
        invariant addressesBuffer == Addresses(shuffled)[..i] && inUse == map[]
        invariant addressToKey == NamesByAddress(shuffled[..i]) && keyToAddress == AddressesByName(shuffled[..i])
        invariant signers == SignersByAddress(shuffled[..i])
      {
        var key := shuffled[i];
        assert shuffled[..i + 1][..i] == shuffled[..i];
        keyToAddress := keyToAddress[key.name := key.address];
        addressToKey := addressToKey[key.address := key.name];
        signers := signers[key.address := key.signer];
        addressesBuffer := addressesBuffer + [key.address];
      }
      assert shuffled[..|shuffled|] == shuffled && Addresses(shuffled)[..|shuffled|] == Addresses(shuffled);
      forall a | a in addressesBuffer ensures a in addressToKey && a in signers {
        var j :| 0 <= j < |shuffled| && Addresses(shuffled)[j] == a;
        LastWins(shuffled, j);
      }
    }

    method Pop(ghost task: nat) returns (signer: Option<S>)
      requires Valid() && task !in inUse
      modifies this`addressesBuffer, this`inUse
      ensures Valid() && State() == Acquire(old(State()), task).0
      ensures signer.Some? <==> Acquire(old(State()), task).1.Some?
      ensures signer.Some? ==> signer.value == signers[Acquire(old(State()), task).1.value]
    {
      if addressesBuffer == [] { return None; }
      var address := addressesBuffer[0];
      assert address in addressesBuffer;
      addressesBuffer := addressesBuffer[1..];
      inUse := inUse[task := address];
      return Some(signers[address]);
    }

    method Push(address: string, ghost task: nat) returns (ok: bool)
      requires Valid() && task in inUse && inUse[task] == address
      modifies this`addressesBuffer, this`inUse
      ensures Valid() && ok == Release(old(State()), task).Some?
      ensures State() == if ok then Release(old(State()), task).value else old(State())
    {
      if |addressesBuffer| >= capacity { return false; }
      addressesBuffer := addressesBuffer + [address];
      inUse := inUse - {task};
      return true;
    }
  }

  // ---------------------------------------------------------------- runs

  ghost predicate IsRun(addresses: seq<string>, trace: seq<Pool>, events: seq<Event>) {
    && |trace| == |events| + 1
    && trace[0] == Fresh(addresses)
    && forall i :: 0 <= i < |events| ==> Next(trace[i], events[i]) == Some(trace[i + 1])
  }

  /** How often an address is being used. */
  function Uses(inUse: map<nat, string>, a: string): nat { |Users(inUse, a)| }

  function Users(inUse: map<nat, string>, a: string): set<nat> {
    set t | t in inUse && inUse[t] == a
  }

  /** Every address is either queued or in use, as often as it was configured. */
  ghost predicate Conserved(addresses: seq<string>, p: Pool) {
    && p.capacity == |addresses|
    && |p.buffer| + |p.inUse| == |addresses|
    && forall a :: multiset(p.buffer)[a] + Uses(p.inUse, a) == multiset(addresses)[a]
  }

  lemma UsesUpdate(inUse: map<nat, string>, t: nat, b: string, a: string)
    requires t !in inUse
    ensures Uses(inUse[t := b], a) == Uses(inUse, a) + (if a == b then 1 else 0)
  {
    assert Users(inUse[t := b], a) == if a == b then Users(inUse, a) + {t} else Users(inUse, a);
  }

  lemma CountUpdate(inUse: map<nat, string>, t: nat, b: string)
    requires t !in inUse
    ensures |inUse[t := b]| == |inUse| + 1
  {
  }

  lemma AcquireConserves(addresses: seq<string>, p: Pool, t: nat)
    requires Conserved(addresses, p) && t !in p.inUse
    ensures Conserved(addresses, Acquire(p, t).0)
  {
    if p.buffer != [] {
      var head, tail := p.buffer[0], p.buffer[1..];
      assert p.buffer == [head] + tail;
      CountUpdate(p.inUse, t, head);
      forall a ensures multiset(tail)[a] + Uses(p.inUse[t := head], a) == multiset(addresses)[a] {
        UsesUpdate(p.inUse, t, head, a);
        assert multiset(p.buffer)[a] + Uses(p.inUse, a) == multiset(addresses)[a];
      }
    }
  }

  /** Returning a signer never finds the queue full. */
  lemma ReleaseConserves(addresses: seq<string>, p: Pool, t: nat)
    requires Conserved(addresses, p) && t in p.inUse
    ensures Release(p, t).Some? && Conserved(addresses, Release(p, t).value)
  {
    var a0, rest := p.inUse[t], p.inUse - {t};
    assert p.inUse == rest[t := a0];
    CountUpdate(rest, t, a0);
    forall a ensures multiset(p.buffer + [a0])[a] + Uses(rest, a) == multiset(addresses)[a] {
      UsesUpdate(rest, t, a0, a);
      assert multiset(p.buffer)[a] + Uses(p.inUse, a) == multiset(addresses)[a];
    }
  }

  lemma EmptyUses(a: string)
    ensures Uses(map[], a) == 0
  {
  }

  /** In every state of every run, queued and used addresses together are the configured ones, no return
      would find the queue full, and a task is turned away only when every signer is in use. */
  lemma {:induction false} SignersConserved(addresses: seq<string>, trace: seq<Pool>, events: seq<Event>, i: nat)
    requires IsRun(addresses, trace, events) && i < |trace|
    ensures Conserved(addresses, trace[i])
    ensures forall t :: t in trace[i].inUse ==> Release(trace[i], t).Some?
    ensures forall t :: Acquire(trace[i], t).1.None? <==> |trace[i].inUse| == |addresses|
  {
    if i == 0 {
      forall a ensures Uses(map[], a) == 0 { EmptyUses(a); }
    } else {
      SignersConserved(addresses, trace, events, i - 1);
      assert Next(trace[i - 1], events[i - 1]) == Some(trace[i - 1 + 1]);
      hide Conserved;
      if events[i - 1].Begin? {
        AcquireConserves(addresses, trace[i - 1], events[i - 1].task);
      } else {
        ReleaseConserves(addresses, trace[i - 1], events[i - 1].task);
      }
    }
    Sizes(addresses, trace[i]);
  }

  lemma Sizes(addresses: seq<string>, p: Pool)
    requires Conserved(addresses, p)
    ensures forall t :: t in p.inUse ==> Release(p, t).Some?
    ensures forall t :: Acquire(p, t).1.None? <==> |p.inUse| == |addresses|
  {
  }

  // ---------------------------------------------------------------- first in, first out

  /** The addresses that an event takes from the queue, and those that it gives back. */
  function TakenBy(p: Pool, p': Pool, e: Event): seq<string> {
    if e.task in p'.inUse && e.task !in p.inUse then [p'.inUse[e.task]] else []
  }

  function GivenBy(p: Pool, p': Pool, e: Event): seq<string> {
    if e.task in p.inUse && e.task !in p'.inUse then [p.inUse[e.task]] else []
  }

  function Taken(trace: seq<Pool>, events: seq<Event>, i: nat): seq<string>
    requires |trace| == |events| + 1 && i < |trace|
  {
    if i == 0 then [] else Taken(trace, events, i - 1) + TakenBy(trace[i - 1], trace[i], events[i - 1])
  }

  function Given(trace: seq<Pool>, events: seq<Event>, i: nat): seq<string>
    requires |trace| == |events| + 1 && i < |trace|
  {
    if i == 0 then [] else Given(trace, events, i - 1) + GivenBy(trace[i - 1], trace[i], events[i - 1])
  }

  lemma QueueMoves(p: Pool, p': Pool, e: Event)
    requires Next(p, e) == Some(p')
    ensures p.buffer + GivenBy(p, p', e) == TakenBy(p, p', e) + p'.buffer
  {
    if e.Begin? && p.buffer != [] { assert p.buffer == [p.buffer[0]] + p.buffer[1..]; }
  }

  /** Addresses are taken in the order in which they were queued: those configured first, then those given
      back, and what has not been taken is the queue. */
  lemma {:induction false} FirstInFirstOut(addresses: seq<string>, trace: seq<Pool>, events: seq<Event>, i: nat)
    requires IsRun(addresses, trace, events) && i < |trace|
    ensures addresses + Given(trace, events, i) == Taken(trace, events, i) + trace[i].buffer
  {
    hide Next, GivenBy, TakenBy;
    if i > 0 {
      var p, p', e := trace[i - 1], trace[i], events[i - 1];
      FirstInFirstOut(addresses, trace, events, i - 1);
      assert Next(trace[i - 1], events[i - 1]) == Some(trace[i - 1 + 1]);
      QueueMoves(p, p', e);
      var given, taken := Given(trace, events, i - 1), Taken(trace, events, i - 1);
      assert addresses + (given + GivenBy(p, p', e)) == (taken + p.buffer) + GivenBy(p, p', e);
      assert (taken + p.buffer) + GivenBy(p, p', e) == taken + (TakenBy(p, p', e) + p'.buffer);
    }
  }

  // ---------------------------------------------------------------- exclusive use

  ghost predicate Distinct(addresses: seq<string>) {
    forall i, j :: 0 <= i < j < |addresses| ==> addresses[i] != addresses[j]
  }

  /** Two tasks never use one signer at the same time. */
  ghost predicate Exclusive(p: Pool) {
    forall t, u :: t in p.inUse && u in p.inUse && p.inUse[t] == p.inUse[u] ==> t == u
  }

  lemma {:induction false} DistinctOnce(s: seq<string>, a: string)
    requires Distinct(s)
    ensures multiset(s)[a] <= 1
  {
    if s != [] {
      var n := |s| - 1;
      DistinctOnce(s[..n], a);
      assert s == s[..n] + [s[n]];
      if s[n] == a { assert a !in s[..n]; }
    }
  }

  /** The first `n` tasks to ask get the first `n` addresses. */
  function AllAsk(addresses: seq<string>, n: nat): Pool
    requires n <= |addresses|
  {
    Pool(|addresses|, addresses[n..], map t: nat | t < n :: addresses[t])
  }

  lemma {:induction false} AllAskRun(addresses: seq<string>, n: nat)
    requires n <= |addresses|
    ensures IsRun(addresses, seq(n + 1, i requires 0 <= i <= n => AllAsk(addresses, i)),
            seq(n, i requires 0 <= i < n => Begin(i)))
  {
    assert AllAsk(addresses, 0) == Fresh(addresses) by { assert addresses[0..] == addresses; }
    forall i | 0 <= i < n ensures Next(AllAsk(addresses, i), Begin(i)) == Some(AllAsk(addresses, i + 1)) {
      var p := AllAsk(addresses, i);
      assert p.inUse[i := p.buffer[0]] == AllAsk(addresses, i + 1).inUse;
      assert p.buffer[1..] == addresses[i + 1..];
    }
  }

  ghost predicate AlwaysExclusive(addresses: seq<string>) {
    forall trace, events, i :: IsRun(addresses, trace, events) && 0 <= i < |trace| ==> Exclusive(trace[i])
  }

  /** No run ever lets two tasks share a signer exactly when the configured addresses are distinct; the
      constructor does not check it. */
  lemma ExclusiveIffDistinct(addresses: seq<string>)
    ensures AlwaysExclusive(addresses) <==> Distinct(addresses)
  {
    if Distinct(addresses) {
      forall trace, events, i | IsRun(addresses, trace, events) && 0 <= i < |trace| ensures Exclusive(trace[i]) {
        SignersConserved(addresses, trace, events, i);
        ConservedExclusive(addresses, trace[i]);
      }
    } else {
      var i, j :| 0 <= i < j < |addresses| && addresses[i] == addresses[j];
      var n := |addresses|;
      AllAskRun(addresses, n);
      var trace, events := seq(n + 1, i requires 0 <= i <= n => AllAsk(addresses, i)),
        seq(n, i requires 0 <= i < n => Begin(i));
      assert IsRun(addresses, trace, events);
      assert i in trace[n].inUse && j in trace[n].inUse && trace[n].inUse[i] == trace[n].inUse[j];
      assert !Exclusive(trace[n]);
    }
  }

  lemma ConservedExclusive(addresses: seq<string>, p: Pool)
    requires Distinct(addresses) && Conserved(addresses, p)
    ensures Exclusive(p)
  {
    forall t, u | t in p.inUse && u in p.inUse && p.inUse[t] == p.inUse[u] ensures t == u {
      var a := p.inUse[t];
      DistinctOnce(addresses, a);
      assert multiset(p.buffer)[a] + Uses(p.inUse, a) == multiset(addresses)[a];
      assert t in Users(p.inUse, a) && u in Users(p.inUse, a);
      if t != u { AtLeastTwo(Users(p.inUse, a), t, u); }
    }
  }

  lemma AtLeastTwo(s: set<nat>, t: nat, u: nat)
    requires t in s && u in s && t != u
    ensures |s| >= 2
  {
    assert u in s - {t};
    assert |s - {t}| == |s| - 1;
  }
}
