/** The prover's `Poll`: calls and proving goroutines share a map of results and an atomic counter of
    running jobs. One event is one atomic access to either, so a run is any interleaving. */
module ProverJobs {
  import opened Wrappers

  const WORD := 0x1_0000_0000

  /** A request is named by the hash of its encoding. */
  type Key = string

  datatype Entry = Pending | Done(proof: string) | Failed(message: string)

  /** Where a thread stands. An admitted call goes on as the goroutine that proves its request. */
  datatype Thread =
    | Looking(key: Key)               // created the entry, about to load the counter
    | Raising(key: Key, seen: nat)    // about to swap `seen` for `seen + 1`
    | Rejecting(key: Key)             // found the counter full, about to delete the entry
    | Proving(key: Key)               // running the prover
    | Leaving                       // stored the result, about to load the counter
    | Lowering(seen: nat)           // about to swap `seen` for `seen - 1`
  {
    /** The thread is responsible for the entry of `k`. */
    predicate Owns(k: Key) { !Leaving? && !Lowering? && key == k }

    predicate Running() { Proving? || Leaving? || Lowering? }
  }

  datatype Server = Server(results: map<Key, Entry>, nbJobs: nat, threads: map<nat, Thread>)

  datatype Event =
    | Call(thread: nat, key: Key)                   // LoadOrStore
    | Load(thread: nat)
    | Swap(thread: nat)                           // CompareAndSwap
    | Delete(thread: nat)
    | Store(thread: nat, outcome: Entry)

  function AfterLoad(maxJobs: nat, nbJobs: nat, t: Thread): Option<Thread> {
    match t
    case Looking(k) => Some(if nbJobs >= maxJobs then Rejecting(k) else Raising(k, nbJobs))
    case Leaving => Some(Lowering(nbJobs))
    case _ => None
  }

  function Next(maxJobs: nat, s: Server, e: Event): Option<Server> {
    var t := e.thread;
    if e.Call? then
      if t in s.threads then None
      else if e.key in s.results then Some(s)
      else Some(s.(results := s.results[e.key := Pending], threads := s.threads[t := Looking(e.key)]))
    else if t !in s.threads then None
    else
      match (e, s.threads[t])
      case (Load(_), pc) =>
        (match AfterLoad(maxJobs, s.nbJobs, pc)
         case Some(pc') => Some(s.(threads := s.threads[t := pc']))
         case None => None)
      case (Swap(_), Raising(k, seen)) =>
        if s.nbJobs == seen then Some(s.(nbJobs := (seen + 1) % WORD, threads := s.threads[t := Proving(k)]))
        else Some(s.(threads := s.threads[t := Looking(k)]))
      case (Swap(_), Lowering(seen)) =>
        if s.nbJobs == seen then Some(s.(nbJobs := (seen + WORD - 1) % WORD, threads := s.threads - {t}))
        else Some(s.(threads := s.threads[t := Leaving]))
      case (Delete(_), Rejecting(k)) => Some(s.(results := s.results - {k}, threads := s.threads - {t}))
      case (Store(_, outcome), Proving(k)) =>
        if outcome.Pending? then None
        else Some(s.(results := s.results[k := outcome], threads := s.threads[t := Leaving]))
      case _ => None
  }

  /** What a call that finds an entry answers. */
  function Answer(s: Server, e: Event): Option<Entry> {
    if e.Call? && e.key in s.results then Some(s.results[e.key]) else None
  }

  // ---------------------------------------------------------------- the invariant

  /** The admitted jobs that have not left yet. */
  function Jobs(threads: map<nat, Thread>): set<nat> {
    set t | t in threads && threads[t].Running()
  }

  ghost predicate OwnersOwnPending(s: Server) {
    forall t, k :: t in s.threads && s.threads[t].Owns(k) ==> k in s.results && s.results[k] == Pending
  }

  ghost predicate PendingIsOwned(s: Server) {
    forall k :: k in s.results && s.results[k] == Pending ==> exists t :: t in s.threads && s.threads[t].Owns(k)
  }

  ghost predicate OneOwner(s: Server) {
    forall t, u, k :: t in s.threads && u in s.threads && s.threads[t].Owns(k) && s.threads[u].Owns(k) ==> t == u
  }

  ghost predicate Inv(maxJobs: nat, s: Server) {
    && s.nbJobs == |Jobs(s.threads)| <= maxJobs
    && (forall t :: t in s.threads && s.threads[t].Raising? ==> s.threads[t].seen < maxJobs)
    && OwnersOwnPending(s) && PendingIsOwned(s) && OneOwner(s)
  }

  lemma JobsUpdate(threads: map<nat, Thread>, t: nat, pc: Thread)
    ensures Jobs(threads[t := pc]) == if pc.Running() then Jobs(threads) + {t} else Jobs(threads) - {t}
    ensures |Jobs(threads[t := pc])|
            == |Jobs(threads)| - (if t in Jobs(threads) then 1 else 0) + (if pc.Running() then 1 else 0)
  {
    assert Jobs(threads[t := pc]) == if pc.Running() then Jobs(threads) + {t} else Jobs(threads) - {t};
  }

  lemma JobsRemove(threads: map<nat, Thread>, t: nat)
    ensures |Jobs(threads - {t})| == |Jobs(threads)| - (if t in Jobs(threads) then 1 else 0)
  {
    assert Jobs(threads - {t}) == Jobs(threads) - {t};
  }

  function At(threads: map<nat, Thread>, t: nat): Option<Thread> {
    if t in threads then Some(threads[t]) else None
  }

  /** How one event moves its thread together with the results; `own` is the key it is responsible for. */
  ghost predicate Moves(results: map<Key, Entry>, before: Option<Thread>, results': map<Key, Entry>,
                        after: Option<Thread>) {
    || (results' == results && before == after)
    || (exists k ::
          && before.None? && k !in results && after == Some(Looking(k)) && results' == results[k := Pending])
    || (exists k ::
          && before.Some? && before.value.Owns(k) && after.Some? && after.value.Owns(k) && results' == results)
    || (exists k ::
          && before.Some? && before.value.Owns(k) && after.None? && results' == results - {k})
    || (exists k, outcome: Entry ::
          && before.Some? && before.value.Owns(k) && after == Some(Leaving) && !outcome.Pending?
          && results' == results[k := outcome])
    || (before.Some? && (before.value.Leaving? || before.value.Lowering?) && results' == results
        && (after.None? || after.value.Leaving? || after.value.Lowering?))
  }

  lemma NextMoves(maxJobs: nat, s: Server, e: Event)
    requires Next(maxJobs, s, e).Some?
    ensures var s' := Next(maxJobs, s, e).value;
            && (forall u :: u != e.thread ==> At(s'.threads, u) == At(s.threads, u))
            && Moves(s.results, At(s.threads, e.thread), s'.results, At(s'.threads, e.thread))
  {
    var s' := Next(maxJobs, s, e).value;
    if e.thread in s.threads && !s.threads[e.thread].Leaving? && !s.threads[e.thread].Lowering? {
      assert s.threads[e.thread].Owns(s.threads[e.thread].key);
      if e.Load? || e.Swap? { assert s'.threads[e.thread].Owns(s.threads[e.thread].key); }
    }
  }

  /** Ownership is kept by any move of one thread. */
  lemma OwnershipKept(s: Server, s': Server, t: nat)
    requires OwnersOwnPending(s) && OneOwner(s)
    requires forall u :: u != t ==> At(s'.threads, u) == At(s.threads, u)
    requires Moves(s.results, At(s.threads, t), s'.results, At(s'.threads, t))
    ensures OwnersOwnPending(s') && OneOwner(s')
  {
    forall u, k | u in s'.threads && s'.threads[u].Owns(k)
      ensures k in s'.results && s'.results[k] == Pending
      ensures u in s.threads && u != t ==> s.threads[u].Owns(k)
      ensures u == t && t !in s.threads ==> k !in s.results
      ensures u == t && t in s.threads ==> s.threads[t].Owns(k)
    {
      if u != t {
        assert At(s'.threads, u) == At(s.threads, u);
      }
    }
    assert forall u :: u != t && u in s'.threads ==> At(s'.threads, u) == At(s.threads, u);
  }

  lemma PendingKept(s: Server, s': Server, t: nat)
    requires PendingIsOwned(s) && OneOwner(s)
    requires forall u :: u != t ==> At(s'.threads, u) == At(s.threads, u)
    requires Moves(s.results, At(s.threads, t), s'.results, At(s'.threads, t))
    ensures PendingIsOwned(s')
  {
    hide OneOwner;
    forall k | k in s'.results && s'.results[k] == Pending
      ensures exists u :: u in s'.threads && s'.threads[u].Owns(k)
    {
      if k in s.results && s.results[k] == Pending {
        var u :| u in s.threads && s.threads[u].Owns(k);
        if u != t { assert At(s'.threads, u) == At(s.threads, u); }
        assert u in s'.threads && s'.threads[u].Owns(k);
      } else {
        assert t in s'.threads && s'.threads[t].Owns(k);
      }
    }
  }

  /** The counter follows the thread that moved it. */
  lemma NextCounter(maxJobs: nat, s: Server, e: Event)
    requires maxJobs < WORD && s.nbJobs <= maxJobs && Next(maxJobs, s, e).Some?
    requires e.thread in s.threads && s.threads[e.thread].Raising? ==> s.threads[e.thread].seen < maxJobs
    requires e.thread in s.threads && s.threads[e.thread].Lowering? ==> s.nbJobs > 0
    ensures var s' := Next(maxJobs, s, e).value;
            var before, after := At(s.threads, e.thread), At(s'.threads, e.thread);
            && s'.nbJobs == s.nbJobs - (if before.Some? && before.value.Running() then 1 else 0)
                            + (if after.Some? && after.value.Running() then 1 else 0)
            && s'.nbJobs <= maxJobs
            && (after.Some? && after.value.Raising? ==> after.value.seen < maxJobs)
            && s'.threads == if after.Some? then s.threads[e.thread := after.value] else s.threads - {e.thread}
  {
  }

  /** The counter counts the admitted jobs and never wraps. */
  lemma NextCounts(maxJobs: nat, s: Server, e: Event)
    requires maxJobs < WORD && Inv(maxJobs, s) && Next(maxJobs, s, e).Some?
    ensures var s' := Next(maxJobs, s, e).value;
            && s'.nbJobs == |Jobs(s'.threads)| <= maxJobs
            && (forall t :: t in s'.threads && s'.threads[t].Raising? ==> s'.threads[t].seen < maxJobs)
  {
    var t := e.thread;
    if t in s.threads && s.threads[t].Lowering? { assert t in Jobs(s.threads); assert |Jobs(s.threads)| > 0; }
    assert t in Jobs(s.threads) <==> At(s.threads, t).Some? && At(s.threads, t).value.Running();
    NextCounter(maxJobs, s, e);
    hide Next, OwnersOwnPending, PendingIsOwned, OneOwner;
    var s' := Next(maxJobs, s, e).value;
    if t in s'.threads { JobsUpdate(s.threads, t, s'.threads[t]); } else { JobsRemove(s.threads, t); }
  }

  // ---------------------------------------------------------------- runs

  ghost predicate IsRun(maxJobs: nat, trace: seq<Server>, events: seq<Event>) {
    && maxJobs < WORD
    && |trace| == |events| + 1
    && trace[0] == Server(map[], 0, map[])
    && forall i :: 0 <= i < |events| ==> Next(maxJobs, trace[i], events[i]) == Some(trace[i + 1])
  }

  /** In every state of every run the counter is the number of admitted unfinished jobs and is at most
      `maxJobs`, and every pending entry has exactly one thread responsible for it. */
  lemma {:induction false} JobsCountedAndOwned(maxJobs: nat, trace: seq<Server>, events: seq<Event>, i: nat)
    requires IsRun(maxJobs, trace, events) && i < |trace|
    ensures Inv(maxJobs, trace[i])
  {
    if i > 0 {
      JobsCountedAndOwned(maxJobs, trace, events, i - 1);
      assert Next(maxJobs, trace[i - 1], events[i - 1]) == Some(trace[i - 1 + 1]);
      NextCounts(maxJobs, trace[i - 1], events[i - 1]);
      NextMoves(maxJobs, trace[i - 1], events[i - 1]);
      hide Next, Moves;
      OwnershipKept(trace[i - 1], trace[i], events[i - 1].thread);
      PendingKept(trace[i - 1], trace[i], events[i - 1].thread);
    }
  }

  ghost predicate Settled(s: Server, k: Key) { k in s.results && s.results[k] != Pending }

  lemma NextKeepsResult(maxJobs: nat, s: Server, e: Event, k: Key)
    requires Inv(maxJobs, s) && Next(maxJobs, s, e).Some? && Settled(s, k)
    ensures Settled(Next(maxJobs, s, e).value, k) && Next(maxJobs, s, e).value.results[k] == s.results[k]
  {
  }

  /** A result is never deleted nor replaced, so every later call for the request gets the same answer. */
  lemma {:induction false} ResultIsFinal(maxJobs: nat, trace: seq<Server>, events: seq<Event>, i: nat, j: nat, k: Key)
    requires IsRun(maxJobs, trace, events) && i <= j < |trace| && Settled(trace[i], k)
    ensures Settled(trace[j], k) && trace[j].results[k] == trace[i].results[k]
    ensures j < |events| && events[j].Call? && events[j].key == k ==>
              Answer(trace[j], events[j]) == Some(trace[i].results[k])
  {
    if i < j {
      ResultIsFinal(maxJobs, trace, events, i, j - 1, k);
      JobsCountedAndOwned(maxJobs, trace, events, j - 1);
      assert Next(maxJobs, trace[j - 1], events[j - 1]) == Some(trace[j - 1 + 1]);
      NextKeepsResult(maxJobs, trace[j - 1], events[j - 1], k);
    }
  }

  ghost predicate Stores(s: Server, e: Event, k: Key) {
    e.Store? && e.thread in s.threads && s.threads[e.thread] == Proving(k)
  }

  /** However many calls ask for a request, its outcome is stored once. */
  lemma ProvedOnce(maxJobs: nat, trace: seq<Server>, events: seq<Event>, i: nat, j: nat, k: Key)
    requires IsRun(maxJobs, trace, events) && i < |events| && j < |events|
    requires Stores(trace[i], events[i], k) && Stores(trace[j], events[j], k)
    ensures i == j
  {
    if i < j {
      StoredAfter(maxJobs, trace, events, i, j, k);
    } else if j < i {
      StoredAfter(maxJobs, trace, events, j, i, k);
    }
  }

  lemma StoredAfter(maxJobs: nat, trace: seq<Server>, events: seq<Event>, i: nat, j: nat, k: Key)
    requires IsRun(maxJobs, trace, events) && i < j < |events| && Stores(trace[i], events[i], k)
    ensures !Stores(trace[j], events[j], k)
  {
    assert Next(maxJobs, trace[i], events[i]) == Some(trace[i + 1]);
    ResultIsFinal(maxJobs, trace, events, i + 1, j, k);
    JobsCountedAndOwned(maxJobs, trace, events, j);
  }

  // ---------------------------------------------------------------- the compare-and-swap loops

  /** The events that change the counter. */
  ghost predicate Swaps(s: Server, e: Event) {
    && e.Swap? && e.thread in s.threads
    && (s.threads[e.thread].Raising? || s.threads[e.thread].Lowering?)
    && s.threads[e.thread].seen == s.nbJobs
  }

  lemma {:induction false} CounterUnmoved(maxJobs: nat, trace: seq<Server>, events: seq<Event>, i: nat, j: nat)
    requires IsRun(maxJobs, trace, events) && i <= j < |trace|
    requires forall m :: i <= m < j ==> !Swaps(trace[m], events[m])
    ensures trace[j].nbJobs == trace[i].nbJobs
  {
    if i < j {
      CounterUnmoved(maxJobs, trace, events, i, j - 1);
      assert Next(maxJobs, trace[j - 1], events[j - 1]) == Some(trace[j - 1 + 1]);
    }
  }

  lemma {:induction false} SeenUnmoved(maxJobs: nat, trace: seq<Server>, events: seq<Event>, i: nat, j: nat, t: nat)
    requires IsRun(maxJobs, trace, events) && i <= j < |trace| && t in trace[i].threads
    requires forall m :: i <= m < j ==> events[m].thread != t
    ensures t in trace[j].threads && trace[j].threads[t] == trace[i].threads[t]
  {
    if i < j {
      SeenUnmoved(maxJobs, trace, events, i, j - 1, t);
      assert Next(maxJobs, trace[j - 1], events[j - 1]) == Some(trace[j - 1 + 1]);
    }
  }

  /** A swap fails only if another thread's swap succeeded since the load: the retry loops are lock-free. */
  lemma FailedSwapMeansProgress(maxJobs: nat, trace: seq<Server>, events: seq<Event>, i: nat, j: nat, t: nat)
    requires IsRun(maxJobs, trace, events) && i < j < |events|
    requires events[i] == Load(t) && events[j] == Swap(t) && !Swaps(trace[j], events[j])
    requires forall m :: i < m < j ==> events[m].thread != t
    ensures exists m :: i < m < j && Swaps(trace[m], events[m]) && events[m].thread != t
  {
    assert Next(maxJobs, trace[i], events[i]) == Some(trace[i + 1]);
    assert Next(maxJobs, trace[j], events[j]) == Some(trace[j + 1]);
    assert t in trace[i + 1].threads;
    SeenUnmoved(maxJobs, trace, events, i + 1, j, t);
    if forall m :: i + 1 <= m < j ==> !Swaps(trace[m], events[m]) {
      CounterUnmoved(maxJobs, trace, events, i + 1, j);
      assert false;
    }
  }

  // ---------------------------------------------------------------- admission

  /** A thread is about to turn its call away only if all jobs were taken when it last loaded the counter. */
  lemma {:induction false} RejectedOnlyWhenFull(maxJobs: nat, trace: seq<Server>, events: seq<Event>, j: nat, t: nat)
    returns (i: nat)
    requires IsRun(maxJobs, trace, events) && j < |trace|
    requires t in trace[j].threads && trace[j].threads[t].Rejecting?
    ensures i < j && events[i] == Load(t) && |Jobs(trace[i].threads)| == maxJobs
    ensures t in trace[i].threads && trace[i].threads[t] == Looking(trace[j].threads[t].key)
    ensures forall m :: i < m < j ==> events[m].thread != t
  {
    i := j - 1;
    assert Next(maxJobs, trace[i], events[i]) == Some(trace[i + 1]);
    JobsCountedAndOwned(maxJobs, trace, events, i);
    hide OwnersOwnPending, PendingIsOwned, OneOwner, Jobs;
    if events[i].thread != t {
      i := RejectedOnlyWhenFull(maxJobs, trace, events, i, t);
    }
  }

  /** A call that loads the counter while fewer jobs run is admitted when the counter has not moved by the time
      of its swap. */
  lemma AdmittedBelowMaximum(maxJobs: nat, trace: seq<Server>, events: seq<Event>, i: nat, j: nat, t: nat)
    requires IsRun(maxJobs, trace, events) && i < j < |events|
    requires t in trace[i].threads && trace[i].threads[t].Looking? && events[i] == Load(t) && events[j] == Swap(t)
    requires forall m :: i < m < j ==> events[m].thread != t && !Swaps(trace[m], events[m])
    requires |Jobs(trace[i].threads)| < maxJobs
    ensures t in trace[j + 1].threads && trace[j + 1].threads[t] == Proving(trace[i].threads[t].key)
    ensures Jobs(trace[j + 1].threads) == Jobs(trace[j].threads) + {t} && t !in Jobs(trace[j].threads)
  {
    JobsCountedAndOwned(maxJobs, trace, events, i);
    assert Next(maxJobs, trace[i], events[i]) == Some(trace[i + 1]);
    SeenUnmoved(maxJobs, trace, events, i + 1, j, t);
    CounterUnmoved(maxJobs, trace, events, i + 1, j);
    assert Next(maxJobs, trace[j], events[j]) == Some(trace[j + 1]);
    JobsUpdate(trace[j].threads, t, trace[j + 1].threads[t]);
  }

  /** The entry that a job leaves is the outcome it stored, and every later call is answered with it. */
  lemma OutcomeIsAnswered(maxJobs: nat, trace: seq<Server>, events: seq<Event>, i: nat, j: nat, k: Key)
    requires IsRun(maxJobs, trace, events) && i < j < |trace| && Stores(trace[i], events[i], k)
    ensures trace[i + 1].results == trace[i].results[k := events[i].outcome] && !events[i].outcome.Pending?
    ensures k in trace[j].results && trace[j].results[k] == events[i].outcome
    ensures j < |events| && events[j].Call? && events[j].key == k ==>
              Answer(trace[j], events[j]) == Some(events[i].outcome)
  {
    assert Next(maxJobs, trace[i], events[i]) == Some(trace[i + 1]);
    ResultIsFinal(maxJobs, trace, events, i + 1, j, k);
  }

  function After(maxJobs: nat, s: Server, events: seq<Event>): Option<Server> {
    if events == [] then Some(s)
    else
      match After(maxJobs, s, events[..|events| - 1])
      case None => None
      case Some(s') => Next(maxJobs, s', events[|events| - 1])
  }

  lemma OneMore(maxJobs: nat, s: Server, before: seq<Event>, e: Event)
    requires After(maxJobs, s, before).Some?
    ensures After(maxJobs, s, before + [e]) == Next(maxJobs, After(maxJobs, s, before).value, e)
  {
    assert (before + [e])[..|before|] == before;
  }

  /** The state with the thread at `pc`. */
  function With(s: Server, results: map<Key, Entry>, nbJobs: nat, t: nat, pc: Thread): Server {
    Server(results, nbJobs, s.threads[t := pc])
  }

  lemma Overwrites(threads: map<nat, Thread>, t: nat, x: Thread, y: Thread)
    ensures threads[t := x][t := y] == threads[t := y]
    ensures t !in threads ==> threads[t := x] - {t} == threads
  {
  }

  lemma Loads(maxJobs: nat, s: Server, results: map<Key, Entry>, nbJobs: nat, t: nat, k: Key)
    ensures Next(maxJobs, With(s, results, nbJobs, t, Looking(k)), Load(t))
            == Some(With(s, results, nbJobs, t, if nbJobs >= maxJobs then Rejecting(k) else Raising(k, nbJobs)))
    ensures Next(maxJobs, With(s, results, nbJobs, t, Leaving), Load(t))
            == Some(With(s, results, nbJobs, t, Lowering(nbJobs)))
  {
    Overwrites(s.threads, t, Looking(k), if nbJobs >= maxJobs then Rejecting(k) else Raising(k, nbJobs));
    Overwrites(s.threads, t, Leaving, Lowering(nbJobs));
  }

  lemma Swapped(maxJobs: nat, s: Server, results: map<Key, Entry>, nbJobs: nat, t: nat, k: Key)
    requires nbJobs + 1 < WORD
    ensures Next(maxJobs, With(s, results, nbJobs, t, Raising(k, nbJobs)), Swap(t))
            == Some(With(s, results, nbJobs + 1, t, Proving(k)))
    ensures t !in s.threads ==>
              Next(maxJobs, With(s, results, nbJobs + 1, t, Lowering(nbJobs + 1)), Swap(t))
              == Some(Server(results, nbJobs, s.threads))
  {
    Overwrites(s.threads, t, Raising(k, nbJobs), Proving(k));
    Overwrites(s.threads, t, Lowering(nbJobs + 1), Leaving);
  }

  lemma Stored(maxJobs: nat, s: Server, nbJobs: nat, t: nat, k: Key, outcome: Entry)
    requires !outcome.Pending?
    ensures Next(maxJobs, With(s, s.results[k := Pending], nbJobs, t, Proving(k)), Store(t, outcome))
            == Some(With(s, s.results[k := outcome], nbJobs, t, Leaving))
  {
    Overwrites(s.threads, t, Proving(k), Leaving);
    assert s.results[k := Pending][k := outcome] == s.results[k := outcome];
  }

  /** A call is always taken: it is answered with the entry it finds, or makes one. */
  lemma Called(maxJobs: nat, s: Server, t: nat, k: Key)
    requires t !in s.threads
    ensures k in s.results ==>
              Next(maxJobs, s, Call(t, k)) == Some(s) && Answer(s, Call(t, k)) == Some(s.results[k])
    ensures k !in s.results ==>
              Next(maxJobs, s, Call(t, k)) == Some(With(s, s.results[k := Pending], s.nbJobs, t, Looking(k)))
              && Answer(s, Call(t, k)) == None
  {
  }

  lemma TurnedAway(maxJobs: nat, s: Server, t: nat, k: Key)
    requires t !in s.threads && k !in s.results
    ensures Next(maxJobs, With(s, s.results[k := Pending], s.nbJobs, t, Rejecting(k)), Delete(t)) == Some(s)
  {
    Overwrites(s.threads, t, Rejecting(k), Leaving);
    assert s.results[k := Pending] - {k} == s.results;
  }

  /** Whenever fewer jobs run, a call for a new request that is let run is admitted, leaves the outcome of its
      proof, and gives its place back. */
  lemma ProvesWhenFree(maxJobs: nat, s: Server, t: nat, k: Key, outcome: Entry)
    requires maxJobs < WORD && Inv(maxJobs, s) && |Jobs(s.threads)| < maxJobs
    requires t !in s.threads && k !in s.results && !outcome.Pending?
    ensures After(maxJobs, s, [Call(t, k)] + [Load(t)] + [Swap(t)] + [Store(t, outcome)] + [Load(t)] + [Swap(t)])
            == Some(s.(results := s.results[k := outcome]))
  {
    hide OwnersOwnPending, PendingIsOwned, OneOwner, Jobs, After, Next, With;
    Called(maxJobs, s, t, k);
    Loads(maxJobs, s, s.results[k := Pending], s.nbJobs, t, k);
    Swapped(maxJobs, s, s.results[k := Pending], s.nbJobs, t, k);
    Stored(maxJobs, s, s.nbJobs + 1, t, k, outcome);
    Loads(maxJobs, s, s.results[k := outcome], s.nbJobs + 1, t, k);
    Swapped(maxJobs, s, s.results[k := outcome], s.nbJobs, t, k);
    NoneYet(maxJobs, s);
    OneMore(maxJobs, s, [], Call(t, k));
    assert [] + [Call(t, k)] == [Call(t, k)];
    OneMore(maxJobs, s, [Call(t, k)], Load(t));
    OneMore(maxJobs, s, [Call(t, k)] + [Load(t)], Swap(t));
    OneMore(maxJobs, s, [Call(t, k)] + [Load(t)] + [Swap(t)], Store(t, outcome));
    OneMore(maxJobs, s, [Call(t, k)] + [Load(t)] + [Swap(t)] + [Store(t, outcome)], Load(t));
    OneMore(maxJobs, s, [Call(t, k)] + [Load(t)] + [Swap(t)] + [Store(t, outcome)] + [Load(t)], Swap(t));
  }

  /** Whenever all jobs are taken, such a call is turned away and leaves no trace. */
  lemma RejectsWhenFull(maxJobs: nat, s: Server, t: nat, k: Key)
    requires maxJobs < WORD && Inv(maxJobs, s) && |Jobs(s.threads)| == maxJobs && t !in s.threads && k !in s.results
    ensures After(maxJobs, s, [Call(t, k)] + [Load(t)] + [Delete(t)]) == Some(s)
  {
    hide OwnersOwnPending, PendingIsOwned, OneOwner, Jobs, After, Next, With;
    Called(maxJobs, s, t, k);
    Loads(maxJobs, s, s.results[k := Pending], s.nbJobs, t, k);
    TurnedAway(maxJobs, s, t, k);
    NoneYet(maxJobs, s);
    OneMore(maxJobs, s, [], Call(t, k));
    assert [] + [Call(t, k)] == [Call(t, k)];
    OneMore(maxJobs, s, [Call(t, k)], Load(t));
    OneMore(maxJobs, s, [Call(t, k)] + [Load(t)], Delete(t));
  }

  lemma NoneYet(maxJobs: nat, s: Server)
    ensures After(maxJobs, s, []) == Some(s)
  {
  }
}
