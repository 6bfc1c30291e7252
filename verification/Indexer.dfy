/** The EVM block indexer: blocks are fetched in chunks, committed in whatever groups happen to be ready,
    and the first error ends the pass after everything before it is committed. */
module Indexer {
  import opened Wrappers

  datatype FetchError = BlockNotFound | DataNotFound | Unknown

  /** What the provider answers for a height; a block whose logs do not match the filter is `None`. */
  datatype Fetched = Block(log: Option<string>) | Failure(error: FetchError)

  datatype Result = Done | Retryable(height: nat, error: FetchError) | Other

  /** The surroundings of one pass: the answers of the provider, how many results are ready together
      from a height on, and whether the transaction that begins at a height commits. */
  datatype Pass = Pass(fetch: nat -> Fetched, ready: nat -> nat, commits: nat -> bool)

  /** The heights from `lo` up to `hi`, in order. */
  function Heights(lo: nat, hi: nat): (r: seq<nat>)
    requires lo <= hi
    ensures |r| == hi - lo
  {
    seq(hi - lo, i requires 0 <= i < hi - lo => lo + i)
  }

  /** The logs of a stretch of fetched blocks, in order. */
  function LogsOf(fetch: nat -> Fetched, lo: nat, hi: nat): seq<string>
    requires lo <= hi
    decreases hi - lo
  {
    if lo == hi then []
    else
      LogsOf(fetch, lo, hi - 1)
      + match fetch(hi - 1) case Block(Some(log)) => [log] case _ => []
  }

  lemma HeightsSplit(lo: nat, mid: nat, hi: nat)
    requires lo <= mid <= hi
    ensures Heights(lo, mid) + Heights(mid, hi) == Heights(lo, hi)
  {
  }

  lemma {:induction false} LogsSplit(fetch: nat -> Fetched, lo: nat, mid: nat, hi: nat)
    requires lo <= mid <= hi
    ensures LogsOf(fetch, lo, mid) + LogsOf(fetch, mid, hi) == LogsOf(fetch, lo, hi)
    decreases hi - mid
  {
    if mid < hi {
      LogsSplit(fetch, lo, mid, hi - 1);
      var last := match fetch(hi - 1) case Block(Some(log)) => [log] case _ => [];
      assert LogsOf(fetch, lo, mid) + (LogsOf(fetch, mid, hi - 1) + last)
          == (LogsOf(fetch, lo, mid) + LogsOf(fetch, mid, hi - 1)) + last;
    }
  }

  /** A log that matched comes after the logs of the heights before it. */
  lemma LogInOrder(fetch: nat -> Fetched, lo: nat, h: nat, hi: nat, log: string)
    requires lo <= h < hi && fetch(h) == Block(Some(log))
    ensures LogsOf(fetch, lo, h) + [log] <= LogsOf(fetch, lo, hi)
  {
    assert LogsOf(fetch, lo, h + 1) == LogsOf(fetch, lo, h) + [log];
    LogsSplit(fetch, lo, h + 1, hi);
  }

  predicate AllBlocks(fetch: nat -> Fetched, lo: nat, hi: nat) { forall h :: lo <= h < hi ==> fetch(h).Block? }

  /** Where a pass over `[start, end)` that reached `k` may have stopped, and why. */
  ghost predicate StopsWith(p: Pass, k: nat, end: nat, r: Result) {
    match r
    case Done => k == end
    case Retryable(h, e) => h == k < end && p.fetch(k) == Failure(e) && e != Unknown
    case Other => k < end && (p.fetch(k) == Failure(Unknown) || (p.fetch(k).Block? && !p.commits(k)))
  }

  lemma NothingYet(p: Pass, start: nat, end: nat)
    ensures Heights(start, start) == [] && LogsOf(p.fetch, start, start) == []
    ensures StopsWith(p, end, end, Done)
  {
  }

  /** Nothing is fetched or logged between a height and itself. */
  lemma NoneBetween(fetch: nat -> Fetched, lo: nat, hi: nat)
    ensures forall h :: lo <= h <= hi ==> Heights(h, h) == [] && LogsOf(fetch, h, h) == [] && AllBlocks(fetch, h, h)
  {
  }

  lemma StopIsFinal(p: Pass, k: nat, hi: nat, end: nat, r: Result)
    requires StopsWith(p, k, hi, r) && r != Done && hi <= end
    ensures StopsWith(p, k, end, r)
  {
  }

  /** The tables that the indexer writes: the heights whose blocks were processed, their logs, and the
      indexed height of the contracts. */
  class Database {
    ghost var processed: seq<nat>
    var logs: seq<string>
    var indexed: nat

    constructor (indexed: nat)
      ensures processed == [] && logs == [] && this.indexed == indexed
    {
      this.indexed, logs, processed := indexed, [], [];
    }

    /** From the state `(processed0, logs0, indexed0)`, the blocks of `[lo, hi)` were committed. */
    ghost predicate Advanced(processed0: seq<nat>, logs0: seq<string>, indexed0: nat, fetch: nat -> Fetched, lo: nat,
                             hi: nat)
      reads this
    {
      && lo <= hi && AllBlocks(fetch, lo, hi)
      && processed == processed0 + Heights(lo, hi)
      && logs == logs0 + LogsOf(fetch, lo, hi)
      && indexed == if lo < hi then hi - 1 else indexed0
    }

    /** One transaction: the matching logs and the height of the last block. */
    method Commit(p: Pass, lo: nat, hi: nat) returns (ok: bool)
      requires lo < hi && AllBlocks(p.fetch, lo, hi)
      modifies this
      ensures ok == p.commits(lo)
      ensures ok ==> Advanced(old(processed), old(logs), old(indexed), p.fetch, lo, hi)
      ensures !ok ==> processed == old(processed) && logs == old(logs) && indexed == old(indexed)
    {
      if !p.commits(lo) { return false; }
      var inserted := [];
      for h := lo to hi
        invariant inserted == LogsOf(p.fetch, lo, h)
      {
        match p.fetch(h).log
        case Some(log) => inserted := inserted + [log];
        case None =>
      }
      processed := processed + Heights(lo, hi);
      logs := logs + inserted;
      indexed := hi - 1;
      return true;
    }

    /** One group of ready results: the blocks before the first error are committed, then the error is
        reported. */
    method IndexGroup(p: Pass, lo: nat, hi: nat) returns (next: nat, r: Option<Result>)
      requires lo < hi
      modifies this
      ensures lo <= next <= hi && Advanced(old(processed), old(logs), old(indexed), p.fetch, lo, next)
      ensures r.None? ==> next == hi
      ensures r.Some? ==> r.value != Done && next < hi && StopsWith(p, next, hi, r.value)
    {
      next := lo;
      while next < hi && p.fetch(next).Block?
        invariant lo <= next <= hi && AllBlocks(p.fetch, lo, next)
      {
        next := next + 1;
      }
      if lo < next {
        var ok := Commit(p, lo, next);
        if !ok { return lo, Some(Other); }
      }
      if next < hi {
        var e := p.fetch(next).error;
        return next, Some(if e == Unknown then Other else Retryable(next, e));
      }
      return next, None;
    }

    /** `index_blocks_by_chunk`. */
    method IndexByChunk(p: Pass, start: nat, end: nat, chunkSize: nat) returns (next: nat, r: Result)
      requires chunkSize > 0 && start <= end
      modifies this
      ensures start <= next <= end && Advanced(old(processed), old(logs), old(indexed), p.fetch, start, next)
      ensures StopsWith(p, next, end, r)
    {
      hide LogsOf, Heights, StopsWith;
      NothingYet(p, start, end);
      next := start;
      while next < end
        invariant start <= next <= end
        invariant Advanced(old(processed), old(logs), old(indexed), p.fetch, start, next)
      {
        var chunkEnd := if next + chunkSize <= end then next + chunkSize else end;
        while next < chunkEnd
          invariant start <= next <= chunkEnd
          invariant Advanced(old(processed), old(logs), old(indexed), p.fetch, start, next)
        {
          var ready := p.ready(next);
          var hi := if 1 <= ready <= chunkEnd - next then next + ready else next + 1;
          ghost var lo, before, logsBefore, indexedBefore := next, processed, logs, indexed;
          var stop;
          next, stop := IndexGroup(p, next, hi);
          HeightsSplit(start, lo, next);
          LogsSplit(p.fetch, start, lo, next);
          assert old(logs) + (LogsOf(p.fetch, start, lo) + LogsOf(p.fetch, lo, next))
              == logsBefore + LogsOf(p.fetch, lo, next);
          match stop
          case Some(err) =>
            StopIsFinal(p, next, hi, end, err);
            return next, err;
          case None =>
        }
      }
      return next, Done;
    }

    /** `index_blocks`: a block that is not there yet switches to a pass over single blocks, which is
        made in its own surroundings `q`. Whatever happens, what is committed is a gap-free stretch from
        the start, each height once and in order, the indexed height is its last one, and an error that
        carries a height names the first height that was not processed. The second pass is made exactly when
        the block that the first one stopped at is not there, and the pass made last says why it stopped. */
    method IndexBlocks(p: Pass, q: Pass, start: nat, end: nat, chunkSize: nat) returns (ghost caughtUp: nat,
                       next: nat, r: Result)
      requires chunkSize > 0 && start <= end
      modifies this
      ensures start <= caughtUp <= next <= end
      ensures AllBlocks(p.fetch, start, caughtUp) && AllBlocks(q.fetch, caughtUp, next)
      ensures processed == old(processed) + Heights(start, next)
      ensures logs == old(logs) + LogsOf(p.fetch, start, caughtUp) + LogsOf(q.fetch, caughtUp, next)
      ensures indexed == if start < next then next - 1 else old(indexed)
      ensures if caughtUp < end && p.fetch(caughtUp) == Failure(BlockNotFound) then StopsWith(q, next, end, r)
              else next == caughtUp && StopsWith(p, next, end, r)
      ensures r == Done <==> next == end
      ensures r.Retryable? ==> r.height == next
    {
      hide LogsOf, Heights, AllBlocks;
      NoneBetween(q.fetch, start, end);
      next, r := IndexByChunk(p, start, end, chunkSize);
      caughtUp := next;
      if r.Retryable? && r.error == BlockNotFound {
        next, r := IndexByChunk(q, r.height, end, 1);
        HeightsSplit(start, caughtUp, next);
      }
    }
  }

  /** After a restart, which begins right above the indexed height, the heights processed by the two runs
      together are still gap-free. */
  method Restart(db: Database, p: Pass, q: Pass, p': Pass, q': Pass, end: nat, chunkSize: nat) returns (next: nat)
    requires chunkSize > 0 && db.indexed < end
    modifies db
    ensures old(db.indexed) < next <= end
    ensures db.indexed == next - 1
    ensures db.processed == old(db.processed) + Heights(old(db.indexed) + 1, next)
  {
    hide LogsOf, Heights, AllBlocks;
    ghost var start, before := db.indexed + 1, db.processed;
    var _, k, r := db.IndexBlocks(p, q, db.indexed + 1, end, chunkSize);
    var _, k', r' := db.IndexBlocks(p', q', db.indexed + 1, end, chunkSize);
    next := k';
    HeightsSplit(start, k, next);
    assert (before + Heights(start, k)) + Heights(k, next) == before + (Heights(start, k) + Heights(k, next));
  }
}
