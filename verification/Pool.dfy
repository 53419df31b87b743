/** The static priority pool (internal/upstream/pool.go): the baseline the scoreboard must
    coincide with for a host it knows nothing about. */
module Pool {
  import opened Types
  import opened Selection
  import opened Regions
  import opened Requests
  import StableSort

  predicate ByPriority(a: PoolEntry, b: PoolEntry) { a.priority < b.priority }

  datatype PoolError = NoUpstreams | RetryCapTooSmall

  datatype PoolResult = PoolOk(entries: seq<PoolEntry>, retryCap: int) | PoolErr(error: PoolError)

  /** `NewPool`. */
  function NewPool(entries: seq<PoolEntry>, retryCap: int): PoolResult {
    if entries == [] then PoolErr(NoUpstreams)
    else if retryCap < 1 then PoolErr(RetryCapTooSmall)
    else PoolOk(StableSort.Sort(ByPriority, entries), retryCap)
  }

  /** A pool is refused only without upstreams or with a cap below one, which it else keeps. */
  lemma NewPoolRefuses(entries: seq<PoolEntry>, retryCap: int)
    ensures NewPool(entries, retryCap).PoolErr? <==> |entries| == 0 || retryCap <= 0
    ensures NewPool(entries, retryCap).PoolErr? ==>
      (NewPool(entries, retryCap).error == NoUpstreams <==> |entries| == 0)
    ensures NewPool(entries, retryCap).PoolOk? ==> NewPool(entries, retryCap).retryCap == retryCap
  {
  }

  /** A pool keeps every entry, orders them by priority, and keeps the input order of entries
      with equal priority. */
  lemma NewPoolSortsStably(entries: seq<PoolEntry>, retryCap: int, e: PoolEntry)
    requires NewPool(entries, retryCap).PoolOk?
    ensures var p := NewPool(entries, retryCap).entries;
      && multiset(p) == multiset(entries)
      && (forall i, j :: 0 <= i < j < |p| ==> p[i].priority <= p[j].priority)
      && StableSort.Ties(ByPriority, e, p) == StableSort.Ties(ByPriority, e, entries)
  {
    StableSort.SortPermutes(ByPriority, entries);
    StableSort.SortHasNoDescent(ByPriority, entries);
    StableSort.SortKeepsTies(ByPriority, e, entries);
  }

  // ---------------------------------------------------------------- the plain retry loop

  datatype PlainResult = PlainWon(id: Id) | PlainCancelled | PlainExhausted

  datatype PlainTrace = PlainTrace(result: PlainResult, dials: seq<Id>)

  /** `Pool.DialFor` from attempt `k` on; it looks at the context only before a dial. */
  function PlainAttempts(pool: seq<PoolEntry>, script: DialScript, limit: nat, k: nat, dials: seq<Id>): PlainTrace
    requires limit <= |pool|
    decreases limit - k
  {
    if k >= limit then PlainTrace(PlainExhausted, dials)
    else if script.attempts(k).doneBefore then PlainTrace(PlainCancelled, dials)
    else
      var id := pool[k].up.id;
      if script.attempts(k).outcome.Connected? then PlainTrace(PlainWon(id), dials + [id])
      else PlainAttempts(pool, script, limit, k + 1, dials + [id])
  }

  function PlainDialFor(pool: seq<PoolEntry>, retryCap: int, script: DialScript): PlainTrace {
    PlainAttempts(pool, script, Limit(retryCap, |pool|), 0, [])
  }

  /** The loop itself. */
  method DialLoop(pool: seq<PoolEntry>, retryCap: int, script: DialScript)
    returns (result: PlainResult, dials: seq<Id>)
    requires retryCap >= 1
    ensures PlainTrace(result, dials) == PlainDialFor(pool, retryCap, script)
  {
    var limit := retryCap;
    if limit > |pool| {
      limit := |pool|;
    }
    dials := [];
    var canceledMid := false;
    var i := 0;
    while i < limit && !canceledMid
      invariant 0 <= i <= limit && limit == Limit(retryCap, |pool|)
      invariant canceledMid ==>
        PlainDialFor(pool, retryCap, script) == PlainTrace(PlainCancelled, dials)
      invariant !canceledMid ==>
        PlainDialFor(pool, retryCap, script) == PlainAttempts(pool, script, limit, i, dials)
      decreases limit - i, !canceledMid
    {
      if script.attempts(i).doneBefore {
        if dials == [] {
          return PlainCancelled, dials;
        }
        canceledMid := true;
      } else {
        dials := dials + [pool[i].up.id];
        if script.attempts(i).outcome.Connected? {
          return PlainWon(pool[i].up.id), dials;
        }
        i := i + 1;
      }
    }
    if canceledMid {
      return PlainCancelled, dials;
    }
    return PlainExhausted, dials;
  }

  // ---------------------------------------------------------------- the scoreboard coincides

  /** The scoreboard has never seen `host`, nothing steers it, and probing is off. */
  ghost predicate Unknown(b: Board, host: Host) {
    && host !in b.entries && host !in b.cascade && host !in b.forces
    && MatchRule(b.rules, host) == None
    && b.cfg.probeChance <= 0.0
  }

  ghost predicate SortedUnique(pool: seq<PoolEntry>) {
    UniqueIds(pool) && forall i, j :: 0 <= i < j < |pool| ==> pool[i].priority <= pool[j].priority
  }

  /** No other goroutine runs around attempt `k`, and a cancelled context stays cancelled. */
  ghost predicate AloneAt(script: DialScript, k: nat) {
    var a := script.attempts(k);
    && a.before == [] && a.during == [] && a.beforeRecord == []
    && a.pick.beforePin == [] && a.pick.beforeEvict == [] && a.pick.beforeScan == []
    && a.fail.beforeStamp == [] && a.fail.beforePenalty == []
    && (a.doneBefore ==> a.doneAfter)
    && (a.doneAfter ==> script.attempts(k + 1).doneBefore)
  }

  ghost predicate Alone(script: DialScript) {
    script.beforeSnapshot == [] && forall k: nat :: AloneAt(script, k)
  }

  /** The first `k` pool ids. */
  function FirstIds(pool: seq<PoolEntry>, k: nat): set<Id>
    requires k <= |pool|
  {
    set i | 0 <= i < k :: pool[i].up.id
  }

  /** After `k` failures the only memory of `host` concerns the first `k` upstreams. */
  ghost predicate KnowsOnly(b: Board, host: Host, k: nat) {
    && k <= |b.pool|
    && host !in b.cascade && host !in b.forces
    && MatchRule(b.rules, host) == None
    && b.cfg.probeChance <= 0.0
    && forall j :: k <= j < |b.pool| ==> EntryOf(b.entries, host, b.pool[j].up.id) == BLANK
  }

  lemma NextIsPicked(b: Board, host: Host, k: nat, t: PickTurn)
    requires KnowsOnly(b, host, k) && k < |b.pool| && SortedUnique(b.pool)
    requires t.beforePin == [] && t.beforeScan == []
    ensures PickRun(b, host, FirstIds(b.pool, k), t) == PickOutcome(Picked(b.pool[k].up), b)
  {
    var tried := FirstIds(b.pool, k);
    forall j | k <= j < |b.pool|
      ensures Eligible(b, host, tried, t.now, j)
    {
      assert b.pool[j].up.id !in tried;
    }
    forall j | 0 <= j < k
      ensures !Eligible(b, host, tried, t.now, j)
    {
      assert b.pool[j].up.id in tried;
    }
    assert Eligible(b, host, tried, t.now, k);
    var best := ScanBest(b, host, tried, t.now, t.coin);
    assert Best(b, host, tried, t.now, k);
    BestIsUnique(b, host, tried, t.now, best, k);
  }

  lemma FailureTouchesOne(b: Board, host: Host, k: nat, err: DialError, a: Attempt)
    requires KnowsOnly(b, host, k) && k < |b.pool| && SortedUnique(b.pool)
    requires a.beforeRecord == [] && a.fail.beforeStamp == [] && a.fail.beforePenalty == []
    ensures var f := RecordDialFailure(b, host, b.pool[k].up.id, err, a).board;
      KnowsOnly(f, host, k + 1) && f.pool == b.pool
  {
    var id := b.pool[k].up.id;
    var f := RecordDialFailure(b, host, id, err, a).board;
    var e := Penalized(EntryOf(b.entries, host, id), a.fail.now, b.cfg.PolicyFor(ClassifyDialError(err)), b.cfg.scoreCap, None);
    forall j | k + 1 <= j < |b.pool|
      ensures EntryOf(f.entries, host, b.pool[j].up.id) == BLANK
    {
      assert b.pool[j].up.id != id;
      EntryOfPut(b.entries, host, id, e, host, b.pool[j].up.id);
    }
  }

  /** Equal dials and winner; the outcome differs only when the context dies during the last
      permitted dial, which the plain pool reports as exhaustion. */
  ghost predicate Coincide(d: DialTrace, p: PlainTrace, script: DialScript, limit: nat) {
    && d.dials == p.dials
    && (forall id :: d.result == Won(id) <==> p.result == PlainWon(id))
    && !d.result.Cascaded?
    && (d.result.Exhausted? ==> p.result.PlainExhausted?)
    && (d.result.Cancelled? <==>
          p.result.PlainCancelled?
          || (p.result.PlainExhausted? && limit > 0 && script.attempts(limit - 1).doneAfter))
  }

  /** Where an undisturbed attempt on upstream `k` leads. */
  ghost predicate LeadsOn(o: AttemptOutcome, host: Host, pool: seq<PoolEntry>, k: nat, a: Attempt)
    requires k < |pool|
  {
    var id := pool[k].up.id;
    if a.doneBefore then o.progress == Stop(Cancelled, [], [])
    else if a.outcome.Connected? then o.progress.Stop? && o.progress.result == Won(id) && o.progress.dialled == [id]
    else if a.doneAfter then o.progress == Stop(Cancelled, [id], [])
    else o.progress.Failover? && o.progress.id == id && KnowsOnly(o.board, host, k + 1) && o.board.pool == pool
  }

  lemma AttemptOnNext(b: Board, host: Host, k: nat, script: DialScript)
    requires KnowsOnly(b, host, k) && k < |b.pool| && SortedUnique(b.pool) && AloneAt(script, k)
    ensures LeadsOn(AttemptRun(b, host, FirstIds(b.pool, k), script.attempts(k)), host, b.pool, k, script.attempts(k))
  {
    var a := script.attempts(k);
    NextIsPicked(b, host, k, a.pick);
    if a.outcome.Failed? {
      FailureTouchesOne(b, host, k, a.outcome.err, a);
    }
  }

  lemma {:induction false} AttemptsCoincide(b: Board, host: Host, script: DialScript, limit: nat, k: nat, dials: seq<Id>, own: seq<Step>)
    requires KnowsOnly(b, host, k) && SortedUnique(b.pool) && k <= limit <= |b.pool| && Alone(script)
    requires k > 0 ==> !script.attempts(k - 1).doneAfter
    ensures Coincide(Attempts(b, host, script, limit, k, FirstIds(b.pool, k), dials, own),
                     PlainAttempts(b.pool, script, limit, k, dials), script, limit)
    decreases limit - k, 1
  {
    if k < limit {
      assert AloneAt(script, k);
      AttemptOnNext(b, host, k, script);
      RestCoincides(AttemptRun(b, host, FirstIds(b.pool, k), script.attempts(k)), b.pool, host, script, limit, k, dials, own);
    }
  }

  lemma {:induction false} RestCoincides(o: AttemptOutcome, pool: seq<PoolEntry>, host: Host, script: DialScript,
                                         limit: nat, k: nat, dials: seq<Id>, own: seq<Step>)
    requires k < limit <= |pool| && SortedUnique(pool) && Alone(script)
    requires LeadsOn(o, host, pool, k, script.attempts(k))
    ensures Coincide(AttemptsAfter(o, host, script, limit, k, FirstIds(pool, k), dials, own),
                     PlainAttempts(pool, script, limit, k, dials), script, limit)
    decreases limit - k, 0
  {
    var a := script.attempts(k);
    var id := pool[k].up.id;
    if o.progress.Failover? {
      assert FirstIds(pool, k) + {id} == FirstIds(pool, k + 1);
      AttemptsCoincide(o.board, host, script, limit, k + 1, dials + [id], own + o.progress.own);
    } else if !a.doneBefore && !a.outcome.Connected? {
      assert AloneAt(script, k);
      assert PlainAttempts(pool, script, limit, k, dials) == PlainAttempts(pool, script, limit, k + 1, dials + [id]);
    }
  }

  /** For a host without history the scoreboard dials exactly as the plain pool does. */
  lemma UnknownHostDialsAsPool(b: Board, host: Host, script: DialScript)
    requires Unknown(b, host) && SortedUnique(b.pool) && Alone(script)
    ensures Coincide(DialFor(b, host, script), PlainDialFor(b.pool, b.retryCap, script), script,
                     Limit(b.retryCap, |b.pool|))
  {
    assert FirstIds(b.pool, 0) == {};
    AttemptsCoincide(b, host, script, Limit(b.retryCap, |b.pool|), 0, [], []);
  }
}
