/** The request path as functions of a board and a script. A script fixes everything a
    request does not decide itself: its clock readings, random draws, dial outcomes and
    cancellation points, and, in the `before...` fields, the lock regions other goroutines
    run between two of its own. Quantifying over scripts quantifies over interleavings. */
module Requests {
  import opened Types
  import opened Selection
  import opened Regions
  import opened Schedules

  // ---------------------------------------------------------------- Pick

  datatype PickTurn = PickTurn(
    now: Time,
    beforePin: seq<Step>,
    beforeEvict: seq<Step>,
    beforeScan: seq<Step>,
    coin: Coin)

  datatype PickOutcome = PickOutcome(result: PickResult, board: Board)

  function ScanAfter(b: Board, host: Host, tried: set<Id>, t: PickTurn): PickOutcome {
    var b' := Run(b, t.beforeScan);
    PickOutcome(Scan(b', host, tried, t.now, t.coin), b')
  }

  /** `Pick`: the cascade check, the pin check with its lazy eviction, the candidate scan. */
  function PickRun(b: Board, host: Host, tried: set<Id>, t: PickTurn): PickOutcome {
    if CascadeActive(b, host, t.now) then PickOutcome(CascadeCooling, b)
    else
      var b1 := Run(b, t.beforePin);
      match PinFor(b1, host, tried, t.now)
      case PinLive(up) => PickOutcome(Picked(up), b1)
      case PinExpired =>
        ScanAfter(Apply(Run(b1, t.beforeEvict), EvictPin(host, t.now)), host, tried, t)
      case _ => ScanAfter(b1, host, tried, t)
  }

  // ---------------------------------------------------------------- RecordFailure

  datatype FailTurn = FailTurn(now: Time, beforeStamp: seq<Step>, beforePenalty: seq<Step>)

  /** `own` lists the regions the call ran that may write; `fired` says the hook ran. */
  datatype FailOutcome = FailOutcome(board: Board, own: seq<Step>, fired: bool)

  function FailRun(b: Board, host: Host, id: Id, kind: Kind, override: Option<Duration>, t: FailTurn): FailOutcome {
    if !kind.Valid() then FailOutcome(b, [], false)
    else
      var stamp := Stamp(Key(host, id, kind), t.now, b.cfg.debounceWindow);
      var penalty := Penalize(host, id, t.now, b.cfg.PolicyFor(kind), b.cfg.scoreCap, override);
      var b1 := Run(b, t.beforeStamp);
      if !Accepts(b1, stamp.key, t.now, stamp.window) then FailOutcome(b1, [stamp], false)
      else
        FailOutcome(Apply(Run(Apply(b1, stamp), t.beforePenalty), penalty), [stamp, penalty], true)
  }

  // ---------------------------------------------------------------- DialFor

  datatype DialError = DialError(proxyAuth: bool, timeout: bool, refused: bool)

  datatype DialOutcome = Connected | Failed(err: DialError)

  function ClassifyDialError(err: DialError): Kind {
    if err.proxyAuth then ProxyAuth
    else if err.timeout then Timeout
    else Refused
  }

  /** A true refusal is scored only when the gate is on; everything else always is. */
  predicate Scored(b: Board, err: DialError) {
    ClassifyDialError(err) != Refused || !err.refused || b.cfg.connectionRefused
  }

  datatype Attempt = Attempt(
    before: seq<Step>,
    doneBefore: bool,
    pick: PickTurn,
    during: seq<Step>,
    outcome: DialOutcome,
    doneAfter: bool,
    end: Time,
    beforeRecord: seq<Step>,
    fail: FailTurn)

  datatype DialScript = DialScript(now: Time, beforeSnapshot: seq<Step>, attempts: nat -> Attempt, beforeTrip: seq<Step>, trip: Time)

  datatype DialResult = Won(id: Id) | Cascaded | Cancelled | Exhausted

  /** `dials` are the upstream ids dialled, in order; `own` the request's own writing regions. */
  datatype DialTrace = DialTrace(result: DialResult, dials: seq<Id>, own: seq<Step>, board: Board)

  function Exhaust(b: Board, host: Host, script: DialScript, dials: seq<Id>, own: seq<Step>): DialTrace {
    DialTrace(Exhausted, dials, own + [Trip(host, script.trip)], Apply(Run(b, script.beforeTrip), Trip(host, script.trip)))
  }

  /** A failed dial's bookkeeping. */
  function RecordDialFailure(b: Board, host: Host, id: Id, err: DialError, a: Attempt): FailOutcome {
    if Scored(b, err) then
      FailRun(Run(b, a.beforeRecord), host, id, ClassifyDialError(err), None, a.fail)
    else FailOutcome(b, [], false)
  }

  /** What one attempt leads to: the loop ends, the pool is used up, or the next upstream's turn. */
  datatype Progress =
    | Stop(result: DialResult, dialled: seq<Id>, own: seq<Step>)
    | NoneLeft
    | Failover(id: Id, own: seq<Step>)

  datatype AttemptOutcome = AttemptOutcome(progress: Progress, board: Board)

  /** One iteration of `DialFor`'s loop. */
  function AttemptRun(b: Board, host: Host, tried: set<Id>, a: Attempt): AttemptOutcome {
    var b0 := Run(b, a.before);
    if a.doneBefore then AttemptOutcome(Stop(Cancelled, [], []), b0)
    else
      var p := PickRun(b0, host, tried, a.pick);
      match p.result
      case CascadeCooling => AttemptOutcome(Stop(Cascaded, [], []), p.board)
      case PoolExhausted => AttemptOutcome(NoneLeft, p.board)
      case Picked(up) =>
        var b1 := Run(p.board, a.during);
        if a.outcome.Connected? then
          AttemptOutcome(Stop(Won(up.id), [up.id], [Succeed(host, up.id, a.end)]),
                         Apply(b1, Succeed(host, up.id, a.end)))
        else if a.doneAfter then AttemptOutcome(Stop(Cancelled, [up.id], []), b1)
        else
          var f := RecordDialFailure(b1, host, up.id, a.outcome.err, a);
          AttemptOutcome(Failover(up.id, f.own), f.board)
  }

  /** The retry loop of `DialFor` from attempt `k` on. */
  function Attempts(b: Board, host: Host, script: DialScript, limit: nat, k: nat,
                    tried: set<Id>, dials: seq<Id>, own: seq<Step>): DialTrace
    decreases limit - k, 1
  {
    if k >= limit then Exhaust(b, host, script, dials, own)
    else AttemptsAfter(AttemptRun(b, host, tried, script.attempts(k)), host, script, limit, k, tried, dials, own)
  }

  /** The rest of the loop once attempt `k` has led to `o`. */
  function AttemptsAfter(o: AttemptOutcome, host: Host, script: DialScript, limit: nat, k: nat,
                         tried: set<Id>, dials: seq<Id>, own: seq<Step>): DialTrace
    requires k < limit
    decreases limit - k, 0
  {
    match o.progress
    case Stop(result, dialled, more) => DialTrace(result, dials + dialled, own + more, o.board)
    case NoneLeft => Exhaust(o.board, host, script, dials, own)
    case Failover(id, more) =>
      Attempts(o.board, host, script, limit, k + 1, tried + {id}, dials + [id], own + more)
  }

  function Limit(retryCap: int, pool: nat): nat {
    if retryCap <= 0 then 0 else if retryCap < pool then retryCap else pool
  }

  /** The number of attempts `DialFor` allows itself, from the pool and cap as read on entry. */
  function LimitAt(b: Board, script: DialScript): nat {
    var at := Run(b, script.beforeSnapshot);
    Limit(at.retryCap, |at.pool|)
  }

  function DialFor(b: Board, host: Host, script: DialScript): DialTrace {
    if CascadeActive(b, host, script.now) then DialTrace(Cascaded, [], [], b)
    else
      var b1 := Run(b, script.beforeSnapshot);
      Attempts(b1, host, script, LimitAt(b, script), 0, {}, [], [])
  }

  // ---------------------------------------------------------------- safety of one request

  predicate Distinct(ids: seq<Id>) {
    forall i, j :: 0 <= i < j < |ids| ==> ids[i] != ids[j]
  }

  function Ids(dials: seq<Id>): set<Id> { set i | i in dials }

  lemma PinIsUntried(b: Board, host: Host, tried: set<Id>, now: Time)
    ensures var pin := PinFor(b, host, tried, now); pin.PinLive? ==> pin.up.id !in tried
  {
    if host in b.forces {
      FindIdMeaning(b.pool, b.forces[host].id);
    }
  }

  lemma ScannedIsUntried(b: Board, host: Host, tried: set<Id>, t: PickTurn)
    ensures var p := ScanAfter(b, host, tried, t); p.result.Picked? ==> p.result.up.id !in tried
  {
    ScanIsOpen(Run(b, t.beforeScan), host, tried, t.now, t.coin);
  }

  /** Whatever happens between its regions, `Pick` returns an upstream the request has not tried. */
  lemma PickedIsUntried(b: Board, host: Host, tried: set<Id>, t: PickTurn)
    ensures var p := PickRun(b, host, tried, t); p.result.Picked? ==> p.result.up.id !in tried
  {
    var b1 := Run(b, t.beforePin);
    PinIsUntried(b1, host, tried, t.now);
    ScannedIsUntried(Apply(Run(b1, t.beforeEvict), EvictPin(host, t.now)), host, tried, t);
    ScannedIsUntried(b1, host, tried, t);
  }

  /** A scan returns an open entry of the pool it read. */
  lemma ScanIsOpen(b: Board, host: Host, tried: set<Id>, now: Time, coin: Coin)
    ensures var r := Scan(b, host, tried, now, coin);
      r.Picked? ==> exists k :: 0 <= k < |b.pool| && Open(b, host, tried, k) && b.pool[k].up == r.up
  {
    ScanExhausted(b, host, tried, now, coin);
    if Scan(b, host, tried, now, coin).Picked? {
      if j :| Eligible(b, host, tried, now, j) {
        if Probes(b, |Order(b, host, tried, now)|, coin) {
          var k := ScanProbe(b, host, tried, now, coin);
        } else {
          var k := ScanBest(b, host, tried, now, coin);
        }
      } else {
        var k := ScanAllCooled(b, host, tried, now, coin);
      }
    }
  }

  // ---------------------------------------------------------------- what a pick did to the board

  /** `gaps` followed by those of a `Pick`. */
  function AddPick(gaps: seq<seq<Step>>, t: PickTurn): seq<seq<Step>> {
    gaps + [t.beforePin] + [t.beforeEvict] + [t.beforeScan]
  }

  lemma SkipPick(b: Board, mid: Board, own: seq<Step>, gaps: seq<seq<Step>>, host: Host, t: PickTurn)
    requires Scheduled(b, mid, own, gaps, host)
    ensures Scheduled(b, mid, own, AddPick(gaps, t), host)
  {
    ThenSkip(b, mid, own, gaps, t.beforePin, host);
    ThenSkip(b, mid, own, gaps + [t.beforePin], t.beforeEvict, host);
    ThenSkip(b, mid, own, gaps + [t.beforePin] + [t.beforeEvict], t.beforeScan, host);
  }

  lemma PickIsScheduled(b0: Board, b: Board, own: seq<Step>, gaps: seq<seq<Step>>, host: Host, tried: set<Id>, t: PickTurn)
    requires Scheduled(b0, b, own, gaps, host)
    ensures Scheduled(b0, PickRun(b, host, tried, t).board, own, AddPick(gaps, t), host)
  {
    if CascadeActive(b, host, t.now) {
      SkipPick(b0, b, own, gaps, host, t);
    } else {
      var b1 := Run(b, t.beforePin);
      ThenGap(b0, b, own, gaps, t.beforePin, host);
      var pin := PinFor(b1, host, tried, t.now);
      if pin.PinExpired? {
        var b2 := Run(b1, t.beforeEvict);
        ThenGap(b0, b1, own, gaps + [t.beforePin], t.beforeEvict, host);
        ThenEvict(b0, b2, own, gaps + [t.beforePin] + [t.beforeEvict], t.now, host);
        ThenGap(b0, Apply(b2, EvictPin(host, t.now)), own, gaps + [t.beforePin] + [t.beforeEvict], t.beforeScan, host);
      } else {
        ThenSkip(b0, b1, own, gaps + [t.beforePin], t.beforeEvict, host);
        if pin.PinLive? {
          ThenSkip(b0, b1, own, gaps + [t.beforePin] + [t.beforeEvict], t.beforeScan, host);
        } else {
          ThenGap(b0, b1, own, gaps + [t.beforePin] + [t.beforeEvict], t.beforeScan, host);
        }
      }
    }
  }

  lemma RejectedStampIsSilent(b: Board, stamp: Step)
    requires stamp.Stamp? && !Accepts(b, stamp.key, stamp.now, stamp.window)
    ensures Apply(b, stamp) == b
  {
  }
}
