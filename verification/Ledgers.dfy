/** What a retrying request does, attempt by attempt: which upstream each asks on which board,
    what a failed one owes the scoreboard, and how the request ends. */
module Ledgers {
  import opened Types
  import opened Selection
  import opened Regions
  import opened Schedules
  import opened Requests
  import opened Choices

  datatype Report = Report(kind: Kind, override: Option<Duration>)

  /** How an attempt comes to its upstream: what others run before it, the pick among those
      not tried yet, and what others run until the outcome is known. */
  datatype Lead = Lead(tried: set<Id>, before: seq<Step>, pick: PickTurn, during: seq<Step>)

  /** A failed attempt on `id`. `due` is the report it owes on the board on which it failed, if
      any; `before` is the gap before that report. */
  datatype Charge = Charge(id: Id, lead: Lead, due: Board -> Option<Report>, before: seq<Step>, fail: FailTurn)

  function PickAt(mid: Board, host: Host, l: Lead): PickOutcome {
    PickRun(Run(mid, l.before), host, l.tried, l.pick)
  }

  /** From `mid` the attempt asked `id`, and its outcome was known on board `at`. */
  ghost predicate Asked(mid: Board, at: Board, host: Host, l: Lead, id: Id) {
    var p := PickAt(mid, host, l);
    p.result.Picked? && p.result.up.id == id && at == Run(p.board, l.during)
  }

  /** From `mid` the attempt was turned away by a cascade after its reading. */
  ghost predicate TurnedBack(mid: Board, at: Board, host: Host, l: Lead) {
    at == Run(mid, l.before) && Turned(at, host, l.pick.now)
  }

  /** From `mid` the attempt found nothing it is permitted to ask. */
  ghost predicate FoundNothing(mid: Board, at: Board, host: Host, l: Lead) {
    && !Turned(Run(mid, l.before), host, l.pick.now)
    && at == PickAt(mid, host, l).board
    && forall k :: !Permitted(at, host, l.tried, k)
  }

  /** The attempt failed on board `at`, recorded `rec` and left `after`. A due report checks the
      debounce stamp of that host, upstream and kind once, under the tuning then in force, and
      penalises that upstream by that tuning exactly when no stamp less than a window old is
      stored. */
  ghost predicate Charged(at: Board, after: Board, rec: seq<Step>, host: Host, c: Charge) {
    match c.due(at)
    case None => after == at && rec == []
    case Some(r) =>
      var start := Run(at, c.before);
      var cfg, key, now := start.cfg, Key(host, c.id, r.kind), c.fail.now;
      var window := cfg.debounceWindow;
      var stamp := Stamp(key, now, window);
      var checked := Run(start, c.fail.beforeStamp);
      if r.kind == Other then after == start && rec == []
      else if window > 0 && key in checked.debounce && now - checked.debounce[key] < window then
        rec == [stamp] && after == checked
      else
        var policy := if r.kind in cfg.kindPolicy then cfg.kindPolicy[r.kind] else Policy(0.0, 0);
        var penalty := Penalize(host, c.id, now, policy, cfg.scoreCap, r.override);
        rec == [stamp, penalty] && after == Apply(Run(Apply(checked, stamp), c.fail.beforePenalty), penalty)
  }

  /** One attempt: it asked, others ran up to its failure at `at`, then it was charged. */
  ghost predicate Entered(mid: Board, at: Board, after: Board, rec: seq<Step>, host: Host, c: Charge) {
    Asked(mid, at, host, c.lead, c.id) && Charged(at, after, rec, host, c)
  }

  /** The attempt turned the records `sofar` into `own`. */
  ghost predicate Continues(mid: Board, after: Board, sofar: seq<Step>, own: seq<Step>, host: Host, c: Charge) {
    exists at, rec :: Entered(mid, at, after, rec, host, c) && own == sofar + rec
  }

  /** From `b` the failed attempts `charges`, and only what others ran in their gaps, lead to
      `after`; `own` is the concatenation of their records. */
  ghost predicate Ledger(b: Board, after: Board, own: seq<Step>, charges: seq<Charge>, host: Host)
    decreases |charges|, 0
  {
    if charges == [] then after == b && own == []
    else
      var front, last := charges[..|charges| - 1], charges[|charges| - 1];
      exists mid, sofar :: Entry(b, mid, sofar, after, own, front, last, host)
  }

  /** The ledger of `front` stands at `mid` with `sofar`, and `last` adds the final entry. */
  ghost predicate Entry(b: Board, mid: Board, sofar: seq<Step>, after: Board, own: seq<Step>,
                        front: seq<Charge>, last: Charge, host: Host)
    decreases |front|, 1
  {
    Ledger(b, mid, sofar, front, host) && Continues(mid, after, sofar, own, host, last)
  }

  /** How a request ends after its failed attempts: its next attempt succeeds; is given up
      before a pick; is turned away; is given up after asking; finds nothing; or there is no
      attempt left. */
  datatype Finish =
    | Wins(id: Id, end: Time)
    | Leaves
    | TurnedAway
    | GivesUp(id: Id)
    | Empties(before: seq<Step>, trip: Time)
    | Spends(before: seq<Step>, trip: Time)

  /** From `mid` the request finishes on `after` with the records `tail`. */
  ghost predicate Finished(mid: Board, after: Board, tail: seq<Step>, l: Lead, host: Host, finish: Finish) {
    match finish
    case Wins(id, end) =>
      tail == [Succeed(host, id, end)]
      && exists at :: Asked(mid, at, host, l, id) && after == Apply(at, Succeed(host, id, end))
    case Leaves => tail == [] && after == Run(mid, l.before)
    case TurnedAway => tail == [] && TurnedBack(mid, after, host, l)
    case GivesUp(id) => tail == [] && Asked(mid, after, host, l, id)
    case Empties(before, trip) =>
      tail == [Trip(host, trip)]
      && exists at :: FoundNothing(mid, at, host, l) && after == Apply(Run(at, before), Trip(host, trip))
    case Spends(before, trip) =>
      tail == [Trip(host, trip)] && after == Apply(Run(mid, before), Trip(host, trip))
  }

  /** A whole request: its failed attempts, then its finish, and nothing else of its own. */
  ghost predicate Settled(b: Board, after: Board, own: seq<Step>, charges: seq<Charge>, l: Lead, host: Host, finish: Finish) {
    exists mid, sofar, tail ::
      Ledger(b, mid, sofar, charges, host) && Finished(mid, after, tail, l, host, finish) && own == sofar + tail
  }

  /** `RecordFailure` is what a due report does. */
  lemma ReportIsCharged(at: Board, host: Host, c: Charge)
    requires c.due(at).Some?
    ensures var r := c.due(at).value;
      var f := FailRun(Run(at, c.before), host, c.id, r.kind, r.override, c.fail);
      Charged(at, f.board, f.own, host, c)
  {
  }

  /** What a pick that is neither turned away nor picks has found. */
  lemma ExhaustedFoundNothing(mid: Board, host: Host, l: Lead)
    requires PickAt(mid, host, l).result.PoolExhausted?
    ensures FoundNothing(mid, PickAt(mid, host, l).board, host, l)
  {
    var start, p := Run(mid, l.before), PickAt(mid, host, l);
    PickMeans(start, host, l.tried, l.pick);
    ExhaustedMeans(p.board, host, l.tried, l.pick.now, l.pick.coin);
  }

  lemma CascadeTurnedBack(mid: Board, host: Host, l: Lead)
    requires PickAt(mid, host, l).result.CascadeCooling?
    ensures TurnedBack(mid, PickAt(mid, host, l).board, host, l)
  {
    PickMeans(Run(mid, l.before), host, l.tried, l.pick);
  }

  lemma LedgerSnoc(b: Board, mid: Board, sofar: seq<Step>, charges: seq<Charge>, at: Board, after: Board,
                   rec: seq<Step>, host: Host, c: Charge)
    requires Ledger(b, mid, sofar, charges, host) && Entered(mid, at, after, rec, host, c)
    ensures Ledger(b, after, sofar + rec, charges + [c], host)
  {
    assert Continues(mid, after, sofar, sofar + rec, host, c);
    EntryExtends(b, mid, sofar, after, sofar + rec, charges, c, host);
  }

  lemma EntryExtends(b: Board, mid: Board, sofar: seq<Step>, after: Board, own: seq<Step>,
                     charges: seq<Charge>, c: Charge, host: Host)
    requires Entry(b, mid, sofar, after, own, charges, c, host)
    ensures Ledger(b, after, own, charges + [c], host)
  {
    var longer := charges + [c];
    assert longer != [] && longer[..|longer| - 1] == charges && longer[|longer| - 1] == c;
    LedgerBy(b, mid, sofar, after, own, longer, host);
  }

  lemma LedgerBy(b: Board, mid: Board, sofar: seq<Step>, after: Board, own: seq<Step>, charges: seq<Charge>, host: Host)
    requires charges != []
    requires Entry(b, mid, sofar, after, own, charges[..|charges| - 1], charges[|charges| - 1], host)
    ensures Ledger(b, after, own, charges, host)
  {
  }

  lemma SettledBy(b: Board, mid: Board, sofar: seq<Step>, after: Board, tail: seq<Step>, charges: seq<Charge>,
                  l: Lead, host: Host, finish: Finish)
    requires Ledger(b, mid, sofar, charges, host) && Finished(mid, after, tail, l, host, finish)
    ensures Settled(b, after, sofar + tail, charges, l, host, finish)
  {
  }

  // ---------------------------------------------------------------- the schedule behind a ledger

  /** The board was reached by the request's records `own` and others' regions. */
  ghost predicate Reached(b: Board, after: Board, own: seq<Step>, host: Host) {
    exists gaps :: Scheduled(b, after, own, gaps, host)
  }

  lemma ReachedThen(b: Board, mid: Board, after: Board, xs: seq<Step>, ys: seq<Step>, host: Host)
    requires Reached(b, mid, xs, host) && Reached(mid, after, ys, host)
    ensures Reached(b, after, xs + ys, host)
  {
    var gs :| Scheduled(b, mid, xs, gs, host);
    var hs :| Scheduled(mid, after, ys, hs, host);
    Then(b, mid, after, xs, ys, gs, hs, host);
  }

  lemma ThenOthers(b: Board, mid: Board, own: seq<Step>, steps: seq<Step>, host: Host)
    requires Reached(b, mid, own, host)
    ensures Reached(b, Run(mid, steps), own, host)
  {
    var gaps :| Scheduled(b, mid, own, gaps, host);
    ThenGap(b, mid, own, gaps, steps, host);
  }

  lemma ThenRecord(b: Board, mid: Board, own: seq<Step>, step: Step, host: Host)
    requires Reached(b, mid, own, host) && !step.EvictPin?
    ensures Reached(b, Apply(mid, step), own + [step], host)
  {
    var gaps :| Scheduled(b, mid, own, gaps, host);
    ThenOwn(b, mid, own, gaps, step, host);
  }

  lemma ChargeReaches(b: Board, at: Board, own: seq<Step>, after: Board, rec: seq<Step>, host: Host, c: Charge)
    requires Reached(b, at, own, host) && Charged(at, after, rec, host, c)
    ensures Reached(b, after, own + rec, host)
  {
    assert own + [] == own;
    if c.due(at).Some? {
      var start := Run(at, c.before);
      ThenOthers(b, at, own, c.before, host);
      if c.due(at).value.kind.Valid() {
        ThenOthers(b, start, own, c.fail.beforeStamp, host);
        StampReaches(b, Run(start, c.fail.beforeStamp), own, after, rec, host, c.fail.beforePenalty);
      }
    }
  }

  lemma StampReaches(b: Board, checked: Board, own: seq<Step>, after: Board, rec: seq<Step>, host: Host, before: seq<Step>)
    requires Reached(b, checked, own, host) && rec != [] && rec[0].Stamp?
    requires if Accepts(checked, rec[0].key, rec[0].now, rec[0].window) then
        |rec| == 2 && rec[1].Penalize? && after == Apply(Run(Apply(checked, rec[0]), before), rec[1])
      else |rec| == 1 && after == checked
    ensures Reached(b, after, own + rec, host)
  {
    if |rec| == 1 {
      assert rec == [rec[0]];
      RejectionReaches(b, checked, own, rec[0], host);
    } else {
      assert rec == [rec[0], rec[1]];
      ThenRecord(b, checked, own, rec[0], host);
      PenaltyReaches(b, Apply(checked, rec[0]), own, rec[0], rec[1], host, before);
    }
  }

  lemma RejectionReaches(b: Board, checked: Board, own: seq<Step>, stamp: Step, host: Host)
    requires Reached(b, checked, own, host) && stamp.Stamp?
    requires !Accepts(checked, stamp.key, stamp.now, stamp.window)
    ensures Reached(b, checked, own + [stamp], host)
  {
    ThenRecord(b, checked, own, stamp, host);
    RejectedStampIsSilent(checked, stamp);
  }

  lemma TwoMore<T>(s: seq<T>, x: T, y: T)
    ensures s + [x] + [y] == s + [x, y]
  {
  }

  lemma PenaltyReaches(b: Board, stamped: Board, own: seq<Step>, stamp: Step, penalty: Step, host: Host, before: seq<Step>)
    requires Reached(b, stamped, own + [stamp], host) && penalty.Penalize?
    ensures Reached(b, Apply(Run(stamped, before), penalty), own + [stamp, penalty], host)
  {
    ThenOthers(b, stamped, own + [stamp], before, host);
    ThenRecord(b, Run(stamped, before), own + [stamp], penalty, host);
    TwoMore(own, stamp, penalty);
  }

  lemma ThenPick(b: Board, mid: Board, own: seq<Step>, host: Host, l: Lead)
    requires Reached(b, mid, own, host)
    ensures Reached(b, PickAt(mid, host, l).board, own, host)
  {
    var gaps :| Scheduled(b, mid, own, gaps, host);
    ThenGap(b, mid, own, gaps, l.before, host);
    PickIsScheduled(b, Run(mid, l.before), own, gaps + [l.before], host, l.tried, l.pick);
  }

  lemma AskReaches(b: Board, mid: Board, own: seq<Step>, at: Board, host: Host, l: Lead, id: Id)
    requires Reached(b, mid, own, host) && Asked(mid, at, host, l, id)
    ensures Reached(b, at, own, host)
  {
    ThenPick(b, mid, own, host, l);
    ThenOthers(b, PickAt(mid, host, l).board, own, l.during, host);
  }

  lemma {:induction false} LedgerReaches(b: Board, after: Board, own: seq<Step>, charges: seq<Charge>, host: Host)
    requires Ledger(b, after, own, charges, host)
    ensures Reached(b, after, own, host)
    decreases |charges|
  {
    if charges == [] {
      Idle(b, [], host);
    } else {
      var front, c := charges[..|charges| - 1], charges[|charges| - 1];
      var mid, sofar :| Entry(b, mid, sofar, after, own, front, c, host);
      var at, rec :| Entered(mid, at, after, rec, host, c) && own == sofar + rec;
      LedgerReaches(b, mid, sofar, front, host);
      AskReaches(b, mid, sofar, at, host, c.lead, c.id);
      ChargeReaches(b, at, sofar, after, rec, host, c);
    }
  }

  lemma FinishReaches(b: Board, mid: Board, own: seq<Step>, after: Board, tail: seq<Step>, l: Lead, host: Host, finish: Finish)
    requires Reached(b, mid, own, host) && Finished(mid, after, tail, l, host, finish)
    ensures Reached(b, after, own + tail, host)
  {
    assert own + [] == own;
    match finish {
      case Wins(id, end) =>
        var at :| Asked(mid, at, host, l, id) && after == Apply(at, Succeed(host, id, end));
        AskReaches(b, mid, own, at, host, l, id);
        ThenRecord(b, at, own, Succeed(host, id, end), host);
      case Leaves => ThenOthers(b, mid, own, l.before, host);
      case TurnedAway => ThenOthers(b, mid, own, l.before, host);
      case GivesUp(id) => AskReaches(b, mid, own, after, host, l, id);
      case Empties(before, trip) =>
        var at :| FoundNothing(mid, at, host, l) && after == Apply(Run(at, before), Trip(host, trip));
        ThenPick(b, mid, own, host, l);
        ThenOthers(b, at, own, before, host);
        ThenRecord(b, Run(at, before), own, Trip(host, trip), host);
      case Spends(before, trip) =>
        ThenOthers(b, mid, own, before, host);
        ThenRecord(b, Run(mid, before), own, Trip(host, trip), host);
    }
  }

  /** The board a settled request leaves is the run of exactly its records, besides evictions
      of its host's expired pin, and of others' regions. */
  lemma SettledReaches(b: Board, after: Board, own: seq<Step>, charges: seq<Charge>, l: Lead, host: Host, finish: Finish)
    requires Settled(b, after, own, charges, l, host, finish)
    ensures Reached(b, after, own, host)
  {
    var mid, sofar, tail :|
      Ledger(b, mid, sofar, charges, host) && Finished(mid, after, tail, l, host, finish) && own == sofar + tail;
    LedgerReaches(b, mid, sofar, charges, host);
    FinishReaches(b, mid, sofar, after, tail, l, host, finish);
  }
}
