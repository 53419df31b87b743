/** What one `DialFor` guarantees (internal/scoreboard/scoreboard.go:969-1065), for every
    interleaving with other goroutines. */
module Dialing {
  import opened Types
  import opened Regions
  import opened Requests
  import opened Choices
  import opened Ledgers

  /** What one `DialFor` guarantees in every interleaving. */
  ghost predicate DialSafe(t: DialTrace, host: Host, script: DialScript, limit: nat) {
    && Distinct(t.dials)
    && |t.dials| <= limit
    // the winner is the last upstream dialled and the only one that answered, and only a win
    // records a success, once, last
    && (t.result.Won? ==> t.dials != [] && t.result.id == t.dials[|t.dials| - 1])
    && (forall k :: 0 <= k < |t.dials| ==>
          (script.attempts(k).outcome.Connected? <==> t.result.Won? && k == |t.dials| - 1))
    && (t.result.Won? <==> t.own != [] && t.own[|t.own| - 1].Succeed?)
    && (t.result.Won? ==> t.own[|t.own| - 1].host == host && t.own[|t.own| - 1].id == t.result.id)
    // cascade is tripped only on exhaustion, once, last
    && (t.result.Exhausted? <==> t.own != [] && t.own[|t.own| - 1].Trip?)
    && (t.result.Exhausted? ==> t.own[|t.own| - 1].host == host)
    && (forall i :: 0 <= i < |t.own| - 1 ==> FailureStep(t.own[i], host, t.dials))
    && (!t.result.Won? && !t.result.Exhausted? ==> OnlyFailures(t.own, host, t.dials))
  }

  /** A region of `RecordFailure` for one of the dialled upstreams. */
  predicate FailureStep(s: Step, host: Host, dials: seq<Id>) {
    || (s.Stamp? && s.key.host == host && s.key.id in dials)
    || (s.Penalize? && s.host == host && s.id in dials && s.override == None)
  }

  ghost predicate OnlyFailures(own: seq<Step>, host: Host, dials: seq<Id>) {
    forall i :: 0 <= i < |own| ==> FailureStep(own[i], host, dials)
  }

  /** The loop's state before attempt `k`. */
  ghost predicate Ready(k: nat, tried: set<Id>, dials: seq<Id>, own: seq<Step>, host: Host, script: DialScript) {
    && |dials| == k && tried == Ids(dials) && Distinct(dials) && OnlyFailures(own, host, dials)
    && forall j :: 0 <= j < k ==> script.attempts(j).outcome.Failed?
  }

  /** What one attempt may lead to: no upstream twice, and only the outcome's own regions. */
  ghost predicate Shaped(p: Progress, host: Host, tried: set<Id>, outcome: DialOutcome) {
    match p
    case NoneLeft => true
    case Failover(id, own) => id !in tried && outcome.Failed? && OnlyFailures(own, host, [id])
    case Stop(result, dialled, own) =>
      if result.Won? then
        result.id !in tried && outcome.Connected? && dialled == [result.id]
        && |own| == 1 && own[0].Succeed? && own[0].host == host && own[0].id == result.id
      else
        (result.Cascaded? || result.Cancelled?) && own == []
        && (dialled == [] || (result.Cancelled? && |dialled| == 1 && dialled[0] !in tried && outcome.Failed?))
  }

  lemma AttemptIsShaped(b: Board, host: Host, tried: set<Id>, a: Attempt)
    ensures Shaped(AttemptRun(b, host, tried, a).progress, host, tried, a.outcome)
  {
    PickedIsUntried(Run(b, a.before), host, tried, a.pick);
  }

  lemma FailuresGrow(own: seq<Step>, more: seq<Step>, host: Host, dials: seq<Id>, id: Id)
    requires OnlyFailures(own, host, dials) && OnlyFailures(more, host, [id])
    ensures OnlyFailures(own + more, host, dials + [id])
  {
    assert id in dials + [id];
  }

  lemma FailoverKeepsReady(k: nat, tried: set<Id>, dials: seq<Id>, own: seq<Step>, host: Host, script: DialScript,
                           id: Id, more: seq<Step>)
    requires Ready(k, tried, dials, own, host, script) && id !in tried && OnlyFailures(more, host, [id])
    requires script.attempts(k).outcome.Failed?
    ensures Ready(k + 1, tried + {id}, dials + [id], own + more, host, script)
  {
    FailuresGrow(own, more, host, dials, id);
    assert Ids(dials + [id]) == Ids(dials) + {id};
  }

  lemma ExhaustIsSafe(b: Board, host: Host, script: DialScript, limit: nat, k: nat, tried: set<Id>, dials: seq<Id>, own: seq<Step>)
    requires Ready(k, tried, dials, own, host, script) && k <= limit
    ensures DialSafe(Exhaust(b, host, script, dials, own), host, script, limit)
  {
  }

  lemma StopIsSafe(b: Board, host: Host, script: DialScript, limit: nat, k: nat, tried: set<Id>, dials: seq<Id>, own: seq<Step>, p: Progress)
    requires Ready(k, tried, dials, own, host, script) && k < limit
    requires p.Stop? && Shaped(p, host, tried, script.attempts(k).outcome)
    ensures DialSafe(DialTrace(p.result, dials + p.dialled, own + p.own, b), host, script, limit)
  {
    if p.dialled == [] {
      assert dials + p.dialled == dials && own + p.own == own;
    } else {
      assert p.dialled == [p.dialled[0]];
      FailuresGrow(own, [], host, dials, p.dialled[0]);
      assert own + [] == own;
    }
  }

  lemma {:induction false} AttemptsSafe(b: Board, host: Host, script: DialScript, limit: nat, k: nat,
                                        tried: set<Id>, dials: seq<Id>, own: seq<Step>)
    requires k <= limit && Ready(k, tried, dials, own, host, script)
    ensures DialSafe(Attempts(b, host, script, limit, k, tried, dials, own), host, script, limit)
    decreases limit - k, 1
  {
    if k == limit {
      ExhaustIsSafe(b, host, script, limit, k, tried, dials, own);
    } else {
      AttemptIsShaped(b, host, tried, script.attempts(k));
      RestIsSafe(AttemptRun(b, host, tried, script.attempts(k)), host, script, limit, k, tried, dials, own);
    }
  }

  lemma {:induction false} RestIsSafe(o: AttemptOutcome, host: Host, script: DialScript, limit: nat, k: nat,
                                      tried: set<Id>, dials: seq<Id>, own: seq<Step>)
    requires k < limit && Ready(k, tried, dials, own, host, script)
    requires Shaped(o.progress, host, tried, script.attempts(k).outcome)
    ensures DialSafe(AttemptsAfter(o, host, script, limit, k, tried, dials, own), host, script, limit)
    decreases limit - k, 0
  {
    match o.progress {
      case Stop(_, _, _) => StopIsSafe(o.board, host, script, limit, k, tried, dials, own, o.progress);
      case NoneLeft => ExhaustIsSafe(o.board, host, script, limit, k, tried, dials, own);
      case Failover(id, more) =>
        FailoverKeepsReady(k, tried, dials, own, host, script, id, more);
        AttemptsSafe(o.board, host, script, limit, k + 1, tried + {id}, dials + [id], own + more);
    }
  }

  // ---------------------------------------------------------------- attempt by attempt

  /** Every failed dial is to be reported but a true refusal while the gate is off. */
  predicate MustReport(at: Board, err: DialError) {
    !(err.refused && !err.timeout && !err.proxyAuth) || at.cfg.connectionRefused
  }

  function LeadOf(tried: set<Id>, a: Attempt): Lead { Lead(tried, a.before, a.pick, a.during) }

  /** What a failed dial owes: a report of its own id under its kind, without an override. */
  function ChargeOf(id: Id, tried: set<Id>, a: Attempt): Charge {
    Charge(id, LeadOf(tried, a),
           (at: Board) =>
             if a.outcome.Failed? && MustReport(at, a.outcome.err) then
               Some(Report(if a.outcome.err.proxyAuth then ProxyAuth else if a.outcome.err.timeout then Timeout else Refused, None))
             else None,
           a.beforeRecord, a.fail)
  }

  /** The charges of dials `dials`, all failed, from the first attempt on. */
  function Charges(dials: seq<Id>, script: DialScript): seq<Charge> {
    if dials == [] then []
    else
      var front, k := dials[..|dials| - 1], |dials| - 1;
      Charges(front, script) + [ChargeOf(dials[k], Ids(front), script.attempts(k))]
  }

  /** The attempts after which the request goes on: alive throughout, and failed. */
  ghost predicate KeptGoing(script: DialScript, m: nat) {
    forall j :: 0 <= j < m ==>
      !script.attempts(j).doneBefore && script.attempts(j).outcome.Failed? && !script.attempts(j).doneAfter
  }

  /** `m` dials failed and were charged, and then the request finished, as attempt `m` has it:
      with a win if that attempt is made and its dial connects; cancelled if the context is done
      before it, or after its failed dial; cascaded if it is turned away; exhausted if it finds
      nothing, or if no attempt is left. */
  ghost predicate DialEnds(t: DialTrace, script: DialScript, limit: nat, m: nat, finish: Finish) {
    var a := script.attempts(m);
    && m <= limit && m <= |t.dials|
    && match finish
       case Wins(id, end) =>
         m < limit && !a.doneBefore && a.outcome.Connected? && end == a.end
         && t.result == Won(id) && t.dials == t.dials[..m] + [id]
       case Leaves => m < limit && a.doneBefore && t.result == Cancelled && |t.dials| == m
       case TurnedAway => m < limit && !a.doneBefore && t.result == Cascaded && |t.dials| == m
       case GivesUp(id) =>
         m < limit && !a.doneBefore && a.outcome.Failed? && a.doneAfter
         && t.result == Cancelled && t.dials == t.dials[..m] + [id]
       case Empties(before, trip) =>
         m < limit && !a.doneBefore && before == script.beforeTrip && trip == script.trip
         && t.result == Exhausted && |t.dials| == m
       case Spends(before, trip) =>
         m == limit && before == script.beforeTrip && trip == script.trip
         && t.result == Exhausted && |t.dials| == m
  }

  ghost predicate DialSettled(b: Board, t: DialTrace, host: Host, script: DialScript, limit: nat, m: nat, finish: Finish) {
    && DialEnds(t, script, limit, m, finish) && KeptGoing(script, m)
    && Settled(b, t.board, t.own, Charges(t.dials[..m], script), LeadOf(Ids(t.dials[..m]), script.attempts(m)), host, finish)
  }

  /** What one attempt on board `mid` did before it led to `o`. */
  ghost predicate AttemptLeads(mid: Board, o: AttemptOutcome, host: Host, tried: set<Id>, a: Attempt) {
    var l := LeadOf(tried, a);
    match o.progress
    case Failover(id, rec) =>
      !a.doneBefore && a.outcome.Failed? && !a.doneAfter
      && exists at :: Entered(mid, at, o.board, rec, host, ChargeOf(id, tried, a))
    case NoneLeft => !a.doneBefore && FoundNothing(mid, o.board, host, l)
    case Stop(result, dialled, own) =>
      match result
      case Won(id) =>
        !a.doneBefore && a.outcome.Connected? && dialled == [id]
        && Finished(mid, o.board, own, l, host, Wins(id, a.end))
      case Cascaded => !a.doneBefore && dialled == [] && Finished(mid, o.board, own, l, host, TurnedAway)
      case Cancelled =>
        if a.doneBefore then dialled == [] && Finished(mid, o.board, own, l, host, Leaves)
        else
          a.outcome.Failed? && a.doneAfter && |dialled| == 1
          && Finished(mid, o.board, own, l, host, GivesUp(dialled[0]))
      case Exhausted => false
  }

  lemma AttemptIsLed(mid: Board, host: Host, tried: set<Id>, a: Attempt)
    ensures AttemptLeads(mid, AttemptRun(mid, host, tried, a), host, tried, a)
  {
    var l := LeadOf(tried, a);
    var p := PickAt(mid, host, l);
    if !a.doneBefore {
      match p.result {
        case Picked(up) => DialIsLed(mid, Run(p.board, a.during), host, up.id, tried, a);
        case PoolExhausted => ExhaustedFoundNothing(mid, host, l);
        case CascadeCooling => CascadeTurnedBack(mid, host, l);
      }
    }
  }

  /** The part of an attempt after the dial. */
  lemma DialIsLed(mid: Board, at: Board, host: Host, id: Id, tried: set<Id>, a: Attempt)
    requires Asked(mid, at, host, LeadOf(tried, a), id)
    ensures a.outcome.Failed? ==>
      var f := RecordDialFailure(at, host, id, a.outcome.err, a);
      Entered(mid, at, f.board, f.own, host, ChargeOf(id, tried, a))
    ensures Finished(mid, Apply(at, Succeed(host, id, a.end)), [Succeed(host, id, a.end)], LeadOf(tried, a), host, Wins(id, a.end))
  {
    if a.outcome.Failed? && Scored(at, a.outcome.err) {
      ReportIsCharged(at, host, ChargeOf(id, tried, a));
    }
  }

  lemma ChargesSnoc(dials: seq<Id>, id: Id, script: DialScript)
    ensures Charges(dials + [id], script)
      == Charges(dials, script) + [ChargeOf(id, Ids(dials), script.attempts(|dials|))]
  {
    var longer := dials + [id];
    assert longer != [] && |longer| - 1 == |dials| && longer[|dials|] == id && longer[..|dials|] == dials;
  }

  /** The ledger before attempt `|dials|`. */
  ghost predicate Underway(b0: Board, b: Board, host: Host, script: DialScript, dials: seq<Id>, own: seq<Step>) {
    Ledger(b0, b, own, Charges(dials, script), host) && KeptGoing(script, |dials|)
  }

  lemma FailoverEntered(mid: Board, o: AttemptOutcome, host: Host, tried: set<Id>, a: Attempt, sofar: seq<Step>)
    requires o.progress.Failover? && AttemptLeads(mid, o, host, tried, a)
    ensures !a.doneBefore && a.outcome.Failed? && !a.doneAfter
    ensures Continues(mid, o.board, sofar, sofar + o.progress.own, host, ChargeOf(o.progress.id, tried, a))
  {
    var at :| Entered(mid, at, o.board, o.progress.own, host, ChargeOf(o.progress.id, tried, a));
  }

  lemma FailoverCharged(b0: Board, mid: Board, after: Board, host: Host, script: DialScript,
                        dials: seq<Id>, own: seq<Step>, id: Id, rec: seq<Step>)
    requires Underway(b0, mid, host, script, dials, own) && KeptGoing(script, |dials| + 1)
    requires Continues(mid, after, own, own + rec, host, ChargeOf(id, Ids(dials), script.attempts(|dials|)))
    ensures Underway(b0, after, host, script, dials + [id], own + rec)
  {
    ChargesSnoc(dials, id, script);
    EntryExtends(b0, mid, own, after, own + rec, Charges(dials, script), ChargeOf(id, Ids(dials), script.attempts(|dials|)), host);
  }

  lemma FinishSettles(b0: Board, mid: Board, t: DialTrace, host: Host, script: DialScript, limit: nat,
                      dials: seq<Id>, own: seq<Step>, tail: seq<Step>, finish: Finish)
    requires Underway(b0, mid, host, script, dials, own)
    requires |t.dials| >= |dials| && t.dials[..|dials|] == dials && t.own == own + tail
    requires Finished(mid, t.board, tail, LeadOf(Ids(dials), script.attempts(|dials|)), host, finish)
    requires DialEnds(t, script, limit, |dials|, finish)
    ensures DialSettled(b0, t, host, script, limit, |dials|, finish)
  {
    SettledBy(b0, mid, own, t.board, tail, Charges(dials, script), LeadOf(Ids(dials), script.attempts(|dials|)), host, finish);
  }

  lemma StopSettles(b0: Board, mid: Board, o: AttemptOutcome, host: Host, script: DialScript, limit: nat,
                    dials: seq<Id>, own: seq<Step>) returns (finish: Finish)
    requires |dials| < limit && o.progress.Stop? && Underway(b0, mid, host, script, dials, own)
    requires AttemptLeads(mid, o, host, Ids(dials), script.attempts(|dials|))
    ensures DialSettled(b0, DialTrace(o.progress.result, dials + o.progress.dialled, own + o.progress.own, o.board),
                        host, script, limit, |dials|, finish)
  {
    var a, p := script.attempts(|dials|), o.progress;
    var t := DialTrace(p.result, dials + p.dialled, own + p.own, o.board);
    match p.result {
      case Won(id) => finish := Wins(id, a.end);
      case Cascaded => finish := TurnedAway;
      case Cancelled => finish := if a.doneBefore then Leaves else GivesUp(p.dialled[0]);
      case Exhausted => assert false;
    }
    assert t.dials[..|dials|] == dials;
    FinishSettles(b0, mid, t, host, script, limit, dials, own, p.own, finish);
  }

  lemma EmptySettles(b0: Board, mid: Board, b: Board, host: Host, script: DialScript, limit: nat,
                     dials: seq<Id>, own: seq<Step>) returns (finish: Finish)
    requires |dials| < limit && Underway(b0, mid, host, script, dials, own) && !script.attempts(|dials|).doneBefore
    requires FoundNothing(mid, b, host, LeadOf(Ids(dials), script.attempts(|dials|)))
    ensures DialSettled(b0, Exhaust(b, host, script, dials, own), host, script, limit, |dials|, finish)
  {
    finish := Empties(script.beforeTrip, script.trip);
    assert dials[..|dials|] == dials;
    FinishSettles(b0, mid, Exhaust(b, host, script, dials, own), host, script, limit, dials, own, [Trip(host, script.trip)], finish);
  }

  lemma SpentSettles(b0: Board, b: Board, host: Host, script: DialScript, dials: seq<Id>, own: seq<Step>) returns (finish: Finish)
    requires Underway(b0, b, host, script, dials, own)
    ensures DialSettled(b0, Exhaust(b, host, script, dials, own), host, script, |dials|, |dials|, finish)
  {
    finish := Spends(script.beforeTrip, script.trip);
    assert dials[..|dials|] == dials;
    FinishSettles(b0, b, Exhaust(b, host, script, dials, own), host, script, |dials|, dials, own, [Trip(host, script.trip)], finish);
  }

  lemma {:induction false} AttemptsSettle(b0: Board, b: Board, host: Host, script: DialScript, limit: nat,
                                          dials: seq<Id>, own: seq<Step>) returns (m: nat, finish: Finish)
    requires |dials| <= limit && Underway(b0, b, host, script, dials, own)
    ensures DialSettled(b0, Attempts(b, host, script, limit, |dials|, Ids(dials), dials, own), host, script, limit, m, finish)
    decreases limit - |dials|, 1
  {
    if |dials| == limit {
      m := limit;
      finish := SpentSettles(b0, b, host, script, dials, own);
    } else {
      AttemptIsLed(b, host, Ids(dials), script.attempts(|dials|));
      m, finish := RestSettles(b0, b, AttemptRun(b, host, Ids(dials), script.attempts(|dials|)), host, script, limit, dials, own);
    }
  }

  lemma {:induction false} RestSettles(b0: Board, b: Board, o: AttemptOutcome, host: Host, script: DialScript, limit: nat,
                                       dials: seq<Id>, own: seq<Step>) returns (m: nat, finish: Finish)
    requires |dials| < limit && Underway(b0, b, host, script, dials, own)
    requires AttemptLeads(b, o, host, Ids(dials), script.attempts(|dials|))
    ensures DialSettled(b0, AttemptsAfter(o, host, script, limit, |dials|, Ids(dials), dials, own), host, script, limit, m, finish)
    decreases limit - |dials|, 0
  {
    if o.progress.Failover? {
      var id, rec := o.progress.id, o.progress.own;
      FailoverEntered(b, o, host, Ids(dials), script.attempts(|dials|), own);
      FailoverCharged(b0, b, o.board, host, script, dials, own, id, rec);
      assert Ids(dials + [id]) == Ids(dials) + {id};
      m, finish := AttemptsSettle(b0, o.board, host, script, limit, dials + [id], own + rec);
    } else {
      m := |dials|;
      if o.progress.NoneLeft? {
        finish := EmptySettles(b0, b, o.board, host, script, limit, dials, own);
      } else {
        finish := StopSettles(b0, b, o, host, script, limit, dials, own);
      }
    }
  }

  /** One `DialFor`, interleaved with anything. A cascade after the reading on entry turns it
      away with nothing done. Otherwise it makes distinct dials, at most
      min(max(retry cap, 0), pool size) of them as read on entry, and ends in one way, as
      `DialEnds` says. Each failed dial that is to be reported is, once, under its own id and
      kind and the tuning then in force; a win is recorded once and an exhausted pool trips the
      cascade once; the board it leaves differs from what the others made of it by exactly
      those records. */
  lemma DialForIsSafe(b: Board, host: Host, script: DialScript) returns (m: nat, finish: Finish)
    ensures var t := DialFor(b, host, script); var at := Run(b, script.beforeSnapshot);
      var cap := if at.retryCap < 0 then 0 else at.retryCap;
      var limit := if cap < |at.pool| then cap else |at.pool|;
      && DialSafe(t, host, script, limit)
      && if Turned(b, host, script.now) then t == DialTrace(Cascaded, [], [], b)
         else DialSettled(at, t, host, script, limit, m, finish)
  {
    m, finish := 0, Leaves;
    if !CascadeActive(b, host, script.now) {
      var limit := LimitAt(b, script);
      AttemptsSafe(Run(b, script.beforeSnapshot), host, script, limit, 0, {}, [], []);
      assert Ids([]) == {};
      m, finish := AttemptsSettle(Run(b, script.beforeSnapshot), Run(b, script.beforeSnapshot), host, script, limit, [], []);
    }
  }
}
