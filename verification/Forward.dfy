/** The plain-HTTP retry loop (internal/listener/http.go:546-790): upstream choice, scoring
    and the ownership of every response body, for all outcomes and interleavings. */
module Forwarding {
  import opened Types
  import opened Selection
  import opened Regions
  import opened Requests
  import opened Choices
  import opened Ledgers
  import opened Scoreboards
  import opened BodyInspection

  /** A response body and the network's behaviour while it is inspected, drained or copied.
      `drains` are the reads that finish before the drain's timer; `clientGone` is the number
      of writes after which the client's connection fails. */
  datatype Payload = Payload(
    data: seq<byte>,
    ending: Ending,
    plain: bool,
    inspects: nat -> Call,
    drains: seq<Call>,
    copies: nat -> Call,
    clientGone: Option<nat>)

  /** `status` is what the status detector makes of the response head. */
  datatype Answer =
    | RoundTripError(timeout: bool, refused: bool)
    | Response(status: Option<Report>, payload: Payload)

  /** The inspection settings read once on entry: the buffer limit and the rule's patterns. */
  datatype Settings = Settings(limit: int, patterns: seq<Option<Pattern>>)

  /** `gate` is the listener's own connection-refused switch as read in this attempt. */
  datatype ForwardAttempt = ForwardAttempt(
    before: seq<Step>,
    doneBefore: bool,
    pick: PickTurn,
    during: seq<Step>,
    answer: Answer,
    doneAfter: bool,
    gate: bool,
    beforeRecord: seq<Step>,
    fail: FailTurn,
    end: Time)

  datatype ForwardScript = ForwardScript(settings: Settings, attempts: nat -> ForwardAttempt, beforeTrip: seq<Step>, trip: Time)

  /** `Aborted` is the handler panic that tears the client connection down. */
  datatype ForwardResult = Served(id: Id, retries: nat) | Aborted | BadGateway(retries: nat, cascade: bool)

  /** `asked` are the ids of the round trips, in order; `own` the request's scoring regions. */
  datatype ForwardTrace = ForwardTrace(result: ForwardResult, asked: seq<Id>, own: seq<Step>, board: Board)

  datatype Turn =
    | TurnServed(id: Id, own: seq<Step>)
    | TurnAborted(asked: seq<Id>)
    | TurnNoUpstream(cascade: bool)
    | TurnFailed(id: Id, own: seq<Step>)

  datatype TurnOutcome = TurnOutcome(turn: Turn, board: Board)

  // ---------------------------------------------------------------- what an answer means

  datatype Inspection = Unreadable | Matching | Clean

  predicate Inspects(p: Payload, s: Settings) {
    s.limit > 0 && s.patterns != [] && p.plain
  }

  /** What the body inspector makes of a payload. */
  function Inspect(p: Payload, s: Settings): Inspection {
    if !Inspects(p, s) then Clean
    else if PrefixFails(|p.data|, p.ending, s.limit, p.inspects, 0) then Unreadable
    else if FirstMatch(s.patterns, p.data[..Min(s.limit, |p.data|)]).Some? then Matching
    else Clean
  }

  /** Only a timeout or a true refusal is attributed to the upstream. */
  function AttributedKind(answer: Answer): Option<Kind>
    requires answer.RoundTripError?
  {
    if answer.timeout then Some(Timeout) else if answer.refused then Some(Refused) else None
  }

  /** The failure an answer is reported as, if any. */
  function DueReport(answer: Answer, gate: bool, s: Settings): Option<Report> {
    match answer
    case RoundTripError(_, _) =>
      var kind := AttributedKind(answer);
      if kind.Some? && (kind.value != Refused || gate) then Some(Report(kind.value, None)) else None
    case Response(status, payload) =>
      if status.Some? then status
      else if Inspect(payload, s).Matching? then Some(Report(BodyMatch, None))
      else None
  }

  /** Which answers are reported, and as what: a timeout; a true refusal while the gate is on;
      what the status detector says; a body some pattern matches in the first bytes, when it
      is inspected and can be read that far; and nothing else. */
  lemma ReportsAreDue(answer: Answer, gate: bool, s: Settings)
    ensures answer.RoundTripError? ==>
      DueReport(answer, gate, s) ==
        if answer.timeout then Some(Report(Timeout, None))
        else if answer.refused && gate then Some(Report(Refused, None)) else None
    ensures answer.Response? && answer.status.Some? ==> DueReport(answer, gate, s) == answer.status
    ensures answer.Response? && answer.status.None? ==>
      var p := answer.payload;
      && (DueReport(answer, gate, s).Some? ==> DueReport(answer, gate, s).value == Report(BodyMatch, None))
      && (DueReport(answer, gate, s).Some? <==>
            && s.limit > 0 && p.plain && !PrefixFails(|p.data|, p.ending, s.limit, p.inspects, 0)
            && exists i :: 0 <= i < |s.patterns| && s.patterns[i].Some?
                 && s.patterns[i].value.matches(p.data[..Min(s.limit, |p.data|)]))
  {
    if answer.Response? && s.limit > 0 {
      FirstMatchMeaning(s.patterns, answer.payload.data[..Min(s.limit, |answer.payload.data|)]);
    }
  }

  predicate Fails(answer: Answer, s: Settings) {
    answer.RoundTripError? || answer.status.Some? || !Inspect(answer.payload, s).Clean?
  }

  /** The bytes the inspector looks at. */
  function Window(p: Payload, s: Settings): seq<byte>
    requires s.limit > 0
  {
    p.data[..Min(s.limit, |p.data|)]
  }

  /** An answer that is not handed to the client: no response, a status the detector reports,
      or a body that is inspected and either meets its fault inside the window or is matched
      there by some pattern. */
  ghost predicate FailedAnswer(answer: Answer, s: Settings) {
    match answer
    case RoundTripError(_, _) => true
    case Response(status, p) =>
      || status.Some?
      || (s.limit > 0 && s.patterns != [] && p.plain
          && (PrefixFails(|p.data|, p.ending, s.limit, p.inspects, 0)
              || exists i :: 0 <= i < |s.patterns| && s.patterns[i].Some? && s.patterns[i].value.matches(Window(p, s))))
  }

  lemma FailsMeans(answer: Answer, s: Settings)
    ensures Fails(answer, s) <==> FailedAnswer(answer, s)
  {
    if answer.Response? && s.limit > 0 {
      FirstMatchMeaning(s.patterns, Window(answer.payload, s));
    }
  }

  /** An answer that is due a report is a failed one. */
  lemma DueIsFailed(answer: Answer, gate: bool, s: Settings)
    requires DueReport(answer, gate, s).Some?
    ensures FailedAnswer(answer, s)
  {
    FailsMeans(answer, s);
  }

  function ReportRun(b: Board, host: Host, id: Id, d: Option<Report>, a: ForwardAttempt): FailOutcome {
    if d.None? then FailOutcome(b, [], false)
    else FailRun(Run(b, a.beforeRecord), host, id, d.value.kind, d.value.override, a.fail)
  }

  /** What an attempt does once the round trip to `id` has been answered. */
  function Answered(b: Board, host: Host, id: Id, a: ForwardAttempt, s: Settings): TurnOutcome {
    if a.answer.RoundTripError? && a.doneAfter then TurnOutcome(TurnAborted([id]), b)
    else if Fails(a.answer, s) then
      var f := ReportRun(b, host, id, DueReport(a.answer, a.gate, s), a);
      TurnOutcome(TurnFailed(id, f.own), f.board)
    else TurnOutcome(TurnServed(id, [Succeed(host, id, a.end)]), Apply(b, Succeed(host, id, a.end)))
  }

  /** One iteration of the loop. */
  function TurnRun(b: Board, host: Host, tried: set<Id>, a: ForwardAttempt, s: Settings): TurnOutcome {
    var b0 := Run(b, a.before);
    if a.doneBefore then TurnOutcome(TurnAborted([]), b0)
    else
      var p := PickRun(b0, host, tried, a.pick);
      match p.result
      case CascadeCooling => TurnOutcome(TurnNoUpstream(true), p.board)
      case PoolExhausted => TurnOutcome(TurnNoUpstream(false), p.board)
      case Picked(up) => Answered(Run(p.board, a.during), host, up.id, a, s)
  }

  function GiveUp(b: Board, host: Host, script: ForwardScript, retries: nat, cascade: bool,
                  asked: seq<Id>, own: seq<Step>): ForwardTrace {
    if cascade then ForwardTrace(BadGateway(retries, true), asked, own, b)
    else
      ForwardTrace(BadGateway(retries, false), asked, own + [Trip(host, script.trip)],
                   Apply(Run(b, script.beforeTrip), Trip(host, script.trip)))
  }

  /** The loop from attempt `k` on. */
  function Turns(b: Board, host: Host, script: ForwardScript, cap: nat, k: nat,
                 tried: set<Id>, asked: seq<Id>, own: seq<Step>): ForwardTrace
    decreases cap - k, 1
  {
    if k >= cap then GiveUp(b, host, script, k, false, asked, own)
    else
      TurnsAfter(TurnRun(b, host, tried, script.attempts(k), script.settings), host, script, cap, k, tried, asked, own)
  }

  /** The rest of the loop once attempt `k` has led to `o`. */
  function TurnsAfter(o: TurnOutcome, host: Host, script: ForwardScript, cap: nat, k: nat,
                      tried: set<Id>, asked: seq<Id>, own: seq<Step>): ForwardTrace
    requires k < cap
    decreases cap - k, 0
  {
    match o.turn
    case TurnServed(id, steps) => ForwardTrace(Served(id, k), asked + [id], own + steps, o.board)
    case TurnAborted(more) => ForwardTrace(Aborted, asked + more, own, o.board)
    case TurnNoUpstream(cascade) => GiveUp(o.board, host, script, k, cascade, asked, own)
    case TurnFailed(id, steps) =>
      Turns(o.board, host, script, cap, k + 1, tried + {id}, asked + [id], own + steps)
  }

  function Forward(b: Board, host: Host, script: ForwardScript, cap: nat): ForwardTrace {
    Turns(b, host, script, cap, 0, {}, [], [])
  }

  // ---------------------------------------------------------------- accounting

  predicate RecordsFailure(s: Step, host: Host) {
    (s.Stamp? && s.key.host == host) || (s.Penalize? && s.host == host)
  }

  ghost predicate RecordsOnlyFailures(own: seq<Step>, host: Host) {
    forall i :: 0 <= i < |own| ==> RecordsFailure(own[i], host)
  }

  /** What one forwarded request guarantees. */
  ghost predicate Accounted(t: ForwardTrace, host: Host, script: ForwardScript, cap: nat) {
    && Distinct(t.asked) && |t.asked| <= cap
    // every answer but the one served was a failure, and retries counts them
    && (forall k :: 0 <= k < |t.asked| ==>
          (!FailedAnswer(script.attempts(k).answer, script.settings) <==> t.result.Served? && k == |t.asked| - 1))
    && (t.result.Served? ==>
          && |t.asked| == t.result.retries + 1 && t.asked[t.result.retries] == t.result.id
          && var a := script.attempts(t.result.retries);
             a.answer.Response? && a.answer.status.None? && DueReport(a.answer, a.gate, script.settings).None?)
    && (t.result.BadGateway? ==> |t.asked| == t.result.retries)
    // success is recorded once when served and never otherwise; cascade likewise for a 502
    // that a cascade did not already cause
    && (if t.result.Served? then
          t.own != [] && RecordsOnlyFailures(t.own[..|t.own| - 1], host)
          && t.own[|t.own| - 1].Succeed? && t.own[|t.own| - 1].host == host && t.own[|t.own| - 1].id == t.result.id
        else if t.result.BadGateway? && !t.result.cascade then
          t.own != [] && RecordsOnlyFailures(t.own[..|t.own| - 1], host)
          && t.own[|t.own| - 1].Trip? && t.own[|t.own| - 1].host == host
        else RecordsOnlyFailures(t.own, host))
  }

  /** The shape of one turn: a new upstream, its round trip, its scoring. */
  ghost predicate TurnShaped(t: Turn, host: Host, tried: set<Id>, fails: bool) {
    match t
    case TurnServed(id, own) =>
      id !in tried && !fails && |own| == 1 && own[0].Succeed? && own[0].host == host && own[0].id == id
    case TurnAborted(asked) => asked == [] || (fails && |asked| == 1 && asked[0] !in tried)
    case TurnNoUpstream(_) => true
    case TurnFailed(id, own) => id !in tried && fails && RecordsOnlyFailures(own, host)
  }

  lemma TurnIsShaped(b: Board, host: Host, tried: set<Id>, a: ForwardAttempt, s: Settings)
    ensures TurnShaped(TurnRun(b, host, tried, a, s).turn, host, tried, FailedAnswer(a.answer, s))
  {
    FailsMeans(a.answer, s);
    PickedIsUntried(Run(b, a.before), host, tried, a.pick);
  }

  /** The state of the accounts before attempt `k`. */
  ghost predicate AccountsReady(k: nat, tried: set<Id>, asked: seq<Id>, own: seq<Step>, host: Host, script: ForwardScript) {
    && |asked| == k && Distinct(asked) && tried == Ids(asked) && RecordsOnlyFailures(own, host)
    && forall j :: 0 <= j < k ==> FailedAnswer(script.attempts(j).answer, script.settings)
  }

  lemma GiveUpAccounted(b: Board, host: Host, script: ForwardScript, cap: nat, k: nat, cascade: bool,
                        tried: set<Id>, asked: seq<Id>, own: seq<Step>)
    requires AccountsReady(k, tried, asked, own, host, script) && k <= cap
    ensures Accounted(GiveUp(b, host, script, k, cascade, asked, own), host, script, cap)
  {
    assert (own + [Trip(host, script.trip)])[..|own|] == own;
  }

  lemma ServedAccounted(b: Board, host: Host, script: ForwardScript, cap: nat, k: nat, tried: set<Id>,
                        asked: seq<Id>, own: seq<Step>, id: Id, steps: seq<Step>)
    requires AccountsReady(k, tried, asked, own, host, script) && k < cap
    requires TurnShaped(TurnServed(id, steps), host, tried, FailedAnswer(script.attempts(k).answer, script.settings))
    ensures Accounted(ForwardTrace(Served(id, k), asked + [id], own + steps, b), host, script, cap)
  {
    assert (own + steps)[..|own|] == own;
    var at := script.attempts(k);
    if DueReport(at.answer, at.gate, script.settings).Some? {
      DueIsFailed(at.answer, at.gate, script.settings);
    }
  }

  lemma AbortedAccounted(b: Board, host: Host, script: ForwardScript, cap: nat, k: nat, tried: set<Id>,
                         asked: seq<Id>, own: seq<Step>, more: seq<Id>)
    requires AccountsReady(k, tried, asked, own, host, script) && k < cap
    requires TurnShaped(TurnAborted(more), host, tried, FailedAnswer(script.attempts(k).answer, script.settings))
    ensures Accounted(ForwardTrace(Aborted, asked + more, own, b), host, script, cap)
  {
    if more == [] {
      assert asked + more == asked;
    }
  }

  lemma FailedTurnKeepsReady(k: nat, tried: set<Id>, asked: seq<Id>, own: seq<Step>, host: Host, script: ForwardScript,
                             id: Id, steps: seq<Step>)
    requires AccountsReady(k, tried, asked, own, host, script)
    requires TurnShaped(TurnFailed(id, steps), host, tried, FailedAnswer(script.attempts(k).answer, script.settings))
    ensures AccountsReady(k + 1, tried + {id}, asked + [id], own + steps, host, script)
  {
    assert Ids(asked + [id]) == Ids(asked) + {id};
  }

  lemma {:induction false} TurnsAccounted(b: Board, host: Host, script: ForwardScript, cap: nat, k: nat,
                                          tried: set<Id>, asked: seq<Id>, own: seq<Step>)
    requires k <= cap && AccountsReady(k, tried, asked, own, host, script)
    ensures Accounted(Turns(b, host, script, cap, k, tried, asked, own), host, script, cap)
    decreases cap - k, 1
  {
    if k >= cap {
      GiveUpAccounted(b, host, script, cap, k, false, tried, asked, own);
    } else {
      var a := script.attempts(k);
      TurnIsShaped(b, host, tried, a, script.settings);
      RestAccounted(TurnRun(b, host, tried, a, script.settings), host, script, cap, k, tried, asked, own);
    }
  }

  lemma {:induction false} RestAccounted(o: TurnOutcome, host: Host, script: ForwardScript, cap: nat, k: nat,
                                         tried: set<Id>, asked: seq<Id>, own: seq<Step>)
    requires k < cap && AccountsReady(k, tried, asked, own, host, script)
    requires TurnShaped(o.turn, host, tried, FailedAnswer(script.attempts(k).answer, script.settings))
    ensures Accounted(TurnsAfter(o, host, script, cap, k, tried, asked, own), host, script, cap)
    decreases cap - k, 0
  {
    match o.turn {
      case TurnServed(id, steps) => ServedAccounted(o.board, host, script, cap, k, tried, asked, own, id, steps);
      case TurnAborted(more) => AbortedAccounted(o.board, host, script, cap, k, tried, asked, own, more);
      case TurnNoUpstream(cascade) => GiveUpAccounted(o.board, host, script, cap, k, cascade, tried, asked, own);
      case TurnFailed(id, steps) =>
        FailedTurnKeepsReady(k, tried, asked, own, host, script, id, steps);
        TurnsAccounted(o.board, host, script, cap, k + 1, tried + {id}, asked + [id], own + steps);
    }
  }

  // ---------------------------------------------------------------- attempt by attempt

  function LeadTo(tried: set<Id>, a: ForwardAttempt): Lead { Lead(tried, a.before, a.pick, a.during) }

  /** What a failed attempt owes: the report its answer is due, under its own id. */
  function ChargeFor(id: Id, tried: set<Id>, a: ForwardAttempt, s: Settings): Charge {
    Charge(id, LeadTo(tried, a), (_: Board) => DueReport(a.answer, a.gate, s), a.beforeRecord, a.fail)
  }

  function ChargesFor(asked: seq<Id>, script: ForwardScript): seq<Charge> {
    if asked == [] then []
    else
      var front, k := asked[..|asked| - 1], |asked| - 1;
      ChargesFor(front, script) + [ChargeFor(asked[k], Ids(front), script.attempts(k), script.settings)]
  }

  /** The client is gone after a failed round trip. */
  predicate Abandoned(a: ForwardAttempt) { a.answer.RoundTripError? && a.doneAfter }

  /** The attempts after which the request goes on. */
  ghost predicate Retried(script: ForwardScript, m: nat) {
    forall j :: 0 <= j < m ==>
      && !script.attempts(j).doneBefore && !Abandoned(script.attempts(j))
      && FailedAnswer(script.attempts(j).answer, script.settings)
  }

  /** `m` attempts failed and were charged, and then the request finished, as attempt `m` has
      it: served if that attempt is made and its answer has not failed; aborted if the client is
      gone before it or after its failed round trip; a 502 if it is turned away, finds nothing,
      or no attempt is left. */
  ghost predicate ForwardEnds(t: ForwardTrace, script: ForwardScript, cap: nat, m: nat, finish: Finish) {
    var a := script.attempts(m);
    && m <= cap && m <= |t.asked|
    && match finish
       case Wins(id, end) =>
         m < cap && !a.doneBefore && !FailedAnswer(a.answer, script.settings) && end == a.end
         && t.result == Served(id, m) && t.asked == t.asked[..m] + [id]
       case Leaves => m < cap && a.doneBefore && t.result == Aborted && |t.asked| == m
       case TurnedAway => m < cap && !a.doneBefore && t.result == BadGateway(m, true) && |t.asked| == m
       case GivesUp(id) =>
         m < cap && !a.doneBefore && Abandoned(a) && t.result == Aborted && t.asked == t.asked[..m] + [id]
       case Empties(before, trip) =>
         m < cap && !a.doneBefore && before == script.beforeTrip && trip == script.trip
         && t.result == BadGateway(m, false) && |t.asked| == m
       case Spends(before, trip) =>
         m == cap && before == script.beforeTrip && trip == script.trip
         && t.result == BadGateway(m, false) && |t.asked| == m
  }

  ghost predicate ForwardSettled(b: Board, t: ForwardTrace, host: Host, script: ForwardScript, cap: nat, m: nat, finish: Finish) {
    && ForwardEnds(t, script, cap, m, finish) && Retried(script, m)
    && Settled(b, t.board, t.own, ChargesFor(t.asked[..m], script), LeadTo(Ids(t.asked[..m]), script.attempts(m)), host, finish)
  }

  /** What one turn on board `mid` did before it led to `o`. */
  ghost predicate TurnLeads(mid: Board, o: TurnOutcome, host: Host, tried: set<Id>, a: ForwardAttempt, s: Settings) {
    var l := LeadTo(tried, a);
    match o.turn
    case TurnFailed(id, rec) =>
      !a.doneBefore && !Abandoned(a) && FailedAnswer(a.answer, s)
      && exists at :: Entered(mid, at, o.board, rec, host, ChargeFor(id, tried, a, s))
    case TurnServed(id, own) =>
      !a.doneBefore && !FailedAnswer(a.answer, s) && Finished(mid, o.board, own, l, host, Wins(id, a.end))
    case TurnNoUpstream(cascade) =>
      !a.doneBefore && if cascade then TurnedBack(mid, o.board, host, l) else FoundNothing(mid, o.board, host, l)
    case TurnAborted(asked) =>
      if a.doneBefore then asked == [] && Finished(mid, o.board, [], l, host, Leaves)
      else Abandoned(a) && |asked| == 1 && Finished(mid, o.board, [], l, host, GivesUp(asked[0]))
  }

  lemma TurnIsLed(mid: Board, host: Host, tried: set<Id>, a: ForwardAttempt, s: Settings)
    ensures TurnLeads(mid, TurnRun(mid, host, tried, a, s), host, tried, a, s)
  {
    var l := LeadTo(tried, a);
    var p := PickAt(mid, host, l);
    if !a.doneBefore {
      match p.result {
        case Picked(up) => AnswerIsLed(mid, Run(p.board, a.during), host, up.id, tried, a, s);
        case PoolExhausted => ExhaustedFoundNothing(mid, host, l);
        case CascadeCooling => CascadeTurnedBack(mid, host, l);
      }
    }
  }

  /** The part of a turn after the answer. */
  lemma AnswerIsLed(mid: Board, at: Board, host: Host, id: Id, tried: set<Id>, a: ForwardAttempt, s: Settings)
    requires Asked(mid, at, host, LeadTo(tried, a), id) && !a.doneBefore
    ensures TurnLeads(mid, Answered(at, host, id, a, s), host, tried, a, s)
  {
    var o, c := Answered(at, host, id, a, s), ChargeFor(id, tried, a, s);
    FailsMeans(a.answer, s);
    if o.turn.TurnFailed? {
      if c.due(at).Some? {
        ReportIsCharged(at, host, c);
      }
      assert Entered(mid, at, o.board, o.turn.own, host, c);
    }
  }

  lemma ChargesForSnoc(asked: seq<Id>, id: Id, script: ForwardScript)
    ensures ChargesFor(asked + [id], script)
      == ChargesFor(asked, script) + [ChargeFor(id, Ids(asked), script.attempts(|asked|), script.settings)]
  {
    var longer := asked + [id];
    assert longer != [] && |longer| - 1 == |asked| && longer[|asked|] == id && longer[..|asked|] == asked;
  }

  /** The ledger before attempt `|asked|`. */
  ghost predicate Underway(b0: Board, b: Board, host: Host, script: ForwardScript, asked: seq<Id>, own: seq<Step>) {
    Ledger(b0, b, own, ChargesFor(asked, script), host) && Retried(script, |asked|)
  }

  lemma TurnEntered(mid: Board, o: TurnOutcome, host: Host, tried: set<Id>, a: ForwardAttempt, s: Settings, sofar: seq<Step>)
    requires o.turn.TurnFailed? && TurnLeads(mid, o, host, tried, a, s)
    ensures !a.doneBefore && !Abandoned(a) && FailedAnswer(a.answer, s)
    ensures Continues(mid, o.board, sofar, sofar + o.turn.own, host, ChargeFor(o.turn.id, tried, a, s))
  {
    var at :| Entered(mid, at, o.board, o.turn.own, host, ChargeFor(o.turn.id, tried, a, s));
  }

  lemma TurnCharged(b0: Board, mid: Board, after: Board, host: Host, script: ForwardScript,
                    asked: seq<Id>, own: seq<Step>, id: Id, rec: seq<Step>)
    requires Underway(b0, mid, host, script, asked, own) && Retried(script, |asked| + 1)
    requires Continues(mid, after, own, own + rec, host, ChargeFor(id, Ids(asked), script.attempts(|asked|), script.settings))
    ensures Underway(b0, after, host, script, asked + [id], own + rec)
  {
    ChargesForSnoc(asked, id, script);
    EntryExtends(b0, mid, own, after, own + rec, ChargesFor(asked, script),
                 ChargeFor(id, Ids(asked), script.attempts(|asked|), script.settings), host);
  }

  lemma FinishForwards(b0: Board, mid: Board, t: ForwardTrace, host: Host, script: ForwardScript, cap: nat,
                       asked: seq<Id>, own: seq<Step>, tail: seq<Step>, finish: Finish)
    requires Underway(b0, mid, host, script, asked, own)
    requires |t.asked| >= |asked| && t.asked[..|asked|] == asked && t.own == own + tail
    requires Finished(mid, t.board, tail, LeadTo(Ids(asked), script.attempts(|asked|)), host, finish)
    requires ForwardEnds(t, script, cap, |asked|, finish)
    ensures ForwardSettled(b0, t, host, script, cap, |asked|, finish)
  {
    SettledBy(b0, mid, own, t.board, tail, ChargesFor(asked, script), LeadTo(Ids(asked), script.attempts(|asked|)), host, finish);
  }

  lemma GiveUpSettles(b0: Board, mid: Board, b: Board, host: Host, script: ForwardScript, cap: nat, cascade: bool,
                      asked: seq<Id>, own: seq<Step>) returns (finish: Finish)
    requires |asked| < cap && Underway(b0, mid, host, script, asked, own) && !script.attempts(|asked|).doneBefore
    requires var l := LeadTo(Ids(asked), script.attempts(|asked|));
      if cascade then TurnedBack(mid, b, host, l) else FoundNothing(mid, b, host, l)
    ensures ForwardSettled(b0, GiveUp(b, host, script, |asked|, cascade, asked, own), host, script, cap, |asked|, finish)
  {
    finish := if cascade then TurnedAway else Empties(script.beforeTrip, script.trip);
    assert asked[..|asked|] == asked && own + [] == own;
    FinishForwards(b0, mid, GiveUp(b, host, script, |asked|, cascade, asked, own), host, script, cap, asked, own,
                   if cascade then [] else [Trip(host, script.trip)], finish);
  }

  lemma SpentForwards(b0: Board, b: Board, host: Host, script: ForwardScript, asked: seq<Id>, own: seq<Step>) returns (finish: Finish)
    requires Underway(b0, b, host, script, asked, own)
    ensures ForwardSettled(b0, GiveUp(b, host, script, |asked|, false, asked, own), host, script, |asked|, |asked|, finish)
  {
    finish := Spends(script.beforeTrip, script.trip);
    assert asked[..|asked|] == asked;
    FinishForwards(b0, b, GiveUp(b, host, script, |asked|, false, asked, own), host, script, |asked|, asked, own,
                   [Trip(host, script.trip)], finish);
  }

  lemma ServedSettles(b0: Board, mid: Board, o: TurnOutcome, host: Host, script: ForwardScript, cap: nat,
                      asked: seq<Id>, own: seq<Step>) returns (finish: Finish)
    requires |asked| < cap && o.turn.TurnServed? && Underway(b0, mid, host, script, asked, own)
    requires TurnLeads(mid, o, host, Ids(asked), script.attempts(|asked|), script.settings)
    ensures ForwardSettled(b0, ForwardTrace(Served(o.turn.id, |asked|), asked + [o.turn.id], own + o.turn.own, o.board),
                           host, script, cap, |asked|, finish)
  {
    finish := Wins(o.turn.id, script.attempts(|asked|).end);
    assert (asked + [o.turn.id])[..|asked|] == asked;
    FinishForwards(b0, mid, ForwardTrace(Served(o.turn.id, |asked|), asked + [o.turn.id], own + o.turn.own, o.board),
                   host, script, cap, asked, own, o.turn.own, finish);
  }

  lemma AbortedSettles(b0: Board, mid: Board, o: TurnOutcome, host: Host, script: ForwardScript, cap: nat,
                       asked: seq<Id>, own: seq<Step>) returns (finish: Finish)
    requires |asked| < cap && o.turn.TurnAborted? && Underway(b0, mid, host, script, asked, own)
    requires TurnLeads(mid, o, host, Ids(asked), script.attempts(|asked|), script.settings)
    ensures ForwardSettled(b0, ForwardTrace(Aborted, asked + o.turn.asked, own, o.board), host, script, cap, |asked|, finish)
  {
    finish := if script.attempts(|asked|).doneBefore then Leaves else GivesUp(o.turn.asked[0]);
    assert (asked + o.turn.asked)[..|asked|] == asked && own + [] == own;
    FinishForwards(b0, mid, ForwardTrace(Aborted, asked + o.turn.asked, own, o.board), host, script, cap, asked, own, [], finish);
  }

  lemma {:induction false} TurnsSettle(b0: Board, b: Board, host: Host, script: ForwardScript, cap: nat,
                                       asked: seq<Id>, own: seq<Step>) returns (m: nat, finish: Finish)
    requires |asked| <= cap && Underway(b0, b, host, script, asked, own)
    ensures ForwardSettled(b0, Turns(b, host, script, cap, |asked|, Ids(asked), asked, own), host, script, cap, m, finish)
    decreases cap - |asked|, 1
  {
    if |asked| == cap {
      m := cap;
      finish := SpentForwards(b0, b, host, script, asked, own);
    } else {
      var a, s := script.attempts(|asked|), script.settings;
      TurnIsLed(b, host, Ids(asked), a, s);
      m, finish := RestOfTurnsSettles(b0, b, TurnRun(b, host, Ids(asked), a, s), host, script, cap, asked, own);
    }
  }

  lemma {:induction false} RestOfTurnsSettles(b0: Board, b: Board, o: TurnOutcome, host: Host, script: ForwardScript, cap: nat,
                                              asked: seq<Id>, own: seq<Step>) returns (m: nat, finish: Finish)
    requires |asked| < cap && Underway(b0, b, host, script, asked, own)
    requires TurnLeads(b, o, host, Ids(asked), script.attempts(|asked|), script.settings)
    ensures ForwardSettled(b0, TurnsAfter(o, host, script, cap, |asked|, Ids(asked), asked, own), host, script, cap, m, finish)
    decreases cap - |asked|, 0
  {
    if o.turn.TurnFailed? {
      var id, rec := o.turn.id, o.turn.own;
      TurnEntered(b, o, host, Ids(asked), script.attempts(|asked|), script.settings, own);
      TurnCharged(b0, b, o.board, host, script, asked, own, id, rec);
      assert Ids(asked + [id]) == Ids(asked) + {id};
      m, finish := TurnsSettle(b0, o.board, host, script, cap, asked + [id], own + rec);
    } else {
      m := |asked|;
      if o.turn.TurnServed? {
        finish := ServedSettles(b0, b, o, host, script, cap, asked, own);
      } else if o.turn.TurnAborted? {
        finish := AbortedSettles(b0, b, o, host, script, cap, asked, own);
      } else {
        finish := GiveUpSettles(b0, b, o.board, host, script, cap, o.turn.cascade, asked, own);
      }
    }
  }

  /** Every forwarded request is accounted for, in every interleaving, and ends in one way, as
      `ForwardEnds` says: each failed answer that is due a report is reported, once, under its
      own id and the tuning then in force; the board it leaves differs from what the others
      made of it by exactly its records. */
  lemma ForwardIsAccounted(b: Board, host: Host, script: ForwardScript, cap: nat) returns (m: nat, finish: Finish)
    ensures var t := Forward(b, host, script, cap);
      Accounted(t, host, script, cap) && ForwardSettled(b, t, host, script, cap, m, finish)
  {
    TurnsAccounted(b, host, script, cap, 0, {}, [], []);
    assert Ids([]) == {};
    m, finish := TurnsSettle(b, b, host, script, cap, [], []);
  }

  // ---------------------------------------------------------------- bodies

  /** The transport. It remembers the round trips made and the bodies handed out. */
  class Wire {
    var asked: seq<Id>
    var bodies: seq<Stream>

    constructor ()
      ensures asked == [] && bodies == [] && AllClosed()
    {
      asked := [];
      bodies := [];
    }

    /** Every body handed out so far has been closed exactly once. */
    ghost predicate AllClosed()
      reads this, bodies
    {
      forall i :: 0 <= i < |bodies| ==> bodies[i].closes == 1
    }

    /** A round trip may start only when no earlier body is open. */
    method RoundTrip(id: Id, answer: Answer) returns (body: Stream?)
      requires AllClosed()
      modifies this
      ensures asked == old(asked) + [id]
      ensures body == null <==> answer.RoundTripError?
      ensures body == null ==> bodies == old(bodies)
      ensures body != null ==>
        && fresh(body) && bodies == old(bodies) + [body]
        && body.closes == 0 && body.rest == answer.payload.data && body.ending == answer.payload.ending
    {
      asked := asked + [id];
      if answer.RoundTripError? {
        return null;
      }
      var b := new Stream(answer.payload.data, answer.payload.ending);
      bodies := bodies + [b];
      return b;
    }
  }

  const MAX_DRAIN: nat := 65536
  const COPY_BUFFER: nat := 32768

  /** Discards a bounded part of the body, for as long as the timer lets it, and closes it. */
  method DrainAndClose(body: Replay, drains: seq<Call>)
    requires Usable(body)
    modifies Footprint(body)
    ensures Source(body).closes == old(Source(body).closes) + 1
    // at most 64 KiB are read off the network
    ensures |old(Source(body).rest)| - |Source(body).rest| <= 65536
  {
    var left: nat := MAX_DRAIN;
    var k := 0;
    while k < |drains| && left > 0
      invariant k <= |drains| && left <= MAX_DRAIN
      invariant |old(Source(body).rest)| - |Source(body).rest| <= MAX_DRAIN - left
      invariant Usable(body) && Source(body).closes == old(Source(body).closes)
    {
      var bytes, status := ReadReplay(body, Offer(drains[k], left));
      left := left - |bytes|;
      if status.Ended? {
        break;
      }
      k := k + 1;
    }
    CloseReplay(body);
  }

  /** Copies the body to the client until it ends or the client is gone, and closes it. */
  method WriteForwardSuccess(body: Replay, copies: nat -> Call, clientGone: Option<nat>) returns (sent: seq<byte>)
    requires Usable(body)
    modifies Footprint(body)
    ensures sent <= old(Pending(body))
    ensures clientGone.None? ==> sent == old(Pending(body))
    ensures Source(body).closes == old(Source(body).closes) + 1
  {
    sent := [];
    ghost var left := Pending(body);
    var writes := 0;
    var k := 0;
    var more := true;
    while more
      invariant Usable(body) && Source(body).closes == old(Source(body).closes)
      invariant left == Pending(body)
      invariant if more then sent + left == old(Pending(body)) else sent <= old(Pending(body))
      invariant !more && clientGone.None? ==> sent == old(Pending(body))
      decreases more, |left|
    {
      var bytes, status := ReadReplay(body, Offer(copies(k), COPY_BUFFER));
      ghost var before := left;
      left := Pending(body);
      assert before == bytes + left;
      k := k + 1;
      if bytes != [] && clientGone == Some(writes) {
        assert sent + before == old(Pending(body));
        more := false;
      } else {
        if bytes != [] {
          writes := writes + 1;
        }
        assert sent + bytes + left == old(Pending(body));
        sent := sent + bytes;
        more := !status.Ended?;
      }
    }
    CloseReplay(body);
  }

  // ---------------------------------------------------------------- the loop

  method ReportFailure(sb: Scoreboard, host: Host, id: Id, d: Option<Report>, a: ForwardAttempt) returns (own: seq<Step>)
    requires sb.Valid()
    modifies sb
    ensures sb.Valid()
    ensures var f := ReportRun(old(sb.State()), host, id, d, a); sb.State() == f.board && own == f.own
  {
    own := [];
    if d.Some? {
      sb.Interleave(a.beforeRecord);
      var fired;
      fired, own := sb.RecordFailure(host, id, d.value.kind, d.value.override, a.fail);
    }
  }

  /** What was sent to the client for payload `p`. */
  ghost predicate SentOf(sent: seq<byte>, p: Payload) {
    sent <= p.data && (p.clientGone.None? ==> sent == p.data)
  }

  /** The rest of an attempt whose response the status detector let pass. */
  method SettleBody(sb: Scoreboard, host: Host, id: Id, a: ForwardAttempt, s: Settings, body: Stream)
    returns (turn: Turn, sent: seq<byte>)
    requires sb.Valid() && a.answer.Response? && a.answer.status.None?
    requires body.closes == 0 && body.rest == a.answer.payload.data && body.ending == a.answer.payload.ending
    modifies sb, body
    ensures sb.Valid() && TurnOutcome(turn, sb.State()) == Answered(old(sb.State()), host, id, a, s)
    ensures body.closes == 1
    ensures if turn.TurnServed? then SentOf(sent, a.answer.payload) else sent == []
  {
    var p := a.answer.payload;
    var replay := Direct(body);
    if s.patterns != [] {
      var d := BufferAndDecide(body, p.plain, s.limit, s.patterns, p.inspects);
      if d.ReadError? {
        return TurnFailed(id, []), [];
      }
      if d.Inspected? && d.matched.Some? {
        var own := ReportFailure(sb, host, id, Some(Report(BodyMatch, None)), a);
        DrainAndClose(d.replay, p.drains);
        return TurnFailed(id, own), [];
      }
      replay := d.replay;
    }
    sb.RecordSuccess(host, id, a.end);
    sent := WriteForwardSuccess(replay, p.copies, p.clientGone);
    return TurnServed(id, [Succeed(host, id, a.end)]), sent;
  }

  /** The response half of an attempt: whatever is decided, the body is closed exactly once. */
  method SettleResponse(sb: Scoreboard, host: Host, id: Id, a: ForwardAttempt, s: Settings, body: Stream)
    returns (turn: Turn, sent: seq<byte>)
    requires sb.Valid() && a.answer.Response?
    requires body.closes == 0 && body.rest == a.answer.payload.data && body.ending == a.answer.payload.ending
    modifies sb, body
    ensures sb.Valid() && TurnOutcome(turn, sb.State()) == Answered(old(sb.State()), host, id, a, s)
    ensures body.closes == 1
    ensures if turn.TurnServed? then SentOf(sent, a.answer.payload) else sent == []
  {
    if a.answer.status.Some? {
      var own := ReportFailure(sb, host, id, a.answer.status, a);
      DrainAndClose(Direct(body), a.answer.payload.drains);
      return TurnFailed(id, own), [];
    }
    turn, sent := SettleBody(sb, host, id, a, s, body);
  }

  function AskedBy(t: Turn): seq<Id> {
    match t
    case TurnServed(id, _) => [id]
    case TurnFailed(id, _) => [id]
    case TurnAborted(asked) => asked
    case TurnNoUpstream(_) => []
  }

  /** The round trip and what follows from its answer. */
  method Ask(sb: Scoreboard, wire: Wire, host: Host, id: Id, a: ForwardAttempt, s: Settings)
    returns (turn: Turn, sent: seq<byte>)
    requires sb.Valid() && wire.AllClosed()
    modifies sb, wire
    ensures sb.Valid() && TurnOutcome(turn, sb.State()) == Answered(old(sb.State()), host, id, a, s)
    ensures wire.AllClosed() && wire.asked == old(wire.asked) + AskedBy(turn)
    ensures if turn.TurnServed? then a.answer.Response? && SentOf(sent, a.answer.payload) else sent == []
  {
    var body := wire.RoundTrip(id, a.answer);
    if body == null {
      if a.doneAfter {
        return TurnAborted([id]), [];
      }
      var own := ReportFailure(sb, host, id, DueReport(a.answer, a.gate, s), a);
      return TurnFailed(id, own), [];
    }
    turn, sent := SettleResponse(sb, host, id, a, s, body);
  }

  method TakeTurn(sb: Scoreboard, wire: Wire, host: Host, tried: set<Id>, a: ForwardAttempt, s: Settings)
    returns (turn: Turn, sent: seq<byte>)
    requires sb.Valid() && wire.AllClosed()
    modifies sb, wire
    ensures sb.Valid() && TurnOutcome(turn, sb.State()) == TurnRun(old(sb.State()), host, tried, a, s)
    ensures wire.AllClosed() && wire.asked == old(wire.asked) + AskedBy(turn)
    ensures if turn.TurnServed? then a.answer.Response? && SentOf(sent, a.answer.payload) else sent == []
  {
    sb.Interleave(a.before);
    if a.doneBefore {
      return TurnAborted([]), [];
    }
    var picked := sb.Pick(host, tried, a.pick);
    if !picked.Picked? {
      return TurnNoUpstream(picked.CascadeCooling?), [];
    }
    sb.Interleave(a.during);
    turn, sent := Ask(sb, wire, host, picked.up.id, a, s);
  }

  /** What the client was sent by the end of the request. */
  ghost predicate Delivered(result: ForwardResult, sent: seq<byte>, script: ForwardScript) {
    if result.Served? then
      var answer := script.attempts(result.retries).answer; answer.Response? && SentOf(sent, answer.payload)
    else sent == []
  }

  /** The retry loop, up to but without the cascade trip and the 502. */
  method ForwardLoop(sb: Scoreboard, wire: Wire, host: Host, script: ForwardScript, cap: nat)
    returns (stopped: Option<ForwardResult>, retries: nat, cascadeAlready: bool, own: seq<Step>, sent: seq<byte>)
    requires sb.Valid() && wire.asked == [] && wire.bodies == []
    modifies sb, wire
    ensures sb.Valid() && wire.AllClosed()
    ensures Forward(old(sb.State()), host, script, cap) ==
      if stopped.Some? then ForwardTrace(stopped.value, wire.asked, own, sb.State())
      else GiveUp(sb.State(), host, script, retries, cascadeAlready, wire.asked, own)
    ensures if stopped.Some? then Delivered(stopped.value, sent, script) else sent == []
  {
    own, sent := [], [];
    retries, cascadeAlready := 0, false;
    var tried: set<Id> := {};
    for attempt := 0 to cap
      invariant sb.Valid() && wire.AllClosed()
      invariant retries == attempt && !cascadeAlready && sent == []
      invariant Turns(sb.State(), host, script, cap, attempt, tried, wire.asked, own)
        == Forward(old(sb.State()), host, script, cap)
    {
      var turn;
      turn, sent := TakeTurn(sb, wire, host, tried, script.attempts(attempt), script.settings);
      if turn.TurnServed? {
        return Some(Served(turn.id, retries)), retries, false, own + turn.own, sent;
      }
      if turn.TurnAborted? {
        return Some(Aborted), retries, false, own, [];
      }
      if turn.TurnNoUpstream? {
        return None, retries, turn.cascade, own, [];
      }
      tried := tried + {turn.id};
      retries := retries + 1;
      own := own + turn.own;
    }
    return None, retries, false, own, [];
  }

  /** `handleForward` after the request checks; `cap` is the retry cap read once on entry.
      However it ends, every body the transport handed out has been closed exactly once, and
      was before the next round trip; a served client got the upstream's own bytes. */
  method HandleForward(sb: Scoreboard, wire: Wire, host: Host, script: ForwardScript, cap: nat)
    returns (result: ForwardResult, own: seq<Step>, sent: seq<byte>)
    requires sb.Valid() && wire.asked == [] && wire.bodies == []
    modifies sb, wire
    ensures sb.Valid() && wire.AllClosed()
    ensures ForwardTrace(result, wire.asked, own, sb.State()) == Forward(old(sb.State()), host, script, cap)
    ensures Accounted(ForwardTrace(result, wire.asked, own, sb.State()), host, script, cap)
    ensures exists m, finish ::
      ForwardSettled(old(sb.State()), ForwardTrace(result, wire.asked, own, sb.State()), host, script, cap, m, finish)
    ensures Delivered(result, sent, script)
  {
    ghost var m, finish := ForwardIsAccounted(sb.State(), host, script, cap);
    var stopped, retries, cascadeAlready;
    stopped, retries, cascadeAlready, own, sent := ForwardLoop(sb, wire, host, script, cap);
    if stopped.Some? {
      return stopped.value, own, sent;
    }
    if !cascadeAlready {
      sb.Interleave(script.beforeTrip);
      own := own + [Trip(host, script.trip)];
      sb.TripCascade(host, script.trip);
    }
    return BadGateway(retries, cascadeAlready), own, [];
  }
}
