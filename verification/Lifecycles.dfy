/** How long what a request or an operator does to a host lasts, over every later run:
    a success, a cascade trip, a force pin. */
module Lifecycles {
  import opened Types
  import opened Selection
  import opened Regions
  import opened Requests
  import opened Pruning
  import opened Dynamics
  import Choices

  // ---------------------------------------------------------------- cascades

  /** The step neither sets, clears nor loads the cascade of `h`. */
  predicate SparesCascade(step: Step, h: Host) {
    && !step.Load? && !step.ResetBoard?
    && (step.Succeed? || step.Trip? || step.ForgetBoard? ==> step.host != h)
  }

  lemma StepSparesCascade(b: Board, step: Step, h: Host, now: Time, later: Time)
    requires SparesCascade(step, h) && Advance(now, step) <= later
    ensures CascadeActive(Apply(b, step), h, later) <==> CascadeActive(b, h, later)
  {
    assert LiveIn(CascadeAfter(b, step), h, later) == LiveIn(b.cascade, h, later);
  }

  lemma {:induction false} RunSparesCascade(b: Board, trace: seq<Step>, h: Host, now: Time, later: Time)
    requires Clocked(trace, now) && End(trace, now) <= later
    requires forall k :: 0 <= k < |trace| ==> SparesCascade(trace[k], h)
    ensures CascadeActive(Run(b, trace), h, later) <==> CascadeActive(b, h, later)
    decreases |trace|
  {
    if trace != [] {
      assert SparesCascade(trace[0], h);
      assert forall k :: 0 <= k < |trace| - 1 ==> trace[1..][k] == trace[k + 1];
      EndIsLater(trace[1..], Advance(now, trace[0]));
      StepSparesCascade(b, trace[0], h, now, later);
      RunSparesCascade(Apply(b, trace[0]), trace[1..], h, Advance(now, trace[0]), later);
    }
  }

  /** A trip turns requests for the host away, without a dial, until exactly its TTL has
      passed: whatever prunes, decays, reloads and other traffic come in between. Without a TTL
      a trip does nothing. */
  lemma TripLastsItsTtl(b: Board, h: Host, now: Time, trace: seq<Step>, script: DialScript)
    requires Clocked(trace, now) && End(trace, now) <= script.now
    requires forall k :: 0 <= k < |trace| ==> SparesCascade(trace[k], h)
    ensures var after := Run(Apply(b, Trip(h, now)), trace);
      if b.cfg.cascadeTTL <= 0 then Apply(b, Trip(h, now)) == b
      else if script.now < now + b.cfg.cascadeTTL then DialFor(after, h, script) == DialTrace(Cascaded, [], [], after)
      else !CascadeActive(after, h, script.now)
  {
    RunSparesCascade(Apply(b, Trip(h, now)), trace, h, now, script.now);
  }

  // ---------------------------------------------------------------- successes

  /** The step gives `(h, i)` no cooldown and `h` no cascade. */
  predicate Harmless(step: Step, h: Host, i: Id) {
    !Hits(step, h, i) && !step.Load? && !(step.Trip? && step.host == h)
  }

  lemma StepKeepsWarm(b: Board, step: Step, h: Host, i: Id)
    requires Harmless(step, h, i) && CooldownOf(b, h, i) == 0
    ensures CooldownOf(Apply(b, step), h, i) == 0
  {
    match step {
      case Succeed(host, id, t) =>
        EntryOfPut(b.entries, host, id, Rewarded(EntryOf(b.entries, host, id), t, b.cfg.successWeight, b.cfg.scoreCap), h, i);
      case Penalize(host, id, t, policy, cap, override) =>
        EntryOfPut(b.entries, host, id, Penalized(EntryOf(b.entries, host, id), t, policy, cap, override), h, i);
      case Decay => EntryOfDecay(b.entries, b.cfg.decayStep, h, i);
      case PruneBoard(now) => EntryOfPrune(b.entries, now, b.cfg.pruneAfter, h, i);
      case _ =>
    }
  }

  lemma StepKeepsOpen(b: Board, step: Step, h: Host, i: Id)
    requires Harmless(step, h, i) && h !in b.cascade
    ensures h !in Apply(b, step).cascade
  {
    assert h !in CascadeAfter(b, step);
  }

  lemma {:induction false} RunKeepsWarm(b: Board, trace: seq<Step>, h: Host, i: Id)
    requires forall k :: 0 <= k < |trace| ==> Harmless(trace[k], h, i)
    requires CooldownOf(b, h, i) == 0 && h !in b.cascade
    ensures CooldownOf(Run(b, trace), h, i) == 0 && h !in Run(b, trace).cascade
    decreases |trace|
  {
    if trace != [] {
      assert Harmless(trace[0], h, i);
      assert forall k :: 0 <= k < |trace| - 1 ==> trace[1..][k] == trace[k + 1];
      StepKeepsWarm(b, trace[0], h, i);
      StepKeepsOpen(b, trace[0], h, i);
      RunKeepsWarm(Apply(b, trace[0]), trace[1..], h, i);
    }
  }

  /** A success frees the upstream and the host at once, at every reading, until the next
      failure or trip: the upstream is not cooling and requests for the host are not turned away. */
  lemma SuccessFrees(b: Board, h: Host, i: Id, now: Time, trace: seq<Step>, later: Time)
    requires forall k :: 0 <= k < |trace| ==> Harmless(trace[k], h, i)
    ensures var after := Run(Apply(b, Succeed(h, i, now)), trace);
      !Cooling(EntryOf(after.entries, h, i), later) && !CascadeActive(after, h, later)
  {
    var e := Rewarded(EntryOf(b.entries, h, i), now, b.cfg.successWeight, b.cfg.scoreCap);
    EntryOfPut(b.entries, h, i, e, h, i);
    RunKeepsWarm(Apply(b, Succeed(h, i, now)), trace, h, i);
  }

  // ---------------------------------------------------------------- pins

  /** The step leaves the pin of `h` on `id` in place: no other decision about this pin, and
      no pool without `id`. */
  ghost predicate SparesPin(step: Step, h: Host, id: Id) {
    && !step.ResetBoard?
    && (step.Force? || step.ClearForce? ==> step.host != h)
    && (step.SwapPool? ==> HasId(step.pool, id))
  }

  ghost predicate Pinned(b: Board, h: Host, id: Id, until: Time) {
    h in b.forces && b.forces[h] == Pin(id, until) && HasId(b.pool, id)
  }

  lemma StepSparesPin(b: Board, step: Step, h: Host, id: Id, until: Time, now: Time)
    requires Pinned(b, h, id, until) && SparesPin(step, h, id) && Advance(now, step) < until
    ensures Pinned(Apply(b, step), h, id, until)
  {
    if step.SwapPool? {
      FindIdMeaning(step.pool, id);
    }
    var forces := ForcesAfter(b, step);
    assert h in forces && forces[h] == b.forces[h];
  }

  lemma {:induction false} RunSparesPin(b: Board, trace: seq<Step>, h: Host, id: Id, until: Time, now: Time)
    requires Pinned(b, h, id, until) && Clocked(trace, now) && End(trace, now) < until
    requires forall k :: 0 <= k < |trace| ==> SparesPin(trace[k], h, id)
    ensures Pinned(Run(b, trace), h, id, until)
    decreases |trace|
  {
    if trace != [] {
      assert SparesPin(trace[0], h, id);
      assert forall k :: 0 <= k < |trace| - 1 ==> trace[1..][k] == trace[k + 1];
      EndIsLater(trace[1..], Advance(now, trace[0]));
      StepSparesPin(b, trace[0], h, id, until, now);
      RunSparesPin(Apply(b, trace[0]), trace[1..], h, id, until, Advance(now, trace[0]));
    }
  }

  lemma PinnedIsPicked(b: Board, h: Host, id: Id, until: Time, tried: set<Id>, t: PickTurn)
    requires Pinned(Run(b, t.beforePin), h, id, until) && t.now < until && id !in tried
    requires !CascadeActive(b, h, t.now)
    ensures var p := PickRun(b, h, tried, t); p.result.Picked? && p.result.up.id == id
  {
    FindIdMeaning(Run(b, t.beforePin).pool, id);
  }

  ghost predicate RunSpares(trace: seq<Step>, h: Host, id: Id) {
    forall k :: 0 <= k < |trace| ==> SparesPin(trace[k], h, id)
  }

  /** An accepted pin decides every `Pick` for the host until its deadline (unless the
      cascade turns the request away or the request has tried the upstream already): scores,
      cooldowns, forcing rules, probes and later pool swaps that keep the upstream do not
      matter, before the pick or between its regions. From the deadline on it decides none. */
  lemma PinHolds(b: Board, h: Host, id: Id, until: Time, now: Time, trace: seq<Step>, tried: set<Id>, t: PickTurn)
    requires now < until && HasId(b.pool, id) && id !in tried
    requires RunSpares(trace, h, id) && RunSpares(t.beforePin, h, id)
    requires Clocked(trace, now) && Clocked(t.beforePin, End(trace, now))
    requires End(t.beforePin, End(trace, now)) < until
    ensures var after := Run(Apply(b, Force(h, id, until, now)), trace);
      if t.now < until then
        !CascadeActive(after, h, t.now) ==>
          PickRun(after, h, tried, t).result.Picked? && PickRun(after, h, tried, t).result.up.id == id
      else PinFor(Run(after, t.beforePin), h, tried, t.now) == PinExpired
  {
    FindIdMeaning(b.pool, id);
    EndIsLater(t.beforePin, End(trace, now));
    RunSparesPin(Apply(b, Force(h, id, until, now)), trace, h, id, until, now);
    var after := Run(Apply(b, Force(h, id, until, now)), trace);
    RunSparesPin(after, t.beforePin, h, id, until, End(trace, now));
    if t.now < until && !CascadeActive(after, h, t.now) {
      PinnedIsPicked(after, h, id, until, tried, t);
    }
  }

  /** The pin of `h` is the given one or gone. */
  ghost predicate PinnedAtMost(b: Board, h: Host, pin: Pin) {
    h in b.forces ==> b.forces[h] == pin
  }

  ghost predicate NoForceOn(trace: seq<Step>, h: Host) {
    forall k :: 0 <= k < |trace| && trace[k].Force? ==> trace[k].host != h
  }

  lemma {:induction false} RunKeepsPinAtMost(b: Board, trace: seq<Step>, h: Host, pin: Pin)
    requires PinnedAtMost(b, h, pin)
    requires NoForceOn(trace, h)
    ensures PinnedAtMost(Run(b, trace), h, pin)
    decreases |trace|
  {
    if trace != [] {
      assert trace[0].Force? ==> trace[0].host != h;
      assert forall k :: 0 <= k < |trace| - 1 ==> trace[1..][k] == trace[k + 1];
      assert PinnedAtMost(Apply(b, trace[0]), h, pin) by {
        assert h in ForcesAfter(b, trace[0]) ==> h in b.forces && ForcesAfter(b, trace[0])[h] == b.forces[h];
      }
      RunKeepsPinAtMost(Apply(b, trace[0]), trace[1..], h, pin);
    }
  }

  /** From its deadline on a pin decides no pick, whatever has run since and however late: at
      such a reading it is gone or expired, and the answer is the scan's. */
  lemma PinLapses(b: Board, h: Host, id: Id, until: Time, now: Time, trace: seq<Step>, tried: set<Id>, t: PickTurn)
    requires now < until <= t.now && HasId(b.pool, id)
    requires NoForceOn(trace, h) && NoForceOn(t.beforePin, h)
    ensures var after := Run(Apply(b, Force(h, id, until, now)), trace);
      var pin := PinFor(Run(after, t.beforePin), h, tried, t.now);
      && (pin.NoPin? || pin.PinExpired?)
      && (!CascadeActive(after, h, t.now) ==>
            var p := PickRun(after, h, tried, t); p.result == Scan(p.board, h, tried, t.now, t.coin))
  {
    FindIdMeaning(b.pool, id);
    var forced := Apply(b, Force(h, id, until, now));
    var after := Run(forced, trace);
    RunKeepsPinAtMost(forced, trace, h, Pin(id, until));
    RunKeepsPinAtMost(after, t.beforePin, h, Pin(id, until));
    if !CascadeActive(after, h, t.now) {
      Choices.ScanDecides(after, h, tried, t);
    }
  }

  // ---------------------------------------------------------------- forgetting

  /** `Forget` leaves the host as one never seen, its pin and every other host as they were. */
  lemma ForgetErases(b: Board, h: Host, other: Host, i: Id, k: Key)
    ensures var after := Run(b, [ForgetBoard(h), ForgetStamps(h)]);
      && h !in after.entries && h !in after.cascade && (k.host == h ==> k !in after.debounce)
      && after.forces == b.forces && after.pool == b.pool && after.cfg == b.cfg && after.rules == b.rules
      && (other != h ==>
            && EntryOf(after.entries, other, i) == EntryOf(b.entries, other, i)
            && (other in after.cascade <==> other in b.cascade)
            && (other in after.cascade ==> after.cascade[other] == b.cascade[other]))
      && (k.host != h ==>
            (k in after.debounce <==> k in b.debounce) && (k in after.debounce ==> after.debounce[k] == b.debounce[k]))
  {
    var b1 := Apply(b, ForgetBoard(h));
    assert [ForgetBoard(h), ForgetStamps(h)][1..] == [ForgetStamps(h)];
    RunSnoc(b1, [], ForgetStamps(h));
    assert [] + [ForgetStamps(h)] == [ForgetStamps(h)];
    assert Run(b, [ForgetBoard(h), ForgetStamps(h)]) == Apply(b1, ForgetStamps(h));
  }

  // ---------------------------------------------------------------- settings

  /** The tuning after the trace: the last one installed, but with the decay interval the
      process started with. */
  function TuningAfter(trace: seq<Step>, before: Config): Config {
    if trace == [] then before
    else
      var last := trace[|trace| - 1];
      if last.Retune? then last.cfg.(decayInterval := before.decayInterval)
      else TuningAfter(trace[..|trace| - 1], before)
  }

  function RulesAfter(trace: seq<Step>, before: seq<Rule>): seq<Rule> {
    if trace == [] then before
    else
      var last := trace[|trace| - 1];
      if last.Reroute? then last.rules else RulesAfter(trace[..|trace| - 1], before)
  }

  function PoolAfter(trace: seq<Step>, pool: seq<PoolEntry>, cap: int): (seq<PoolEntry>, int) {
    if trace == [] then (pool, cap)
    else
      var last := trace[|trace| - 1];
      if last.SwapPool? then (last.pool, last.retryCap) else PoolAfter(trace[..|trace| - 1], pool, cap)
  }

  /** The tuning, rules, pool and retry cap in force are those installed last, each by its own
      kind of reload and by nothing else. */
  lemma {:induction false} LastInstalledIsInForce(b: Board, trace: seq<Step>)
    ensures var x := Run(b, trace);
      && x.cfg == TuningAfter(trace, b.cfg) && x.cfg.decayInterval == b.cfg.decayInterval
      && x.rules == RulesAfter(trace, b.rules)
      && (x.pool, x.retryCap) == PoolAfter(trace, b.pool, b.retryCap)
  {
    if trace != [] {
      var front, last := trace[..|trace| - 1], trace[|trace| - 1];
      assert trace == front + [last];
      LastInstalledIsInForce(b, front);
      RunSnoc(b, front, last);
    }
  }
}
