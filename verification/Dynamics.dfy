/** Scores, cooldowns and debounce stamps over whole runs of regions. */
module Dynamics {
  import opened Types
  import opened Regions
  import opened Invariants
  import opened Pruning
  import opened Spacing
  import Selection
  import Requests
  import Choices

  // ---------------------------------------------------------------- scores

  /** The effect of one region on the score of `(h, i)`. */
  function ScoreStep(cfg: Config, step: Step, h: Host, i: Id, x: real): real {
    match step
    case Succeed(host, id, _) =>
      if host == h && id == i then RealMin(x + cfg.successWeight, cfg.scoreCap) else x
    case Penalize(host, id, _, policy, cap, _) =>
      if host == h && id == i then RealMax(x - policy.penalty, -cap) else x
    case Decay => Decayed(x, cfg.decayStep)
    case _ => x
  }

  /** The regions that replace or drop entries whatever their score is. */
  predicate Wipes(step: Step) { step.Load? || step.ForgetBoard? || step.ResetBoard? }

  function ScoreOf(b: Board, h: Host, i: Id): real { EntryOf(b.entries, h, i).score }

  /** Apart from wipes every region moves the score by its own map; dropping an entry in the
      prune pass is no exception, because only zero scores are dropped. */
  lemma ScoreFollows(b: Board, step: Step, h: Host, i: Id)
    requires !Wipes(step)
    ensures ScoreOf(Apply(b, step), h, i) == ScoreStep(b.cfg, step, h, i, ScoreOf(b, h, i))
  {
    match step {
      case Succeed(host, id, t) =>
        EntryOfPut(b.entries, host, id, Rewarded(EntryOf(b.entries, host, id), t, b.cfg.successWeight, b.cfg.scoreCap), h, i);
      case Penalize(host, id, t, policy, cap, override) =>
        EntryOfPut(b.entries, host, id, Penalized(EntryOf(b.entries, host, id), t, policy, cap, override), h, i);
      case Decay => EntryOfDecay(b.entries, b.cfg.decayStep, h, i);
      case PruneBoard(now) => EntryOfPrune(b.entries, now, b.cfg.pruneAfter, h, i);
      case _ =>
    }
  }

  /** Every region moves scores monotonically and never widens a gap. */
  lemma ScoreStepNonExpanding(cfg: Config, step: Step, h: Host, i: Id, x: real, y: real)
    requires x <= y
    ensures 0.0 <= ScoreStep(cfg, step, h, i, y) - ScoreStep(cfg, step, h, i, x) <= y - x
  {
  }

  /** A region that replaces or drops entries leaves the same on any two boards. */
  lemma WipesAlike(a: Board, b: Board, step: Step, h: Host, i: Id)
    requires Wipes(step)
    ensures ScoreOf(Apply(a, step), h, i) == ScoreOf(Apply(b, step), h, i)
      || (ScoreOf(Apply(a, step), h, i) == ScoreOf(a, h, i) && ScoreOf(Apply(b, step), h, i) == ScoreOf(b, h, i))
  {
  }

  /** A common history, of any regions whatever, neither inverts two scores nor widens the gap
      between them. */
  lemma {:induction false} CommonHistoryNeverInverts(a: Board, b: Board, trace: seq<Step>, h: Host, i: Id)
    requires a.cfg == b.cfg
    requires ScoreOf(a, h, i) <= ScoreOf(b, h, i)
    ensures 0.0 <= ScoreOf(Run(b, trace), h, i) - ScoreOf(Run(a, trace), h, i)
                <= ScoreOf(b, h, i) - ScoreOf(a, h, i)
    decreases |trace|
  {
    if trace != [] {
      if Wipes(trace[0]) {
        WipesAlike(a, b, trace[0], h, i);
      } else {
        ScoreFollows(a, trace[0], h, i);
        ScoreFollows(b, trace[0], h, i);
        ScoreStepNonExpanding(a.cfg, trace[0], h, i, ScoreOf(a, h, i), ScoreOf(b, h, i));
      }
      CommonHistoryNeverInverts(Apply(a, trace[0]), Apply(b, trace[0]), trace[1..], h, i);
    }
  }

  ghost predicate ScoresWithin(entries: Entries, cap: real) {
    forall h, i :: h in entries && i in entries[h] ==> -cap <= entries[h][i].score <= cap
  }

  /** The tuning a step brings: one cap, non-negative penalties and success weight. */
  predicate Tuned(step: Step, cap: real) {
    && (step.Penalize? ==> step.cap == cap && step.policy.penalty >= 0.0)
    && (step.Retune? ==> step.cfg.scoreCap == cap && step.cfg.successWeight >= 0.0)
  }

  lemma ScoreStepWithin(cfg: Config, step: Step, h: Host, i: Id, x: real, cap: real)
    requires 0.0 <= cap == cfg.scoreCap && cfg.successWeight >= 0.0 && Tuned(step, cap) && -cap <= x <= cap
    ensures -cap <= ScoreStep(cfg, step, h, i, x) <= cap
  {
  }

  lemma StepKeepsScoresWithin(b: Board, step: Step, cap: real)
    requires 0.0 <= cap == b.cfg.scoreCap && b.cfg.successWeight >= 0.0 && Tuned(step, cap)
    requires step.Load? ==> ScoresWithin(LoadHosts(step.hosts), cap)
    requires ScoresWithin(b.entries, cap)
    ensures ScoresWithin(Apply(b, step).entries, cap)
  {
    var x := Apply(b, step);
    forall h, i | h in x.entries && i in x.entries[h]
      ensures -cap <= x.entries[h][i].score <= cap
    {
      assert x.entries[h][i].score == ScoreOf(x, h, i);
      if !Wipes(step) {
        assert -cap <= ScoreOf(b, h, i) <= cap;
        ScoreFollows(b, step, h, i);
        ScoreStepWithin(b.cfg, step, h, i, ScoreOf(b, h, i), cap);
      }
    }
  }

  /** From a fresh board |score| never exceeds the cap. */
  lemma {:induction false} ScoresStayWithinCap(b: Board, trace: seq<Step>, cap: real)
    requires 0.0 <= cap == b.cfg.scoreCap && b.cfg.successWeight >= 0.0
    requires forall k :: 0 <= k < |trace| ==> Tuned(trace[k], cap) && !trace[k].Load?
    requires ScoresWithin(b.entries, cap)
    ensures ScoresWithin(Run(b, trace).entries, cap)
    decreases |trace|
  {
    if trace != [] {
      assert Tuned(trace[0], cap) && !trace[0].Load?;
      StepKeepsScoresWithin(b, trace[0], cap);
      assert forall k :: 0 <= k < |trace| - 1 ==> trace[1..][k] == trace[k + 1];
      ScoresStayWithinCap(Apply(b, trace[0]), trace[1..], cap);
    }
  }

  function Ticks(n: nat): seq<Step> { if n == 0 then [] else [Decay] + Ticks(n - 1) }

  function Abs(x: real): real { if x < 0.0 then -x else x }

  lemma DecayedTwice(x: real, a: real, b: real)
    requires a > 0.0 && b >= 0.0
    ensures Decayed(Decayed(x, a), b) == Decayed(x, a + b)
    ensures Decayed(x, a) == 0.0 <==> a >= Abs(x)
  {
  }

  /** `n` steps added up: the product of `n` and `step`. */
  function Total(n: nat, step: real): real { if n == 0 then 0.0 else step + Total(n - 1, step) }

  lemma {:induction false} TotalIsProduct(n: nat, step: real)
    ensures Total(n, step) == n as real * step
  {
    if n > 0 {
      TotalIsProduct(n - 1, step);
      Distributes((n - 1) as real, step);
      assert n as real == (n - 1) as real + 1.0;
    }
  }

  lemma Distributes(x: real, step: real)
    ensures (x + 1.0) * step == step + x * step
  {
  }

  lemma {:induction false} TotalIsPositive(n: nat, step: real)
    requires step > 0.0
    ensures if n == 0 then Total(n, step) == 0.0 else Total(n, step) >= step
  {
    if n > 1 {
      TotalIsPositive(n - 1, step);
    }
  }

  /** `n` decay ticks are one tick of `n` steps. */
  lemma {:induction false} DecayTicksAdd(b: Board, n: nat, h: Host, i: Id)
    requires b.cfg.decayStep > 0.0
    ensures ScoreOf(Run(b, Ticks(n)), h, i) == Decayed(ScoreOf(b, h, i), Total(n, b.cfg.decayStep))
    decreases n
  {
    if n != 0 {
      ScoreFollows(b, Decay, h, i);
      RunCons(b, Decay, Ticks(n - 1));
      DecayTicksAdd(Apply(b, Decay), n - 1, h, i);
      TotalIsPositive(n - 1, b.cfg.decayStep);
      DecayedTwice(ScoreOf(b, h, i), b.cfg.decayStep, Total(n - 1, b.cfg.decayStep));
    }
  }

  /** Left alone, a score is zero from the first tick that covers its distance from zero, and
      not before. */
  lemma DecayReachesZero(b: Board, n: nat, h: Host, i: Id)
    requires b.cfg.decayStep > 0.0
    ensures ScoreOf(Run(b, Ticks(n)), h, i) == 0.0 <==> Total(n, b.cfg.decayStep) >= Abs(ScoreOf(b, h, i))
  {
    DecayTicksAdd(b, n, h, i);
    TotalIsPositive(n, b.cfg.decayStep);
    if n > 0 {
      DecayedTwice(ScoreOf(b, h, i), Total(n, b.cfg.decayStep), 0.0);
    }
  }

  function Ceil(x: real): int { -((-x).Floor) }

  lemma CeilCovers(cap: real, step: real)
    requires step > 0.0 && cap >= 0.0
    ensures Ceil(cap / step) >= 0 && Total(Ceil(cap / step), step) >= cap
  {
    var q := cap / step;
    var n := Ceil(q);
    assert q >= 0.0 && q * step == cap;
    TotalIsProduct(n, step);
    Scales(q, n as real, step);
  }

  lemma Scales(x: real, y: real, z: real)
    requires x <= y && z > 0.0
    ensures x * z <= y * z
  {
    assert (y - x) * z >= 0.0;
  }

  /** Ticks that cover the cap bring every score within it to zero. */
  lemma CapDecaysToZero(b: Board, n: nat, cap: real, h: Host, i: Id)
    requires b.cfg.decayStep > 0.0 && cap >= 0.0 && ScoresWithin(b.entries, cap)
    requires Total(n, b.cfg.decayStep) >= cap
    ensures ScoreOf(Run(b, Ticks(n)), h, i) == 0.0
  {
    WithinCap(b.entries, cap, h, i);
    DecayReachesZero(b, n, h, i);
  }

  lemma WithinCap(entries: Entries, cap: real, h: Host, i: Id)
    requires cap >= 0.0 && ScoresWithin(entries, cap)
    ensures Abs(EntryOf(entries, h, i).score) <= cap
  {
  }

  /** Every score a run can reach is zero after ceil(cap / step) ticks without new events. */
  lemma DecayReachesZeroInTime(b: Board, trace: seq<Step>, cap: real, h: Host, i: Id)
    requires 0.0 <= cap == b.cfg.scoreCap && b.cfg.successWeight >= 0.0 && b.entries == map[]
    requires forall k :: 0 <= k < |trace| ==> Tuned(trace[k], cap) && !trace[k].Load?
    requires Run(b, trace).cfg.decayStep > 0.0
    ensures var r := Run(b, trace); var n := Ceil(cap / r.cfg.decayStep);
      n >= 0 && ScoreOf(Run(r, Ticks(n)), h, i) == 0.0
  {
    var r := Run(b, trace);
    CeilCovers(cap, r.cfg.decayStep);
    ScoresStayWithinCap(b, trace, cap);
    CapDecaysToZero(r, Ceil(cap / r.cfg.decayStep), cap, h, i);
  }

  // ---------------------------------------------------------------- cooldowns

  predicate Hits(step: Step, h: Host, i: Id) { step.Penalize? && step.host == h && step.id == i }

  /** The region is no success of `(h, i)` and does not drop its entry; it may prune, forget
      or penalise any other. */
  predicate CooldownQuiet(b: Board, step: Step, h: Host, i: Id) {
    !Drops(b, step, h, i) && !(step.Succeed? && step.host == h && step.id == i)
  }

  /** A history since the last success of `(h, i)` during which its entry was never dropped. */
  predicate SinceSuccess(b: Board, trace: seq<Step>, h: Host, i: Id) {
    trace == [] ||
    (SinceSuccess(b, trace[..|trace| - 1], h, i) && CooldownQuiet(Run(b, trace[..|trace| - 1]), trace[|trace| - 1], h, i))
  }

  /** The index of the last failure with an explicit cooldown, or -1. */
  function LastOverride(trace: seq<Step>, h: Host, i: Id): (j: int)
    ensures -1 <= j < |trace|
    ensures j >= 0 ==> Hits(trace[j], h, i) && trace[j].override.Some?
    ensures forall k :: j < k < |trace| && Hits(trace[k], h, i) ==> trace[k].override.None?
  {
    if trace == [] then -1
    else if Hits(trace[|trace| - 1], h, i) && trace[|trace| - 1].override.Some? then |trace| - 1
    else LastOverride(trace[..|trace| - 1], h, i)
  }

  /** Where the cooldown stands after the last explicit one; `before` if there was none. */
  function Base(trace: seq<Step>, h: Host, i: Id, before: Time): Time {
    var j := LastOverride(trace, h, i);
    if j < 0 then before
    else if trace[j].override.value > 0 then trace[j].now + trace[j].override.value
    else 0
  }

  /** The expiry a default-policy failure asks for. */
  predicate Extends(trace: seq<Step>, k: int, h: Host, i: Id)
    requires 0 <= k < |trace|
  {
    LastOverride(trace, h, i) < k && Hits(trace[k], h, i) && trace[k].policy.cooldown > 0
  }

  function CooldownOf(b: Board, h: Host, i: Id): Time { EntryOf(b.entries, h, i).cooldownUntil }

  lemma CooldownFollows(b: Board, step: Step, h: Host, i: Id)
    requires CooldownQuiet(b, step, h, i)
    ensures CooldownOf(Apply(b, step), h, i) ==
      if Hits(step, h, i) then CooledUntil(CooldownOf(b, h, i), step.now, step.policy.cooldown, step.override)
      else CooldownOf(b, h, i)
  {
    match step {
      case Succeed(host, id, t) =>
        EntryOfPut(b.entries, host, id, Rewarded(EntryOf(b.entries, host, id), t, b.cfg.successWeight, b.cfg.scoreCap), h, i);
      case Penalize(host, id, t, policy, cap, override) =>
        EntryOfPut(b.entries, host, id, Penalized(EntryOf(b.entries, host, id), t, policy, cap, override), h, i);
      case Decay => EntryOfDecay(b.entries, b.cfg.decayStep, h, i);
      case PruneBoard(now) => EntryOfPrune(b.entries, now, b.cfg.pruneAfter, h, i);
      case _ =>
    }
  }

  /** `r` is the maximum of the last explicit expiry and every default one after it. */
  ghost predicate IsLatest(trace: seq<Step>, h: Host, i: Id, before: Time, r: Time) {
    var base := Base(trace, h, i, before);
    && r >= base
    && (forall k :: 0 <= k < |trace| && Extends(trace, k, h, i) ==> r >= trace[k].now + trace[k].policy.cooldown)
    && (r == base || exists k :: 0 <= k < |trace| && Extends(trace, k, h, i) && r == trace[k].now + trace[k].policy.cooldown)
  }

  lemma OverrideSnoc(front: seq<Step>, last: Step, h: Host, i: Id)
    ensures LastOverride(front + [last], h, i)
      == if Hits(last, h, i) && last.override.Some? then |front| else LastOverride(front, h, i)
  {
    assert (front + [last])[..|front|] == front;
  }

  lemma LatestSnoc(front: seq<Step>, last: Step, h: Host, i: Id, before: Time, r: Time)
    requires IsLatest(front, h, i, before, r)
    requires !(Hits(last, h, i) && last.override.Some?)
    ensures IsLatest(front + [last], h, i, before,
      if Hits(last, h, i) then CooledUntil(r, last.now, last.policy.cooldown, None) else r)
  {
    var trace := front + [last];
    OverrideSnoc(front, last, h, i);
    assert Base(trace, h, i, before) == Base(front, h, i, before);
    forall k | 0 <= k < |front|
      ensures trace[k] == front[k] && (Extends(trace, k, h, i) <==> Extends(front, k, h, i))
    {
    }
    assert Extends(trace, |front|, h, i) <==> Hits(last, h, i) && last.policy.cooldown > 0;
    if r != Base(front, h, i, before) {
      var k :| 0 <= k < |front| && Extends(front, k, h, i) && r == front[k].now + front[k].policy.cooldown;
      assert Extends(trace, k, h, i) && trace[k] == front[k];
    }
  }

  lemma LatestOverride(front: seq<Step>, last: Step, h: Host, i: Id, before: Time, r: Time)
    requires Hits(last, h, i) && last.override.Some?
    ensures IsLatest(front + [last], h, i, before, CooledUntil(r, last.now, last.policy.cooldown, last.override))
  {
    OverrideSnoc(front, last, h, i);
  }

  /** The closed form of the cooldown over any history since the last success. */
  lemma {:induction false} CooldownClosedForm(b: Board, trace: seq<Step>, h: Host, i: Id)
    requires SinceSuccess(b, trace, h, i)
    ensures IsLatest(trace, h, i, CooldownOf(b, h, i), CooldownOf(Run(b, trace), h, i))
  {
    if trace != [] {
      var front, last := trace[..|trace| - 1], trace[|trace| - 1];
      assert trace == front + [last];
      CooldownClosedForm(b, front, h, i);
      RunSnoc(b, front, last);
      CooldownFollows(Run(b, front), last, h, i);
      if Hits(last, h, i) && last.override.Some? {
        LatestOverride(front, last, h, i, CooldownOf(b, h, i), CooldownOf(Run(b, front), h, i));
      } else {
        LatestSnoc(front, last, h, i, CooldownOf(b, h, i), CooldownOf(Run(b, front), h, i));
      }
    }
  }

  /** A cooldown moves backward only by an explicit override, a success, or the drop of its own
      entry. */
  lemma CooldownMovesForward(b: Board, step: Step, h: Host, i: Id)
    requires CooldownQuiet(b, step, h, i) && (Hits(step, h, i) ==> step.override.None?)
    ensures CooldownOf(Apply(b, step), h, i) >= CooldownOf(b, h, i)
  {
    CooldownFollows(b, step, h, i);
  }

  // ---------------------------------------------------------------- debounce

  /** The readings at which stamps of `key` were accepted, in lock order. */
  function AcceptedAt(b: Board, trace: seq<Step>, key: Key): seq<Time>
    decreases |trace|
  {
    if trace == [] then []
    else
      (if trace[0].Stamp? && trace[0].key == key && Accepts(b, key, trace[0].now, trace[0].window)
       then [trace[0].now] else [])
      + AcceptedAt(Apply(b, trace[0]), trace[1..], key)
  }

  /** The region drops the stamp of `key`. */
  predicate Evicts(b: Board, step: Step, key: Key) {
    key in b.debounce && key !in StampsAfter(b, step)
  }

  /** Every later stamp of `key` carries a reading of at least `from`. */
  predicate StampsFrom(trace: seq<Step>, key: Key, from: Time) {
    forall k :: 0 <= k < |trace| && trace[k].Stamp? && trace[k].key == key ==> trace[k].now >= from
  }

  /** One window for `key`, and its stamp is dropped only by prune passes whose reading no
      later reading for `key` lags by more than the nine windows the pass leaves in hand. Other
      readings may come in any order. */
  predicate Debounced(b: Board, trace: seq<Step>, key: Key, window: Duration)
    decreases |trace|
  {
    trace == [] ||
    (&& (trace[0].Stamp? && trace[0].key == key ==> trace[0].window == window)
     && (Evicts(b, trace[0], key) ==>
           trace[0].PruneStamps? && StampsFrom(trace[1..], key, trace[0].now - 10 * trace[0].window + window))
     && Debounced(Apply(b, trace[0]), trace[1..], key, window))
  }

  /** Accepted readings are a window apart in lock order, although the readings themselves may
      reach the lock in any order. `last` is the acceptance before the trace. */
  lemma {:induction false} SpacedAfter(b: Board, trace: seq<Step>, key: Key, window: Duration, last: Option<Time>)
    requires window > 0 && Debounced(b, trace, key, window)
    requires last.Some? ==>
      (key in b.debounce && b.debounce[key] == last.value) || StampsFrom(trace, key, last.value + window)
    ensures Spaced(AcceptedAt(b, trace, key), window)
    ensures last.Some? && AcceptedAt(b, trace, key) != [] ==> AcceptedAt(b, trace, key)[0] - last.value >= window
    decreases |trace|
  {
    if trace != [] {
      var s := trace[0];
      var rest := AcceptedAt(Apply(b, s), trace[1..], key);
      if s.Stamp? && s.key == key && Accepts(b, key, s.now, window) {
        SpacedAfter(Apply(b, s), trace[1..], key, window, Some(s.now));
        assert AcceptedAt(b, trace, key) == [s.now] + rest;
      } else {
        LastSurvives(b, trace, key, window, last);
        SpacedAfter(Apply(b, s), trace[1..], key, window, last);
        assert AcceptedAt(b, trace, key) == rest;
      }
    }
  }

  /** A region that accepts nothing keeps the last acceptance, or drops it for good. */
  lemma LastSurvives(b: Board, trace: seq<Step>, key: Key, window: Duration, last: Option<Time>)
    requires window > 0 && trace != [] && Debounced(b, trace, key, window)
    requires !(trace[0].Stamp? && trace[0].key == key && Accepts(b, key, trace[0].now, window))
    requires last.Some? ==>
      (key in b.debounce && b.debounce[key] == last.value) || StampsFrom(trace, key, last.value + window)
    ensures last.Some? ==> var x := Apply(b, trace[0]);
      (key in x.debounce && x.debounce[key] == last.value) || StampsFrom(trace[1..], key, last.value + window)
  {
    assert forall k :: 0 <= k < |trace| - 1 ==> trace[1..][k] == trace[k + 1];
    if last.Some? && key in b.debounce && b.debounce[key] == last.value {
      var after := StampsAfter(b, trace[0]);
      assert key in after ==> after[key] == b.debounce[key];
      if key !in after {
        assert trace[0].now - last.value > 10 * trace[0].window;
      }
    }
  }

  lemma AcceptedAreSpaced(b: Board, trace: seq<Step>, key: Key, window: Duration)
    requires window > 0 && Debounced(b, trace, key, window)
    ensures Spaced(AcceptedAt(b, trace, key), window)
    ensures key in b.debounce && AcceptedAt(b, trace, key) != [] ==>
      AcceptedAt(b, trace, key)[0] - b.debounce[key] >= window
  {
    SpacedAfter(b, trace, key, window, if key in b.debounce then Some(b.debounce[key]) else None);
  }

  /** At most span/window + 1 penalties of one kind for one pair in any span. */
  lemma DebounceBound(b: Board, trace: seq<Step>, key: Key, window: Duration, i: nat, j: nat, lo: Time, span: Duration)
    requires window > 0 && Debounced(b, trace, key, window)
    requires i <= j < |AcceptedAt(b, trace, key)|
    requires lo <= AcceptedAt(b, trace, key)[i] && AcceptedAt(b, trace, key)[j] <= lo + span
    ensures j - i + 1 <= span / window + 1
  {
    AcceptedAreSpaced(b, trace, key, window);
    SpacedCount(AcceptedAt(b, trace, key), window, i, j, lo, span);
  }

  lemma {:induction false} LaterStamps(trace: seq<Step>, key: Key, now: Time, window: Duration)
    requires LawfulTrace(trace, now, window)
    ensures StampsFrom(trace, key, now)
    decreases |trace|
  {
    if trace != [] {
      LaterStamps(trace[1..], key, Advance(now, trace[0]), window);
      assert forall k :: 1 <= k < |trace| ==> trace[k] == trace[1..][k - 1];
    }
  }

  /** A clock that never runs backwards is one way to be debounced: then prune passes never
      get in the way, and only a reset or a forget of the host does. */
  lemma {:induction false} OrderedIsDebounced(b: Board, trace: seq<Step>, key: Key, now: Time, window: Duration)
    requires window > 0 && LawfulTrace(trace, now, window)
    requires forall k :: 0 <= k < |trace| ==>
      !trace[k].ResetStamps? && !(trace[k].ForgetStamps? && trace[k].host == key.host)
    ensures Debounced(b, trace, key, window)
    decreases |trace|
  {
    if trace != [] {
      assert !trace[0].ResetStamps? && !(trace[0].ForgetStamps? && trace[0].host == key.host);
      assert forall k :: 0 <= k < |trace| - 1 ==> trace[1..][k] == trace[k + 1];
      LaterStamps(trace[1..], key, Advance(now, trace[0]), window);
      OrderedIsDebounced(Apply(b, trace[0]), trace[1..], key, Advance(now, trace[0]), window);
    }
  }

  // ---------------------------------------------------------------- exactly which failures are accepted

  /** The readings of every debounce check of `key`, in lock order. */
  function Readings(trace: seq<Step>, key: Key): seq<Time> {
    if trace == [] then []
    else (if trace[0].Stamp? && trace[0].key == key then [trace[0].now] else []) + Readings(trace[1..], key)
  }

  /** The first reading, and then each that is at least a window after the last one taken. */
  function Greedy(readings: seq<Time>, window: Duration, last: Option<Time>): seq<Time> {
    if readings == [] then []
    else if last.None? || readings[0] - last.value >= window then
      [readings[0]] + Greedy(readings[1..], window, Some(readings[0]))
    else Greedy(readings[1..], window, last)
  }

  /** `last` is stored, or it has been dropped and can reject nothing any more. */
  ghost predicate Remembered(b: Board, trace: seq<Step>, key: Key, window: Duration, last: Option<Time>) {
    if last.None? then key !in b.debounce
    else if key in b.debounce then b.debounce[key] == last.value
    else StampsFrom(trace, key, last.value + window)
  }

  /** Over a debounced run the accepted readings are exactly the greedy selection. */
  lemma {:induction false} AcceptedIsGreedy(b: Board, trace: seq<Step>, key: Key, window: Duration, last: Option<Time>)
    requires window > 0 && Debounced(b, trace, key, window) && Remembered(b, trace, key, window, last)
    ensures AcceptedAt(b, trace, key) == Greedy(Readings(trace, key), window, last)
    decreases |trace|
  {
    if trace != [] {
      var s := trace[0];
      var checks := s.Stamp? && s.key == key;
      var takes := checks && (last.None? || s.now - last.value >= window);
      var next := if takes then Some(s.now) else last;
      CheckTakes(b, trace, key, window, last);
      RemembersOn(b, trace, key, window, last, next);
      AcceptedIsGreedy(Apply(b, s), trace[1..], key, window, next);
      var tail := Readings(trace[1..], key);
      if checks {
        assert ([s.now] + tail)[1..] == tail;
      } else {
        assert [] + tail == tail;
      }
    }
  }

  lemma CheckTakes(b: Board, trace: seq<Step>, key: Key, window: Duration, last: Option<Time>)
    requires window > 0 && trace != [] && Debounced(b, trace, key, window) && Remembered(b, trace, key, window, last)
    ensures trace[0].Stamp? && trace[0].key == key ==>
      (Accepts(b, key, trace[0].now, trace[0].window) <==> last.None? || trace[0].now - last.value >= window)
  {
  }

  lemma RemembersOn(b: Board, trace: seq<Step>, key: Key, window: Duration, last: Option<Time>, next: Option<Time>)
    requires window > 0 && trace != [] && Debounced(b, trace, key, window) && Remembered(b, trace, key, window, last)
    requires next ==
      if trace[0].Stamp? && trace[0].key == key && (last.None? || trace[0].now - last.value >= window)
      then Some(trace[0].now) else last
    ensures Remembered(Apply(b, trace[0]), trace[1..], key, window, next)
  {
    var after := StampsAfter(b, trace[0]);
    assert forall k :: 0 <= k < |trace| - 1 ==> trace[1..][k] == trace[k + 1];
    CheckTakes(b, trace, key, window, last);
    if key in b.debounce && key !in after {
      assert trace[0].now - b.debounce[key] > 10 * trace[0].window;
    }
  }

  lemma {:induction false} AcceptedSnoc(b: Board, trace: seq<Step>, key: Key, now: Time, window: Duration)
    ensures AcceptedAt(b, trace + [Stamp(key, now, window)], key)
      == AcceptedAt(b, trace, key) + (if Accepts(Run(b, trace), key, now, window) then [now] else [])
    decreases |trace|
  {
    var longer := trace + [Stamp(key, now, window)];
    if trace == [] {
      assert longer[1..] == [];
    } else {
      assert longer[1..] == trace[1..] + [Stamp(key, now, window)];
      AcceptedSnoc(Apply(b, trace[0]), trace[1..], key, now, window);
    }
  }

  lemma {:induction false} ReadingsSnoc(trace: seq<Step>, key: Key, now: Time, window: Duration)
    ensures Readings(trace + [Stamp(key, now, window)], key) == Readings(trace, key) + [now]
  {
    var longer := trace + [Stamp(key, now, window)];
    if trace == [] {
      assert longer[1..] == [];
    } else {
      assert longer[1..] == trace[1..] + [Stamp(key, now, window)];
      ReadingsSnoc(trace[1..], key, now, window);
    }
  }

  /** The last reading taken, `last` if none is. */
  function LastTaken(taken: seq<Time>, last: Option<Time>): Option<Time> {
    if taken == [] then last else Some(taken[|taken| - 1])
  }

  lemma {:induction false} GreedySnoc(readings: seq<Time>, r: Time, window: Duration, last: Option<Time>)
    ensures var g := Greedy(readings, window, last); var l := LastTaken(g, last);
      Greedy(readings + [r], window, last) == g + (if l.None? || r - l.value >= window then [r] else [])
    decreases |readings|
  {
    var longer := readings + [r];
    if readings == [] {
      assert longer[1..] == [];
    } else {
      var takes := last.None? || readings[0] - last.value >= window;
      var next := if takes then Some(readings[0]) else last;
      assert longer[1..] == readings[1..] + [r];
      GreedySnoc(readings[1..], r, window, next);
      if takes {
        var g := Greedy(readings[1..], window, next);
        assert LastTaken([readings[0]] + g, last) == LastTaken(g, next);
      }
    }
  }

  /** A valid failure penalises its upstream and fires the hook exactly when no failure of the
      same host, upstream and kind was accepted less than a window before its reading. */
  lemma FailureFiresIffFresh(b: Board, trace: seq<Step>, host: Host, id: Id, kind: Kind, override: Option<Duration>,
                             t: Requests.FailTurn, window: Duration)
    requires kind != Other && window == Run(b, trace).cfg.debounceWindow
    requires var key := Key(host, id, kind);
      key !in b.debounce
      && (window > 0 ==> Debounced(b, trace + t.beforeStamp + [Stamp(key, t.now, window)], key, window))
    ensures var key := Key(host, id, kind);
      var taken := Greedy(Readings(trace + t.beforeStamp, key), window, None);
      var f := Requests.FailRun(Run(b, trace), host, id, kind, override, t);
      && (f.fired <==> window <= 0 || taken == [] || t.now - taken[|taken| - 1] >= window)
      && (f.fired <==> |f.own| == 2 && f.own[1].Penalize? && f.own[1].host == host && f.own[1].id == id)
  {
    if window > 0 {
      var key, pre := Key(host, id, kind), trace + t.beforeStamp;
      RunConcat(b, trace, t.beforeStamp);
      AcceptedSnoc(b, pre, key, t.now, window);
      AcceptedIsGreedy(b, pre + [Stamp(key, t.now, window)], key, window, None);
      DebouncedPrefix(b, pre, Stamp(key, t.now, window), key, window);
      AcceptedIsGreedy(b, pre, key, window, None);
      ReadingsSnoc(pre, key, t.now, window);
      GreedySnoc(Readings(pre, key), t.now, window, None);
    }
  }

  lemma {:induction false} DebouncedPrefix(b: Board, trace: seq<Step>, s: Step, key: Key, window: Duration)
    requires Debounced(b, trace + [s], key, window)
    ensures Debounced(b, trace, key, window)
    decreases |trace|
  {
    if trace != [] {
      var longer := trace + [s];
      assert longer[1..] == trace[1..] + [s];
      assert forall k :: 0 <= k < |trace| - 1 ==> longer[1..][k] == trace[1..][k];
      DebouncedPrefix(Apply(b, trace[0]), trace[1..], s, key, window);
    }
  }

  // ---------------------------------------------------------------- counters and last events

  /** The entry of `(h, i)` is never dropped along the trace. */
  predicate NeverDropped(b: Board, trace: seq<Step>, h: Host, i: Id) {
    trace == [] ||
    (NeverDropped(b, trace[..|trace| - 1], h, i) && !Drops(Run(b, trace[..|trace| - 1]), trace[|trace| - 1], h, i))
  }

  predicate Wins(step: Step, h: Host, i: Id) { step.Succeed? && step.host == h && step.id == i }

  function Successes(trace: seq<Step>, h: Host, i: Id): nat {
    if trace == [] then 0
    else Successes(trace[..|trace| - 1], h, i) + (if Wins(trace[|trace| - 1], h, i) then 1 else 0)
  }

  /** The reading of the last success or failure of `(h, i)`, `before` if there is none. */
  function LastEvent(trace: seq<Step>, h: Host, i: Id, before: Time): Time {
    if trace == [] then before
    else
      var last := trace[|trace| - 1];
      if Wins(last, h, i) || Hits(last, h, i) then last.now else LastEvent(trace[..|trace| - 1], h, i, before)
  }

  lemma EventFollows(b: Board, step: Step, h: Host, i: Id)
    requires !Drops(b, step, h, i)
    ensures var e, x := EntryOf(b.entries, h, i), EntryOf(Apply(b, step).entries, h, i);
      && x.successCount == e.successCount + (if Wins(step, h, i) then 1 else 0)
      && x.lastSeen == if Wins(step, h, i) || Hits(step, h, i) then step.now else e.lastSeen
  {
    match step {
      case Succeed(host, id, t) =>
        EntryOfPut(b.entries, host, id, Rewarded(EntryOf(b.entries, host, id), t, b.cfg.successWeight, b.cfg.scoreCap), h, i);
      case Penalize(host, id, t, policy, cap, override) =>
        EntryOfPut(b.entries, host, id, Penalized(EntryOf(b.entries, host, id), t, policy, cap, override), h, i);
      case Decay => EntryOfDecay(b.entries, b.cfg.decayStep, h, i);
      case PruneBoard(now) => EntryOfPrune(b.entries, now, b.cfg.pruneAfter, h, i);
      case _ =>
    }
  }

  /** While it is kept, an entry has counted exactly its successes, and was last seen at its
      last event. */
  lemma {:induction false} EntryRemembers(b: Board, trace: seq<Step>, h: Host, i: Id)
    requires NeverDropped(b, trace, h, i)
    ensures var e, x := EntryOf(b.entries, h, i), EntryOf(Run(b, trace).entries, h, i);
      && x.successCount == e.successCount + Successes(trace, h, i)
      && x.lastSeen == LastEvent(trace, h, i, e.lastSeen)
  {
    if trace != [] {
      var front, last := trace[..|trace| - 1], trace[|trace| - 1];
      assert trace == front + [last];
      EntryRemembers(b, front, h, i);
      RunSnoc(b, front, last);
      EventFollows(Run(b, front), last, h, i);
    }
  }

  // ---------------------------------------------------------------- what a cooldown keeps away

  lemma {:induction false} CooldownStays(b: Board, trace: seq<Step>, h: Host, i: Id)
    requires SinceSuccess(b, trace, h, i)
    requires forall k :: 0 <= k < |trace| && Hits(trace[k], h, i) ==> trace[k].override.None?
    ensures CooldownOf(Run(b, trace), h, i) >= CooldownOf(b, h, i)
  {
    if trace != [] {
      var front, last := trace[..|trace| - 1], trace[|trace| - 1];
      assert trace == front + [last];
      assert forall k :: 0 <= k < |front| ==> front[k] == trace[k];
      CooldownStays(b, front, h, i);
      RunSnoc(b, front, last);
      CooldownMovesForward(Run(b, front), last, h, i);
    }
  }

  /** From a penalty that sets a cooldown of `d`, and until a success, an override or a drop of
      the entry, no scan before the cooldown is over returns the upstream while another one the
      request may use is not cooling. */
  lemma CooledIsSkipped(b: Board, step: Step, h: Host, i: Id, d: Duration, trace: seq<Step>,
                        tried: set<Id>, at: Time, coin: Selection.Coin)
    requires Hits(step, h, i) && 0 <= step.now && 0 < d
    requires d == if step.override.Some? then step.override.value else step.policy.cooldown
    requires at < step.now + d
    requires var x := Apply(b, step);
      SinceSuccess(x, trace, h, i)
      && (forall k :: 0 <= k < |trace| && Hits(trace[k], h, i) ==> trace[k].override.None?)
      && exists j :: Choices.Warm(Run(x, trace), h, tried, at, j)
    ensures var r := Selection.Scan(Run(Apply(b, step), trace), h, tried, at, coin); r.Picked? && r.up.id != i
  {
    var x := Apply(b, step);
    var after := Run(x, trace);
    CooldownFollows(b, step, h, i);
    CooldownStays(x, trace, h, i);
    assert CooldownOf(after, h, i) >= step.now + d;
    var k := Choices.WarmIsPicked(after, h, tried, at, coin);
  }
}
