/** The persistence tick's prune pass (internal/scoreboard/persist.go:278-323) and the
    traffic it must not disturb: two boards that differ only in dead state answer every
    later lock region alike. */
module Pruning {
  import opened Types
  import opened Selection
  import opened Regions
  import StableSort

  /** An expiry as later readings see it. */
  function Live(until: Time, now: Time): Time {
    if until > now then until else 0
  }

  function LiveIn(cascade: map<Host, Time>, host: Host, now: Time): Time {
    if host in cascade then Live(cascade[host], now) else 0
  }

  function LiveCascade(b: Board, host: Host, now: Time): Time {
    LiveIn(b.cascade, host, now)
  }

  /** A stamp that can still reject a reading at or after `now`. */
  function Recent(b: Board, key: Key, now: Time, window: Duration): Option<Time> {
    if key in b.debounce && now - b.debounce[key] < window then Some(b.debounce[key]) else None
  }

  ghost predicate AlikeEntries(x: Entry, y: Entry, now: Time) {
    x.score == y.score && Live(x.cooldownUntil, now) == Live(y.cooldownUntil, now)
  }

  ghost predicate SameEntry(a: Board, b: Board, now: Time, host: Host, id: Id) {
    AlikeEntries(EntryOf(a.entries, host, id), EntryOf(b.entries, host, id), now)
  }

  /** The boards agree up to counters, last-seen times, expired cooldowns, expired cascades
      and stamps older than the window. */
  ghost predicate Similar(a: Board, b: Board, now: Time, window: Duration) {
    && 0 <= now
    && a.pool == b.pool && a.retryCap == b.retryCap && a.cfg == b.cfg
    && a.rules == b.rules && a.forces == b.forces
    && (forall h, i :: SameEntry(a, b, now, h, i))
    && (forall h :: LiveCascade(a, h, now) == LiveCascade(b, h, now))
    && (forall k :: Recent(a, k, now, window) == Recent(b, k, now, window))
  }

  /** The clock reading a step carries. */
  function When(step: Step): Option<Time> {
    match step
    case CheckCascade(_, now) => Some(now)
    case CheckPin(_, _, now) => Some(now)
    case ScanPool(_, _, now, _) => Some(now)
    case Succeed(_, _, now) => Some(now)
    case Stamp(_, now, _) => Some(now)
    case Penalize(_, _, now, _, _, _) => Some(now)
    case Trip(_, now) => Some(now)
    case EvictPin(_, now) => Some(now)
    case PruneBoard(now) => Some(now)
    case Force(_, _, _, now) => Some(now)
    case _ => None
  }

  /** The clock after the step. The stamp pass works on the reading its `Prune` took before
      the first region, so it may come late. */
  function Advance(now: Time, step: Step): Time {
    if step.PruneStamps? then (if step.now > now then step.now else now)
    else if When(step).Some? then When(step).value
    else now
  }

  /** Readings never run backwards along the trace. */
  predicate Clocked(trace: seq<Step>, now: Time)
    decreases |trace|
  {
    trace == [] || (Advance(now, trace[0]) >= now && Clocked(trace[1..], Advance(now, trace[0])))
  }

  /** The last reading of the trace. */
  function End(trace: seq<Step>, now: Time): Time
    decreases |trace|
  {
    if trace == [] then now else End(trace[1..], Advance(now, trace[0]))
  }

  lemma {:induction false} EndIsLater(trace: seq<Step>, now: Time)
    requires Clocked(trace, now)
    ensures now <= End(trace, now)
    decreases |trace|
  {
    if trace != [] {
      EndIsLater(trace[1..], Advance(now, trace[0]));
    }
  }

  predicate IsPrune(step: Step) { step.PruneBoard? || step.PruneStamps? }

  /** The step reads the clock no earlier than `now` and uses the one debounce window. */
  predicate Lawful(step: Step, now: Time, window: Duration) {
    && Advance(now, step) >= now
    && (step.Stamp? ==> step.window == window)
    && (step.PruneStamps? ==> step.window == window)
  }

  predicate LawfulTrace(trace: seq<Step>, now: Time, window: Duration)
    decreases |trace|
  {
    trace == [] || (Lawful(trace[0], now, window) && LawfulTrace(trace[1..], Advance(now, trace[0]), window))
  }

  /** What the goroutines see: every reply except the prune pass's own. */
  function Replies(b: Board, trace: seq<Step>): seq<Reply>
    decreases |trace|
  {
    if trace == [] then []
    else (if IsPrune(trace[0]) then [] else [ReplyOf(b, trace[0])]) + Replies(Apply(b, trace[0]), trace[1..])
  }

  function Unpruned(trace: seq<Step>): seq<Step> {
    if trace == [] then []
    else (if IsPrune(trace[0]) then [] else [trace[0]]) + Unpruned(trace[1..])
  }

  /** No entry the pass would drop is still cooling. */
  ghost predicate PruneSafe(b: Board, now: Time) {
    forall h, i :: h in b.entries && i in b.entries[h] && Stale(b.entries[h][i], now, b.cfg.pruneAfter) ==>
      b.entries[h][i].cooldownUntil <= now
  }

  ghost predicate PrunesSafe(b: Board, trace: seq<Step>)
    decreases |trace|
  {
    trace == [] ||
    ((trace[0].PruneBoard? ==> PruneSafe(b, trace[0].now)) && PrunesSafe(Apply(b, trace[0]), trace[1..]))
  }

  /** What a pass drops: neutral entries not seen for longer than `PruneAfter`, if that is set,
      and hosts left without entries; cascades that are over; and, with a window, stamps older
      than ten of them. All else it keeps as it is. */
  lemma PassDropsExactly(b: Board, now: Time, window: Duration)
    ensures var x := Apply(b, PruneBoard(now)); var after := b.cfg.pruneAfter;
      && (forall h, i :: h in x.entries && i in x.entries[h] <==>
            && h in b.entries && i in b.entries[h]
            && var e := b.entries[h][i];
               after <= 0 || e.score != 0.0 || e.lastSeen == 0 || now - e.lastSeen <= after)
      && (forall h, i :: h in x.entries && i in x.entries[h] ==> x.entries[h][i] == b.entries[h][i])
      && (forall h :: h in x.entries ==> x.entries[h] != map[])
      && (forall h :: h in x.cascade <==> h in b.cascade && b.cascade[h] > now)
      && (forall h :: h in x.cascade ==> x.cascade[h] == b.cascade[h])
      && x == b.(entries := x.entries, cascade := x.cascade)
    ensures var y := Apply(b, PruneStamps(now, window));
      && (forall k :: k in y.debounce <==>
            k in b.debounce && (window <= 0 || now - b.debounce[k] <= 10 * window))
      && (forall k :: k in y.debounce ==> y.debounce[k] == b.debounce[k])
      && y == b.(debounce := y.debounce)
  {
    forall h, i | h in b.entries && i in b.entries[h] && !Stale(b.entries[h][i], now, b.cfg.pruneAfter)
      ensures h in PruneAll(b.entries, now, b.cfg.pruneAfter) && i in PruneAll(b.entries, now, b.cfg.pruneAfter)[h]
    {
      assert i in PruneHost(b.entries[h], now, b.cfg.pruneAfter);
    }
  }

  // ---------------------------------------------------------------- similar boards scan alike

  ghost predicate AlikeButExpiry(s: seq<Ranked>, t: seq<Ranked>) {
    |s| == |t| && forall i :: 0 <= i < |s| ==> s[i].(untilT := 0) == t[i].(untilT := 0)
  }

  lemma {:induction false} InsertAlike(x: Ranked, y: Ranked, s: seq<Ranked>, t: seq<Ranked>)
    requires AlikeButExpiry(s, t) && x.(untilT := 0) == y.(untilT := 0)
    ensures AlikeButExpiry(StableSort.Insert(Less, x, s), StableSort.Insert(Less, y, t))
  {
    if s != [] {
      assert s[|s| - 1].(untilT := 0) == t[|t| - 1].(untilT := 0);
      InsertAlike(x, y, s[..|s| - 1], t[..|t| - 1]);
    }
  }

  lemma {:induction false} SortAlike(s: seq<Ranked>, t: seq<Ranked>)
    requires AlikeButExpiry(s, t)
    ensures AlikeButExpiry(StableSort.Sort(Less, s), StableSort.Sort(Less, t))
  {
    if s != [] {
      assert s[|s| - 1].(untilT := 0) == t[|t| - 1].(untilT := 0);
      SortAlike(s[..|s| - 1], t[..|t| - 1]);
      InsertAlike(s[|s| - 1], t[|t| - 1],
                  StableSort.Sort(Less, s[..|s| - 1]), StableSort.Sort(Less, t[..|t| - 1]));
    }
  }

  /** Alike lists whose cooled elements are equal split into alike and equal parts. */
  lemma {:induction false} SplitsAlike(s: seq<Ranked>, t: seq<Ranked>)
    requires AlikeButExpiry(s, t)
    requires forall i :: 0 <= i < |s| && s[i].cooled ==> s[i] == t[i]
    ensures AlikeButExpiry(WithCooled(s, false), WithCooled(t, false))
    ensures WithCooled(s, true) == WithCooled(t, true)
  {
    if s != [] {
      assert s[|s| - 1].(untilT := 0) == t[|t| - 1].(untilT := 0);
      SplitsAlike(s[..|s| - 1], t[..|t| - 1]);
    }
  }

  lemma {:induction false} CandidatesAlike(a: Board, b: Board, host: Host, tried: set<Id>, lo: Time, now: Time, window: Duration, n: nat)
    requires Similar(a, b, lo, window) && lo <= now && n <= |a.pool|
    ensures var s, t := Candidates(a, host, tried, now, n), Candidates(b, host, tried, now, n);
      AlikeButExpiry(s, t) && forall i :: 0 <= i < |s| && s[i].cooled ==> s[i] == t[i]
  {
    if n != 0 {
      CandidatesAlike(a, b, host, tried, lo, now, window, n - 1);
      assert SameEntry(a, b, lo, host, a.pool[n - 1].up.id);
    }
  }

  lemma ChoosesAlike(a: Board, b: Board, x: seq<Ranked>, y: seq<Ranked>, cooled: seq<Ranked>, coin: Coin)
    requires a.cfg == b.cfg && AlikeButExpiry(x, y) && (x != [] || cooled != [])
    ensures Choose(a, x, cooled, coin) == Choose(b, y, cooled, coin)
  {
    SortAlike(x, y);
    StableSort.SortPermutes(Less, x);
    StableSort.SortPermutes(Less, y);
    if x != [] {
      var p, q := StableSort.Sort(Less, x), StableSort.Sort(Less, y);
      var d := if Probes(a, |p|, coin) then 1 + coin.pick % (|p| - 1) else 0;
      assert p[d].(untilT := 0) == q[d].(untilT := 0);
    }
  }

  lemma ScansAlike(a: Board, b: Board, host: Host, tried: set<Id>, lo: Time, now: Time, window: Duration, coin: Coin)
    requires Similar(a, b, lo, window) && lo <= now
    ensures Scan(a, host, tried, now, coin) == Scan(b, host, tried, now, coin)
  {
    var s := Candidates(a, host, tried, now, |a.pool|);
    var t := Candidates(b, host, tried, now, |b.pool|);
    CandidatesAlike(a, b, host, tried, lo, now, window, |a.pool|);
    SplitsAlike(s, t);
    if s != [] {
      WithCooledSplits(s);
      ChoosesAlike(a, b, WithCooled(s, false), WithCooled(t, false), WithCooled(s, true), coin);
    }
  }

  // ---------------------------------------------------------------- steps keep boards similar

  lemma CascadeChecksAlike(a: Board, b: Board, host: Host, now: Time, t: Time)
    requires LiveCascade(a, host, now) == LiveCascade(b, host, now) && 0 <= now <= t
    ensures CascadeActive(a, host, t) == CascadeActive(b, host, t)
  {
  }

  lemma RepliesAlike(a: Board, b: Board, step: Step, now: Time, window: Duration)
    requires Similar(a, b, now, window) && Lawful(step, now, window) && !IsPrune(step)
    ensures ReplyOf(a, step) == ReplyOf(b, step)
  {
    match step {
      case CheckCascade(host, t) => CascadeChecksAlike(a, b, host, now, t);
      case ScanPool(host, tried, t, coin) => ScansAlike(a, b, host, tried, now, t, window, coin);
      case Stamp(key, t, w) => assert Recent(a, key, now, window) == Recent(b, key, now, window);
      case _ =>
    }
  }

  lemma SimilarLater(a: Board, b: Board, now: Time, later: Time, window: Duration)
    requires Similar(a, b, now, window) && now <= later
    ensures Similar(a, b, later, window)
  {
    forall h, i ensures SameEntry(a, b, later, h, i) {
      assert SameEntry(a, b, now, h, i);
    }
    forall h ensures LiveCascade(a, h, later) == LiveCascade(b, h, later) {
      assert LiveCascade(a, h, now) == LiveCascade(b, h, now);
    }
    forall k ensures Recent(a, k, later, window) == Recent(b, k, later, window) {
      assert Recent(a, k, now, window) == Recent(b, k, now, window);
    }
  }

  lemma AlikeLater(x: Entry, y: Entry, now: Time, later: Time)
    requires 0 <= now <= later && AlikeEntries(x, y, now)
    ensures AlikeEntries(x, y, later)
  {
  }

  lemma RewardedAlike(x: Entry, y: Entry, now: Time, weight: real, cap: real)
    requires x.score == y.score
    ensures AlikeEntries(Rewarded(x, now, weight, cap), Rewarded(y, now, weight, cap), now)
  {
  }

  lemma PenalizedAlike(x: Entry, y: Entry, now: Time, t: Time, policy: Policy, cap: real, override: Option<Duration>)
    requires 0 <= now <= t && AlikeEntries(x, y, now)
    ensures AlikeEntries(Penalized(x, t, policy, cap, override), Penalized(y, t, policy, cap, override), t)
  {
  }

  lemma EntryStepAlike(a: Board, b: Board, step: Step, now: Time, h: Host, i: Id)
    requires 0 <= now <= Advance(now, step) && a.cfg == b.cfg && !step.PruneBoard?
    requires SameEntry(a, b, now, h, i)
    ensures SameEntry(Apply(a, step), Apply(b, step), Advance(now, step), h, i)
  {
    EntriesAfterAlike(a, b, step, now, h, i);
  }

  lemma EntriesAfterAlike(a: Board, b: Board, step: Step, now: Time, h: Host, i: Id)
    requires 0 <= now <= Advance(now, step) && a.cfg == b.cfg && !step.PruneBoard?
    requires SameEntry(a, b, now, h, i)
    ensures AlikeEntries(EntryOf(EntriesAfter(a, step), h, i), EntryOf(EntriesAfter(b, step), h, i), Advance(now, step))
  {
    if step.Succeed? {
      SucceedAlike(a, b, step, h, i, now);
    } else if step.Penalize? {
      PenalizeAlike(a, b, step, h, i, now);
    } else if step.Decay? {
      DecayAlike(a.entries, b.entries, a.cfg.decayStep, h, i, now);
    } else {
      AlikeLater(EntryOf(a.entries, h, i), EntryOf(b.entries, h, i), now, Advance(now, step));
      OthersReplace(a, b, step, h, i);
    }
  }

  /** The remaining regions leave an entry alone or set it to the same on both boards. */
  lemma OthersReplace(a: Board, b: Board, step: Step, h: Host, i: Id)
    requires !step.Succeed? && !step.Penalize? && !step.Decay? && !step.PruneBoard?
    ensures var x, y := EntryOf(EntriesAfter(a, step), h, i), EntryOf(EntriesAfter(b, step), h, i);
      x == y || (x == EntryOf(a.entries, h, i) && y == EntryOf(b.entries, h, i))
  {
  }

  lemma DecayAlike(x: Entries, y: Entries, step: real, h: Host, i: Id, now: Time)
    requires AlikeEntries(EntryOf(x, h, i), EntryOf(y, h, i), now)
    ensures AlikeEntries(EntryOf(DecayAll(x, step), h, i), EntryOf(DecayAll(y, step), h, i), now)
  {
    EntryOfDecay(x, step, h, i);
    EntryOfDecay(y, step, h, i);
  }

  lemma SucceedAlike(a: Board, b: Board, step: Step, h: Host, i: Id, now: Time)
    requires step.Succeed? && a.cfg == b.cfg && 0 <= now <= step.now && SameEntry(a, b, now, h, i)
    ensures AlikeEntries(EntryOf(EntriesAfter(a, step), h, i), EntryOf(EntriesAfter(b, step), h, i), step.now)
  {
    var x, y := EntryOf(a.entries, step.host, step.id), EntryOf(b.entries, step.host, step.id);
    var w, c := a.cfg.successWeight, a.cfg.scoreCap;
    EntryOfPut(a.entries, step.host, step.id, Rewarded(x, step.now, w, c), h, i);
    EntryOfPut(b.entries, step.host, step.id, Rewarded(y, step.now, w, c), h, i);
    if h == step.host && i == step.id {
      RewardedAlike(x, y, step.now, w, c);
    }
  }

  lemma PenalizeAlike(a: Board, b: Board, step: Step, h: Host, i: Id, now: Time)
    requires step.Penalize? && 0 <= now <= step.now && SameEntry(a, b, now, h, i)
    ensures AlikeEntries(EntryOf(EntriesAfter(a, step), h, i), EntryOf(EntriesAfter(b, step), h, i), step.now)
  {
    var x, y := EntryOf(a.entries, step.host, step.id), EntryOf(b.entries, step.host, step.id);
    EntryOfPut(a.entries, step.host, step.id, Penalized(x, step.now, step.policy, step.cap, step.override), h, i);
    EntryOfPut(b.entries, step.host, step.id, Penalized(y, step.now, step.policy, step.cap, step.override), h, i);
    if h == step.host && i == step.id {
      PenalizedAlike(x, y, now, step.now, step.policy, step.cap, step.override);
    }
  }

  lemma CascadeStepAlike(a: Board, b: Board, step: Step, now: Time, h: Host)
    requires 0 <= now <= Advance(now, step) && a.cfg == b.cfg && !step.PruneBoard?
    requires LiveCascade(a, h, now) == LiveCascade(b, h, now)
    ensures LiveCascade(Apply(a, step), h, Advance(now, step)) == LiveCascade(Apply(b, step), h, Advance(now, step))
  {
    CascadeAfterAlike(a, b, step, now, h);
  }

  lemma CascadeAfterAlike(a: Board, b: Board, step: Step, now: Time, h: Host)
    requires 0 <= now <= Advance(now, step) && a.cfg == b.cfg && !step.PruneBoard?
    requires LiveIn(a.cascade, h, now) == LiveIn(b.cascade, h, now)
    ensures LiveIn(CascadeAfter(a, step), h, Advance(now, step)) == LiveIn(CascadeAfter(b, step), h, Advance(now, step))
  {
  }

  lemma StampStepAlike(a: Board, b: Board, step: Step, now: Time, window: Duration, k: Key)
    requires Lawful(step, now, window) && !step.PruneStamps?
    requires Recent(a, k, now, window) == Recent(b, k, now, window)
    ensures Recent(Apply(a, step), k, Advance(now, step), window) == Recent(Apply(b, step), k, Advance(now, step), window)
  {
  }

  lemma StepsAlike(a: Board, b: Board, step: Step, now: Time, window: Duration)
    requires Similar(a, b, now, window) && Lawful(step, now, window) && !IsPrune(step)
    ensures Similar(Apply(a, step), Apply(b, step), Advance(now, step), window)
  {
    var x, y, t := Apply(a, step), Apply(b, step), Advance(now, step);
    forall h, i ensures SameEntry(x, y, t, h, i) {
      assert SameEntry(a, b, now, h, i);
      EntryStepAlike(a, b, step, now, h, i);
    }
    forall h ensures LiveCascade(x, h, t) == LiveCascade(y, h, t) {
      CascadeStepAlike(a, b, step, now, h);
    }
    forall k ensures Recent(x, k, t, window) == Recent(y, k, t, window) {
      StampStepAlike(a, b, step, now, window, k);
    }
    OtherFieldsAlike(a, b, step);
  }

  lemma OtherFieldsAlike(a: Board, b: Board, step: Step)
    requires a.pool == b.pool && a.retryCap == b.retryCap && a.cfg == b.cfg && a.rules == b.rules && a.forces == b.forces
    ensures var x, y := Apply(a, step), Apply(b, step);
      x.pool == y.pool && x.retryCap == y.retryCap && x.cfg == y.cfg && x.rules == y.rules && x.forces == y.forces
  {
  }

  /** A safe pass on one side keeps the boards similar. */
  lemma PruneKeepsSimilar(a: Board, b: Board, step: Step, now: Time, window: Duration)
    requires Similar(a, b, now, window) && Lawful(step, now, window) && IsPrune(step)
    requires step.PruneBoard? ==> PruneSafe(b, step.now)
    ensures Similar(a, Apply(b, step), Advance(now, step), window)
  {
    var y, t := Apply(b, step), Advance(now, step);
    SimilarLater(a, b, now, t, window);
    forall h, i ensures SameEntry(a, y, t, h, i) {
      assert SameEntry(a, b, t, h, i);
      EntryOfPrune(b.entries, t, b.cfg.pruneAfter, h, i);
    }
    forall h ensures LiveCascade(a, h, t) == LiveCascade(y, h, t) {
      assert LiveCascade(a, h, t) == LiveCascade(b, h, t);
    }
    forall k ensures Recent(a, k, t, window) == Recent(y, k, t, window) {
      assert Recent(a, k, t, window) == Recent(b, k, t, window);
    }
  }

  // ---------------------------------------------------------------- whole runs

  lemma {:induction false} SimilarRunsAnswerAlike(a: Board, b: Board, trace: seq<Step>, now: Time, window: Duration)
    requires Similar(a, b, now, window)
    requires LawfulTrace(trace, now, window)
    requires PrunesSafe(b, trace)
    ensures Replies(a, Unpruned(trace)) == Replies(b, trace)
    decreases |trace|
  {
    if trace != [] {
      var step, later := trace[0], Advance(now, trace[0]);
      if IsPrune(step) {
        PruneKeepsSimilar(a, b, step, now, window);
        SimilarRunsAnswerAlike(a, Apply(b, step), trace[1..], later, window);
        assert Unpruned(trace) == Unpruned(trace[1..]);
      } else {
        RepliesAlike(a, b, step, now, window);
        StepsAlike(a, b, step, now, window);
        SimilarRunsAnswerAlike(Apply(a, step), Apply(b, step), trace[1..], later, window);
        assert Unpruned(trace)[1..] == Unpruned(trace[1..]);
      }
    }
  }

  /** Removing every prune pass from a run changes no reply of any other region. */
  lemma SafePrunesAreInvisible(b: Board, trace: seq<Step>, now: Time, window: Duration)
    requires 0 <= now && LawfulTrace(trace, now, window)
    requires PrunesSafe(b, trace)
    ensures Replies(b, Unpruned(trace)) == Replies(b, trace)
  {
    SimilarRunsAnswerAlike(b, b, trace, now, window);
  }

  // ---------------------------------------------------------------- why prunes are safe

  /** No cooldown outlives `after` counted from the entry's last event. */
  ghost predicate Bounded(entries: Entries, now: Time, after: Duration) {
    forall h, i :: h in entries && i in entries[h] ==>
      entries[h][i].cooldownUntil <= entries[h][i].lastSeen + after && entries[h][i].lastSeen <= now
  }

  /** The step's cooldowns fit in `after`, and it leaves `PruneAfter` alone. */
  ghost predicate Short(step: Step, now: Time, after: Duration) {
    && (step.Penalize? ==>
          && step.policy.cooldown <= after
          && (step.override.Some? ==> step.override.value <= after))
    && (step.Retune? ==> step.cfg.pruneAfter == after)
    && (step.Load? ==> Bounded(LoadHosts(step.hosts), now, after))
  }

  ghost predicate ShortTrace(trace: seq<Step>, now: Time, after: Duration)
    decreases |trace|
  {
    trace == [] || (Short(trace[0], now, after) && ShortTrace(trace[1..], Advance(now, trace[0]), after))
  }

  lemma StepKeepsBounded(b: Board, step: Step, now: Time, after: Duration)
    requires 0 <= now && 0 <= after && Advance(now, step) >= now
    requires Bounded(b.entries, now, after) && Short(step, now, after)
    ensures Bounded(Apply(b, step).entries, Advance(now, step), after)
  {
    var x: Entries := Apply(b, step).entries;
    var t := Advance(now, step);
    forall h, i | h in x && i in x[h]
      ensures x[h][i].cooldownUntil <= x[h][i].lastSeen + after && x[h][i].lastSeen <= t
    {
      if h in b.entries && i in b.entries[h] {
        assert b.entries[h][i].cooldownUntil <= b.entries[h][i].lastSeen + after;
      }
    }
  }

  lemma {:induction false} ShortCooldownsMakePrunesSafe(b: Board, trace: seq<Step>, now: Time, window: Duration, after: Duration)
    requires 0 <= now && 0 <= after == b.cfg.pruneAfter
    requires LawfulTrace(trace, now, window) && ShortTrace(trace, now, after)
    requires Bounded(b.entries, now, after)
    ensures PrunesSafe(b, trace)
    decreases |trace|
  {
    if trace != [] {
      StepKeepsBounded(b, trace[0], now, after);
      ShortCooldownsMakePrunesSafe(Apply(b, trace[0]), trace[1..], Advance(now, trace[0]), window, after);
    }
  }

  /** From a fresh scoreboard, with a clock that never runs backwards, one debounce window
      and no cooldown longer than `PruneAfter`, the prune pass is invisible. */
  lemma PruningIsInvisible(b: Board, trace: seq<Step>, now: Time, window: Duration)
    requires 0 <= now && 0 <= b.cfg.pruneAfter
    requires b.entries == map[]
    requires LawfulTrace(trace, now, window) && ShortTrace(trace, now, b.cfg.pruneAfter)
    ensures Replies(b, Unpruned(trace)) == Replies(b, trace)
  {
    ShortCooldownsMakePrunesSafe(b, trace, now, window, b.cfg.pruneAfter);
    SafePrunesAreInvisible(b, trace, now, window);
  }

  // ---------------------------------------------------------------- exactly when a pass is invisible

  predicate NoPrunes(trace: seq<Step>) {
    forall k :: 0 <= k < |trace| ==> !IsPrune(trace[k])
  }

  /** No later traffic can tell the pruned board from the unpruned one. */
  ghost predicate PruneInvisible(b: Board, now: Time, window: Duration) {
    forall trace :: LawfulTrace(trace, now, window) && NoPrunes(trace) ==>
      Replies(b, trace) == Replies(Apply(b, PruneBoard(now)), trace)
  }

  lemma {:induction false} NothingRemoved(trace: seq<Step>)
    requires NoPrunes(trace)
    ensures Unpruned(trace) == trace
  {
    if trace != [] {
      NoPrunesLater(trace);
      NothingRemoved(trace[1..]);
      assert trace == [trace[0]] + trace[1..];
    }
  }

  lemma NoPrunesLater(trace: seq<Step>)
    requires NoPrunes(trace) && trace != []
    ensures !IsPrune(trace[0]) && NoPrunes(trace[1..])
  {
    assert forall k :: 0 <= k < |trace| - 1 ==> trace[1..][k] == trace[k + 1];
  }

  lemma {:induction false} NoPrunesAreSafe(b: Board, trace: seq<Step>)
    requires NoPrunes(trace)
    ensures PrunesSafe(b, trace)
    decreases |trace|
  {
    if trace != [] {
      NoPrunesLater(trace);
      NoPrunesAreSafe(Apply(b, trace[0]), trace[1..]);
    }
  }

  /** Four regions that tell a board apart from its pruned copy when `(host, id)` was dropped
      while cooling: make a rival the only other candidate, rank it below zero, and scan. */
  function Probe(b: Board, now: Time, host: Host, id: Id): seq<Step> {
    var rival := id + "'";
    var score := EntryOf(b.entries, host, rival).score;
    var penalty := if score > 0.0 then score + 2.0 else 2.0;
    [SwapPool([PoolEntry(Upstream(id, ""), 0), PoolEntry(Upstream(rival, ""), 0)], 1),
     Reroute([]),
     Penalize(host, rival, now, Policy(penalty, 0), 1.0, Some(0)),
     ScanPool(host, {}, now, Coin(b.cfg.probeChance, 0, 0))]
  }

  /** The board those regions leave for the scan. */
  function Probed(b: Board, trace: seq<Step>): Board
    requires |trace| == 4
  {
    Apply(Apply(Apply(b, trace[0]), trace[1]), trace[2])
  }

  lemma ProbeReplies(b: Board, trace: seq<Step>)
    requires |trace| == 4 && NoPrunes(trace)
    ensures |Replies(b, trace)| == 4
    ensures Replies(b, trace)[3] == ReplyOf(Probed(b, trace), trace[3])
  {
    var b1 := Apply(b, trace[0]);
    var b2 := Apply(b1, trace[1]);
    var b3 := Apply(b2, trace[2]);
    assert forall k :: 0 <= k < 4 ==> !IsPrune(trace[k]);
    assert trace[1..][1..] == trace[2..] && trace[2..][1..] == trace[3..];
    assert Replies(b3, trace[3..]) == [ReplyOf(b3, trace[3])];
    assert Replies(b2, trace[2..]) == [ReplyOf(b2, trace[2])] + Replies(b3, trace[3..]);
    assert Replies(b1, trace[1..]) == [ReplyOf(b1, trace[1])] + Replies(b2, trace[2..]);
  }

  lemma CoolingLosesToRival(b: Board, now: Time, host: Host, id: Id, rival: Id, coin: Coin)
    requires b.pool == [PoolEntry(Upstream(id, ""), 0), PoolEntry(Upstream(rival, ""), 0)] && b.rules == []
    requires Cooling(EntryOf(b.entries, host, id), now) && !Cooling(EntryOf(b.entries, host, rival), now)
    requires !(coin.u < b.cfg.probeChance)
    ensures Scan(b, host, {}, now, coin) == Picked(Upstream(rival, ""))
  {
    assert Eligible(b, host, {}, now, 1);
    var k := ScanBest(b, host, {}, now, coin);
    assert k == 1;
  }

  lemma BlankBeatsRival(b: Board, now: Time, host: Host, id: Id, rival: Id, coin: Coin)
    requires b.pool == [PoolEntry(Upstream(id, ""), 0), PoolEntry(Upstream(rival, ""), 0)] && b.rules == []
    requires EntryOf(b.entries, host, id) == BLANK && EntryOf(b.entries, host, rival).score < 0.0
    requires !(coin.u < b.cfg.probeChance)
    ensures Scan(b, host, {}, now, coin) == Picked(Upstream(id, ""))
  {
    assert Eligible(b, host, {}, now, 0);
    var k := ScanBest(b, host, {}, now, coin);
    assert k == 0;
  }

  lemma ProbedEntries(b: Board, now: Time, host: Host, id: Id, a: Board)
    requires a.cfg == b.cfg
    requires EntryOf(a.entries, host, id + "'") == EntryOf(b.entries, host, id + "'")
      || EntryOf(a.entries, host, id + "'") == BLANK
    ensures var x := Probed(a, Probe(b, now, host, id));
      && x.rules == [] && x.cfg == b.cfg
      && x.pool == [PoolEntry(Upstream(id, ""), 0), PoolEntry(Upstream(id + "'", ""), 0)]
      && EntryOf(x.entries, host, id) == EntryOf(a.entries, host, id)
      && EntryOf(x.entries, host, id + "'").score == -1.0
      && EntryOf(x.entries, host, id + "'").cooldownUntil == 0
  {
    var trace := Probe(b, now, host, id);
    var rival := id + "'";
    assert |rival| != |id|;
    var y := Apply(Apply(a, trace[0]), trace[1]);
    assert y.entries == a.entries;
    var e := Penalized(EntryOf(a.entries, host, rival), now, trace[2].policy, 1.0, Some(0));
    EntryOfPut(a.entries, host, rival, e, host, id);
    EntryOfPut(a.entries, host, rival, e, host, rival);
  }

  lemma ProbeIsLawful(b: Board, now: Time, window: Duration, host: Host, id: Id)
    ensures LawfulTrace(Probe(b, now, host, id), now, window) && NoPrunes(Probe(b, now, host, id))
  {
    var trace := Probe(b, now, host, id);
    assert trace[1..][1..] == trace[2..] && trace[2..][1..] == trace[3..];
    assert LawfulTrace(trace[3..], now, window);
    assert LawfulTrace(trace[2..], now, window);
  }

  lemma UnsafePruneIsVisible(b: Board, now: Time, window: Duration, host: Host, id: Id)
    requires 0 <= now && host in b.entries && id in b.entries[host]
    requires Stale(b.entries[host][id], now, b.cfg.pruneAfter) && b.entries[host][id].cooldownUntil > now
    ensures var trace := Probe(b, now, host, id);
      && LawfulTrace(trace, now, window) && NoPrunes(trace)
      && Replies(b, trace) != Replies(Apply(b, PruneBoard(now)), trace)
  {
    var trace := Probe(b, now, host, id);
    var p := Apply(b, PruneBoard(now));
    var coin := Coin(b.cfg.probeChance, 0, 0);
    ProbeIsLawful(b, now, window, host, id);
    EntryOfPrune(b.entries, now, b.cfg.pruneAfter, host, id);
    EntryOfPrune(b.entries, now, b.cfg.pruneAfter, host, id + "'");
    ProbedEntries(b, now, host, id, b);
    ProbedEntries(b, now, host, id, p);
    CoolingLosesToRival(Probed(b, trace), now, host, id, id + "'", coin);
    BlankBeatsRival(Probed(p, trace), now, host, id, id + "'", coin);
    DifferentScansTell(b, p, now, host, id);
  }

  lemma DifferentScansTell(b: Board, p: Board, now: Time, host: Host, id: Id)
    requires var trace := Probe(b, now, host, id);
      Scan(Probed(b, trace), host, {}, now, trace[3].coin) == Picked(Upstream(id + "'", ""))
      && Scan(Probed(p, trace), host, {}, now, trace[3].coin) == Picked(Upstream(id, ""))
    requires NoPrunes(Probe(b, now, host, id))
    ensures Replies(b, Probe(b, now, host, id)) != Replies(p, Probe(b, now, host, id))
  {
    var trace := Probe(b, now, host, id);
    ProbeReplies(b, trace);
    ProbeReplies(p, trace);
    assert Replies(b, trace)[3] == Choice(Picked(Upstream(id + "'", "")));
    assert Replies(p, trace)[3] == Choice(Picked(Upstream(id, "")));
    assert |id + "'"| != |id|;
  }

  /** A prune pass is invisible to all later traffic exactly when none of the entries it
      drops is cooling. */
  lemma PruneInvisibleIffSafe(b: Board, now: Time, window: Duration)
    requires 0 <= now
    ensures PruneInvisible(b, now, window) <==> PruneSafe(b, now)
  {
    if PruneSafe(b, now) {
      var p := Apply(b, PruneBoard(now));
      PruneKeepsSimilar(b, b, PruneBoard(now), now, window);
      forall trace | LawfulTrace(trace, now, window) && NoPrunes(trace)
        ensures Replies(b, trace) == Replies(p, trace)
      {
        NothingRemoved(trace);
        NoPrunesAreSafe(p, trace);
        SimilarRunsAnswerAlike(b, p, trace, now, window);
      }
    } else {
      var h, i :| h in b.entries && i in b.entries[h] && Stale(b.entries[h][i], now, b.cfg.pruneAfter)
        && b.entries[h][i].cooldownUntil > now;
      UnsafePruneIsVisible(b, now, window, h, i);
    }
  }

  // ---------------------------------------------------------------- the whole pass

  /** A run around one `Prune`: its two regions, both on the reading `now`, with others'
      regions between and after them. */
  function PassRun(now: Time, window: Duration, between: seq<Step>, after: seq<Step>): seq<Step> {
    [PruneBoard(now)] + (between + ([PruneStamps(now, window)] + after))
  }

  /** Nobody but the pass itself can tell that it ran. */
  ghost predicate PassInvisible(b: Board, now: Time, window: Duration) {
    forall between, after ::
      LawfulTrace(PassRun(now, window, between, after), now, window) && NoPrunes(between) && NoPrunes(after) ==>
      Replies(b, PassRun(now, window, between, after)) == Replies(b, between + after)
  }

  lemma {:induction false} UnprunedConcat(xs: seq<Step>, ys: seq<Step>)
    ensures Unpruned(xs + ys) == Unpruned(xs) + Unpruned(ys)
  {
    if xs == [] {
      assert xs + ys == ys;
    } else {
      assert (xs + ys)[1..] == xs[1..] + ys;
      UnprunedConcat(xs[1..], ys);
    }
  }

  lemma {:induction false} StampPrunesAreSafe(b: Board, trace: seq<Step>)
    requires forall k :: 0 <= k < |trace| ==> !trace[k].PruneBoard?
    ensures PrunesSafe(b, trace)
    decreases |trace|
  {
    if trace != [] {
      assert !trace[0].PruneBoard?;
      assert forall k :: 0 <= k < |trace| - 1 ==> trace[1..][k] == trace[k + 1];
      StampPrunesAreSafe(Apply(b, trace[0]), trace[1..]);
    }
  }

  lemma SafePassIsInvisible(b: Board, now: Time, window: Duration, between: seq<Step>, after: seq<Step>)
    requires 0 <= now && PruneSafe(b, now)
    requires LawfulTrace(PassRun(now, window, between, after), now, window) && NoPrunes(between) && NoPrunes(after)
    ensures Replies(b, PassRun(now, window, between, after)) == Replies(b, between + after)
  {
    var run := PassRun(now, window, between, after);
    var rest := between + ([PruneStamps(now, window)] + after);
    assert run[1..] == rest;
    forall k | 0 <= k < |rest| ensures !rest[k].PruneBoard? {
      assert k < |between| ==> !IsPrune(between[k]);
      assert k > |between| ==> !IsPrune(after[k - |between| - 1]);
    }
    StampPrunesAreSafe(Apply(b, run[0]), rest);
    SafePrunesAreInvisible(b, run, now, window);
    PassUnpruned(now, window, between, after);
  }

  lemma PassUnpruned(now: Time, window: Duration, between: seq<Step>, after: seq<Step>)
    requires NoPrunes(between) && NoPrunes(after)
    ensures Unpruned(PassRun(now, window, between, after)) == between + after
  {
    var stamps := [PruneStamps(now, window)] + after;
    NothingRemoved(between);
    NothingRemoved(after);
    PruneFirst(PruneStamps(now, window), after);
    PruneFirst(PruneBoard(now), between + stamps);
    UnprunedConcat(between, stamps);
  }

  lemma PruneFirst(prune: Step, rest: seq<Step>)
    requires IsPrune(prune)
    ensures Unpruned([prune] + rest) == Unpruned(rest)
  {
    assert ([prune] + rest)[1..] == rest;
  }

  lemma {:induction false} StampPassIsSilent(b: Board, trace: seq<Step>, now: Time, at: Time, window: Duration)
    requires LawfulTrace(trace, now, window)
    ensures LawfulTrace(trace + [PruneStamps(at, window)], now, window)
    ensures Replies(b, trace + [PruneStamps(at, window)]) == Replies(b, trace)
    decreases |trace|
  {
    var longer := trace + [PruneStamps(at, window)];
    if trace == [] {
      assert longer == [PruneStamps(at, window)] && longer[1..] == [];
    } else {
      assert longer[1..] == trace[1..] + [PruneStamps(at, window)];
      StampPassIsSilent(Apply(b, trace[0]), trace[1..], Advance(now, trace[0]), at, window);
    }
  }

  lemma UnsafePassIsVisible(b: Board, now: Time, window: Duration, h: Host, i: Id)
    requires 0 <= now && h in b.entries && i in b.entries[h]
    requires Stale(b.entries[h][i], now, b.cfg.pruneAfter) && b.entries[h][i].cooldownUntil > now
    ensures var probe := Probe(b, now, h, i);
      && LawfulTrace(PassRun(now, window, probe, []), now, window) && NoPrunes(probe)
      && Replies(b, PassRun(now, window, probe, [])) != Replies(b, probe + [])
  {
    var probe := Probe(b, now, h, i);
    var run := PassRun(now, window, probe, []);
    UnsafePruneIsVisible(b, now, window, h, i);
    StampPassIsSilent(Apply(b, PruneBoard(now)), probe, now, now, window);
    assert run[1..] == probe + [PruneStamps(now, window)];
    assert probe + [] == probe;
  }

  /** A whole `Prune`, racing with anything, is invisible exactly when none of the entries its
      first region drops is cooling; the stamps its second region drops never matter. */
  lemma PassInvisibleIffSafe(b: Board, now: Time, window: Duration)
    requires 0 <= now
    ensures PassInvisible(b, now, window) <==> PruneSafe(b, now)
  {
    if PruneSafe(b, now) {
      forall between, after | LawfulTrace(PassRun(now, window, between, after), now, window) && NoPrunes(between) && NoPrunes(after)
        ensures Replies(b, PassRun(now, window, between, after)) == Replies(b, between + after)
      {
        SafePassIsInvisible(b, now, window, between, after);
      }
    } else {
      var h, i :| h in b.entries && i in b.entries[h] && Stale(b.entries[h][i], now, b.cfg.pruneAfter)
        && b.entries[h][i].cooldownUntil > now;
      UnsafePassIsVisible(b, now, window, h, i);
      assert NoPrunes([]);
    }
  }

  /** The guard can fail in production: a Retry-After longer than `PruneAfter` (here 100 hours
      against 24) outlives the entry once decay has returned its score to zero. */
  lemma RetryAfterOutlivesPrune(pool: seq<PoolEntry>, cfg: Config, window: Duration)
    requires cfg.pruneAfter == 24 * HOUR && cfg.decayStep == 5.0
    ensures var b := Run(Fresh(pool, 1, cfg, []),
                         [Penalize("h", "a", HOUR, Policy(4.0, 5 * MINUTE), 20.0, Some(100 * HOUR)), Decay]);
      !PruneSafe(b, 30 * HOUR) && !PassInvisible(b, 30 * HOUR, window)
  {
    var b0 := Fresh(pool, 1, cfg, []);
    var hit := Penalize("h", "a", HOUR, Policy(4.0, 5 * MINUTE), 20.0, Some(100 * HOUR));
    var b1 := Apply(b0, hit);
    var b2 := Apply(b1, Decay);
    assert [hit, Decay][1..] == [Decay];
    assert Run(b0, [hit, Decay]) == Run(b1, [Decay]) == b2;
    assert b1.entries["h"]["a"] == Entry(-4.0, 101 * HOUR, HOUR, 0, 1);
    assert b2.entries["h"]["a"] == Entry(0.0, 101 * HOUR, HOUR, 0, 1);
    PassInvisibleIffSafe(b2, 30 * HOUR, window);
  }
}
