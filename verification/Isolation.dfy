/** Hosts do not interfere: what one host's requests see does not depend on the traffic of
    any other host (internal/scoreboard keys every table by host first). */
module Isolation {
  import opened Types
  import opened Selection
  import opened Regions
  import StableSort

  /** The host a region is addressed to; none for the regions that concern every host. */
  function Addressee(step: Step): Option<Host> {
    match step
    case CheckCascade(host, _) => Some(host)
    case CheckPin(host, _, _) => Some(host)
    case ScanPool(host, _, _, _) => Some(host)
    case Succeed(host, _, _) => Some(host)
    case Stamp(key, _, _) => Some(key.host)
    case Penalize(host, _, _, _, _, _) => Some(host)
    case Trip(host, _) => Some(host)
    case EvictPin(host, _) => Some(host)
    case ForgetBoard(host) => Some(host)
    case ForgetStamps(host) => Some(host)
    case Force(host, _, _, _) => Some(host)
    case ClearForce(host) => Some(host)
    case _ => None
  }

  predicate Foreign(step: Step, h: Host) {
    Addressee(step).Some? && Addressee(step).value != h
  }

  /** The run without the regions addressed to other hosts. */
  function Own(trace: seq<Step>, h: Host): seq<Step> {
    if trace == [] then []
    else (if Foreign(trace[0], h) then [] else [trace[0]]) + Own(trace[1..], h)
  }

  /** What the goroutines working for `h` are told. */
  function RepliesTo(b: Board, trace: seq<Step>, h: Host): seq<Reply>
    decreases |trace|
  {
    if trace == [] then []
    else
      (if Addressee(trace[0]) == Some(h) then [ReplyOf(b, trace[0])] else [])
      + RepliesTo(Apply(b, trace[0]), trace[1..], h)
  }

  function At<V>(m: map<Host, V>, h: Host): Option<V> { if h in m then Some(m[h]) else None }

  function StampAt(stamps: map<Key, Time>, k: Key): Option<Time> { if k in stamps then Some(stamps[k]) else None }

  /** What a scan reads besides the host's entries. */
  ghost predicate SameRouting(a: Board, b: Board) {
    a.pool == b.pool && a.cfg == b.cfg && a.rules == b.rules
  }

  ghost predicate SameSettings(a: Board, b: Board) {
    SameRouting(a, b) && a.retryCap == b.retryCap
  }

  ghost predicate SameStamps(a: map<Key, Time>, b: map<Key, Time>, h: Host) {
    forall k: Key :: k.host == h ==> StampAt(a, k) == StampAt(b, k)
  }

  /** The boards agree on the settings and on everything stored for `h`. */
  ghost predicate SameFor(a: Board, b: Board, h: Host) {
    && SameSettings(a, b)
    && At(a.entries, h) == At(b.entries, h)
    && At(a.cascade, h) == At(b.cascade, h)
    && At(a.forces, h) == At(b.forces, h)
    && SameStamps(a.debounce, b.debounce, h)
  }

  lemma {:induction false} SameCandidates(a: Board, b: Board, h: Host, tried: set<Id>, now: Time, n: nat)
    requires SameRouting(a, b) && At(a.entries, h) == At(b.entries, h) && n <= |a.pool|
    ensures Candidates(a, h, tried, now, n) == Candidates(b, h, tried, now, n)
  {
    if n != 0 {
      SameCandidates(a, b, h, tried, now, n - 1);
      EntryAt(a.entries, b.entries, h, a.pool[n - 1].up.id);
    }
  }

  lemma EntryAt(x: Entries, y: Entries, h: Host, i: Id)
    requires At(x, h) == At(y, h)
    ensures EntryOf(x, h, i) == EntryOf(y, h, i)
  {
  }

  lemma SameScan(a: Board, b: Board, h: Host, tried: set<Id>, now: Time, coin: Coin)
    requires SameRouting(a, b) && At(a.entries, h) == At(b.entries, h)
    ensures Scan(a, h, tried, now, coin) == Scan(b, h, tried, now, coin)
  {
    SameCandidates(a, b, h, tried, now, |a.pool|);
    WithCooledSplits(Candidates(a, h, tried, now, |a.pool|));
  }

  lemma SamePin(a: Board, b: Board, h: Host, tried: set<Id>, now: Time)
    requires a.pool == b.pool && At(a.forces, h) == At(b.forces, h)
    ensures PinFor(a, h, tried, now) == PinFor(b, h, tried, now)
  {
  }

  lemma SameDebounce(a: Board, b: Board, key: Key, now: Time, window: Duration)
    requires StampAt(a.debounce, key) == StampAt(b.debounce, key)
    ensures Accepts(a, key, now, window) == Accepts(b, key, now, window)
  {
  }

  lemma SameCascade(a: Board, b: Board, h: Host, now: Time)
    requires At(a.cascade, h) == At(b.cascade, h)
    ensures CascadeActive(a, h, now) == CascadeActive(b, h, now)
  {
  }

  lemma SameReply(a: Board, b: Board, step: Step, h: Host)
    requires SameFor(a, b, h) && Addressee(step) == Some(h)
    ensures ReplyOf(a, step) == ReplyOf(b, step)
  {
    match step {
      case CheckCascade(_, now) => SameCascade(a, b, h, now);
      case CheckPin(_, tried, now) => SamePin(a, b, h, tried, now);
      case ScanPool(_, tried, now, coin) => SameScan(a, b, h, tried, now, coin);
      case Stamp(key, now, window) => SameDebounce(a, b, key, now, window);
      case _ =>
    }
  }

  // ---------------------------------------------------------------- a common region, table by table

  lemma PutsTogether(x: Entries, y: Entries, host: Host, id: Id, e: Entry, f: Entry, h: Host)
    requires At(x, h) == At(y, h) && (host == h ==> e == f)
    ensures At(Put(x, host, id, e), h) == At(Put(y, host, id, f), h)
  {
  }

  lemma EntriesStepTogether(a: Board, b: Board, step: Step, h: Host)
    requires SameSettings(a, b) && At(a.entries, h) == At(b.entries, h)
    ensures At(EntriesAfter(a, step), h) == At(EntriesAfter(b, step), h)
  {
    match step {
      case Succeed(host, id, now) =>
        EntryAt(a.entries, b.entries, h, id);
        var w, c := a.cfg.successWeight, a.cfg.scoreCap;
        PutsTogether(a.entries, b.entries, host, id, Rewarded(EntryOf(a.entries, host, id), now, w, c),
                     Rewarded(EntryOf(b.entries, host, id), now, w, c), h);
      case Penalize(host, id, now, policy, cap, override) =>
        EntryAt(a.entries, b.entries, h, id);
        PutsTogether(a.entries, b.entries, host, id, Penalized(EntryOf(a.entries, host, id), now, policy, cap, override),
                     Penalized(EntryOf(b.entries, host, id), now, policy, cap, override), h);
      case _ => SweepsTogether(a, b, step, h);
    }
  }

  lemma SweepsTogether(a: Board, b: Board, step: Step, h: Host)
    requires a.cfg == b.cfg && At(a.entries, h) == At(b.entries, h) && !step.Succeed? && !step.Penalize?
    ensures At(EntriesAfter(a, step), h) == At(EntriesAfter(b, step), h)
  {
  }

  lemma CascadeStepsTogether(a: Board, b: Board, step: Step, h: Host)
    requires SameSettings(a, b) && At(a.cascade, h) == At(b.cascade, h)
    ensures At(CascadeAfter(a, step), h) == At(CascadeAfter(b, step), h)
  {
  }

  lemma ForcesStepTogether(a: Board, b: Board, step: Step, h: Host)
    requires SameSettings(a, b) && At(a.forces, h) == At(b.forces, h)
    ensures At(ForcesAfter(a, step), h) == At(ForcesAfter(b, step), h)
  {
  }

  lemma StampsStepTogether(a: Board, b: Board, step: Step, h: Host)
    requires SameStamps(a.debounce, b.debounce, h)
    ensures SameStamps(StampsAfter(a, step), StampsAfter(b, step), h)
  {
    forall k: Key | k.host == h
      ensures StampAt(StampsAfter(a, step), k) == StampAt(StampsAfter(b, step), k)
    {
      assert StampAt(a.debounce, k) == StampAt(b.debounce, k);
    }
  }

  lemma CommonStep(a: Board, b: Board, step: Step, h: Host)
    requires SameFor(a, b, h)
    ensures SameFor(Apply(a, step), Apply(b, step), h)
  {
    EntriesStepTogether(a, b, step, h);
    CascadeStepsTogether(a, b, step, h);
    ForcesStepTogether(a, b, step, h);
    StampsStepTogether(a, b, step, h);
  }

  // ---------------------------------------------------------------- a foreign region

  lemma ForeignEntries(b: Board, step: Step, h: Host)
    requires Foreign(step, h)
    ensures At(EntriesAfter(b, step), h) == At(b.entries, h)
  {
  }

  lemma ForeignCascade(b: Board, step: Step, h: Host)
    requires Foreign(step, h)
    ensures At(CascadeAfter(b, step), h) == At(b.cascade, h)
  {
  }

  lemma ForeignForces(b: Board, step: Step, h: Host)
    requires Foreign(step, h)
    ensures At(ForcesAfter(b, step), h) == At(b.forces, h)
  {
  }

  lemma ForeignStamps(b: Board, step: Step, h: Host)
    requires Foreign(step, h)
    ensures SameStamps(b.debounce, StampsAfter(b, step), h)
  {
  }

  lemma ForeignStep(a: Board, b: Board, step: Step, h: Host)
    requires SameFor(a, b, h) && Foreign(step, h)
    ensures SameFor(a, Apply(b, step), h)
  {
    ForeignEntries(b, step, h);
    ForeignCascade(b, step, h);
    ForeignForces(b, step, h);
    ForeignStamps(b, step, h);
    forall k: Key | k.host == h
      ensures StampAt(a.debounce, k) == StampAt(StampsAfter(b, step), k)
    {
      assert StampAt(a.debounce, k) == StampAt(b.debounce, k);
    }
  }

  // ---------------------------------------------------------------- whole runs

  lemma {:induction false} SameRuns(a: Board, b: Board, trace: seq<Step>, h: Host)
    requires SameFor(a, b, h)
    ensures RepliesTo(a, Own(trace, h), h) == RepliesTo(b, trace, h)
    ensures SameFor(Run(a, Own(trace, h)), Run(b, trace), h)
    decreases |trace|
  {
    if trace != [] {
      var step := trace[0];
      if Foreign(step, h) {
        ForeignStep(a, b, step, h);
        SameRuns(a, Apply(b, step), trace[1..], h);
        assert Own(trace, h) == Own(trace[1..], h);
      } else {
        if Addressee(step) == Some(h) {
          SameReply(a, b, step, h);
        }
        CommonStep(a, b, step, h);
        SameRuns(Apply(a, step), Apply(b, step), trace[1..], h);
        assert Own(trace, h)[0] == step && Own(trace, h)[1..] == Own(trace[1..], h);
      }
    }
  }

  /** Removing every region addressed to another host from a run changes no answer given to
      `h` and nothing stored for it. */
  lemma HostsDoNotInterfere(b: Board, trace: seq<Step>, h: Host)
    ensures RepliesTo(b, Own(trace, h), h) == RepliesTo(b, trace, h)
    ensures SameFor(Run(b, Own(trace, h)), Run(b, trace), h)
  {
    SameRuns(b, b, trace, h);
  }
}
