/** The auth-heal driver (cmd/tunnelsmith/healdriver.go): a burst detector over a bounded
    buffer, gated by a cooldown, a single heal in flight and late wiring. */
module HealDriver {
  import opened Types
  import opened Spacing

  const AUTH_HEAL_THRESHOLD: nat := 3
  const AUTH_HEAL_WINDOW: Duration := 30 * SECOND
  const AUTH_HEAL_COOLDOWN: Duration := 60 * SECOND

  datatype Tuning = Tuning(threshold: nat, window: Duration, cooldown: Duration)

  predicate ValidTuning(p: Tuning) { p.threshold >= 1 && p.window > 0 && p.cooldown > 0 }

  /** The context a heal inherits: the default, or the process's own, cancelled at shutdown. */
  datatype Context = Background | Process

  datatype Driver = Driver(events: seq<Time>, lastHeal: Time, inFlight: bool, composer: bool, parent: Context)

  const NEW_DRIVER: Driver := Driver([], 0, false, false, Background)

  /** The elements of `s` strictly after `cutoff`, in order. */
  function After(s: seq<Time>, cutoff: Time): seq<Time> {
    if s == [] then []
    else After(s[..|s| - 1], cutoff) + (if s[|s| - 1] > cutoff then [s[|s| - 1]] else [])
  }

  function LastOf(s: seq<Time>, n: nat): seq<Time> {
    if |s| > n then s[|s| - n..] else s
  }

  /** The buffer a bump leaves before the firing decision. */
  function Buffered(p: Tuning, events: seq<Time>, now: Time): seq<Time> {
    LastOf(After(events, now - p.window) + [now], p.threshold)
  }

  predicate Rested(p: Tuning, d: Driver, now: Time) {
    d.lastHeal == 0 || now - d.lastHeal >= p.cooldown
  }

  predicate Fires(p: Tuning, d: Driver, now: Time) {
    |Buffered(p, d.events, now)| >= p.threshold && !d.inFlight && Rested(p, d, now) && d.composer
  }

  function Bumped(p: Tuning, d: Driver, now: Time): Driver {
    if Fires(p, d, now) then d.(events := [], inFlight := true)
    else d.(events := Buffered(p, d.events, now))
  }

  // ---------------------------------------------------------------- the object

  /** `buffer[lo..hi]` is the Go slice `events`: bumps compact it in place, append behind it
      (into a larger array when the backing array is full) and trim it from the front. */
  class AuthHealDriver {
    const tuning: Tuning
    var buffer: array<Time>
    var lo: nat
    var hi: nat
    var lastHeal: Time
    var inFlight: bool
    var composer: bool
    var parent: Context

    ghost predicate Valid()
      reads this
    {
      lo <= hi <= buffer.Length
    }

    ghost function State(): Driver
      requires Valid()
      reads this, buffer
    {
      Driver(buffer[lo..hi], lastHeal, inFlight, composer, parent)
    }

    constructor ()
      ensures Valid() && fresh(buffer) && State() == NEW_DRIVER
      ensures tuning == Tuning(AUTH_HEAL_THRESHOLD, AUTH_HEAL_WINDOW, AUTH_HEAL_COOLDOWN) && ValidTuning(tuning)
    {
      tuning := Tuning(AUTH_HEAL_THRESHOLD, AUTH_HEAL_WINDOW, AUTH_HEAL_COOLDOWN);
      buffer := new Time[0];
      lo, hi := 0, 0;
      lastHeal := 0;
      inFlight := false;
      composer := false;
      parent := Background;
    }

    /** `keep := events[:0]` and the loop that refills it. */
    method Compact(cutoff: Time)
      requires Valid()
      modifies this`hi, buffer
      ensures Valid() && lo == old(lo)
      ensures buffer[lo..hi] == After(old(buffer[lo..hi]), cutoff)
    {
      var keep := lo;
      var i := lo;
      while i < hi
        invariant lo <= keep <= i <= hi <= buffer.Length && hi == old(hi) && lo == old(lo)
        invariant buffer[lo..keep] == After(old(buffer[lo..i]), cutoff)
        invariant forall j :: i <= j < hi ==> buffer[j] == old(buffer[j])
      {
        assert old(buffer[lo..i + 1])[..i - lo] == old(buffer[lo..i]);
        ghost var kept := buffer[lo..keep];
        if buffer[i] > cutoff {
          buffer[keep] := buffer[i];
          keep := keep + 1;
          assert buffer[lo..keep] == kept + [old(buffer[i])];
        }
        i := i + 1;
      }
      hi := keep;
    }

    /** Moves the slice to a larger array, as `append` does when the old one is full. */
    method Grow()
      requires Valid()
      modifies this`buffer, this`lo, this`hi
      ensures Valid() && fresh(buffer) && hi < buffer.Length
      ensures buffer[lo..hi] == old(buffer[lo..hi])
    {
      var n := hi - lo;
      var grown := new Time[2 * n + 1];
      var i := 0;
      while i < n
        invariant 0 <= i <= n == hi - lo && Valid() && lo == old(lo) && hi == old(hi) && buffer == old(buffer)
        invariant forall j :: 0 <= j < i ==> grown[j] == buffer[lo + j]
      {
        grown[i] := buffer[lo + i];
        i := i + 1;
      }
      buffer, lo, hi := grown, 0, n;
    }

    /** `append(keep, now)`. */
    method Append(now: Time)
      requires Valid()
      modifies this`buffer, this`lo, this`hi, buffer
      ensures Valid() && (buffer == old(buffer) || fresh(buffer))
      ensures buffer[lo..hi] == old(buffer[lo..hi]) + [now]
    {
      if hi == buffer.Length {
        Grow();
      }
      ghost var kept := buffer[lo..hi];
      buffer[hi] := now;
      hi := hi + 1;
      assert buffer[lo..hi] == kept + [now];
    }

    /** `keep[len(keep)-threshold:]`, when there is more than that. */
    method Trim()
      requires Valid()
      modifies this`lo
      ensures Valid() && buffer[lo..hi] == LastOf(old(buffer[lo..hi]), tuning.threshold)
    {
      ghost var all := buffer[lo..hi];
      if hi - lo > tuning.threshold {
        lo := hi - tuning.threshold;
        assert buffer[lo..hi] == all[|all| - tuning.threshold..];
      }
    }

    /** The buffer part of `bump`: drop what left the window, append, trim to the threshold. */
    method Buffer(now: Time)
      requires Valid()
      modifies this`buffer, this`lo, this`hi, buffer
      ensures Valid() && (buffer == old(buffer) || fresh(buffer))
      ensures buffer[lo..hi] == Buffered(tuning, old(buffer[lo..hi]), now)
    {
      Compact(now - tuning.window);
      Append(now);
      Trim();
    }

    /** One observed event; `dispatched` says a heal goroutine was started. */
    method Bump(now: Time) returns (dispatched: bool)
      requires Valid()
      modifies this, buffer
      ensures Valid() && (buffer == old(buffer) || fresh(buffer))
      ensures State() == Bumped(tuning, old(State()), now)
      ensures dispatched == Fires(tuning, old(State()), now)
    {
      Buffer(now);
      if hi - lo < tuning.threshold {
        return false;
      }
      if inFlight {
        return false;
      }
      if lastHeal != 0 && now - lastHeal < tuning.cooldown {
        return false;
      }
      var composerReady := composer;
      if !composerReady {
        return false;
      }
      inFlight := true;
      buffer := new Time[0];
      lo, hi := 0, 0;
      return true;
    }

    /** The deferred end of `runHeal`. */
    method FinishHeal(now: Time)
      requires Valid()
      modifies this`inFlight, this`lastHeal
      ensures Valid() && State() == old(State()).(inFlight := false, lastHeal := now)
    {
      inFlight := false;
      lastHeal := now;
    }

    method SetParentContext(ctx: Context)
      requires Valid()
      modifies this`parent
      ensures Valid() && State() == old(State()).(parent := ctx)
    {
      parent := ctx;
    }

    method SetComposer()
      requires Valid()
      modifies this`composer
      ensures Valid() && State() == old(State()).(composer := true)
    {
      composer := true;
    }
  }

  /** `connectAuthHealDriversToComposer`: for each driver the parent context first, the
      composer last. */
  method Connect(drivers: seq<AuthHealDriver>)
    requires forall d :: d in drivers ==> d.Valid()
    modifies (set d | d in drivers)`parent, (set d | d in drivers)`composer
    ensures forall d :: d in drivers ==> d.Valid() && d.parent == Process && d.composer
  {
    for i := 0 to |drivers|
      invariant forall d :: d in drivers ==> d.Valid()
      invariant forall d :: d in drivers[..i] ==> d.parent == Process && d.composer
    {
      drivers[i].SetParentContext(Process);
      drivers[i].SetComposer();
    }
  }

  // ---------------------------------------------------------------- runs

  /** The regions of every goroutine that touches the driver: observers, the start and end of
      heals, and the two wiring calls of startup. */
  datatype Event = Bump(now: Time) | BeginHeal | EndHeal(now: Time) | WireParent | WireComposer

  /** The driver with its history. `log` holds the bumps since the last dispatch, `seen` what
      heals read of the wiring, `heals` the number of live heal goroutines. */
  datatype World = World(
    d: Driver,
    now: Time,
    log: seq<Time>,
    bumps: nat,
    dispatches: seq<Time>,
    completions: seq<Time>,
    heals: nat,
    seen: seq<(bool, Context)>)

  const START: World := World(NEW_DRIVER, 0, [], 0, [], [], 0, [])

  /** Startup wires the parent before the composer; only a live heal can begin or end; the
      clock is positive and does not run backwards. */
  predicate Enabled(w: World, e: Event) {
    match e
    case Bump(now) => now > 0 && now >= w.now
    case BeginHeal => w.heals > 0
    case EndHeal(now) => w.heals > 0 && now > 0 && now >= w.now
    case WireParent => !w.d.composer
    case WireComposer => w.d.parent == Process
  }

  function Next(p: Tuning, w: World, e: Event): World {
    match e
    case Bump(now) =>
      var w' := w.(d := Bumped(p, w.d, now), now := now, bumps := w.bumps + 1);
      if Fires(p, w.d, now) then w'.(log := [], dispatches := w.dispatches + [now], heals := w.heals + 1)
      else w'.(log := w.log + [now])
    case BeginHeal => w.(seen := w.seen + [(w.d.composer, w.d.parent)])
    case EndHeal(now) =>
      w.(d := w.d.(inFlight := false, lastHeal := now), now := now,
         completions := w.completions + [now], heals := w.heals - (if w.heals > 0 then 1 else 0))
    case WireParent => w.(d := w.d.(parent := Process))
    case WireComposer => w.(d := w.d.(composer := true))
  }

  /** The world after the trace. */
  function Play(p: Tuning, trace: seq<Event>): World {
    if trace == [] then START else Next(p, Play(p, trace[..|trace| - 1]), trace[|trace| - 1])
  }

  /** Every event of the trace was enabled when it happened. */
  predicate Possible(p: Tuning, trace: seq<Event>) {
    trace == [] ||
    (Possible(p, trace[..|trace| - 1]) && Enabled(Play(p, trace[..|trace| - 1]), trace[|trace| - 1]))
  }

  predicate Wires(e: Event) { e.WireParent? || e.WireComposer? }

  ghost predicate NoWiring(trace: seq<Event>) { forall k :: 0 <= k < |trace| ==> !Wires(trace[k]) }

  lemma {:induction false} WiringStays(p: Tuning, trace: seq<Event>, more: seq<Event>)
    requires NoWiring(more)
    ensures Play(p, trace + more).d.composer == Play(p, trace).d.composer
    ensures Play(p, trace + more).d.parent == Play(p, trace).d.parent
    decreases |more|
  {
    if more == [] {
      assert trace + more == trace;
    } else {
      var front, last := more[..|more| - 1], more[|more| - 1];
      WiringStays(p, trace, front);
      assert (trace + more)[..|trace + more| - 1] == trace + front;
      assert !Wires(last);
    }
  }

  /** The order `Connect` wires in is always possible, whatever events come before, between
      and after its two writes: the wiring conditions of `Enabled` assume nothing else. */
  lemma ConnectIsPossible(p: Tuning, before: seq<Event>, between: seq<Event>)
    requires NoWiring(before) && NoWiring(between)
    requires Possible(p, before)
    ensures Possible(p, before + [WireParent])
    ensures Possible(p, before + [WireParent] + between) ==> Possible(p, before + [WireParent] + between + [WireComposer])
    ensures Play(p, before + [WireParent] + between).dispatches == []
    ensures var w := Play(p, before + [WireParent] + between + [WireComposer]); w.d.composer && w.d.parent == Process
  {
    var wired := before + [WireParent];
    assert [] + before == before;
    WiringStays(p, [], before);
    PlaySnoc(p, before, WireParent);
    WiringStays(p, wired, between);
    PlaySnoc(p, wired + between, WireComposer);
    NothingDispatched(p, [], before);
    NothingDispatched(p, wired, between);
  }

  /** Until the composer is wired no bump dispatches. */
  lemma {:induction false} NothingDispatched(p: Tuning, trace: seq<Event>, more: seq<Event>)
    requires NoWiring(more) && !Play(p, trace).d.composer
    ensures Play(p, trace + more).dispatches == Play(p, trace).dispatches
    decreases |more|
  {
    if more == [] {
      assert trace + more == trace;
    } else {
      var front, last := more[..|more| - 1], more[|more| - 1];
      NothingDispatched(p, trace, front);
      WiringStays(p, trace, front);
      assert (trace + more)[..|trace + more| - 1] == trace + front;
      assert !Wires(last);
    }
  }

  lemma PlaySnoc(p: Tuning, trace: seq<Event>, e: Event)
    ensures Play(p, trace + [e]) == Next(p, Play(p, trace), e)
    ensures Possible(p, trace + [e]) <==> Possible(p, trace) && Enabled(Play(p, trace), e)
  {
    assert (trace + [e])[..|trace|] == trace;
  }

  // ---------------------------------------------------------------- the buffer agrees with the log

  predicate Sorted(s: seq<Time>) {
    forall i, j :: 0 <= i < j < |s| ==> s[i] <= s[j]
  }

  lemma {:induction false} AfterIsSuffix(s: seq<Time>, cutoff: Time) returns (n: nat)
    requires Sorted(s)
    ensures n <= |s| && After(s, cutoff) == s[n..]
    ensures forall i :: 0 <= i < |s| ==> (s[i] > cutoff <==> n <= i)
  {
    if s == [] {
      n := 0;
    } else {
      var front, last := s[..|s| - 1], s[|s| - 1];
      assert s == front + [last];
      n := AfterIsSuffix(front, cutoff);
      AfterAppend(front, last, cutoff);
      n := SuffixGrows(front, last, cutoff, n);
    }
  }

  lemma SuffixGrows(front: seq<Time>, last: Time, cutoff: Time, m: nat) returns (n: nat)
    requires Sorted(front + [last]) && m <= |front|
    requires forall i :: 0 <= i < |front| ==> (front[i] > cutoff <==> m <= i)
    ensures n <= |front| + 1 && (front + [last])[n..] == front[m..] + (if last > cutoff then [last] else [])
    ensures forall i :: 0 <= i <= |front| ==> ((front + [last])[i] > cutoff <==> n <= i)
  {
    var s := front + [last];
    n := m;
    if last <= cutoff {
      forall i | 0 <= i < |front| ensures front[i] <= cutoff {
        assert s[i] <= s[|front|];
      }
      assert m == |front| by {
        var k := if m < |front| then m else 0;
        assert k < |front| ==> front[k] <= cutoff;
      }
      n := |s|;
    }
  }

  lemma SuffixStart(s: seq<Time>, cutoff: Time, b: nat)
    requires Sorted(s) && b <= |s|
    requires forall i :: 0 <= i < |s| ==> (s[i] > cutoff <==> b <= i)
    ensures After(s, cutoff) == s[b..]
  {
    var n := AfterIsSuffix(s, cutoff);
    if n < |s| {
      assert s[n] > cutoff;
    }
    if b < |s| {
      assert s[b] > cutoff;
    }
  }

  lemma AfterOfSuffix(s: seq<Time>, k: nat, b: nat, cutoff: Time)
    requires Sorted(s) && k <= |s| && b <= |s|
    requires forall i :: 0 <= i < |s| ==> (s[i] > cutoff <==> b <= i)
    ensures After(s[k..], cutoff) == s[if k <= b then b else k..]
  {
    var t := s[k..];
    var c := if k <= b then b - k else 0;
    assert forall i :: 0 <= i < |t| ==> t[i] == s[k + i];
    SuffixStart(t, cutoff, c);
    assert t[c..] == s[if k <= b then b else k..];
  }

  lemma LastOfSuffix(s: seq<Time>, a: nat, n: nat)
    requires a <= |s|
    ensures LastOf(s[a..], n) == s[if |s| - a > n then |s| - n else a..]
  {
  }

  /** Taking the last `n` does not depend on how far back a suffix starts, once it holds `n`. */
  lemma LastOfDeeper(s: seq<Time>, a: nat, b: nat, n: nat)
    requires a <= b <= |s|
    ensures var k := if |s| - a > n then |s| - n else a;
      LastOf(s[if k <= b then b else k..], n) == LastOf(s[b..], n)
  {
    var k := if |s| - a > n then |s| - n else a;
    LastOfSuffix(s, if k <= b then b else k, n);
    LastOfSuffix(s, b, n);
  }

  /** Filtering the last `n` elements of a sorted sequence keeps the last `n` of the filtered. */
  lemma AfterOfLast(s: seq<Time>, n: nat, earlier: Time, cutoff: Time)
    requires Sorted(s) && earlier <= cutoff
    ensures LastOf(After(LastOf(After(s, earlier), n), cutoff), n) == LastOf(After(s, cutoff), n)
  {
    var a := AfterIsSuffix(s, earlier);
    var b := AfterIsSuffix(s, cutoff);
    assert a <= b by {
      if b < |s| {
        assert s[b] > cutoff;
      }
    }
    LastOfSuffix(s, a, n);
    AfterOfSuffix(s, if |s| - a > n then |s| - n else a, b, cutoff);
    LastOfDeeper(s, a, b, n);
  }

  lemma LastOfAppend(s: seq<Time>, n: nat, x: Time)
    requires n >= 1
    ensures LastOf(LastOf(s, n) + [x], n) == LastOf(s + [x], n)
  {
  }

  lemma LastOfAppendBoth(s: seq<Time>, t: seq<Time>, n: nat, x: Time)
    requires n >= 1 && LastOf(s, n) == LastOf(t, n)
    ensures LastOf(s + [x], n) == LastOf(t + [x], n)
  {
    LastOfAppend(s, n, x);
    LastOfAppend(t, n, x);
  }

  lemma AfterAppend(s: seq<Time>, x: Time, cutoff: Time)
    ensures After(s + [x], cutoff) == After(s, cutoff) + (if x > cutoff then [x] else [])
  {
    assert (s + [x])[..|s|] == s;
  }

  /** Dropping old events first and capping first come to the same buffer. */
  lemma BufferOfCapped(p: Tuning, log: seq<Time>, earlier: Time, now: Time)
    requires ValidTuning(p) && earlier <= now && Sorted(log)
    ensures Buffered(p, LastOf(After(log, earlier - p.window), p.threshold), now)
      == LastOf(After(log + [now], now - p.window), p.threshold)
  {
    var capped := LastOf(After(log, earlier - p.window), p.threshold);
    var x, y := After(capped, now - p.window), After(log, now - p.window);
    assert LastOf(x, p.threshold) == LastOf(y, p.threshold) by {
      AfterOfLast(log, p.threshold, earlier - p.window, now - p.window);
    }
    assert LastOf(x + [now], p.threshold) == LastOf(y + [now], p.threshold) by {
      LastOfAppendBoth(x, y, p.threshold, now);
    }
    assert After(log + [now], now - p.window) == y + [now] by {
      AfterAppend(log, now, now - p.window);
    }
  }

  /** What every reachable world keeps. */
  ghost predicate Consistent(p: Tuning, w: World) {
    && Sorted(w.log) && (forall i :: 0 <= i < |w.log| ==> w.log[i] <= w.now)
    && (w.log == [] ==> w.d.events == [])
    && (w.log != [] ==>
          w.d.events == LastOf(After(w.log, w.log[|w.log| - 1] - p.window), p.threshold))
  }

  /** Who is running, who was counted, and what heals saw of the wiring. */
  ghost predicate Counted(p: Tuning, w: World) {
    && w.heals == (if w.d.inFlight then 1 else 0)
    && |w.dispatches| == |w.completions| + w.heals
    && |w.dispatches| * p.threshold + |w.log| <= w.bumps
    && (w.d.composer ==> w.d.parent == Process)
    && (w.dispatches != [] ==> w.d.composer)
    && (forall k :: 0 <= k < |w.seen| ==> w.seen[k] == (true, Process))
  }

  /** When heals started and ended. */
  ghost predicate Timed(p: Tuning, w: World) {
    && w.now >= 0
    && |w.completions| <= |w.dispatches|
    && (w.completions == [] ==> w.d.lastHeal == 0)
    && (w.completions != [] ==> w.d.lastHeal == w.completions[|w.completions| - 1] > 0)
    && (forall k :: 0 <= k < |w.completions| ==> w.dispatches[k] <= w.completions[k] <= w.now)
    && (forall k :: 0 <= k < |w.dispatches| ==> w.dispatches[k] <= w.now)
    && (forall k :: 0 < k < |w.dispatches| && k - 1 < |w.completions| ==>
          w.dispatches[k] - w.completions[k - 1] >= p.cooldown)
  }

  /** What the heals have done so far. */
  ghost predicate Tallied(p: Tuning, w: World) { Counted(p, w) && Timed(p, w) }

  /** The buffer after a bump, in terms of the whole log. */
  lemma BufferedIsLog(p: Tuning, w: World, now: Time)
    requires ValidTuning(p) && Consistent(p, w) && now >= w.now
    ensures Buffered(p, w.d.events, now) == LastOf(After(w.log + [now], now - p.window), p.threshold)
  {
    if w.log == [] {
      AfterAppend([], now, now - p.window);
      assert w.log + [now] == [now];
    } else {
      assert w.log[|w.log| - 1] <= now;
      BufferOfCapped(p, w.log, w.log[|w.log| - 1], now);
    }
  }

  lemma BumpKeepsConsistent(p: Tuning, w: World, now: Time)
    requires ValidTuning(p) && Consistent(p, w) && Enabled(w, Bump(now))
    ensures Consistent(p, Next(p, w, Bump(now)))
  {
    BufferedIsLog(p, w, now);
    var log := w.log + [now];
    assert log[|log| - 1] == now;
    assert Sorted(log);
  }

  /** A burst of at least `threshold` events inside the window, counted without any bound. */
  predicate Burst(p: Tuning, log: seq<Time>, now: Time) {
    |After(log + [now], now - p.window)| >= p.threshold
  }

  /** The bounded buffer fires exactly when the unbounded log would. */
  lemma FiresIffBurst(p: Tuning, w: World, now: Time)
    requires ValidTuning(p) && Consistent(p, w) && Enabled(w, Bump(now))
    ensures Fires(p, w.d, now) <==>
      Burst(p, w.log, now) && !w.d.inFlight && Rested(p, w.d, now) && w.d.composer
  {
    BufferedIsLog(p, w, now);
  }

  lemma {:induction false} AfterShrinks(s: seq<Time>, cutoff: Time)
    ensures |After(s, cutoff)| <= |s|
  {
    if s != [] {
      AfterShrinks(s[..|s| - 1], cutoff);
    }
  }

  lemma QuietBumpKeepsTallied(p: Tuning, w: World, now: Time)
    requires Tallied(p, w) && Enabled(w, Bump(now)) && !Fires(p, w.d, now)
    ensures Tallied(p, Next(p, w, Bump(now)))
  {
  }

  lemma DispatchKeepsCounted(p: Tuning, w: World, now: Time)
    requires Counted(p, w) && Fires(p, w.d, now) && |w.log| + 1 >= p.threshold
    ensures Counted(p, Next(p, w, Bump(now)))
  {
    assert (|w.dispatches| + 1) * p.threshold == |w.dispatches| * p.threshold + p.threshold;
  }

  lemma DispatchKeepsTimed(p: Tuning, w: World, now: Time)
    requires Timed(p, w) && |w.dispatches| == |w.completions| && Enabled(w, Bump(now)) && Fires(p, w.d, now)
    ensures Timed(p, Next(p, w, Bump(now)))
  {
  }

  lemma BumpKeepsTallied(p: Tuning, w: World, now: Time)
    requires ValidTuning(p) && Consistent(p, w) && Tallied(p, w) && Enabled(w, Bump(now))
    ensures Tallied(p, Next(p, w, Bump(now)))
  {
    if Fires(p, w.d, now) {
      FiresIffBurst(p, w, now);
      AfterShrinks(w.log + [now], now - p.window);
      DispatchKeepsCounted(p, w, now);
      DispatchKeepsTimed(p, w, now);
    } else {
      QuietBumpKeepsTallied(p, w, now);
    }
  }

  lemma EndKeepsTallied(p: Tuning, w: World, now: Time)
    requires Tallied(p, w) && Enabled(w, EndHeal(now))
    ensures Tallied(p, Next(p, w, EndHeal(now)))
  {
  }

  lemma WiringKeepsTallied(p: Tuning, w: World, e: Event)
    requires Tallied(p, w) && Enabled(w, e) && (e.BeginHeal? || e.WireParent? || e.WireComposer?)
    ensures Tallied(p, Next(p, w, e))
  {
    assert w.heals > 0 ==> w.dispatches != [];
  }

  lemma OthersKeepConsistent(p: Tuning, w: World, e: Event)
    requires Consistent(p, w) && Enabled(w, e) && !e.Bump?
    ensures Consistent(p, Next(p, w, e))
  {
    var w' := Next(p, w, e);
    assert w'.log == w.log && w'.d.events == w.d.events && w'.now >= w.now;
  }

  lemma NextKeeps(p: Tuning, w: World, e: Event)
    requires ValidTuning(p) && Consistent(p, w) && Tallied(p, w) && Enabled(w, e)
    ensures Consistent(p, Next(p, w, e)) && Tallied(p, Next(p, w, e))
  {
    match e {
      case Bump(now) =>
        BumpKeepsConsistent(p, w, now);
        BumpKeepsTallied(p, w, now);
      case EndHeal(now) =>
        OthersKeepConsistent(p, w, e);
        EndKeepsTallied(p, w, now);
      case _ =>
        OthersKeepConsistent(p, w, e);
        WiringKeepsTallied(p, w, e);
    }
  }

  lemma {:induction false} ReachableIsConsistent(p: Tuning, trace: seq<Event>)
    requires ValidTuning(p) && Possible(p, trace)
    ensures Consistent(p, Play(p, trace)) && Tallied(p, Play(p, trace))
  {
    if trace != [] {
      ReachableIsConsistent(p, trace[..|trace| - 1]);
      NextKeeps(p, Play(p, trace[..|trace| - 1]), trace[|trace| - 1]);
    }
  }

  /** After every bump that does not dispatch, the buffer is the last min(threshold, n) of the
      n events since the last dispatch that lie inside the window. */
  lemma BufferAgreesWithLog(p: Tuning, trace: seq<Event>, now: Time)
    requires ValidTuning(p) && Possible(p, trace + [Bump(now)]) && !Fires(p, Play(p, trace).d, now)
    ensures Play(p, trace + [Bump(now)]).d.events
      == LastOf(After(Play(p, trace).log + [now], now - p.window), p.threshold)
  {
    PlaySnoc(p, trace, Bump(now));
    ReachableIsConsistent(p, trace);
    BufferedIsLog(p, Play(p, trace), now);
  }

  /** Over every run a bump dispatches exactly when the unbounded log holds a burst and the
      gates are open. */
  lemma DispatchIffBurst(p: Tuning, trace: seq<Event>, now: Time)
    requires ValidTuning(p) && Possible(p, trace + [Bump(now)])
    ensures var w := Play(p, trace);
      |Play(p, trace + [Bump(now)]).dispatches| > |w.dispatches| <==>
        Burst(p, w.log, now) && !w.d.inFlight && Rested(p, w.d, now) && w.d.composer
  {
    PlaySnoc(p, trace, Bump(now));
    ReachableIsConsistent(p, trace);
    FiresIffBurst(p, Play(p, trace), now);
  }

  /** Over every run: at most one heal in flight, dispatches a cooldown apart from the previous
      completion, `threshold` events of its own for each dispatch, and wired heals only. */
  lemma HealBounds(p: Tuning, trace: seq<Event>)
    requires ValidTuning(p) && Possible(p, trace)
    ensures var w := Play(p, trace);
      && w.heals <= 1 && |w.dispatches| - |w.completions| == w.heals
      && |w.dispatches| * p.threshold <= w.bumps
      && (forall k :: 0 < k < |w.dispatches| ==> w.dispatches[k] - w.completions[k - 1] >= p.cooldown)
      && Spaced(w.dispatches, p.cooldown)
      && (forall k :: 0 <= k < |w.seen| ==> w.seen[k] == (true, Process))
  {
    ReachableIsConsistent(p, trace);
    DispatchesAreSpaced(p, Play(p, trace));
  }

  lemma DispatchesAreSpaced(p: Tuning, w: World)
    requires Tallied(p, w)
    ensures Spaced(w.dispatches, p.cooldown)
  {
    forall i | 0 <= i < |w.dispatches| - 1
      ensures w.dispatches[i + 1] - w.dispatches[i] >= p.cooldown
    {
      assert w.dispatches[i] <= w.completions[i];
      assert w.dispatches[i + 1] - w.completions[i + 1 - 1] >= p.cooldown;
    }
  }

  /** At most span/cooldown + 1 heals start in any interval. */
  lemma HealRate(p: Tuning, trace: seq<Event>, i: nat, j: nat, from: Time, span: Duration)
    requires ValidTuning(p) && Possible(p, trace)
    requires i <= j < |Play(p, trace).dispatches|
    requires from <= Play(p, trace).dispatches[i] && Play(p, trace).dispatches[j] <= from + span
    ensures j - i + 1 <= span / p.cooldown + 1
  {
    HealBounds(p, trace);
    SpacedCount(Play(p, trace).dispatches, p.cooldown, i, j, from, span);
  }

  // ---------------------------------------------------------------- dispatches, from the events alone

  /** The readings of the bumps, and of the ends of heals. */
  function BumpTimes(trace: seq<Event>): seq<Time> {
    if trace == [] then []
    else
      var last := trace[|trace| - 1];
      BumpTimes(trace[..|trace| - 1]) + (if last.Bump? then [last.now] else [])
  }

  function EndTimes(trace: seq<Event>): seq<Time> {
    if trace == [] then []
    else
      var last := trace[|trace| - 1];
      EndTimes(trace[..|trace| - 1]) + (if last.EndHeal? then [last.now] else [])
  }

  ghost predicate Wired(trace: seq<Event>) { exists k :: 0 <= k < |trace| && trace[k].WireComposer? }

  /** The bump at index `k` of the trace started a heal. */
  predicate Started(p: Tuning, trace: seq<Event>, k: nat)
    requires k < |trace|
  {
    |Play(p, trace[..k + 1]).dispatches| > |Play(p, trace[..k]).dispatches|
  }

  lemma {:induction false} EndsAreCompletions(p: Tuning, trace: seq<Event>)
    ensures Play(p, trace).completions == EndTimes(trace)
    ensures Play(p, trace).d.composer <==> Wired(trace)
  {
    if trace != [] {
      var front := trace[..|trace| - 1];
      EndsAreCompletions(p, front);
      if Wired(front) {
        var k :| 0 <= k < |front| && front[k].WireComposer?;
        assert trace[k].WireComposer?;
      }
      if Wired(trace) && !trace[|trace| - 1].WireComposer? {
        var k :| 0 <= k < |trace| && trace[k].WireComposer?;
        assert front[k].WireComposer?;
      }
    }
  }

  lemma StartEmptiesLog(p: Tuning, w: World, e: Event)
    ensures var x := Next(p, w, e);
      if |x.dispatches| > |w.dispatches| then x.log == [] && e.Bump?
      else x.log == w.log + (if e.Bump? then [e.now] else [])
  {
  }

  lemma StartedBefore(p: Tuning, trace: seq<Event>, e: Event, k: nat)
    requires k < |trace|
    ensures Started(p, trace + [e], k) == Started(p, trace, k)
  {
    assert (trace + [e])[..k + 1] == trace[..k + 1] && (trace + [e])[..k] == trace[..k];
  }

  lemma StartedLast(p: Tuning, trace: seq<Event>, e: Event)
    ensures Started(p, trace + [e], |trace|) <==> |Next(p, Play(p, trace), e).dispatches| > |Play(p, trace).dispatches|
  {
    PlaySnoc(p, trace, e);
    assert (trace + [e])[..|trace| + 1] == trace + [e] && (trace + [e])[..|trace|] == trace;
  }

  lemma BumpTimesSnoc(trace: seq<Event>, j: nat, e: Event)
    requires j <= |trace|
    ensures BumpTimes((trace + [e])[j..]) == BumpTimes(trace[j..]) + (if e.Bump? then [e.now] else [])
  {
    var tail := (trace + [e])[j..];
    assert tail == trace[j..] + [e] && tail[..|tail| - 1] == trace[j..];
  }

  /** The log holds the bumps since the last one that started a heal, which is the one before
      index `j`; `j` is 0 when none did. */
  lemma {:induction false} LogIsSinceDispatch(p: Tuning, trace: seq<Event>) returns (j: nat)
    ensures j <= |trace| && Play(p, trace).log == BumpTimes(trace[j..])
    ensures forall k :: j <= k < |trace| ==> !Started(p, trace, k)
    ensures j > 0 ==> Started(p, trace, j - 1)
  {
    j := 0;
    if trace != [] {
      var front, last := trace[..|trace| - 1], trace[|trace| - 1];
      assert trace == front + [last];
      j := LogIsSinceDispatch(p, front);
      j := LogAfter(p, front, last, j);
    }
  }

  lemma LogAfter(p: Tuning, front: seq<Event>, last: Event, i: nat) returns (j: nat)
    requires i <= |front| && Play(p, front).log == BumpTimes(front[i..])
    requires forall k :: i <= k < |front| ==> !Started(p, front, k)
    requires i > 0 ==> Started(p, front, i - 1)
    ensures var trace := front + [last];
      && j <= |trace| && Play(p, trace).log == BumpTimes(trace[j..])
      && (forall k :: j <= k < |trace| ==> !Started(p, trace, k))
      && (j > 0 ==> Started(p, trace, j - 1))
  {
    var trace := front + [last];
    PlaySnoc(p, front, last);
    StartedLast(p, front, last);
    StartEmptiesLog(p, Play(p, front), last);
    if Started(p, trace, |front|) {
      j := |trace|;
      assert trace[j..] == [];
    } else {
      j := i;
      BumpTimesSnoc(front, i, last);
      StartsKept(p, front, last, i);
    }
  }

  lemma StartsKept(p: Tuning, front: seq<Event>, last: Event, j: nat)
    requires j <= |front| && !Started(p, front + [last], |front|)
    requires forall k :: j <= k < |front| ==> !Started(p, front, k)
    requires j > 0 ==> Started(p, front, j - 1)
    ensures forall k :: j <= k < |front + [last]| ==> !Started(p, front + [last], k)
    ensures j > 0 ==> Started(p, front + [last], j - 1)
  {
    forall k | j <= k < |front + [last]| ensures !Started(p, front + [last], k) {
      if k < |front| {
        StartedBefore(p, front, last, k);
      }
    }
    if j > 0 {
      StartedBefore(p, front, last, j - 1);
    }
  }

  /** The flight and cooldown gates, from the heals started and ended. */
  lemma GatesMean(p: Tuning, w: World, now: Time)
    requires Tallied(p, w)
    ensures !w.d.inFlight <==> |w.dispatches| == |w.completions|
    ensures Rested(p, w.d, now) <==> w.completions == [] || now - w.completions[|w.completions| - 1] >= p.cooldown
  {
  }

  lemma GatesOfRun(p: Tuning, trace: seq<Event>, now: Time)
    requires ValidTuning(p) && Possible(p, trace)
    ensures var w, ends := Play(p, trace), EndTimes(trace);
      && (!w.d.inFlight <==> |w.dispatches| == |ends|)
      && (Rested(p, w.d, now) <==> ends == [] || now - ends[|ends| - 1] >= p.cooldown)
      && (w.d.composer <==> Wired(trace))
  {
    ReachableIsConsistent(p, trace);
    GatesMean(p, Play(p, trace), now);
    EndsAreCompletions(p, trace);
  }

  lemma StartIsBurst(p: Tuning, trace: seq<Event>, now: Time, log: seq<Time>)
    requires ValidTuning(p) && Possible(p, trace + [Bump(now)]) && log == Play(p, trace).log
    ensures var d := Play(p, trace).d;
      Started(p, trace + [Bump(now)], |trace|) <==>
        |After(log + [now], now - p.window)| >= p.threshold && !d.inFlight && Rested(p, d, now) && d.composer
  {
    assert (trace + [Bump(now)])[..|trace| + 1] == trace + [Bump(now)];
    assert (trace + [Bump(now)])[..|trace|] == trace;
    DispatchIffBurst(p, trace, now);
  }

  /** A bump starts a heal exactly when at least `threshold` bumps since the last start,
      itself included, lie strictly inside the window; every heal started has ended; the
      composer was wired; and no heal has ended yet or the last end is a cooldown ago. */
  lemma StartsExactly(p: Tuning, trace: seq<Event>, now: Time) returns (j: nat)
    requires ValidTuning(p) && Possible(p, trace + [Bump(now)])
    ensures j <= |trace| && (j > 0 ==> Started(p, trace, j - 1)) && forall k :: j <= k < |trace| ==> !Started(p, trace, k)
    ensures var ends := EndTimes(trace);
      Started(p, trace + [Bump(now)], |trace|) <==>
        && |After(BumpTimes(trace[j..]) + [now], now - p.window)| >= p.threshold
        && |Play(p, trace).dispatches| == |ends|
        && Wired(trace)
        && (ends == [] || now - ends[|ends| - 1] >= p.cooldown)
  {
    j := LogIsSinceDispatch(p, trace);
    PlaySnoc(p, trace, Bump(now));
    StartIsBurst(p, trace, now, Play(p, trace).log);
    GatesOfRun(p, trace, now);
  }
}
