/** What every reachable board keeps, and what runs of regions do to one entry. */
module Invariants {
  import opened Types
  import opened Selection
  import opened Regions
  import opened Requests
  import Schedules
  import Isolation
  import Pruning
  import Ledgers
  import Dialing

  // ---------------------------------------------------------------- pins and host maps

  /** Every pin, live or expired, names an upstream of the current pool. */
  ghost predicate PinsKnown(b: Board) {
    forall h :: h in b.forces ==> HasId(b.pool, b.forces[h].id)
  }

  ghost predicate NoEmptyMap(entries: Entries) {
    forall h :: h in entries ==> entries[h] != map[]
  }

  ghost predicate NoEmptyHost(b: Board) { NoEmptyMap(b.entries) }

  ghost predicate Sound(b: Board) { PinsKnown(b) && NoEmptyHost(b) }

  lemma {:induction false} LoadHostsNoEmpty(hs: seq<HostSnapshot>)
    ensures forall h :: h in LoadHosts(hs) ==> LoadHosts(hs)[h] != map[]
  {
    if hs != [] {
      LoadHostsNoEmpty(hs[..|hs| - 1]);
    }
  }

  lemma StepKeepsPinsKnown(b: Board, step: Step)
    requires PinsKnown(b)
    ensures PinsKnown(Apply(b, step))
  {
    var x := Apply(b, step);
    forall h | h in x.forces
      ensures HasId(x.pool, x.forces[h].id)
    {
      FindIdMeaning(x.pool, x.forces[h].id);
    }
  }

  lemma PutNoEmpty(entries: Entries, host: Host, id: Id, e: Entry)
    requires NoEmptyMap(entries)
    ensures NoEmptyMap(Put(entries, host, id, e))
  {
    assert id in Put(entries, host, id, e)[host];
  }

  lemma DecayNoEmpty(entries: Entries, step: real)
    requires NoEmptyMap(entries)
    ensures NoEmptyMap(DecayAll(entries, step))
  {
    forall h | h in entries ensures DecayHost(entries[h], step) != map[] {
      assert DecayHost(entries[h], step).Keys == entries[h].Keys;
    }
  }

  lemma StepKeepsNoEmptyHost(b: Board, step: Step)
    requires NoEmptyHost(b)
    ensures NoEmptyHost(Apply(b, step))
  {
    match step {
      case Load(hosts, _) => LoadHostsNoEmpty(hosts);
      case Succeed(host, id, now) =>
        PutNoEmpty(b.entries, host, id, Rewarded(EntryOf(b.entries, host, id), now, b.cfg.successWeight, b.cfg.scoreCap));
      case Penalize(host, id, now, policy, cap, override) =>
        PutNoEmpty(b.entries, host, id, Penalized(EntryOf(b.entries, host, id), now, policy, cap, override));
      case Decay => DecayNoEmpty(b.entries, b.cfg.decayStep);
      case _ =>
    }
  }

  lemma {:induction false} RunKeepsSound(b: Board, steps: seq<Step>)
    requires Sound(b)
    ensures Sound(Run(b, steps))
    decreases |steps|
  {
    if steps != [] {
      StepKeepsPinsKnown(b, steps[0]);
      StepKeepsNoEmptyHost(b, steps[0]);
      RunKeepsSound(Apply(b, steps[0]), steps[1..]);
    }
  }

  /** In every reachable state a pin is absent, expired, tried, or names a pool upstream: the
      "no longer in the pool" branch of `pickForced` is dead. */
  lemma PinNeverDangles(pool: seq<PoolEntry>, retryCap: int, cfg: Config, rules: seq<Rule>,
                        steps: seq<Step>, host: Host, tried: set<Id>, now: Time)
    ensures PinFor(Run(Fresh(pool, retryCap, cfg, rules), steps), host, tried, now) != PinGone
  {
    var b := Run(Fresh(pool, retryCap, cfg, rules), steps);
    RunKeepsSound(Fresh(pool, retryCap, cfg, rules), steps);
    if host in b.forces {
      FindIdMeaning(b.pool, b.forces[host].id);
    }
  }

  /** Lazy eviction acts on a reading taken before its own lock region. Whatever ran in
      between, it removes no pin that is live at or after that reading, and leaves none of
      its host's that had expired by then. */
  lemma EvictionSparesLivePins(b: Board, between: seq<Step>, host: Host, read: Time, now: Time, h: Host)
    requires read <= now
    ensures var before := Run(b, between);
      var after := Apply(before, EvictPin(host, read));
      && (h in before.forces && before.forces[h].until > now ==>
            h in after.forces && after.forces[h] == before.forces[h])
      && (host in after.forces ==> after.forces[host].until > read)
  {
  }

  /** `after` has every pin of `others` that is live at `read`, and no pin `others` lacks. */
  ghost predicate LivePinsKept(others: map<Host, Pin>, after: map<Host, Pin>, read: Time) {
    forall h ::
      && (h in after ==> h in others && after[h] == others[h])
      && (h in others && others[h].until > read ==> h in after)
  }

  lemma {:induction false} RunKeepsLivePins(b: Board, forces: map<Host, Pin>, read: Time, steps: seq<Step>)
    requires LivePinsKept(b.forces, forces, read)
    ensures var x, y := Run(b.(forces := forces), steps), Run(b, steps);
      x == y.(forces := x.forces) && LivePinsKept(y.forces, x.forces, read)
    decreases |steps|
  {
    if steps != [] {
      var kept := ForcesAfter(b.(forces := forces), steps[0]);
      StepKeepsLivePins(b, forces, read, steps[0]);
      OnlyForcesDiffer(b, forces, steps[0]);
      RunKeepsLivePins(Apply(b, steps[0]), kept, read, steps[1..]);
    }
  }

  lemma OnlyForcesDiffer(b: Board, forces: map<Host, Pin>, step: Step)
    ensures Apply(b.(forces := forces), step)
      == Apply(b, step).(forces := ForcesAfter(b.(forces := forces), step))
  {
  }

  lemma StepKeepsLivePins(b: Board, forces: map<Host, Pin>, read: Time, step: Step)
    requires LivePinsKept(b.forces, forces, read)
    ensures LivePinsKept(ForcesAfter(b, step), ForcesAfter(b.(forces := forces), step), read)
  {
  }

  /** What others ran between the regions of a pick, as far as it came. */
  function OthersDuring(b: Board, host: Host, tried: set<Id>, t: PickTurn): seq<Step> {
    if CascadeActive(b, host, t.now) then []
    else
      match PinFor(Run(b, t.beforePin), host, tried, t.now)
      case PinLive(_) => t.beforePin
      case PinExpired => t.beforePin + t.beforeEvict + t.beforeScan
      case _ => t.beforePin + t.beforeScan
  }

  /** No pick, in any interleaving, removes a pin that is live at its reading: but for expired
      pins the board is as if the pick had not run, even when a pin was renewed between its
      read and its eviction. */
  lemma PickSparesLivePins(b: Board, host: Host, tried: set<Id>, t: PickTurn)
    ensures var x, y := PickRun(b, host, tried, t).board, Run(b, OthersDuring(b, host, tried, t));
      x == y.(forces := x.forces) && LivePinsKept(y.forces, x.forces, t.now)
  {
    if !CascadeActive(b, host, t.now) {
      var b1 := Run(b, t.beforePin);
      var pin := PinFor(b1, host, tried, t.now);
      if pin.PinExpired? {
        var b2 := Run(b1, t.beforeEvict);
        RunConcat(b, t.beforePin, t.beforeEvict);
        RunConcat(b, t.beforePin + t.beforeEvict, t.beforeScan);
        EvictingSparesLivePins(b2, host, t.now, t.beforeScan);
      } else if !pin.PinLive? {
        RunConcat(b, t.beforePin, t.beforeScan);
      }
    }
  }

  lemma EvictingSparesLivePins(b: Board, host: Host, read: Time, later: seq<Step>)
    ensures var x, y := Run(Apply(b, EvictPin(host, read)), later), Run(b, later);
      x == y.(forces := x.forces) && LivePinsKept(y.forces, x.forces, read)
  {
    var e := Apply(b, EvictPin(host, read));
    assert e == b.(forces := e.forces);
    RunKeepsLivePins(b, e.forces, read, later);
  }

  // ---------------------------------------------------------------- requests are runs

  lemma {:induction false} StretchesKeepSound(b: Board, run: seq<Schedules.Stretch>)
    requires Sound(b)
    ensures Sound(Schedules.Play(b, run))
  {
    if run != [] {
      var mid, last := Schedules.Play(b, run[..|run| - 1]), run[|run| - 1];
      StretchesKeepSound(b, run[..|run| - 1]);
      match last {
        case Mine(step) =>
          StepKeepsPinsKnown(mid, step);
          StepKeepsNoEmptyHost(mid, step);
        case Gap(steps) => RunKeepsSound(mid, steps);
      }
    }
  }

  lemma ReachedIsSound(b: Board, after: Board, own: seq<Step>, host: Host)
    requires Sound(b) && Ledgers.Reached(b, after, own, host)
    ensures Sound(after)
  {
    var gaps :| Schedules.Scheduled(b, after, own, gaps, host);
    var run :| Schedules.Explains(run, b, after, own, gaps, host);
    StretchesKeepSound(b, run);
  }

  /** `DialFor` keeps the board sound whatever runs beside it. */
  lemma DialForKeepsSound(b: Board, host: Host, script: DialScript)
    requires Sound(b)
    ensures Sound(DialFor(b, host, script).board)
  {
    var m, finish := Dialing.DialForIsSafe(b, host, script);
    if !CascadeActive(b, host, script.now) {
      var b1, t := Run(b, script.beforeSnapshot), DialFor(b, host, script);
      RunKeepsSound(b, script.beforeSnapshot);
      Ledgers.SettledReaches(b1, t.board, t.own, Dialing.Charges(t.dials[..m], script),
                             Dialing.LeadOf(Ids(t.dials[..m]), script.attempts(m)), host, finish);
      ReachedIsSound(b1, t.board, t.own, host);
    }
  }

  // ---------------------------------------------------------------- snapshots

  /** `hosts` and `cooled` list the board's entries and active cascades, in any order. */
  ghost predicate Lists(b: Board, now: Time, hosts: seq<HostSnapshot>, cooled: seq<CascadeSnapshot>) {
    && (forall i, j :: 0 <= i < j < |hosts| ==> hosts[i].host != hosts[j].host)
    && (forall i :: 0 <= i < |hosts| ==>
          hosts[i].host in b.entries && ListsHost(b.entries[hosts[i].host], hosts[i].entries))
    && (forall h :: h in b.entries ==> exists i :: 0 <= i < |hosts| && hosts[i].host == h)
    && ListsCascade(b.cascade, now, cooled)
  }

  ghost predicate ListsHost(m: map<Id, Entry>, es: seq<EntrySnapshot>) {
    && (forall i, j :: 0 <= i < j < |es| ==> es[i].id != es[j].id)
    && (forall i :: 0 <= i < |es| ==> es[i].id in m && m[es[i].id] == es[i].entry)
    && (forall id :: id in m ==> exists i :: 0 <= i < |es| && es[i].id == id)
  }

  ghost predicate ListsCascade(m: map<Host, Time>, now: Time, cs: seq<CascadeSnapshot>) {
    && (forall i, j :: 0 <= i < j < |cs| ==> cs[i].host != cs[j].host)
    && (forall i :: 0 <= i < |cs| ==> cs[i].host in m && m[cs[i].host] == cs[i].until > now)
    && (forall h :: h in m && m[h] > now ==> exists i :: 0 <= i < |cs| && cs[i].host == h)
  }

  lemma {:induction false} LoadHostMeaning(es: seq<EntrySnapshot>)
    requires forall i, j :: 0 <= i < j < |es| ==> es[i].id != es[j].id
    ensures forall id :: id in LoadHost(es) <==> exists i :: 0 <= i < |es| && es[i].id == id
    ensures forall i :: 0 <= i < |es| ==> LoadHost(es)[es[i].id] == es[i].entry
  {
    if es != [] {
      LoadHostMeaning(es[..|es| - 1]);
      forall id
        ensures id in LoadHost(es) <==> exists i :: 0 <= i < |es| && es[i].id == id
      {
        if id in LoadHost(es[..|es| - 1]) {
          var i :| 0 <= i < |es| - 1 && es[..|es| - 1][i].id == id;
          assert es[i].id == id;
        }
        if i :| 0 <= i < |es| && es[i].id == id {
          assert i < |es| - 1 ==> es[..|es| - 1][i].id == id;
        }
      }
    }
  }

  lemma {:induction false} LoadCascadeMeaning(cs: seq<CascadeSnapshot>)
    requires forall i, j :: 0 <= i < j < |cs| ==> cs[i].host != cs[j].host
    ensures forall h :: h in LoadCascade(cs) <==> exists i :: 0 <= i < |cs| && cs[i].host == h
    ensures forall i :: 0 <= i < |cs| ==> LoadCascade(cs)[cs[i].host] == cs[i].until
  {
    if cs != [] {
      LoadCascadeMeaning(cs[..|cs| - 1]);
      forall h
        ensures h in LoadCascade(cs) <==> exists i :: 0 <= i < |cs| && cs[i].host == h
      {
        if h in LoadCascade(cs[..|cs| - 1]) {
          var i :| 0 <= i < |cs| - 1 && cs[..|cs| - 1][i].host == h;
          assert cs[i].host == h;
        }
        if i :| 0 <= i < |cs| && cs[i].host == h {
          assert i < |cs| - 1 ==> cs[..|cs| - 1][i].host == h;
        }
      }
    }
  }

  lemma LoadHostRestores(m: map<Id, Entry>, es: seq<EntrySnapshot>)
    requires ListsHost(m, es)
    ensures LoadHost(es) == m
  {
    LoadHostMeaning(es);
    forall id | id in LoadHost(es) ensures id in m && m[id] == LoadHost(es)[id] {
      var i :| 0 <= i < |es| && es[i].id == id;
    }
  }

  /** Loading the first `n` hosts restores exactly those hosts. */
  lemma {:induction false} LoadHostsRestores(entries: Entries, hosts: seq<HostSnapshot>)
    requires forall i, j :: 0 <= i < j < |hosts| ==> hosts[i].host != hosts[j].host
    requires forall i :: 0 <= i < |hosts| ==>
      hosts[i].host in entries && entries[hosts[i].host] != map[] && ListsHost(entries[hosts[i].host], hosts[i].entries)
    ensures forall h :: h in LoadHosts(hosts) ==> h in entries && LoadHosts(hosts)[h] == entries[h]
    ensures forall i :: 0 <= i < |hosts| ==> hosts[i].host in LoadHosts(hosts)
  {
    if hosts != [] {
      var front, last := hosts[..|hosts| - 1], hosts[|hosts| - 1];
      LoadHostsRestores(entries, front);
      LoadHostRestores(entries[last.host], last.entries);
      forall i | 0 <= i < |hosts| ensures hosts[i].host in LoadHosts(hosts) {
        if i < |hosts| - 1 {
          assert front[i].host in LoadHosts(front);
        }
      }
    }
  }

  lemma LoadCascadeRestores(m: map<Host, Time>, now: Time, cs: seq<CascadeSnapshot>)
    requires ListsCascade(m, now, cs)
    ensures LoadCascade(cs) == PruneCascade(m, now)
  {
    LoadCascadeMeaning(cs);
    forall h | h in LoadCascade(cs) ensures h in PruneCascade(m, now) && m[h] == LoadCascade(cs)[h] {
      var i :| 0 <= i < |cs| && cs[i].host == h;
    }
  }

  /** Writing a snapshot and loading it restores every entry and exactly the cascades that
      were active at write time, for every iteration order the maps were written in. */
  lemma SnapshotRoundTrip(b: Board, now: Time, hosts: seq<HostSnapshot>, cooled: seq<CascadeSnapshot>)
    requires NoEmptyHost(b) && Lists(b, now, hosts, cooled)
    ensures LoadHosts(hosts) == b.entries
    ensures LoadCascade(cooled) == PruneCascade(b.cascade, now)
  {
    HostsRoundTrip(b.entries, hosts);
    LoadCascadeRestores(b.cascade, now, cooled);
  }

  lemma HostsRoundTrip(entries: Entries, hosts: seq<HostSnapshot>)
    requires NoEmptyMap(entries)
    requires forall i, j :: 0 <= i < j < |hosts| ==> hosts[i].host != hosts[j].host
    requires forall i :: 0 <= i < |hosts| ==>
      hosts[i].host in entries && ListsHost(entries[hosts[i].host], hosts[i].entries)
    requires forall h :: h in entries ==> exists i :: 0 <= i < |hosts| && hosts[i].host == h
    ensures LoadHosts(hosts) == entries
  {
    LoadHostsRestores(entries, hosts);
    ListedHostsAgree(LoadHosts(hosts), entries, hosts);
  }

  lemma ListedHostsAgree(loaded: Entries, entries: Entries, hosts: seq<HostSnapshot>)
    requires forall h :: h in loaded ==> h in entries && loaded[h] == entries[h]
    requires forall i :: 0 <= i < |hosts| ==> hosts[i].host in loaded
    requires forall h :: h in entries ==> exists i :: 0 <= i < |hosts| && hosts[i].host == h
    ensures loaded == entries
  {
    forall h | h in entries ensures h in loaded {
      var i :| 0 <= i < |hosts| && hosts[i].host == h;
    }
  }

  /** A restarted process (same pool, tuning and rules; pins and stamps are not persisted)
      answers every `Pick` at or after the write as the old one without pins would. */
  lemma RestartPicksAlike(b: Board, written: Time, hosts: seq<HostSnapshot>, cooled: seq<CascadeSnapshot>,
                          host: Host, tried: set<Id>, now: Time, coin: Coin)
    requires NoEmptyHost(b) && b.forces == map[] && written <= now
    requires Lists(b, written, hosts, cooled)
    ensures var restarted := Apply(Fresh(b.pool, b.retryCap, b.cfg, b.rules), Load(hosts, cooled));
      var t := PickTurn(now, [], [], [], coin);
      PickRun(restarted, host, tried, t).result == PickRun(b, host, tried, t).result
  {
    SnapshotRoundTrip(b, written, hosts, cooled);
    var restarted := Fresh(b.pool, b.retryCap, b.cfg, b.rules)
      .(entries := b.entries, cascade := PruneCascade(b.cascade, written));
    assert Apply(Fresh(b.pool, b.retryCap, b.cfg, b.rules), Load(hosts, cooled)) == restarted;
    PickAlike(restarted, b, host, tried, now, coin);
  }

  lemma PickAlike(a: Board, b: Board, host: Host, tried: set<Id>, now: Time, coin: Coin)
    requires a.pool == b.pool && a.rules == b.rules && a.entries == b.entries && a.cfg == b.cfg
    requires a.forces == map[] && b.forces == map[]
    requires CascadeActive(a, host, now) == CascadeActive(b, host, now)
    ensures var t := PickTurn(now, [], [], [], coin);
      PickRun(a, host, tried, t).result == PickRun(b, host, tried, t).result
  {
    Isolation.SameScan(a, b, host, tried, now, coin);
  }

  /** The boards agree but for stamps and cascades that are over at `now`. */
  ghost predicate AlikeFrom(a: Board, b: Board, now: Time) {
    && Isolation.SameSettings(a, b) && a.entries == b.entries && a.forces == b.forces
    && forall h :: Pruning.LiveCascade(a, h, now) == Pruning.LiveCascade(b, h, now)
  }

  /** Every reply but those of the debounce checks. */
  function RoutingReplies(b: Board, trace: seq<Step>): seq<Reply>
    decreases |trace|
  {
    if trace == [] then []
    else (if trace[0].Stamp? then [] else [ReplyOf(b, trace[0])]) + RoutingReplies(Apply(b, trace[0]), trace[1..])
  }

  lemma RepliesFrom(a: Board, b: Board, step: Step, now: Time)
    requires 0 <= now <= Pruning.Advance(now, step) && AlikeFrom(a, b, now) && !step.Stamp?
    ensures ReplyOf(a, step) == ReplyOf(b, step)
  {
    match step {
      case CheckCascade(host, t) =>
        assert Pruning.LiveCascade(a, host, now) == Pruning.LiveCascade(b, host, now);
        Pruning.CascadeChecksAlike(a, b, host, now, t);
      case CheckPin(host, tried, t) => Isolation.SamePin(a, b, host, tried, t);
      case ScanPool(host, tried, t, coin) => Isolation.SameScan(a, b, host, tried, t, coin);
      case _ =>
    }
  }

  lemma StepStaysAlike(a: Board, b: Board, step: Step, now: Time)
    requires 0 <= now <= Pruning.Advance(now, step) && AlikeFrom(a, b, now)
    ensures AlikeFrom(Apply(a, step), Apply(b, step), Pruning.Advance(now, step))
  {
    var x, y, t := Apply(a, step), Apply(b, step), Pruning.Advance(now, step);
    assert EntriesAfter(a, step) == EntriesAfter(b, step);
    assert ForcesAfter(a, step) == ForcesAfter(b, step);
    forall h ensures Pruning.LiveCascade(x, h, t) == Pruning.LiveCascade(y, h, t) {
      assert Pruning.LiveCascade(a, h, now) == Pruning.LiveCascade(b, h, now);
      if step.PruneBoard? {
        PrunedCascadeIsLive(a.cascade, h, t);
        PrunedCascadeIsLive(b.cascade, h, t);
      } else {
        Pruning.CascadeStepAlike(a, b, step, now, h);
      }
    }
  }

  lemma PrunedCascadeIsLive(m: map<Host, Time>, h: Host, now: Time)
    ensures Pruning.LiveIn(PruneCascade(m, now), h, now) == Pruning.LiveIn(m, h, now)
  {
  }

  lemma {:induction false} RunsAlikeFrom(a: Board, b: Board, trace: seq<Step>, now: Time)
    requires 0 <= now && AlikeFrom(a, b, now) && Pruning.Clocked(trace, now)
    ensures RoutingReplies(a, trace) == RoutingReplies(b, trace)
    decreases |trace|
  {
    if trace != [] {
      if !trace[0].Stamp? {
        RepliesFrom(a, b, trace[0], now);
      }
      StepStaysAlike(a, b, trace[0], now);
      RunsAlikeFrom(Apply(a, trace[0]), Apply(b, trace[0]), trace[1..], Pruning.Advance(now, trace[0]));
    }
  }

  /** A restarted process answers every later run of regions, prunes and reloads included, as
      the old one would without its pins; only the debounce checks may differ, because stamps
      are not persisted. */
  lemma RestartRunsAlike(b: Board, written: Time, hosts: seq<HostSnapshot>, cooled: seq<CascadeSnapshot>, trace: seq<Step>)
    requires NoEmptyHost(b) && Lists(b, written, hosts, cooled)
    requires 0 <= written && Pruning.Clocked(trace, written)
    ensures var restarted := Apply(Fresh(b.pool, b.retryCap, b.cfg, b.rules), Load(hosts, cooled));
      RoutingReplies(restarted, trace) == RoutingReplies(b.(forces := map[]), trace)
  {
    SnapshotRoundTrip(b, written, hosts, cooled);
    var restarted := Fresh(b.pool, b.retryCap, b.cfg, b.rules)
      .(entries := b.entries, cascade := PruneCascade(b.cascade, written));
    assert Apply(Fresh(b.pool, b.retryCap, b.cfg, b.rules), Load(hosts, cooled)) == restarted;
    forall h ensures Pruning.LiveCascade(restarted, h, written) == Pruning.LiveCascade(b.(forces := map[]), h, written) {
      PrunedCascadeIsLive(b.cascade, h, written);
    }
    RunsAlikeFrom(restarted, b.(forces := map[]), trace, written);
  }
}
