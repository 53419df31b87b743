/** The scoreboard as a transition system. Each `Step` is one lock region of
    internal/scoreboard; `Apply` is its effect on the board and `Reply` what it hands back to
    the goroutine that ran it. Arguments are the values that goroutine captured earlier: its
    clock reading and the tuning it snapshotted. Every interleaving of goroutines is a
    sequence of steps. */
module Regions {
  import opened Types
  import opened Selection

  datatype EntrySnapshot = EntrySnapshot(id: Id, entry: Entry)
  datatype HostSnapshot = HostSnapshot(host: Host, entries: seq<EntrySnapshot>)
  datatype CascadeSnapshot = CascadeSnapshot(host: Host, until: Time)

  datatype Step =
    // reads
    | CheckCascade(host: Host, now: Time)
    | CheckPin(host: Host, tried: set<Id>, now: Time)
    | ScanPool(host: Host, tried: set<Id>, now: Time, coin: Coin)
    // the request path
    | Succeed(host: Host, id: Id, now: Time)
    | Stamp(key: Key, now: Time, window: Duration)
    | Penalize(host: Host, id: Id, now: Time, policy: Policy, cap: real, override: Option<Duration>)
    | Trip(host: Host, now: Time)
    | EvictPin(host: Host, now: Time)
    // maintenance
    | Decay
    | PruneBoard(now: Time)
    | PruneStamps(now: Time, window: Duration)
    | Load(hosts: seq<HostSnapshot>, cooled: seq<CascadeSnapshot>)
    // operators and hot reload
    | ForgetBoard(host: Host)
    | ForgetStamps(host: Host)
    | Force(host: Host, id: Id, until: Time, now: Time)
    | ClearForce(host: Host)
    | ResetBoard
    | ResetStamps
    | SwapPool(pool: seq<PoolEntry>, retryCap: int)
    | Retune(cfg: Config)
    | Reroute(rules: seq<Rule>)

  datatype PinState = NoPin | PinExpired | PinTried | PinLive(up: Upstream) | PinGone

  datatype Reply =
    | Done
    | Cascade(active: bool)
    | PinIs(pin: PinState)
    | Choice(result: PickResult)
    | Accepted(yes: bool)

  // ---------------------------------------------------------------- reads

  predicate CascadeActive(b: Board, host: Host, now: Time) {
    host in b.cascade && b.cascade[host] > now
  }

  function FindId(pool: seq<PoolEntry>, id: Id): Option<Upstream> {
    if pool == [] then None
    else if pool[0].up.id == id then Some(pool[0].up)
    else FindId(pool[1..], id)
  }

  /** The first lock region of `pickForced`. */
  function PinFor(b: Board, host: Host, tried: set<Id>, now: Time): PinState {
    if host !in b.forces then NoPin
    else if b.forces[host].until <= now then PinExpired
    else if b.forces[host].id in tried then PinTried
    else
      var found := FindId(b.pool, b.forces[host].id);
      if found.Some? then PinLive(found.value) else PinGone
  }

  predicate Accepts(b: Board, key: Key, now: Time, window: Duration) {
    window <= 0 || key !in b.debounce || now - b.debounce[key] >= window
  }

  // ---------------------------------------------------------------- one entry

  function Rewarded(e: Entry, now: Time, weight: real, cap: real): Entry {
    Entry(RealMin(e.score + weight, cap), 0, now, e.successCount + 1, e.failureCount)
  }

  /** The cooldown `RecordFailure` leaves: an override replaces it, a default only extends it. */
  function CooledUntil(before: Time, now: Time, default: Duration, override: Option<Duration>): Time {
    match override
    case Some(d) => if d > 0 then now + d else 0
    case None => if default > 0 && now + default > before then now + default else before
  }

  function Penalized(e: Entry, now: Time, policy: Policy, cap: real, override: Option<Duration>): Entry {
    Entry(RealMax(e.score - policy.penalty, -cap),
          CooledUntil(e.cooldownUntil, now, policy.cooldown, override),
          now, e.successCount, e.failureCount + 1)
  }

  function Decayed(score: real, step: real): real {
    if step <= 0.0 then score
    else if score > 0.0 then RealMax(score - step, 0.0)
    else if score < 0.0 then RealMin(score + step, 0.0)
    else score
  }

  predicate Stale(e: Entry, now: Time, after: Duration) {
    after > 0 && e.score == 0.0 && e.lastSeen != 0 && now - e.lastSeen > after
  }

  // ---------------------------------------------------------------- the tables

  function DecayHost(m: map<Id, Entry>, step: real): map<Id, Entry> {
    map i | i in m :: m[i].(score := Decayed(m[i].score, step))
  }

  function DecayAll(entries: Entries, step: real): Entries {
    map h | h in entries :: DecayHost(entries[h], step)
  }

  function PruneHost(m: map<Id, Entry>, now: Time, after: Duration): map<Id, Entry> {
    map i | i in m && !Stale(m[i], now, after) :: m[i]
  }

  function PruneAll(entries: Entries, now: Time, after: Duration): Entries {
    map h | h in entries && PruneHost(entries[h], now, after) != map[] :: PruneHost(entries[h], now, after)
  }

  function PruneCascade(cascade: map<Host, Time>, now: Time): map<Host, Time> {
    map h | h in cascade && cascade[h] > now :: cascade[h]
  }

  function PruneDebounce(stamps: map<Key, Time>, now: Time, window: Duration): map<Key, Time> {
    if window <= 0 then stamps
    else map k | k in stamps && now - stamps[k] <= 10 * window :: stamps[k]
  }

  function WithoutHost(stamps: map<Key, Time>, host: Host): map<Key, Time> {
    map k | k in stamps && k.host != host :: stamps[k]
  }

  function KnownPins(forces: map<Host, Pin>, pool: seq<PoolEntry>): map<Host, Pin> {
    map h | h in forces && FindId(pool, forces[h].id).Some? :: forces[h]
  }

  function LoadHost(es: seq<EntrySnapshot>): map<Id, Entry> {
    if es == [] then map[]
    else LoadHost(es[..|es| - 1])[es[|es| - 1].id := es[|es| - 1].entry]
  }

  function LoadHosts(hs: seq<HostSnapshot>): Entries {
    if hs == [] then map[]
    else
      var h := hs[|hs| - 1];
      if LoadHost(h.entries) == map[] then LoadHosts(hs[..|hs| - 1])
      else LoadHosts(hs[..|hs| - 1])[h.host := LoadHost(h.entries)]
  }

  function LoadCascade(cs: seq<CascadeSnapshot>): map<Host, Time> {
    if cs == [] then map[]
    else LoadCascade(cs[..|cs| - 1])[cs[|cs| - 1].host := cs[|cs| - 1].until]
  }

  // ---------------------------------------------------------------- the transition system

  function EntriesAfter(b: Board, step: Step): Entries {
    match step
    case Succeed(host, id, now) =>
      Put(b.entries, host, id,
          Rewarded(EntryOf(b.entries, host, id), now, b.cfg.successWeight, b.cfg.scoreCap))
    case Penalize(host, id, now, policy, cap, override) =>
      Put(b.entries, host, id, Penalized(EntryOf(b.entries, host, id), now, policy, cap, override))
    case Decay => DecayAll(b.entries, b.cfg.decayStep)
    case PruneBoard(now) => PruneAll(b.entries, now, b.cfg.pruneAfter)
    case Load(hosts, _) => LoadHosts(hosts)
    case ForgetBoard(host) => b.entries - {host}
    case ResetBoard => map[]
    case _ => b.entries
  }

  function CascadeAfter(b: Board, step: Step): map<Host, Time> {
    match step
    case Succeed(host, _, _) => b.cascade - {host}
    case Trip(host, now) => if b.cfg.cascadeTTL <= 0 then b.cascade else b.cascade[host := now + b.cfg.cascadeTTL]
    case PruneBoard(now) => PruneCascade(b.cascade, now)
    case Load(_, cooled) => LoadCascade(cooled)
    case ForgetBoard(host) => b.cascade - {host}
    case ResetBoard => map[]
    case _ => b.cascade
  }

  function ForcesAfter(b: Board, step: Step): map<Host, Pin> {
    match step
    case EvictPin(host, now) => if host in b.forces && b.forces[host].until <= now then b.forces - {host} else b.forces
    case Force(host, id, until, now) =>
      if until <= now then b.forces - {host}
      else if FindId(b.pool, id).None? then b.forces
      else b.forces[host := Pin(id, until)]
    case ClearForce(host) => b.forces - {host}
    case ResetBoard => map[]
    case SwapPool(pool, _) => KnownPins(b.forces, pool)
    case _ => b.forces
  }

  function StampsAfter(b: Board, step: Step): map<Key, Time> {
    match step
    case Stamp(key, now, window) =>
      if window > 0 && Accepts(b, key, now, window) then b.debounce[key := now] else b.debounce
    case PruneStamps(now, window) => PruneDebounce(b.debounce, now, window)
    case ForgetStamps(host) => WithoutHost(b.debounce, host)
    case ResetStamps => map[]
    case _ => b.debounce
  }

  function Apply(b: Board, step: Step): Board {
    Board(if step.SwapPool? then step.pool else b.pool,
          if step.SwapPool? then step.retryCap else b.retryCap,
          if step.Retune? then step.cfg.(decayInterval := b.cfg.decayInterval) else b.cfg,
          if step.Reroute? then step.rules else b.rules,
          EntriesAfter(b, step), CascadeAfter(b, step), ForcesAfter(b, step), StampsAfter(b, step))
  }

  function ReplyOf(b: Board, step: Step): Reply {
    match step
    case CheckCascade(host, now) => Cascade(CascadeActive(b, host, now))
    case CheckPin(host, tried, now) => PinIs(PinFor(b, host, tried, now))
    case ScanPool(host, tried, now, coin) => Choice(Scan(b, host, tried, now, coin))
    case Stamp(key, now, window) => Accepted(Accepts(b, key, now, window))
    case _ => Done
  }

  function Run(b: Board, steps: seq<Step>): Board
    decreases |steps|
  {
    if steps == [] then b else Run(Apply(b, steps[0]), steps[1..])
  }

  /** The region drops the entry of `(h, i)`, or replaces it by a loaded one. */
  predicate Drops(b: Board, step: Step, h: Host, i: Id) {
    match step
    case Load(_, _) => true
    case ResetBoard => true
    case ForgetBoard(host) => host == h
    case PruneBoard(now) => h in b.entries && i in b.entries[h] && Stale(b.entries[h][i], now, b.cfg.pruneAfter)
    case _ => false
  }

  /** A scoreboard as `New` builds it. */
  function Fresh(pool: seq<PoolEntry>, retryCap: int, cfg: Config, rules: seq<Rule>): Board {
    Board(pool, retryCap, cfg, rules, map[], map[], map[], map[])
  }

  lemma {:induction false} RunConcat(b: Board, xs: seq<Step>, ys: seq<Step>)
    ensures Run(b, xs + ys) == Run(Run(b, xs), ys)
    decreases |xs|
  {
    if xs == [] {
      assert xs + ys == ys;
    } else {
      assert (xs + ys)[1..] == xs[1..] + ys;
      RunConcat(Apply(b, xs[0]), xs[1..], ys);
    }
  }

  lemma RunCons(b: Board, s: Step, steps: seq<Step>)
    ensures Run(b, [s] + steps) == Run(Apply(b, s), steps)
  {
    assert ([s] + steps)[1..] == steps;
  }

  lemma RunSnoc(b: Board, steps: seq<Step>, s: Step)
    ensures Run(b, steps + [s]) == Apply(Run(b, steps), s)
  {
    RunConcat(b, steps, [s]);
    assert [s][1..] == [];
    assert Run(Run(b, steps), [s]) == Run(Apply(Run(b, steps), s), []);
  }

  lemma EntryOfPut(entries: Entries, host: Host, id: Id, e: Entry, h: Host, i: Id)
    ensures EntryOf(Put(entries, host, id, e), h, i) == if h == host && i == id then e else EntryOf(entries, h, i)
  {
  }

  lemma EntryOfDecay(entries: Entries, step: real, h: Host, i: Id)
    ensures EntryOf(DecayAll(entries, step), h, i)
      == EntryOf(entries, h, i).(score := Decayed(EntryOf(entries, h, i).score, step))
  {
    if h in entries && i in entries[h] {
      assert i in DecayHost(entries[h], step);
    }
  }

  lemma EntryOfPrune(entries: Entries, now: Time, after: Duration, h: Host, i: Id)
    ensures EntryOf(PruneAll(entries, now, after), h, i)
      == if h in entries && i in entries[h] && Stale(entries[h][i], now, after) then BLANK else EntryOf(entries, h, i)
  {
    if h in entries && i in entries[h] && !Stale(entries[h][i], now, after) {
      assert i in PruneHost(entries[h], now, after);
    }
  }

  lemma {:induction false} FindIdMeaning(pool: seq<PoolEntry>, id: Id)
    ensures FindId(pool, id).Some? <==> HasId(pool, id)
    ensures FindId(pool, id).Some? ==>
      FindId(pool, id).value.id == id && exists k :: 0 <= k < |pool| && pool[k].up == FindId(pool, id).value
  {
    if pool != [] {
      FindIdMeaning(pool[1..], id);
      if pool[0].up.id != id && HasId(pool, id) {
        var k :| 0 <= k < |pool| && pool[k].up.id == id;
        assert pool[1..][k - 1].up.id == id;
      }
      if pool[0].up.id != id && FindId(pool[1..], id).Some? {
        var k :| 0 <= k < |pool| - 1 && pool[1..][k].up == FindId(pool[1..], id).value;
        assert pool[k + 1].up == FindId(pool, id).value;
      } else {
        assert FindId(pool, id).Some? ==> pool[0].up == FindId(pool, id).value;
      }
    }
  }

  /** Each region writes only its own tables. */
  lemma RegionsKeepTheRest(b: Board, step: Step)
    ensures var x := Apply(b, step);
      && (step.Succeed? || step.Penalize? || step.Decay? || step.PruneBoard? || step.Load? || step.ForgetBoard?
          || step.ResetBoard? || x.entries == b.entries)
      && (step.Succeed? || step.Trip? || step.PruneBoard? || step.Load? || step.ForgetBoard?
          || step.ResetBoard? || x.cascade == b.cascade)
      && (step.EvictPin? || step.Force? || step.ClearForce? || step.ResetBoard? || step.SwapPool? || x.forces == b.forces)
      && (step.Stamp? || step.PruneStamps? || step.ForgetStamps? || step.ResetStamps? || x.debounce == b.debounce)
      && (!step.SwapPool? ==> x.pool == b.pool && x.retryCap == b.retryCap)
      && (!step.Retune? ==> x.cfg == b.cfg) && (!step.Reroute? ==> x.rules == b.rules)
  {
  }
}
