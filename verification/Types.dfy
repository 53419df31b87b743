/** Values shared by every component: ids, clock readings, tuning, rules, and the
    scoreboard's state as one immutable value (`Board`). */
module Types {

  datatype Option<+T> = None | Some(value: T)

  type Host = string
  type Id = string

  /** A clock reading. Zero stands for Go's zero `time.Time`. */
  type Time = int
  type Duration = int

  /** Durations count nanoseconds. */
  const SECOND: Duration := 1_000_000_000
  const MINUTE: Duration := 60 * SECOND
  const HOUR: Duration := 60 * MINUTE

  /** `Other` stands for every string that is not a declared kind. */
  datatype Kind =
    | Refused | Timeout | RateLimit | Forbidden | LegalBlock | BodyMatch | ProxyAuth | Other
  {
    predicate Valid() { !Other? }
  }

  /** `spec` stands for the kind, address and credentials the upstream dials with. */
  datatype Upstream = Upstream(id: Id, spec: string)

  datatype PoolEntry = PoolEntry(up: Upstream, priority: int)

  datatype Policy = Policy(penalty: real, cooldown: Duration)

  datatype Config = Config(
    connectionRefused: bool,
    kindPolicy: map<Kind, Policy>,
    successWeight: real,
    scoreCap: real,
    probeChance: real,
    decayInterval: Duration,
    decayStep: real,
    cascadeTTL: Duration,
    debounceWindow: Duration,
    pruneAfter: Duration)
  {
    /** A kind without a policy has no penalty and no cooldown. */
    function PolicyFor(kind: Kind): Policy {
      if kind in kindPolicy then kindPolicy[kind] else Policy(0.0, 0)
    }
  }

  /** A compiled rule. `matches` stands for `path.Match` on the lowercased host. */
  datatype Rule = Rule(matches: Host -> bool, prefer: seq<Id>, preferRank: map<Id, nat>, force: bool)

  datatype Entry = Entry(
    score: real,
    cooldownUntil: Time,
    lastSeen: Time,
    successCount: nat,
    failureCount: nat)

  /** What `getOrCreateLocked` stores on first touch, and what `Pick` assumes for an absent entry. */
  const BLANK: Entry := Entry(0.0, 0, 0, 0, 0)

  type Entries = map<Host, map<Id, Entry>>

  datatype Pin = Pin(id: Id, until: Time)

  datatype Key = Key(host: Host, id: Id, kind: Kind)

  datatype Board = Board(
    pool: seq<PoolEntry>,
    retryCap: int,
    cfg: Config,
    rules: seq<Rule>,
    entries: Entries,
    cascade: map<Host, Time>,
    forces: map<Host, Pin>,
    debounce: map<Key, Time>)

  function EntryOf(entries: Entries, host: Host, id: Id): Entry {
    if host in entries && id in entries[host] then entries[host][id] else BLANK
  }

  function Put(entries: Entries, host: Host, id: Id, e: Entry): Entries {
    entries[host := (if host in entries then entries[host] else map[])[id := e]]
  }

  ghost predicate HasId(pool: seq<PoolEntry>, id: Id) {
    exists k :: 0 <= k < |pool| && pool[k].up.id == id
  }

  ghost predicate UniqueIds(pool: seq<PoolEntry>) {
    forall i, j :: 0 <= i < j < |pool| ==> pool[i].up.id != pool[j].up.id
  }

  function RealMax(a: real, b: real): real { if a > b then a else b }

  function RealMin(a: real, b: real): real { if a < b then a else b }
}
