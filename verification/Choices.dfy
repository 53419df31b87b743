/** What a scan and a pick answer (internal/scoreboard/scoreboard.go:677-819), in terms of the
    board's own fields: rules, expiries, pins and cascades as they are stored. */
module Choices {
  import opened Types
  import opened Selection
  import opened Regions
  import opened Requests
  import Rules

  /** The rule that applies to the host. */
  ghost predicate FirstRule(rules: seq<Rule>, host: Host, i: int) {
    0 <= i < |rules| && rules[i].matches(host) && forall j :: 0 <= j < i ==> !rules[j].matches(host)
  }

  /** Pool entry `k` has not been tried, and the rule that applies, if it forces, lists it. */
  ghost predicate Permitted(b: Board, host: Host, tried: set<Id>, k: int) {
    && 0 <= k < |b.pool|
    && b.pool[k].up.id !in tried
    && forall i :: FirstRule(b.rules, host, i) && b.rules[i].force ==> b.pool[k].up.id in b.rules[i].preferRank
  }

  /** The stored expiry of pool entry `k`, zero when there is none. */
  function Expiry(b: Board, host: Host, k: int): Time
    requires 0 <= k < |b.pool|
  {
    var id := b.pool[k].up.id;
    if host in b.entries && id in b.entries[host] then b.entries[host][id].cooldownUntil else 0
  }

  /** Pool entry `k` is permitted and its expiry is not set or not after `now`. */
  ghost predicate Warm(b: Board, host: Host, tried: set<Id>, now: Time, k: int) {
    Permitted(b, host, tried, k) && (Expiry(b, host, k) == 0 || Expiry(b, host, k) <= now)
  }

  lemma RuleApplies(rules: seq<Rule>, host: Host, i: int)
    requires FirstRule(rules, host, i)
    ensures MatchRule(rules, host) == Some(rules[i])
  {
    Rules.MatchIsFirst(rules, host);
    var j :| 0 <= j < |rules| && MatchRule(rules, host).value == rules[j] && rules[j].matches(host)
      && forall n :: 0 <= n < j ==> !rules[n].matches(host);
    assert i == j;
  }

  lemma OpenIsPermitted(b: Board, host: Host, tried: set<Id>, k: nat)
    requires k < |b.pool|
    ensures Open(b, host, tried, k) <==> Permitted(b, host, tried, k)
  {
    Rules.MatchIsFirst(b.rules, host);
    if MatchRule(b.rules, host).Some? {
      var i :| 0 <= i < |b.rules| && MatchRule(b.rules, host).value == b.rules[i] && b.rules[i].matches(host)
        && forall j :: 0 <= j < i ==> !b.rules[j].matches(host);
      assert FirstRule(b.rules, host, i);
    }
    forall i | FirstRule(b.rules, host, i) ensures MatchRule(b.rules, host) == Some(b.rules[i]) {
      RuleApplies(b.rules, host, i);
    }
  }

  lemma EligibleIsWarm(b: Board, host: Host, tried: set<Id>, now: Time, k: nat)
    ensures Eligible(b, host, tried, now, k) <==> Warm(b, host, tried, now, k)
  {
    if k < |b.pool| {
      OpenIsPermitted(b, host, tried, k);
    }
  }

  /** Nothing warm is to be dialled before `k`. */
  ghost predicate First(b: Board, host: Host, tried: set<Id>, now: Time, k: int) {
    Warm(b, host, tried, now, k)
    && forall j :: j != k && Warm(b, host, tried, now, j) ==> Precedes(b, host, k, j)
  }

  /** The random roll asks for a probe, and there is something to probe. */
  ghost predicate Probing(b: Board, host: Host, tried: set<Id>, now: Time, coin: Coin) {
    && b.cfg.probeChance > 0.0 && coin.u < b.cfg.probeChance
    && exists j, k :: j != k && Warm(b, host, tried, now, j) && Warm(b, host, tried, now, k)
  }

  lemma ProbingIsProbes(b: Board, host: Host, tried: set<Id>, now: Time, coin: Coin)
    ensures Probes(b, |Order(b, host, tried, now)|, coin) <==> Probing(b, host, tried, now, coin)
  {
    OrderMeaning(b, host, tried, now);
    var s := Order(b, host, tried, now);
    if |s| > 1 {
      EligibleIsWarm(b, host, tried, now, s[0].pos);
      EligibleIsWarm(b, host, tried, now, s[1].pos);
    }
    if j, k :| j != k && Warm(b, host, tried, now, j) && Warm(b, host, tried, now, k) {
      EligibleIsWarm(b, host, tried, now, j);
      EligibleIsWarm(b, host, tried, now, k);
      var m :| 0 <= m < |s| && s[m].pos == j;
      var n :| 0 <= n < |s| && s[n].pos == k;
    }
  }

  lemma BestIsFirst(b: Board, host: Host, tried: set<Id>, now: Time, k: nat)
    ensures Best(b, host, tried, now, k) <==> First(b, host, tried, now, k)
  {
    forall j: nat ensures Eligible(b, host, tried, now, j) <==> Warm(b, host, tried, now, j) {
      EligibleIsWarm(b, host, tried, now, j);
    }
  }

  /** A scan is exhausted exactly when nothing is permitted. */
  lemma ExhaustedMeans(b: Board, host: Host, tried: set<Id>, now: Time, coin: Coin)
    ensures Scan(b, host, tried, now, coin) != CascadeCooling
    ensures Scan(b, host, tried, now, coin) == PoolExhausted <==> forall k :: !Permitted(b, host, tried, k)
  {
    ScanExhausted(b, host, tried, now, coin);
    forall k | 0 <= k < |b.pool| ensures Open(b, host, tried, k) <==> Permitted(b, host, tried, k) {
      OpenIsPermitted(b, host, tried, k);
    }
  }

  /** While something permitted is warm, the answer is warm: the first one, or when the roll
      asks for a probe and there are at least two, another one. */
  lemma WarmIsPicked(b: Board, host: Host, tried: set<Id>, now: Time, coin: Coin) returns (k: nat)
    requires exists j :: Warm(b, host, tried, now, j)
    ensures Warm(b, host, tried, now, k) && Scan(b, host, tried, now, coin) == Picked(b.pool[k].up)
    ensures First(b, host, tried, now, k) <==> !Probing(b, host, tried, now, coin)
  {
    var j :| Warm(b, host, tried, now, j);
    EligibleIsWarm(b, host, tried, now, j);
    ProbingIsProbes(b, host, tried, now, coin);
    if Probing(b, host, tried, now, coin) {
      k := ScanProbe(b, host, tried, now, coin);
    } else {
      k := ScanBest(b, host, tried, now, coin);
    }
    EligibleIsWarm(b, host, tried, now, k);
    BestIsFirst(b, host, tried, now, k);
  }

  /** When everything permitted is still cooling, the answer is one that stops first. */
  lemma CoolingIsPickedLast(b: Board, host: Host, tried: set<Id>, now: Time, coin: Coin) returns (k: nat)
    requires exists j :: Permitted(b, host, tried, j)
    requires forall j :: !Warm(b, host, tried, now, j)
    ensures Permitted(b, host, tried, k) && Scan(b, host, tried, now, coin) == Picked(b.pool[k].up)
    ensures forall j :: Permitted(b, host, tried, j) ==> Expiry(b, host, k) <= Expiry(b, host, j)
  {
    forall j: nat | j < |b.pool| ensures Open(b, host, tried, j) <==> Permitted(b, host, tried, j) {
      OpenIsPermitted(b, host, tried, j);
    }
    forall j: nat ensures !Eligible(b, host, tried, now, j) {
      EligibleIsWarm(b, host, tried, now, j);
    }
    var j :| Permitted(b, host, tried, j);
    assert Open(b, host, tried, j);
    k := ScanAllCooled(b, host, tried, now, coin);
  }

  // ---------------------------------------------------------------- the whole pick

  /** The stored cascade of the host lies after the reading. */
  predicate Turned(b: Board, host: Host, now: Time) { host in b.cascade && now < b.cascade[host] }

  /** The stored pin of the host is live, untried and names a pool entry. */
  ghost predicate PinDecides(b: Board, host: Host, tried: set<Id>, now: Time) {
    && host in b.forces && now < b.forces[host].until
    && b.forces[host].id !in tried && HasId(b.pool, b.forces[host].id)
  }

  lemma PinIsLive(b: Board, host: Host, tried: set<Id>, now: Time)
    ensures PinFor(b, host, tried, now).PinLive? <==> PinDecides(b, host, tried, now)
    ensures PinDecides(b, host, tried, now) ==> PinFor(b, host, tried, now).up.id == b.forces[host].id
  {
    if host in b.forces {
      FindIdMeaning(b.pool, b.forces[host].id);
    }
  }

  /** Without a live pin a pick that is not turned away answers what the scan of the board it
      leaves answers. */
  lemma ScanDecides(b: Board, h: Host, tried: set<Id>, t: PickTurn)
    requires !CascadeActive(b, h, t.now) && !PinFor(Run(b, t.beforePin), h, tried, t.now).PinLive?
    ensures var p := PickRun(b, h, tried, t); p.result == Scan(p.board, h, tried, t.now, t.coin)
  {
  }

  /** The board a pick leaves when it comes to scan: others run on, after its host's pin has
      been dropped if it is over, now as when the pick looked at it. */
  function Scanned(at: Board, host: Host, t: PickTurn): Board {
    if host in at.forces && at.forces[host].until <= t.now then
      var e := Run(at, t.beforeEvict);
      Run(if host in e.forces && e.forces[host].until <= t.now then e.(forces := e.forces - {host}) else e, t.beforeScan)
    else Run(at, t.beforeScan)
  }

  lemma EvictDropsExpired(b: Board, host: Host, now: Time)
    ensures Apply(b, EvictPin(host, now))
      == if host in b.forces && b.forces[host].until <= now then b.(forces := b.forces - {host}) else b
  {
  }

  lemma ScanLeaves(b: Board, host: Host, tried: set<Id>, t: PickTurn)
    requires !CascadeActive(b, host, t.now) && !PinFor(Run(b, t.beforePin), host, tried, t.now).PinLive?
    ensures PickRun(b, host, tried, t).board == Scanned(Run(b, t.beforePin), host, t)
  {
    EvictDropsExpired(Run(Run(b, t.beforePin), t.beforeEvict), host, t.now);
  }

  /** A pick is turned away exactly by a cascade after its reading; else it answers the pin's
      upstream exactly when the pin decides once its turn comes; else what the scan of the
      board it then finds answers. */
  lemma PickMeans(b: Board, host: Host, tried: set<Id>, t: PickTurn)
    ensures var p := PickRun(b, host, tried, t); var at := Run(b, t.beforePin);
      && (p.result.CascadeCooling? <==> Turned(b, host, t.now))
      && (Turned(b, host, t.now) ==> p.board == b)
      && (!Turned(b, host, t.now) ==>
            if PinDecides(at, host, tried, t.now) then
              p.result.Picked? && p.result.up.id == at.forces[host].id && p.board == at
            else p.board == Scanned(at, host, t) && p.result == Scan(p.board, host, tried, t.now, t.coin))
  {
    if !Turned(b, host, t.now) {
      var at, p := Run(b, t.beforePin), PickRun(b, host, tried, t);
      PinIsLive(at, host, tried, t.now);
      if !PinFor(at, host, tried, t.now).PinLive? {
        ScanDecides(b, host, tried, t);
        ScanLeaves(b, host, tried, t);
        ExhaustedMeans(p.board, host, tried, t.now, t.coin);
      }
    }
  }

  /** What a goroutine is told by the scan region. */
  lemma ScanReplies(b: Board, host: Host, tried: set<Id>, now: Time, coin: Coin)
    ensures ReplyOf(b, ScanPool(host, tried, now, coin)) == Choice(Scan(b, host, tried, now, coin))
  {
  }
}
