/** The candidate scan of `Pick` (internal/scoreboard/scoreboard.go:688-819) as a function
    of one board, and the declarative choice it refines. */
module Selection {
  import opened Types
  import StableSort

  /** The random draws one scan may consume: `u` is the probe roll, `pick` the probe index
      before reduction, `tie` the choice an unstable sort makes among equal expiries. */
  datatype Coin = Coin(u: real, pick: nat, tie: nat)

  datatype PickResult = Picked(up: Upstream) | CascadeCooling | PoolExhausted

  /** `pos` is the candidate's place in the pool. */
  datatype Ranked = Ranked(
    up: Upstream,
    basePri: int,
    score: real,
    cooled: bool,
    untilT: Time,
    preferRank: nat,
    pos: nat)

  /** First rule that matches wins. */
  function MatchRule(rules: seq<Rule>, host: Host): Option<Rule> {
    if rules == [] then None
    else if rules[0].matches(host) then Some(rules[0])
    else MatchRule(rules[1..], host)
  }

  function RankIn(rule: Option<Rule>, id: Id): nat {
    if rule.Some? && id in rule.value.preferRank then rule.value.preferRank[id] else 0
  }

  predicate Admits(rule: Option<Rule>, id: Id) {
    rule.None? || !rule.value.force || id in rule.value.preferRank
  }

  /** Cooling entries are those whose expiry is set and after `now`. */
  predicate Cooling(e: Entry, now: Time) {
    e.cooldownUntil != 0 && e.cooldownUntil > now
  }

  function RankedAt(b: Board, host: Host, now: Time, k: nat): Ranked
    requires k < |b.pool|
  {
    var c := b.pool[k];
    var e := EntryOf(b.entries, host, c.up.id);
    Ranked(c.up, c.priority, e.score, Cooling(e, now), e.cooldownUntil,
           RankIn(MatchRule(b.rules, host), c.up.id), k)
  }

  predicate Open(b: Board, host: Host, tried: set<Id>, k: nat)
    requires k < |b.pool|
  {
    b.pool[k].up.id !in tried && Admits(MatchRule(b.rules, host), b.pool[k].up.id)
  }

  /** The open candidates among the first `n` pool entries, in pool order. */
  function Candidates(b: Board, host: Host, tried: set<Id>, now: Time, n: nat): seq<Ranked>
    requires n <= |b.pool|
  {
    if n == 0 then []
    else Candidates(b, host, tried, now, n - 1)
         + (if Open(b, host, tried, n - 1) then [RankedAt(b, host, now, n - 1)] else [])
  }

  /** The elements of `s` whose `cooled` flag is `flag`, in order. */
  function WithCooled(s: seq<Ranked>, flag: bool): seq<Ranked> {
    if s == [] then []
    else WithCooled(s[..|s| - 1], flag) + (if s[|s| - 1].cooled == flag then [s[|s| - 1]] else [])
  }

  /** `sort.SliceStable`'s comparison: preferred first, then score, then priority. */
  predicate Less(a: Ranked, b: Ranked) {
    if a.preferRank != b.preferRank then
      a.preferRank != 0 && (b.preferRank == 0 || a.preferRank < b.preferRank)
    else if a.score != b.score then a.score > b.score
    else a.basePri < b.basePri
  }

  function Pos(a: Ranked): int { a.pos }

  /** The earliest expiry in `s`. */
  function Soonest(s: seq<Ranked>): (t: Time)
    requires s != []
    ensures forall i :: 0 <= i < |s| ==> t <= s[i].untilT
    ensures exists i :: 0 <= i < |s| && s[i].untilT == t
  {
    var last := s[|s| - 1];
    if |s| == 1 then last.untilT
    else
      var t := Soonest(s[..|s| - 1]);
      assert forall i :: 0 <= i < |s| - 1 ==> s[..|s| - 1][i] == s[i];
      if last.untilT < t then last.untilT else t
  }

  /** The elements of `s` that expire at `t`, in order. */
  function Expiring(s: seq<Ranked>, t: Time): (r: seq<Ranked>)
    ensures forall x :: x in r <==> x in s && x.untilT == t
  {
    if s == [] then []
    else
      assert s == s[..|s| - 1] + [s[|s| - 1]];
      Expiring(s[..|s| - 1], t) + (if s[|s| - 1].untilT == t then [s[|s| - 1]] else [])
  }

  /** The elements of `s` with the earliest expiry. */
  function Earliest(s: seq<Ranked>): (r: seq<Ranked>)
    requires s != []
    ensures r != []
    ensures forall x, y :: x in r && y in s ==> x in s && x.untilT <= y.untilT
  {
    var i :| 0 <= i < |s| && s[i].untilT == Soonest(s);
    assert s[i] in Expiring(s, Soonest(s));
    Expiring(s, Soonest(s))
  }

  /** The choice between the two lists: a cooling candidate only when nothing else is left. */
  function Choose(b: Board, eligible: seq<Ranked>, cooled: seq<Ranked>, coin: Coin): PickResult
    requires eligible != [] || cooled != []
  {
    if eligible == [] then
      var soonest := Earliest(cooled);
      Picked(soonest[coin.tie % |soonest|].up)
    else
      StableSort.SortPermutes(Less, eligible);
      var order := StableSort.Sort(Less, eligible);
      if Probes(b, |order|, coin) then Picked(order[1 + coin.pick % (|order| - 1)].up)
      else Picked(order[0].up)
  }

  /** One candidate scan. */
  function Scan(b: Board, host: Host, tried: set<Id>, now: Time, coin: Coin): PickResult {
    var pool := Candidates(b, host, tried, now, |b.pool|);
    if pool == [] then PoolExhausted
    else
      WithCooledSplits(pool);
      Choose(b, WithCooled(pool, false), WithCooled(pool, true), coin)
  }

  predicate Probes(b: Board, eligible: nat, coin: Coin) {
    eligible > 1 && b.cfg.probeChance > 0.0 && coin.u < b.cfg.probeChance
  }

  // ---------------------------------------------------------------- structure of the lists

  lemma {:induction false} WithCooledSplits(s: seq<Ranked>)
    ensures |WithCooled(s, true)| + |WithCooled(s, false)| == |s|
  {
    if s != [] {
      WithCooledSplits(s[..|s| - 1]);
    }
  }

  lemma {:induction false} WithCooledMembers(s: seq<Ranked>, flag: bool)
    ensures forall r :: r in WithCooled(s, flag) <==> r in s && r.cooled == flag
  {
    if s != [] {
      WithCooledMembers(s[..|s| - 1], flag);
      assert s == s[..|s| - 1] + [s[|s| - 1]];
    }
  }

  lemma {:induction false} CandidateMembers(b: Board, host: Host, tried: set<Id>, now: Time, n: nat)
    requires n <= |b.pool|
    ensures forall k :: 0 <= k < n && Open(b, host, tried, k) ==>
      RankedAt(b, host, now, k) in Candidates(b, host, tried, now, n)
    ensures forall r :: r in Candidates(b, host, tried, now, n) ==>
      r.pos < n && Open(b, host, tried, r.pos) && r == RankedAt(b, host, now, r.pos)
  {
    if n != 0 {
      CandidateMembers(b, host, tried, now, n - 1);
    }
  }

  ghost predicate InPoolOrder(s: seq<Ranked>) {
    forall i, j :: 0 <= i < j < |s| ==> s[i].pos < s[j].pos
  }

  lemma {:induction false} CandidatesInPoolOrder(b: Board, host: Host, tried: set<Id>, now: Time, n: nat)
    requires n <= |b.pool|
    ensures InPoolOrder(Candidates(b, host, tried, now, n))
  {
    if n != 0 {
      CandidatesInPoolOrder(b, host, tried, now, n - 1);
      CandidateMembers(b, host, tried, now, n - 1);
      var front := Candidates(b, host, tried, now, n - 1);
      assert forall i :: 0 <= i < |front| ==> front[i] in front;
    }
  }

  lemma {:induction false} WithCooledInPoolOrder(s: seq<Ranked>, flag: bool)
    requires InPoolOrder(s)
    ensures InPoolOrder(WithCooled(s, flag))
  {
    if s != [] {
      var front := s[..|s| - 1];
      WithCooledInPoolOrder(front, flag);
      WithCooledMembers(front, flag);
      var r := WithCooled(front, flag);
      assert forall i :: 0 <= i < |r| ==> r[i] in r && r[i] in front;
    }
  }

  lemma LessIsStrictWeak()
    ensures StableSort.StrictWeak(Less)
  {
  }

  // ---------------------------------------------------------------- the declarative choice

  /** Pool entry `k` may serve the request and is not cooling. */
  predicate Eligible(b: Board, host: Host, tried: set<Id>, now: Time, k: nat) {
    k < |b.pool| && Open(b, host, tried, k) && !RankedAt(b, host, now, k).cooled
  }

  /** Entry `j` is to be dialled before entry `k`: preferred position (unlisted last), then
      higher score, then lower priority, then pool order. */
  predicate Precedes(b: Board, host: Host, j: nat, k: nat)
    requires j < |b.pool| && k < |b.pool|
  {
    var rule := MatchRule(b.rules, host);
    var rj, rk := RankIn(rule, b.pool[j].up.id), RankIn(rule, b.pool[k].up.id);
    var sj := EntryOf(b.entries, host, b.pool[j].up.id).score;
    var sk := EntryOf(b.entries, host, b.pool[k].up.id).score;
    if rj != rk then rj != 0 && (rk == 0 || rj < rk)
    else if sj != sk then sj > sk
    else if b.pool[j].priority != b.pool[k].priority then b.pool[j].priority < b.pool[k].priority
    else j < k
  }

  lemma PrecedesIsTotal(b: Board, host: Host, j: nat, k: nat)
    requires j < |b.pool| && k < |b.pool| && j != k
    ensures Precedes(b, host, j, k) <==> !Precedes(b, host, k, j)
  {
  }

  /** Entry `k` is the one a scan without a probe returns. */
  ghost predicate Best(b: Board, host: Host, tried: set<Id>, now: Time, k: nat) {
    && Eligible(b, host, tried, now, k)
    && forall j :: 0 <= j < |b.pool| && j != k && Eligible(b, host, tried, now, j) ==> Precedes(b, host, k, j)
  }

  lemma BestIsUnique(b: Board, host: Host, tried: set<Id>, now: Time, j: nat, k: nat)
    requires Best(b, host, tried, now, j) && Best(b, host, tried, now, k)
    ensures j == k
  {
    if j != k {
      PrecedesIsTotal(b, host, j, k);
    }
  }

  /** The sorted eligible list: position `i` holds pool entry `Order(...)[i].pos`. */
  function Order(b: Board, host: Host, tried: set<Id>, now: Time): seq<Ranked> {
    StableSort.Sort(Less, WithCooled(Candidates(b, host, tried, now, |b.pool|), false))
  }

  lemma OrderMembers(b: Board, host: Host, tried: set<Id>, now: Time, r: Ranked)
    ensures r in Order(b, host, tried, now)
      <==> Eligible(b, host, tried, now, r.pos) && r == RankedAt(b, host, now, r.pos)
  {
    var c := Candidates(b, host, tried, now, |b.pool|);
    CandidateMembers(b, host, tried, now, |b.pool|);
    WithCooledMembers(c, false);
    StableSort.SortPermutes(Less, WithCooled(c, false));
    StableSort.InMultiset(Order(b, host, tried, now), WithCooled(c, false), r);
  }

  lemma OrderPrecedes(b: Board, host: Host, tried: set<Id>, now: Time, i: nat, j: nat)
    requires i < j < |Order(b, host, tried, now)|
    ensures var s := Order(b, host, tried, now);
      && s[i].pos < |b.pool| && s[j].pos < |b.pool| && s[i].pos != s[j].pos
      && Precedes(b, host, s[i].pos, s[j].pos)
  {
    var c := Candidates(b, host, tried, now, |b.pool|);
    var s := Order(b, host, tried, now);
    CandidatesInPoolOrder(b, host, tried, now, |b.pool|);
    WithCooledInPoolOrder(c, false);
    LessIsStrictWeak();
    StableSort.SortOrders(Less, Pos, WithCooled(c, false));
    assert StableSort.Before(Less, Pos, s[i], s[j]);
    OrderMembers(b, host, tried, now, s[i]);
    OrderMembers(b, host, tried, now, s[j]);
  }

  /** The sorted list holds exactly the eligible entries, each once, in dialling order. */
  lemma OrderMeaning(b: Board, host: Host, tried: set<Id>, now: Time)
    ensures var s := Order(b, host, tried, now);
      && (forall i :: 0 <= i < |s| ==>
            Eligible(b, host, tried, now, s[i].pos) && s[i] == RankedAt(b, host, now, s[i].pos))
      && (forall i, j :: 0 <= i < j < |s| ==> s[i].pos != s[j].pos && Precedes(b, host, s[i].pos, s[j].pos))
      && (forall k :: Eligible(b, host, tried, now, k) ==> exists i :: 0 <= i < |s| && s[i].pos == k)
  {
    var s := Order(b, host, tried, now);
    forall i | 0 <= i < |s|
      ensures Eligible(b, host, tried, now, s[i].pos) && s[i] == RankedAt(b, host, now, s[i].pos)
    {
      OrderMembers(b, host, tried, now, s[i]);
    }
    forall i, j | 0 <= i < j < |s|
      ensures s[i].pos != s[j].pos && Precedes(b, host, s[i].pos, s[j].pos)
    {
      OrderPrecedes(b, host, tried, now, i, j);
    }
    forall k | Eligible(b, host, tried, now, k)
      ensures exists i :: 0 <= i < |s| && s[i].pos == k
    {
      OrderMembers(b, host, tried, now, RankedAt(b, host, now, k));
      var i :| 0 <= i < |s| && s[i] == RankedAt(b, host, now, k);
    }
  }

  /** A scan is exhausted exactly when no pool entry is open. */
  lemma ScanExhausted(b: Board, host: Host, tried: set<Id>, now: Time, coin: Coin)
    ensures Scan(b, host, tried, now, coin) != CascadeCooling
    ensures Scan(b, host, tried, now, coin) == PoolExhausted
      <==> forall k :: 0 <= k < |b.pool| ==> !Open(b, host, tried, k)
  {
    CandidateMembers(b, host, tried, now, |b.pool|);
    var c := Candidates(b, host, tried, now, |b.pool|);
    if c != [] {
      assert c[0] in c;
    }
  }

  /** When every open entry cools, the scan returns one that stops cooling first, whatever
      the rule's ranking and the scores say. */
  lemma ScanAllCooled(b: Board, host: Host, tried: set<Id>, now: Time, coin: Coin) returns (k: nat)
    requires exists j :: 0 <= j < |b.pool| && Open(b, host, tried, j)
    requires forall j :: !Eligible(b, host, tried, now, j)
    ensures k < |b.pool| && Open(b, host, tried, k)
    ensures Scan(b, host, tried, now, coin) == Picked(b.pool[k].up)
    ensures forall j :: 0 <= j < |b.pool| && Open(b, host, tried, j) ==>
      EntryOf(b.entries, host, b.pool[k].up.id).cooldownUntil
        <= EntryOf(b.entries, host, b.pool[j].up.id).cooldownUntil
  {
    var c := Candidates(b, host, tried, now, |b.pool|);
    CandidateMembers(b, host, tried, now, |b.pool|);
    NothingEligible(b, host, tried, now);
    var j :| 0 <= j < |b.pool| && Open(b, host, tried, j);
    assert RankedAt(b, host, now, j) in c;
    WithCooledMembers(c, true);
    var cooled := WithCooled(c, true);
    assert RankedAt(b, host, now, j) in cooled;
    var soonest := Earliest(cooled);
    var r := soonest[coin.tie % |soonest|];
    assert r in soonest;
    k := r.pos;
    forall j | 0 <= j < |b.pool| && Open(b, host, tried, j)
      ensures r.untilT <= EntryOf(b.entries, host, b.pool[j].up.id).cooldownUntil
    {
      assert RankedAt(b, host, now, j) in cooled;
    }
  }

  /** When nothing is eligible every candidate is on the cooled list. */
  lemma NothingEligible(b: Board, host: Host, tried: set<Id>, now: Time)
    requires forall j :: !Eligible(b, host, tried, now, j)
    ensures WithCooled(Candidates(b, host, tried, now, |b.pool|), false) == []
    ensures forall j :: 0 <= j < |b.pool| && Open(b, host, tried, j) ==> RankedAt(b, host, now, j).cooled
  {
    var c := Candidates(b, host, tried, now, |b.pool|);
    CandidateMembers(b, host, tried, now, |b.pool|);
    WithCooledMembers(c, false);
    var e := WithCooled(c, false);
    if e != [] {
      assert e[0] in e;
      assert Eligible(b, host, tried, now, e[0].pos);
    }
    forall j | 0 <= j < |b.pool| && Open(b, host, tried, j)
      ensures RankedAt(b, host, now, j).cooled
    {
      assert !Eligible(b, host, tried, now, j);
    }
  }

  /** Without a probe the scan returns the unique best eligible entry. */
  lemma ScanBest(b: Board, host: Host, tried: set<Id>, now: Time, coin: Coin) returns (k: nat)
    requires exists j :: Eligible(b, host, tried, now, j)
    requires !Probes(b, |Order(b, host, tried, now)|, coin)
    ensures Best(b, host, tried, now, k)
    ensures Scan(b, host, tried, now, coin) == Picked(b.pool[k].up)
  {
    OrderMeaning(b, host, tried, now);
    var s := Order(b, host, tried, now);
    var j :| Eligible(b, host, tried, now, j);
    k := s[0].pos;
    CandidateMembers(b, host, tried, now, |b.pool|);
    StableSort.SortPermutes(Less, WithCooled(Candidates(b, host, tried, now, |b.pool|), false));
  }

  /** A probe returns an eligible entry other than the best one; every such entry is the
      answer to exactly one reduced draw. */
  lemma ScanProbe(b: Board, host: Host, tried: set<Id>, now: Time, coin: Coin) returns (k: nat)
    requires Probes(b, |Order(b, host, tried, now)|, coin)
    ensures Eligible(b, host, tried, now, k) && !Best(b, host, tried, now, k)
    ensures Scan(b, host, tried, now, coin) == Picked(b.pool[k].up)
    ensures k == Order(b, host, tried, now)[1 + coin.pick % (|Order(b, host, tried, now)| - 1)].pos
  {
    OrderMeaning(b, host, tried, now);
    var s := Order(b, host, tried, now);
    StableSort.SortPermutes(Less, WithCooled(Candidates(b, host, tried, now, |b.pool|), false));
    var i := 1 + coin.pick % (|s| - 1);
    k := s[i].pos;
    PrecedesIsTotal(b, host, s[0].pos, k);
  }

  lemma ProbeDrawIsBijective(b: Board, host: Host, tried: set<Id>, now: Time, k: nat) returns (d: nat)
    requires Eligible(b, host, tried, now, k) && !Best(b, host, tried, now, k)
    ensures |Order(b, host, tried, now)| > 1
    ensures d < |Order(b, host, tried, now)| - 1
    ensures Order(b, host, tried, now)[1 + d].pos == k
    ensures forall i :: 1 <= i < |Order(b, host, tried, now)| && i != 1 + d ==>
      Order(b, host, tried, now)[i].pos != k
  {
    OrderMeaning(b, host, tried, now);
    var s := Order(b, host, tried, now);
    var i :| 0 <= i < |s| && s[i].pos == k;
    assert i != 0;
    d := i - 1;
  }
}
