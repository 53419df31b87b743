/** The pool composer (cmd/tunnelsmith/main.go:527-704) and the hot-reload's pool decision
    (cmd/tunnelsmith/main.go:943-1085): the running pool is the merge of what was last
    committed, whatever succeeds, fails or reloads in between. */
module Composing {
  import opened Types
  import opened Regions
  import opened Invariants
  import opened Pool
  import opened Scoreboards
  import StableSort

  /** `spec` stands for kind, address and credentials. */
  datatype UpstreamConfig = UpstreamConfig(id: Id, spec: string, priority: Option<int>)
  {
    function PriorityValue(): int { if priority.Some? then priority.value else 100 }
  }

  datatype Block = Block(idPrefix: string, current: seq<UpstreamConfig>)

  /** `buildable` stands for "`upstream.New` accepts the config". */
  datatype Composition = Composition(
    statics: seq<UpstreamConfig>,
    blocks: seq<Block>,
    retryCap: int,
    buildable: UpstreamConfig -> bool)

  datatype UpdateError = NoBlock | DuplicateIds | CannotBuild | BadPool

  datatype UpdateResult = Unchanged | Applied | Failed(error: UpdateError)

  /** Every block's expansion, in declaration order. */
  function Expansions(blocks: seq<Block>): seq<UpstreamConfig> {
    if blocks == [] then [] else Expansions(blocks[..|blocks| - 1]) + blocks[|blocks| - 1].current
  }

  function Merged(c: Composition): seq<UpstreamConfig> { c.statics + Expansions(c.blocks) }

  function EntryFor(u: UpstreamConfig): PoolEntry { PoolEntry(Upstream(u.id, u.spec), u.PriorityValue()) }

  function PoolEntries(us: seq<UpstreamConfig>): seq<PoolEntry> {
    seq(|us|, i requires 0 <= i < |us| => EntryFor(us[i]))
  }

  ghost predicate Unique(us: seq<UpstreamConfig>) {
    forall i, j :: 0 <= i < j < |us| ==> us[i].id != us[j].id
  }

  ghost predicate Names(us: seq<UpstreamConfig>, id: Id) {
    exists i :: 0 <= i < |us| && us[i].id == id
  }

  /** The first block with this prefix, or -1. */
  function BlockIndex(blocks: seq<Block>, idPrefix: string): (i: int)
    ensures -1 <= i < |blocks|
    ensures i >= 0 ==> blocks[i].idPrefix == idPrefix
    ensures forall j :: 0 <= j < |blocks| && blocks[j].idPrefix == idPrefix ==> 0 <= i <= j
  {
    if blocks == [] then -1
    else
      var i := BlockIndex(blocks[..|blocks| - 1], idPrefix);
      if i >= 0 then i
      else if blocks[|blocks| - 1].idPrefix == idPrefix then |blocks| - 1
      else
        assert forall j :: 0 <= j < |blocks| - 1 ==> blocks[..|blocks| - 1][j] == blocks[j];
        -1
  }

  function WithBlock(c: Composition, i: nat, next: seq<UpstreamConfig>): Composition
    requires i < |c.blocks|
  {
    c.(blocks := c.blocks[i := c.blocks[i].(current := next)])
  }

  /** The pool a composition stands for. */
  function PoolOf(c: Composition): seq<PoolEntry> {
    StableSort.Sort(ByPriority, PoolEntries(Merged(c)))
  }

  ghost function Verdict(c: Composition): UpdateResult {
    if !Unique(Merged(c)) then Failed(DuplicateIds)
    else if exists i :: 0 <= i < |Merged(c)| && !c.buildable(Merged(c)[i]) then Failed(CannotBuild)
    else if Merged(c) == [] || c.retryCap < 1 then Failed(BadPool)
    else Applied
  }

  datatype Outcome = Outcome(result: UpdateResult, composition: Composition, board: Board)

  /** `Update`: a no-op, a committed swap, or a failure that commits nothing. */
  ghost function Update(c: Composition, b: Board, idPrefix: string, next: seq<UpstreamConfig>): Outcome {
    var i := BlockIndex(c.blocks, idPrefix);
    if i < 0 then Outcome(Failed(NoBlock), c, b)
    else if c.blocks[i].current == next then Outcome(Unchanged, c, b)
    else
      var c' := WithBlock(c, i, next);
      if Verdict(c') == Applied then
        Outcome(Applied, c', Apply(b, SwapPool(PoolOf(c'), c.retryCap)))
      else Outcome(Verdict(c'), c, b)
  }

  /** The running pool is the stable priority sort of the merged configuration, with unique ids. */
  ghost predicate InStep(c: Composition, b: Board) {
    && Verdict(c) == Applied
    && b.pool == PoolOf(c) && b.retryCap == c.retryCap
    && PinsKnown(b)
  }

  // ---------------------------------------------------------------- the object

  method AssertUniqueIds(us: seq<UpstreamConfig>) returns (ok: bool)
    ensures ok <==> Unique(us)
  {
    var seen: map<Id, nat> := map[];
    ok := true;
    for i := 0 to |us|
      invariant forall id :: id in seen <==> exists j :: 0 <= j < i && us[j].id == id
      invariant ok <==> Unique(us[..i])
    {
      var id := us[i].id;
      assert forall j :: 0 <= j < i ==> us[..i + 1][j] == us[..i][j] == us[j];
      if id in seen {
        var j :| 0 <= j < i && us[j].id == id;
        assert us[..i + 1][j].id == us[..i + 1][i].id;
        ok := false;
      } else {
        seen := seen[id := i];
      }
    }
    assert us[..|us|] == us;
  }

  method Build(us: seq<UpstreamConfig>, buildable: UpstreamConfig -> bool) returns (ok: bool, entries: seq<PoolEntry>)
    ensures ok <==> forall i :: 0 <= i < |us| ==> buildable(us[i])
    ensures ok ==> entries == PoolEntries(us)
  {
    entries := [];
    for i := 0 to |us|
      invariant forall j :: 0 <= j < i ==> buildable(us[j])
      invariant entries == PoolEntries(us[..i])
    {
      if !buildable(us[i]) {
        return false, [];
      }
      entries := entries + [EntryFor(us[i])];
      assert us[..i + 1] == us[..i] + [us[i]];
    }
    assert us[..|us|] == us;
    return true, entries;
  }

  /** The merged view with `next` in place of block `idx`, without touching the blocks. */
  method Merge(statics: seq<UpstreamConfig>, blocks: seq<Block>, idx: nat, next: seq<UpstreamConfig>)
    returns (merged: seq<UpstreamConfig>)
    requires idx < |blocks|
    ensures merged == statics + Expansions(blocks[idx := blocks[idx].(current := next)])
  {
    ghost var target := blocks[idx := blocks[idx].(current := next)];
    merged := statics;
    for i := 0 to |blocks|
      invariant merged == statics + Expansions(target[..i])
    {
      assert target[..i + 1][..i] == target[..i];
      if i == idx {
        merged := merged + next;
      } else {
        merged := merged + blocks[i].current;
      }
    }
    assert target[..|blocks|] == target;
  }

  class PoolComposer {
    const statics: seq<UpstreamConfig>
    var blocks: seq<Block>
    const sb: Scoreboard
    const retryCap: int
    const buildable: UpstreamConfig -> bool

    ghost function State(): Composition
      reads this
    {
      Composition(statics, blocks, retryCap, buildable)
    }

    ghost predicate Valid()
      reads this, sb
    {
      sb.Valid() && InStep(State(), sb.State())
    }

    /** Built after the scoreboard, whose startup pool comes from the same merge. */
    constructor (statics: seq<UpstreamConfig>, blocks: seq<Block>, sb: Scoreboard, retryCap: int,
                 buildable: UpstreamConfig -> bool)
      requires sb.Valid() && InStep(Composition(statics, blocks, retryCap, buildable), sb.State())
      ensures Valid() && this.sb == sb && State() == Composition(statics, blocks, retryCap, buildable)
    {
      this.statics := statics;
      this.blocks := blocks;
      this.sb := sb;
      this.retryCap := retryCap;
      this.buildable := buildable;
    }

    /** The build half of `Update`, which touches no state: the pool with `next` in block `idx`,
        or why there is none. */
    method Prepare(idx: nat, next: seq<UpstreamConfig>) returns (verdict: UpdateResult, pool: seq<PoolEntry>)
      requires idx < |blocks|
      ensures verdict == Verdict(WithBlock(State(), idx, next))
      ensures verdict.Applied? ==> pool == PoolOf(WithBlock(State(), idx, next))
    {
      var merged := Merge(statics, blocks, idx, next);
      assert merged == Merged(WithBlock(State(), idx, next));
      var unique := AssertUniqueIds(merged);
      if !unique {
        return Failed(DuplicateIds), [];
      }
      var built, entries := Build(merged, buildable);
      if !built {
        return Failed(CannotBuild), [];
      }
      var newPool := NewPool(entries, retryCap);
      if newPool.PoolErr? {
        return Failed(BadPool), [];
      }
      return Applied, newPool.entries;
    }

    method FindBlock(idPrefix: string) returns (idx: int)
      ensures idx == BlockIndex(blocks, idPrefix)
    {
      for i := 0 to |blocks|
        invariant forall j :: 0 <= j < i ==> blocks[j].idPrefix != idPrefix
      {
        if blocks[i].idPrefix == idPrefix {
          return i;
        }
      }
      return -1;
    }

    /** `Update`. */
    method UpdateBlock(idPrefix: string, next: seq<UpstreamConfig>) returns (result: UpdateResult)
      requires Valid()
      modifies this`blocks, sb
      ensures Outcome(result, State(), sb.State()) == Update(old(State()), old(sb.State()), idPrefix, next)
      ensures Valid()
    {
      UpdateKeepsInStep(State(), sb.State(), idPrefix, next);
      var idx := FindBlock(idPrefix);
      if idx == -1 {
        return Failed(NoBlock);
      }
      if blocks[idx].current == next {
        return Unchanged;
      }
      var pool;
      result, pool := Prepare(idx, next);
      if result.Failed? {
        return result;
      }
      sb.ReplacePool(pool, retryCap);
      blocks := blocks[idx := blocks[idx].(current := next)];
      return Applied;
    }
  }

  // ---------------------------------------------------------------- the invariant

  lemma PoolOfNames(c: Composition, id: Id)
    ensures HasId(PoolOf(c), id) <==> Names(Merged(c), id)
  {
    var e := PoolEntries(Merged(c));
    var p := PoolOf(c);
    StableSort.SortPermutes(ByPriority, e);
    if HasId(p, id) {
      var k :| 0 <= k < |p| && p[k].up.id == id;
      assert p[k] in p;
      StableSort.InMultiset(p, e, p[k]);
      var i :| 0 <= i < |e| && e[i] == p[k];
      assert Merged(c)[i].id == id;
    }
    if Names(Merged(c), id) {
      var i :| 0 <= i < |Merged(c)| && Merged(c)[i].id == id;
      assert e[i] in e;
      StableSort.InMultiset(p, e, e[i]);
      var k :| 0 <= k < |p| && p[k] == e[i];
    }
  }

  /** An update keeps the pool in step with the committed blocks; a failed one changes nothing
      and leaves the same call to try again. */
  lemma UpdateKeepsInStep(c: Composition, b: Board, idPrefix: string, next: seq<UpstreamConfig>)
    requires InStep(c, b)
    ensures var o := Update(c, b, idPrefix, next);
      && InStep(o.composition, o.board)
      && (!o.result.Applied? ==> o.composition == c && o.board == b)
      && (o.result.Failed? && BlockIndex(c.blocks, idPrefix) >= 0 ==>
            c.blocks[BlockIndex(c.blocks, idPrefix)].current != next)
      && (o.result.Applied? || o.result.Unchanged? ==>
            o.composition.blocks[BlockIndex(c.blocks, idPrefix)].current == next)
  {
    var i := BlockIndex(c.blocks, idPrefix);
    if i >= 0 {
      var c' := WithBlock(c, i, next);
      StepKeepsPinsKnown(b, SwapPool(PoolOf(c'), c.retryCap));
      assert Verdict(c') == Applied ==> c'.retryCap == c.retryCap;
    }
  }

  ghost predicate NoSwaps(steps: seq<Step>) { forall k :: 0 <= k < |steps| ==> !steps[k].SwapPool? }

  /** Regions other than a pool swap leave the pool in step. */
  lemma {:induction false} OthersKeepInStep(c: Composition, b: Board, steps: seq<Step>)
    requires InStep(c, b) && NoSwaps(steps)
    ensures InStep(c, Run(b, steps))
    decreases |steps|
  {
    if steps != [] {
      assert !steps[0].SwapPool?;
      StepKeepsPinsKnown(b, steps[0]);
      assert forall k :: 0 <= k < |steps| - 1 ==> steps[1..][k] == steps[k + 1];
      OthersKeepInStep(c, Apply(b, steps[0]), steps[1..]);
    }
  }

  /** `pool` is what is configured: for each upstream one entry with its id, spec and its
      priority, 100 when it names none; lowest priority first, configured order among equals. */
  ghost predicate IsPoolOf(pool: seq<PoolEntry>, us: seq<UpstreamConfig>) {
    exists entries: seq<PoolEntry> ::
      && |entries| == |us|
      && (forall i :: 0 <= i < |us| ==>
            && entries[i].up == Upstream(us[i].id, us[i].spec)
            && entries[i].priority == match us[i].priority { case Some(n) => n case None => 100 })
      && multiset(pool) == multiset(entries)
      && (forall i, j :: 0 <= i < j < |pool| ==> pool[i].priority <= pool[j].priority)
      && (forall e :: StableSort.Ties(ByPriority, e, pool) == StableSort.Ties(ByPriority, e, entries))
  }

  lemma SortedIsPoolOf(us: seq<UpstreamConfig>)
    ensures IsPoolOf(StableSort.Sort(ByPriority, PoolEntries(us)), us)
  {
    var entries := PoolEntries(us);
    StableSort.SortPermutes(ByPriority, entries);
    StableSort.SortHasNoDescent(ByPriority, entries);
    forall e ensures StableSort.Ties(ByPriority, e, StableSort.Sort(ByPriority, entries)) == StableSort.Ties(ByPriority, e, entries) {
      StableSort.SortKeepsTies(ByPriority, e, entries);
    }
  }

  /** A pool in step is that of the statics and then each block's committed expansion, under
      the composition's cap, and names no id twice. */
  lemma InStepMeans(c: Composition, b: Board)
    requires InStep(c, b)
    ensures IsPoolOf(b.pool, c.statics + Expansions(c.blocks)) && b.retryCap == c.retryCap && UniqueIds(b.pool)
  {
    SortedIsPoolOf(Merged(c));
    PoolOfUnique(c);
  }

  /** When an update applies, changes nothing, or fails. */
  lemma UpdateMeans(c: Composition, b: Board, idPrefix: string, next: seq<UpstreamConfig>)
    ensures var r, i := Update(c, b, idPrefix, next).result, BlockIndex(c.blocks, idPrefix);
      && (r == Failed(NoBlock) <==> forall k :: 0 <= k < |c.blocks| ==> c.blocks[k].idPrefix != idPrefix)
      && (r == Unchanged <==> i >= 0 && c.blocks[i].current == next)
      && (r == Applied <==>
            && i >= 0 && c.blocks[i].current != next
            && var us := c.statics + Expansions(c.blocks[..i]) + next + Expansions(c.blocks[i + 1..]);
               && (forall m, n :: 0 <= m < n < |us| ==> us[m].id != us[n].id)
               && (forall m :: 0 <= m < |us| ==> c.buildable(us[m]))
               && |us| > 0 && c.retryCap > 0)
  {
    var i := BlockIndex(c.blocks, idPrefix);
    if i >= 0 {
      MergedWithBlock(c, i, next);
      VerdictMeans(WithBlock(c, i, next));
    }
  }

  lemma MergedWithBlock(c: Composition, i: nat, next: seq<UpstreamConfig>)
    requires i < |c.blocks|
    ensures Merged(WithBlock(c, i, next)) == c.statics + Expansions(c.blocks[..i]) + next + Expansions(c.blocks[i + 1..])
  {
    var blocks := WithBlock(c, i, next).blocks;
    ExpansionsAt(blocks, i);
    assert blocks[..i] == c.blocks[..i] && blocks[i + 1..] == c.blocks[i + 1..];
  }

  lemma VerdictMeans(c: Composition)
    ensures Verdict(c) != Failed(NoBlock) && Verdict(c) != Unchanged
    ensures var us := Merged(c);
      Verdict(c) == Applied <==>
        && (forall m, n :: 0 <= m < n < |us| ==> us[m].id != us[n].id)
        && (forall m :: 0 <= m < |us| ==> c.buildable(us[m]))
        && |us| > 0 && c.retryCap > 0
  {
  }

  // ---------------------------------------------------------------- startup

  /** A scoreboard built on a composition's pool is in step with it. */
  lemma StartInStep(c: Composition, cfg: Config, rules: seq<Rule>)
    requires Verdict(c) == Applied
    ensures InStep(c, Fresh(PoolOf(c), c.retryCap, cfg, rules))
  {
  }

  method MergeAll(statics: seq<UpstreamConfig>, blocks: seq<Block>) returns (merged: seq<UpstreamConfig>)
    ensures merged == statics + Expansions(blocks)
  {
    merged := statics;
    for i := 0 to |blocks|
      invariant merged == statics + Expansions(blocks[..i])
    {
      assert blocks[..i + 1][..i] == blocks[..i];
      merged := merged + blocks[i].current;
    }
    assert blocks[..|blocks|] == blocks;
  }

  /** Startup: the pool is built from the same merge the composer is then seeded with, while
      `traffic` (a snapshot load, the first requests) already runs on the scoreboard. It
      fails for exactly the merges an update would refuse. */
  method Startup(c: Composition, cfg: Config, rules: seq<Rule>, traffic: seq<Step>)
    returns (result: UpdateResult, composer: PoolComposer?)
    requires NoSwaps(traffic)
    ensures result == Verdict(c)
    ensures composer != null <==> result == Applied
    ensures composer != null ==>
      && fresh(composer) && fresh(composer.sb) && composer.Valid() && composer.State() == c
      && composer.sb.State() == Run(Fresh(PoolOf(c), c.retryCap, cfg, rules), traffic)
  {
    var merged := MergeAll(c.statics, c.blocks);
    if merged == [] {
      return Failed(BadPool), null;
    }
    var unique := AssertUniqueIds(merged);
    if !unique {
      return Failed(DuplicateIds), null;
    }
    var built, entries := Build(merged, c.buildable);
    if !built {
      return Failed(CannotBuild), null;
    }
    var pool := NewPool(entries, c.retryCap);
    if pool.PoolErr? {
      return Failed(BadPool), null;
    }
    var sb := new Scoreboard(pool.entries, c.retryCap, cfg, rules);
    StartInStep(c, cfg, rules);
    sb.Interleave(traffic);
    OthersKeepInStep(c, Fresh(PoolOf(c), c.retryCap, cfg, rules), traffic);
    composer := new PoolComposer(c.statics, c.blocks, sb, c.retryCap, c.buildable);
    return Applied, composer;
  }

  // ---------------------------------------------------------------- hot reload

  /** The parsed new file: `rules` is absent when the rule set does not compile. */
  datatype NewConfig = NewConfig(
    tuning: Config,
    rules: Option<seq<Rule>>,
    upstreams: seq<UpstreamConfig>,
    hasPools: bool,
    retryCap: int,
    buildable: UpstreamConfig -> bool)

  datatype ReloadResult = Reloaded | RuleCompileFailed | UnknownPreferIds | PoolSwapFailed

  /** `CheckPreferIDs` against the projected ids. */
  ghost predicate Resolvable(rules: seq<Rule>, known: iset<Id>) {
    forall r, i :: 0 <= r < |rules| && 0 <= i < |rules[r].prefer| ==> rules[r].prefer[i] in known
  }

  ghost function ProjectedIds(b: Board, n: NewConfig, runningHasPool: bool): iset<Id> {
    if runningHasPool || n.hasPools then iset id | HasId(b.pool, id) else iset id | Names(n.upstreams, id)
  }

  datatype ReloadOutcome = ReloadOutcome(result: ReloadResult, board: Board)

  ghost predicate Swappable(n: NewConfig) {
    n.upstreams != [] && n.retryCap >= 1 && forall i :: 0 <= i < |n.upstreams| ==> n.buildable(n.upstreams[i])
  }

  /** What `config.Load` has checked of a file before `reload` goes on with it: without pool
      blocks there is an upstream, every upstream is of a known kind with a usable timeout,
      and the retry cap is at least one. */
  ghost predicate Loadable(n: NewConfig) { n.hasPools || Swappable(n) }

  /** What others run between the reload's own regions. */
  datatype ReloadTurn = ReloadTurn(beforeTune: seq<Step>, beforeSwap: seq<Step>, beforeRoute: seq<Step>)

  /** `reload`: validate against the ids listed first, install the tuning, swap the pool
      unless pool blocks are in play, install the rules. */
  ghost function Reload(b: Board, n: NewConfig, runningHasPool: bool, t: ReloadTurn): ReloadOutcome {
    if n.rules.None? then ReloadOutcome(RuleCompileFailed, b)
    else if !Resolvable(n.rules.value, ProjectedIds(b, n, runningHasPool)) then ReloadOutcome(UnknownPreferIds, b)
    else
      var tuned := Apply(Run(b, t.beforeTune), Retune(n.tuning));
      if runningHasPool || n.hasPools then
        ReloadOutcome(Reloaded, Apply(Run(tuned, t.beforeRoute), Reroute(n.rules.value)))
      else if !Swappable(n) then ReloadOutcome(PoolSwapFailed, tuned)
      else
        var swapped := Apply(Run(tuned, t.beforeSwap), SwapPool(NewPoolOf(n), n.retryCap));
        ReloadOutcome(Reloaded, Apply(Run(swapped, t.beforeRoute), Reroute(n.rules.value)))
  }

  function NewPoolOf(n: NewConfig): seq<PoolEntry> {
    StableSort.Sort(ByPriority, PoolEntries(n.upstreams))
  }

  method CheckPreferIds(rules: seq<Rule>, known: set<Id>) returns (ok: bool)
    ensures ok <==> Resolvable(rules, iset id | id in known)
  {
    ok := true;
    for r := 0 to |rules|
      invariant ok <==> Resolvable(rules[..r], iset id | id in known)
    {
      assert rules[..r + 1] == rules[..r] + [rules[r]];
      var all := true;
      for i := 0 to |rules[r].prefer|
        invariant all <==> forall j :: 0 <= j < i ==> rules[r].prefer[j] in known
      {
        if rules[r].prefer[i] !in known {
          all := false;
        }
      }
      ghost var front := rules[..r];
      ghost var now := rules[..r + 1];
      assert now[r] == rules[r] && forall k :: 0 <= k < r ==> now[k] == front[k];
      if !all {
        var j :| 0 <= j < |rules[r].prefer| && rules[r].prefer[j] !in known;
        assert now[r].prefer[j] !in known;
        assert !Resolvable(now, iset id | id in known);
      }
      ok := ok && all;
    }
    assert rules[..|rules|] == rules;
  }

  method IdSet(us: seq<UpstreamConfig>) returns (ids: set<Id>)
    ensures forall id :: id in ids <==> Names(us, id)
  {
    ids := {};
    for i := 0 to |us|
      invariant forall id :: id in ids <==> exists j :: 0 <= j < i && us[j].id == id
    {
      ids := ids + {us[i].id};
    }
  }

  method LiveIdSet(sb: Scoreboard) returns (ids: set<Id>)
    ensures forall id :: id in ids <==> HasId(sb.poolEntries, id)
  {
    var list := sb.PoolIds();
    ids := {};
    for i := 0 to |list|
      invariant forall id :: id in ids <==> exists j :: 0 <= j < i && sb.poolEntries[j].up.id == id
    {
      ids := ids + {list[i]};
    }
  }

  method ReloadConfig(sb: Scoreboard, n: NewConfig, runningHasPool: bool, t: ReloadTurn) returns (result: ReloadResult)
    requires sb.Valid()
    modifies sb
    ensures sb.Valid() && ReloadOutcome(result, sb.State()) == Reload(old(sb.State()), n, runningHasPool, t)
  {
    if n.rules.None? {
      return RuleCompileFailed;
    }
    var projected;
    if runningHasPool || n.hasPools {
      projected := LiveIdSet(sb);
    } else {
      projected := IdSet(n.upstreams);
    }
    assert (iset id | id in projected) == ProjectedIds(sb.State(), n, runningHasPool);
    var ok := CheckPreferIds(n.rules.value, projected);
    if !ok {
      return UnknownPreferIds;
    }
    sb.Interleave(t.beforeTune);
    sb.Reload(n.tuning);
    if !(runningHasPool || n.hasPools) {
      var built, entries := Build(n.upstreams, n.buildable);
      if !built || entries == [] {
        return PoolSwapFailed;
      }
      var pool := NewPool(entries, n.retryCap);
      if pool.PoolErr? {
        return PoolSwapFailed;
      }
      sb.Interleave(t.beforeSwap);
      sb.ReplacePool(pool.entries, n.retryCap);
    }
    sb.Interleave(t.beforeRoute);
    sb.ReplaceRules(n.rules.value);
    return Reloaded;
  }

  /** While a pool block is in play a reload swaps no pool: it is its two regions, so the
      composer's pool stays in step. */
  lemma ReloadKeepsInStep(c: Composition, b: Board, n: NewConfig, t: ReloadTurn)
    requires InStep(c, b) && NoSwaps(t.beforeTune) && NoSwaps(t.beforeRoute)
    ensures InStep(c, Reload(b, n, true, t).board)
    ensures Reload(b, n, true, t).result.Reloaded? ==>
      Reload(b, n, true, t).board
        == Run(b, t.beforeTune + [Retune(n.tuning)] + t.beforeRoute + [Reroute(n.rules.value)])
  {
    if Reload(b, n, true, t).result.Reloaded? {
      var tuned := t.beforeTune + [Retune(n.tuning)];
      RunSnoc(b, t.beforeTune, Retune(n.tuning));
      RunConcat(b, tuned, t.beforeRoute);
      RunSnoc(b, tuned + t.beforeRoute, Reroute(n.rules.value));
      OthersKeepInStep(c, b, tuned + t.beforeRoute + [Reroute(n.rules.value)]);
    }
  }

  ghost predicate PrefersKnown(rules: seq<Rule>, pool: seq<PoolEntry>) {
    Resolvable(rules, iset id | HasId(pool, id))
  }

  /** No swap among the steps drops an id the rules prefer. */
  ghost predicate SparesPreferred(steps: seq<Step>, rules: seq<Rule>) {
    forall k :: 0 <= k < |steps| && steps[k].SwapPool? ==> PrefersKnown(rules, steps[k].pool)
  }

  lemma {:induction false} RunSparesPreferred(b: Board, steps: seq<Step>, rules: seq<Rule>)
    requires PrefersKnown(rules, b.pool) && SparesPreferred(steps, rules)
    ensures PrefersKnown(rules, Run(b, steps).pool)
    decreases |steps|
  {
    if steps != [] {
      assert steps[0].SwapPool? ==> PrefersKnown(rules, steps[0].pool);
      assert forall k :: 0 <= k < |steps| - 1 ==> steps[1..][k] == steps[k + 1];
      RunSparesPreferred(Apply(b, steps[0]), steps[1..], rules);
    }
  }

  lemma {:induction false} RunKeepsRules(b: Board, steps: seq<Step>)
    requires forall k :: 0 <= k < |steps| ==> !steps[k].Reroute?
    ensures Run(b, steps).rules == b.rules
    decreases |steps|
  {
    if steps != [] {
      assert !steps[0].Reroute?;
      assert forall k :: 0 <= k < |steps| - 1 ==> steps[1..][k] == steps[k + 1];
      RunKeepsRules(Apply(b, steps[0]), steps[1..]);
    }
  }

  /** The new static pool names exactly the file's upstreams. */
  lemma NewPoolNames(n: NewConfig)
    requires n.rules.Some? && Resolvable(n.rules.value, iset id | Names(n.upstreams, id))
    ensures PrefersKnown(n.rules.value, NewPoolOf(n))
  {
    var c := Composition(n.upstreams, [], n.retryCap, n.buildable);
    assert Merged(c) == n.upstreams;
    forall id | Names(n.upstreams, id)
      ensures HasId(NewPoolOf(n), id)
    {
      PoolOfNames(c, id);
    }
  }

  /** After a successful reload, and as long after it as no other goroutine swaps in a pool
      without a preferred id, every preferred id is an upstream of the running pool. The same
      must hold of the swaps that slip in after the ids were listed. */
  lemma ReloadedRulesResolve(b: Board, n: NewConfig, runningHasPool: bool, t: ReloadTurn, later: seq<Step>)
    requires Reload(b, n, runningHasPool, t).result.Reloaded?
    requires runningHasPool || n.hasPools ==> SparesPreferred(t.beforeTune, n.rules.value)
    requires SparesPreferred(t.beforeRoute, n.rules.value)
    requires SparesPreferred(later, n.rules.value) && forall k :: 0 <= k < |later| ==> !later[k].Reroute?
    ensures var r := Run(Reload(b, n, runningHasPool, t).board, later);
      r.rules == n.rules.value && PrefersKnown(r.rules, r.pool)
  {
    var rules := n.rules.value;
    var tuned := Apply(Run(b, t.beforeTune), Retune(n.tuning));
    var o := Reload(b, n, runningHasPool, t);
    if runningHasPool || n.hasPools {
      RunSparesPreferred(b, t.beforeTune, rules);
      RunSparesPreferred(tuned, t.beforeRoute, rules);
    } else {
      NewPoolNames(n);
      RunSparesPreferred(Apply(Run(tuned, t.beforeSwap), SwapPool(NewPoolOf(n), n.retryCap)), t.beforeRoute, rules);
    }
    RunSparesPreferred(o.board, later, rules);
    RunKeepsRules(o.board, later);
  }

  /** A reload succeeds exactly when its rules compile, name only known ids (of the running pool
      when pool blocks are in play, else of the file), and the pool, if it is to be swapped, can
      be built. */
  lemma ReloadsIff(b: Board, n: NewConfig, runningHasPool: bool, t: ReloadTurn)
    ensures Reload(b, n, runningHasPool, t).result.Reloaded? <==>
      && n.rules.Some?
      && (forall r, i :: 0 <= r < |n.rules.value| && 0 <= i < |n.rules.value[r].prefer| ==>
            var id := n.rules.value[r].prefer[i];
            if runningHasPool || n.hasPools then HasId(b.pool, id) else Names(n.upstreams, id))
      && (runningHasPool || n.hasPools
          || (|n.upstreams| > 0 && n.retryCap > 0 && forall i :: 0 <= i < |n.upstreams| ==> n.buildable(n.upstreams[i])))
  {
  }

  /** What a successful reload leaves in force when nothing runs between its regions: the new
      tuning but the old decay interval, the new rules, and, without pool blocks, the file's
      pool and cap, with the pins its upstreams still carry; entries, cascades and stamps stay. */
  lemma ReloadInstalls(b: Board, n: NewConfig, runningHasPool: bool)
    requires Reload(b, n, runningHasPool, ReloadTurn([], [], [])).result.Reloaded?
    ensures var x := Reload(b, n, runningHasPool, ReloadTurn([], [], [])).board;
      && x.cfg == n.tuning.(decayInterval := b.cfg.decayInterval) && x.rules == n.rules.value
      && x.entries == b.entries && x.cascade == b.cascade && x.debounce == b.debounce
      && if runningHasPool || n.hasPools then x.pool == b.pool && x.retryCap == b.retryCap && x.forces == b.forces
         else
           && IsPoolOf(x.pool, n.upstreams) && x.retryCap == n.retryCap
           && forall h :: h in x.forces <==> h in b.forces && HasId(x.pool, b.forces[h].id)
  {
    UndisturbedReload(b, n, runningHasPool);
    SortedIsPoolOf(n.upstreams);
    KnownPinsMean(b.forces, NewPoolOf(n));
  }

  lemma UndisturbedReload(b: Board, n: NewConfig, runningHasPool: bool)
    requires Reload(b, n, runningHasPool, ReloadTurn([], [], [])).result.Reloaded?
    ensures var tuned := b.(cfg := n.tuning.(decayInterval := b.cfg.decayInterval), rules := n.rules.value);
      Reload(b, n, runningHasPool, ReloadTurn([], [], [])).board ==
        if runningHasPool || n.hasPools then tuned
        else tuned.(pool := NewPoolOf(n), retryCap := n.retryCap, forces := KnownPins(b.forces, NewPoolOf(n)))
  {
    RetuneOnly(b, n.tuning);
    var tuned := b.(cfg := n.tuning.(decayInterval := b.cfg.decayInterval));
    if runningHasPool || n.hasPools {
      RerouteOnly(tuned, n.rules.value);
    } else {
      SwapOnly(tuned, NewPoolOf(n), n.retryCap);
      RerouteOnly(Apply(tuned, SwapPool(NewPoolOf(n), n.retryCap)), n.rules.value);
    }
  }

  lemma RetuneOnly(b: Board, cfg: Config)
    ensures Apply(b, Retune(cfg)) == b.(cfg := cfg.(decayInterval := b.cfg.decayInterval))
  {
  }

  lemma RerouteOnly(b: Board, rules: seq<Rule>)
    ensures Apply(b, Reroute(rules)) == b.(rules := rules)
  {
  }

  lemma SwapOnly(b: Board, pool: seq<PoolEntry>, retryCap: int)
    ensures Apply(b, SwapPool(pool, retryCap)) == b.(pool := pool, retryCap := retryCap, forces := KnownPins(b.forces, pool))
  {
  }

  lemma KnownPinsMean(forces: map<Host, Pin>, pool: seq<PoolEntry>)
    ensures forall h :: h in KnownPins(forces, pool) <==> h in forces && HasId(pool, forces[h].id)
  {
    forall h | h in forces ensures FindId(pool, forces[h].id).Some? <==> HasId(pool, forces[h].id) {
      FindIdMeaning(pool, forces[h].id);
    }
  }

  /** For every file that `config.Load` accepts, a rejected reload leaves the board alone. It
      could leave it half changed only for one whose pool cannot be built. */
  lemma RejectedReloadKeepsBoard(b: Board, n: NewConfig, runningHasPool: bool, t: ReloadTurn)
    requires !Reload(b, n, runningHasPool, t).result.Reloaded?
    ensures Loadable(n) ==> Reload(b, n, runningHasPool, t).board == b
    ensures Reload(b, n, runningHasPool, t).board
      == if n.rules.Some? && Resolvable(n.rules.value, ProjectedIds(b, n, runningHasPool))
         then Apply(Run(b, t.beforeTune), Retune(n.tuning)) else b
  {
    ReloadsIff(b, n, runningHasPool, t);
  }

  // ---------------------------------------------------------------- whole histories

  datatype Op =
    | DoUpdate(idPrefix: string, next: seq<UpstreamConfig>)
    | DoReload(config: NewConfig, turn: ReloadTurn)
    | DoOthers(steps: seq<Step>)

  datatype System = System(composition: Composition, board: Board)

  /** One operation of a process that runs with a pool block. */
  ghost function Perform(s: System, op: Op): System {
    match op
    case DoUpdate(idPrefix, next) =>
      var o := Update(s.composition, s.board, idPrefix, next);
      System(o.composition, o.board)
    case DoReload(n, t) => System(s.composition, Reload(s.board, n, true, t).board)
    case DoOthers(steps) => System(s.composition, Run(s.board, steps))
  }

  ghost function PerformAll(s: System, ops: seq<Op>): System
    decreases |ops|
  {
    if ops == [] then s else PerformAll(Perform(s, ops[0]), ops[1..])
  }

  /** The operation swaps no pool behind the composer's back. */
  ghost predicate SwapsNothing(op: Op) {
    match op
    case DoUpdate(_, _) => true
    case DoReload(_, t) => NoSwaps(t.beforeTune) && NoSwaps(t.beforeRoute)
    case DoOthers(steps) => NoSwaps(steps)
  }

  /** After any history of updates, reloads and scoreboard traffic the running pool is the
      merge of the blocks last committed, and no upstream id occurs twice in it. A reload that
      races with updates is its two regions (`ReloadKeepsInStep`) with updates between them. */
  lemma {:induction false} HistoriesStayInStep(s: System, ops: seq<Op>)
    requires InStep(s.composition, s.board)
    requires forall k :: 0 <= k < |ops| ==> SwapsNothing(ops[k])
    ensures var r := PerformAll(s, ops); InStep(r.composition, r.board) && UniqueIds(r.board.pool)
    decreases |ops|
  {
    if ops == [] {
      PoolOfUnique(s.composition);
    } else {
      var op := ops[0];
      assert SwapsNothing(op);
      match op {
        case DoUpdate(idPrefix, next) => UpdateKeepsInStep(s.composition, s.board, idPrefix, next);
        case DoReload(n, t) => ReloadKeepsInStep(s.composition, s.board, n, t);
        case DoOthers(steps) => OthersKeepInStep(s.composition, s.board, steps);
      }
      assert forall k :: 0 <= k < |ops| - 1 ==> ops[1..][k] == ops[k + 1];
      HistoriesStayInStep(Perform(s, op), ops[1..]);
    }
  }

  /** Sorting distinct ids leaves them distinct. */
  lemma PoolOfUnique(c: Composition)
    requires Unique(Merged(c))
    ensures UniqueIds(PoolOf(c))
  {
    var e := PoolEntries(Merged(c));
    assert UniqueIds(e);
    var p := PoolOf(c);
    StableSort.SortPermutes(ByPriority, e);
    forall i, j | 0 <= i < j < |p|
      ensures p[i].up.id != p[j].up.id
    {
      if p[i].up.id == p[j].up.id {
        DistinctIdsOccurOnce(e, p[i]);
        TwoOccurrences(p, i, j);
        StableSort.InMultiset(p, e, p[i]);
        StableSort.InMultiset(p, e, p[j]);
        SameIdSameEntry(e, p[i], p[j]);
      }
    }
  }

  lemma SameIdSameEntry(e: seq<PoolEntry>, x: PoolEntry, y: PoolEntry)
    requires UniqueIds(e) && x in e && y in e && x.up.id == y.up.id
    ensures x == y
  {
  }

  lemma {:induction false} DistinctIdsOccurOnce(e: seq<PoolEntry>, x: PoolEntry)
    requires UniqueIds(e)
    ensures multiset(e)[x] <= 1
  {
    if e != [] {
      var front, last := e[..|e| - 1], e[|e| - 1];
      assert e == front + [last];
      assert forall i :: 0 <= i < |front| ==> front[i] == e[i];
      DistinctIdsOccurOnce(front, x);
      if x == last {
        assert x !in front;
        assert multiset(front)[x] == 0;
      }
    }
  }

  lemma TwoOccurrences(p: seq<PoolEntry>, i: nat, j: nat)
    requires i < j < |p|
    ensures p[i] == p[j] ==> multiset(p)[p[i]] >= 2
  {
    assert p == p[..j] + p[j..];
    assert p[..j][i] == p[i] && p[j..][0] == p[j];
    assert p[i] in multiset(p[..j]) && p[j] in multiset(p[j..]);
  }

  // ---------------------------------------------------------------- updates of two blocks commute

  lemma {:induction false} ExpansionsAt(blocks: seq<Block>, i: nat)
    requires i < |blocks|
    ensures Expansions(blocks) == Expansions(blocks[..i]) + blocks[i].current + Expansions(blocks[i + 1..])
    decreases |blocks|
  {
    var front := blocks[..|blocks| - 1];
    if i == |blocks| - 1 {
      assert blocks[i + 1..] == [];
    } else {
      ExpansionsAt(front, i);
      assert front[..i] == blocks[..i];
      assert front[i + 1..] == blocks[i + 1..][..|blocks| - i - 2];
      assert blocks[i + 1..][|blocks| - i - 2] == blocks[|blocks| - 1];
    }
  }

  /** An id is named by the merge through the statics or through some block. */
  lemma {:induction false} NamedByBlock(blocks: seq<Block>, id: Id)
    ensures Names(Expansions(blocks), id) <==> exists k :: 0 <= k < |blocks| && Names(blocks[k].current, id)
  {
    if blocks != [] {
      var front, last := blocks[..|blocks| - 1], blocks[|blocks| - 1];
      NamedByBlock(front, id);
      NamesOfConcat(Expansions(front), last.current, id);
      if k :| 0 <= k < |blocks| && Names(blocks[k].current, id) {
        assert k < |front| ==> front[k] == blocks[k];
      }
      if k :| 0 <= k < |front| && Names(front[k].current, id) {
        assert blocks[k] == front[k];
      }
      if Names(last.current, id) {
        assert blocks[|blocks| - 1] == last;
      }
    }
  }

  lemma NamesOfConcat(a: seq<UpstreamConfig>, b: seq<UpstreamConfig>, id: Id)
    ensures Names(a + b, id) <==> Names(a, id) || Names(b, id)
  {
    if i :| 0 <= i < |a| && a[i].id == id {
      assert (a + b)[i].id == id;
    }
    if i :| 0 <= i < |b| && b[i].id == id {
      assert (a + b)[|a| + i].id == id;
    }
  }

  /** In a merge without duplicates no id comes from two blocks. */
  lemma NamedOnce(c: Composition, i: nat, j: nat, id: Id)
    requires Unique(Merged(c)) && i < j < |c.blocks|
    ensures !(Names(c.blocks[i].current, id) && Names(c.blocks[j].current, id))
  {
    var front := Expansions(c.blocks[..j]);
    ExpansionsAt(c.blocks, j);
    ExpansionsAt(c.blocks[..j], i);
    forall m, n | 0 <= m < |c.blocks[i].current| && 0 <= n < |c.blocks[j].current|
      ensures c.blocks[i].current[m].id != c.blocks[j].current[n].id
    {
      var a := |c.statics| + |Expansions(c.blocks[..j][..i])| + m;
      var b := |c.statics| + |front| + n;
      assert Merged(c)[a] == c.blocks[i].current[m];
      assert Merged(c)[b] == c.blocks[j].current[n];
    }
  }

  lemma NamesMerged(c: Composition, id: Id)
    ensures Names(Merged(c), id) <==>
      Names(c.statics, id) || exists k :: 0 <= k < |c.blocks| && Names(c.blocks[k].current, id)
  {
    NamesOfConcat(c.statics, Expansions(c.blocks), id);
    NamedByBlock(c.blocks, id);
  }

  /** An id of the old and of the final merge is named by both intermediate merges. */
  lemma SurvivesEitherOrder(c: Composition, i: nat, x: seq<UpstreamConfig>, j: nat, y: seq<UpstreamConfig>, id: Id)
    requires i < |c.blocks| && j < |c.blocks| && i != j
    requires Unique(Merged(WithBlock(c, i, x))) && Unique(Merged(WithBlock(c, j, y)))
    requires Names(Merged(c), id) && Names(Merged(WithBlock(WithBlock(c, i, x), j, y)), id)
    ensures Names(Merged(WithBlock(c, i, x)), id)
  {
    var cx, cy, cxy := WithBlock(c, i, x), WithBlock(c, j, y), WithBlock(WithBlock(c, i, x), j, y);
    NamesMerged(c, id);
    NamesMerged(cx, id);
    NamesMerged(cxy, id);
    if !Names(c.statics, id) {
      var k :| 0 <= k < |c.blocks| && Names(cxy.blocks[k].current, id);
      var m :| 0 <= m < |c.blocks| && Names(c.blocks[m].current, id);
      if k != j {
        assert cx.blocks[k] == cxy.blocks[k];
      } else if m == i {
        assert cy.blocks[i] == c.blocks[i] && cy.blocks[j].current == y;
        if i < j { NamedOnce(cy, i, j, id); } else { NamedOnce(cy, j, i, id); }
      } else {
        assert cx.blocks[m] == c.blocks[m];
      }
    }
  }

  /** The board after an update that did not fail: the pool of the new composition. */
  lemma UpdatedBoard(c: Composition, b: Board, idPrefix: string, next: seq<UpstreamConfig>)
    requires InStep(c, b) && !Update(c, b, idPrefix, next).result.Failed?
    ensures var i := BlockIndex(c.blocks, idPrefix);
      && i >= 0
      && Update(c, b, idPrefix, next).composition == WithBlock(c, i, next)
      && Update(c, b, idPrefix, next).board == Apply(b, SwapPool(PoolOf(WithBlock(c, i, next)), c.retryCap))
      && Unique(Merged(WithBlock(c, i, next)))
  {
    var i := BlockIndex(c.blocks, idPrefix);
    if c.blocks[i].current == next {
      assert WithBlock(c, i, next) == c;
      forall h | h in b.forces ensures FindId(b.pool, b.forces[h].id).Some? {
        FindIdMeaning(b.pool, b.forces[h].id);
      }
      assert KnownPins(b.forces, b.pool) == b.forces;
    }
  }

  lemma {:induction false} BlockIndexKept(blocks: seq<Block>, i: nat, next: seq<UpstreamConfig>, idPrefix: string)
    requires i < |blocks|
    ensures BlockIndex(blocks[i := blocks[i].(current := next)], idPrefix) == BlockIndex(blocks, idPrefix)
  {
    var changed := blocks[i := blocks[i].(current := next)];
    assert forall j :: 0 <= j < |blocks| ==> changed[j].idPrefix == blocks[j].idPrefix;
  }

  /** A pin that survives one order of two swaps survives the other. */
  lemma PinsCommute(c: Composition, b: Board, i: nat, x: seq<UpstreamConfig>, j: nat, y: seq<UpstreamConfig>)
    requires InStep(c, b) && i < |c.blocks| && j < |c.blocks| && i != j
    requires Unique(Merged(WithBlock(c, i, x))) && Unique(Merged(WithBlock(c, j, y)))
    ensures var cx, cy, cxy := WithBlock(c, i, x), WithBlock(c, j, y), WithBlock(WithBlock(c, i, x), j, y);
      KnownPins(KnownPins(b.forces, PoolOf(cx)), PoolOf(cxy)) == KnownPins(KnownPins(b.forces, PoolOf(cy)), PoolOf(cxy))
  {
    var cx, cy, cxy := WithBlock(c, i, x), WithBlock(c, j, y), WithBlock(WithBlock(c, i, x), j, y);
    assert WithBlock(WithBlock(c, j, y), i, x) == cxy;
    forall h | h in b.forces && FindId(PoolOf(cxy), b.forces[h].id).Some?
      ensures FindId(PoolOf(cx), b.forces[h].id).Some? && FindId(PoolOf(cy), b.forces[h].id).Some?
    {
      var id := b.forces[h].id;
      FindIdMeaning(PoolOf(cxy), id);
      FindIdMeaning(PoolOf(cx), id);
      FindIdMeaning(PoolOf(cy), id);
      PoolOfNames(c, id);
      PoolOfNames(cx, id);
      PoolOfNames(cy, id);
      PoolOfNames(cxy, id);
      SurvivesEitherOrder(c, i, x, j, y, id);
      SurvivesEitherOrder(c, j, y, i, x, id);
    }
  }

  lemma SwapTwice(b: Board, first: seq<PoolEntry>, second: seq<PoolEntry>, retryCap: int)
    ensures Apply(Apply(b, SwapPool(first, retryCap)), SwapPool(second, retryCap))
      == b.(pool := second, retryCap := retryCap, forces := KnownPins(KnownPins(b.forces, first), second))
  {
  }

  /** Both updates in a row, when neither fails. */
  lemma UpdatedTwice(c: Composition, b: Board, p: string, x: seq<UpstreamConfig>, q: string, y: seq<UpstreamConfig>)
    requires InStep(c, b) && p != q && !Update(c, b, p, x).result.Failed?
    requires var o := Update(c, b, p, x); !Update(o.composition, o.board, q, y).result.Failed?
    ensures var i, j := BlockIndex(c.blocks, p), BlockIndex(c.blocks, q);
      && i >= 0 && j >= 0 && i != j && Unique(Merged(WithBlock(c, i, x)))
      && var cx, cxy := WithBlock(c, i, x), WithBlock(WithBlock(c, i, x), j, y);
         var o := Update(c, b, p, x); var r := Update(o.composition, o.board, q, y);
      && r.composition == cxy
      && r.board == b.(pool := PoolOf(cxy), retryCap := c.retryCap,
                       forces := KnownPins(KnownPins(b.forces, PoolOf(cx)), PoolOf(cxy)))
  {
    var o := Update(c, b, p, x);
    UpdatedBoard(c, b, p, x);
    var i := BlockIndex(c.blocks, p);
    BlockIndexKept(c.blocks, i, x, q);
    UpdateKeepsInStep(c, b, p, x);
    UpdatedBoard(o.composition, o.board, q, y);
    var cx := WithBlock(c, i, x);
    SwapTwice(b, PoolOf(cx), PoolOf(WithBlock(cx, BlockIndex(c.blocks, q), y)), c.retryCap);
  }

  /** Updates of two different blocks commute when neither order fails: the committed blocks,
      the running pool and even the surviving pins are the same. */
  lemma UpdatesCommute(c: Composition, b: Board, p: string, x: seq<UpstreamConfig>, q: string, y: seq<UpstreamConfig>)
    requires InStep(c, b) && p != q
    requires var px := Update(c, b, p, x);
      !px.result.Failed? && !Update(px.composition, px.board, q, y).result.Failed?
    requires var qy := Update(c, b, q, y);
      !qy.result.Failed? && !Update(qy.composition, qy.board, p, x).result.Failed?
    ensures var px := Update(c, b, p, x); var qy := Update(c, b, q, y);
      var pq := Update(px.composition, px.board, q, y); var qp := Update(qy.composition, qy.board, p, x);
      pq.composition == qp.composition && pq.board == qp.board
  {
    UpdatedTwice(c, b, p, x, q, y);
    UpdatedTwice(c, b, q, y, p, x);
    var i, j := BlockIndex(c.blocks, p), BlockIndex(c.blocks, q);
    assert WithBlock(WithBlock(c, j, y), i, x) == WithBlock(WithBlock(c, i, x), j, y);
    PinsCommute(c, b, i, x, j, y);
  }
}
