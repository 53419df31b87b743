/** Compiling and matching per-host rules (internal/upstream/rules.go). */
module Rules {
  import opened Types
  import opened Selection

  /** `globOk` stands for "`path.Match` accepts the pattern", `matches` for matching a host
      against the lowercased pattern, `patternsOk` for "every body regex is non-empty and
      compiles". */
  datatype RuleConfig = RuleConfig(
    hostGlob: string,
    globOk: bool,
    matches: Host -> bool,
    prefer: seq<Id>,
    force: bool,
    patternsOk: bool)

  datatype RuleError = EmptyGlob(index: nat) | BadGlob(index: nat) | EmptyPrefer(index: nat) | BadPattern(index: nat)

  datatype RuleSetResult = Compiled(rules: seq<Rule>) | Rejected(error: RuleError)

  /** The one-based place of the first occurrence of `id`, zero when it is not listed. */
  function Place(prefer: seq<Id>, id: Id): (n: nat)
    ensures n <= |prefer|
    ensures n == 0 <==> id !in prefer
    ensures n > 0 ==> prefer[n - 1] == id && id !in prefer[..n - 1]
  {
    if prefer == [] then 0
    else
      var front := prefer[..|prefer| - 1];
      var n := Place(front, id);
      assert prefer == front + [prefer[|prefer| - 1]];
      if n > 0 then
        assert front[..n - 1] == prefer[..n - 1];
        n
      else if prefer[|prefer| - 1] == id then |prefer|
      else 0
  }

  /** `ranks` sends every listed id to its first place. */
  ghost predicate RanksOf(prefer: seq<Id>, ranks: map<Id, nat>) {
    forall id :: (id in ranks <==> id in prefer) && (id in ranks ==> ranks[id] == Place(prefer, id))
  }

  method BuildRanks(prefer: seq<Id>) returns (ranks: map<Id, nat>)
    ensures RanksOf(prefer, ranks)
  {
    ranks := map[];
    for j := 0 to |prefer|
      invariant RanksOf(prefer[..j], ranks)
    {
      var id := prefer[j];
      assert prefer[..j + 1][..j] == prefer[..j];
      assert prefer[..j + 1] == prefer[..j] + [id];
      if id !in ranks {
        ranks := ranks[id := j + 1];
      }
    }
    assert prefer[..|prefer|] == prefer;
  }

  predicate Valid(c: RuleConfig) {
    c.hostGlob != "" && c.globOk && c.prefer != [] && c.patternsOk
  }

  ghost predicate CompiledFrom(c: RuleConfig, r: Rule) {
    r.matches == c.matches && r.prefer == c.prefer && r.force == c.force && RanksOf(c.prefer, r.preferRank)
  }

  method NewRuleSet(cfgs: seq<RuleConfig>) returns (r: RuleSetResult)
    ensures r.Compiled? <==> forall i :: 0 <= i < |cfgs| ==>
      cfgs[i].hostGlob != "" && cfgs[i].globOk && |cfgs[i].prefer| > 0 && cfgs[i].patternsOk
    ensures r.Compiled? ==> |r.rules| == |cfgs| && forall i :: 0 <= i < |cfgs| ==> CompiledFrom(cfgs[i], r.rules[i])
    ensures r.Rejected? ==>
      && r.error.index < |cfgs|
      && (forall i :: 0 <= i < r.error.index ==> Valid(cfgs[i]))
      // the first thing wrong with the first bad block
      && var c := cfgs[r.error.index];
         if c.hostGlob == "" then r.error.EmptyGlob?
         else if !c.globOk then r.error.BadGlob?
         else if |c.prefer| == 0 then r.error.EmptyPrefer?
         else !c.patternsOk && r.error.BadPattern?
  {
    var out := [];
    for i := 0 to |cfgs|
      invariant |out| == i
      invariant forall j :: 0 <= j < i ==> Valid(cfgs[j]) && CompiledFrom(cfgs[j], out[j])
    {
      var c := cfgs[i];
      if c.hostGlob == "" {
        return Rejected(EmptyGlob(i));
      }
      if !c.globOk {
        return Rejected(BadGlob(i));
      }
      if c.prefer == [] {
        return Rejected(EmptyPrefer(i));
      }
      if !c.patternsOk {
        return Rejected(BadPattern(i));
      }
      var ranks := BuildRanks(c.prefer);
      out := out + [Rule(c.matches, c.prefer, ranks, c.force)];
    }
    r := Compiled(out);
  }

  /** A compiled rule ranks a listed id by its first place and every other id last. */
  lemma RankIsFirstPlace(c: RuleConfig, r: Rule, id: Id)
    requires CompiledFrom(c, r)
    ensures RankIn(Some(r), id) == Place(c.prefer, id)
    ensures Admits(Some(r), id) <==> !c.force || id in c.prefer
  {
  }

  /** First match wins. */
  method Match(rules: seq<Rule>, host: Host) returns (r: Option<Rule>)
    ensures r == MatchRule(rules, host)
  {
    for i := 0 to |rules|
      invariant MatchRule(rules, host) == MatchRule(rules[i..], host)
    {
      if rules[i].matches(host) {
        return Some(rules[i]);
      }
    }
    return None;
  }

  lemma {:induction false} MatchIsFirst(rules: seq<Rule>, host: Host)
    ensures MatchRule(rules, host).None? <==> forall i :: 0 <= i < |rules| ==> !rules[i].matches(host)
    ensures MatchRule(rules, host).Some? ==>
      exists i :: 0 <= i < |rules| && MatchRule(rules, host).value == rules[i] && rules[i].matches(host)
        && forall j :: 0 <= j < i ==> !rules[j].matches(host)
  {
    if rules != [] && !rules[0].matches(host) {
      MatchIsFirst(rules[1..], host);
      assert forall i :: 1 <= i < |rules| ==> rules[i] == rules[1..][i - 1];
      if MatchRule(rules, host).Some? {
        var i :| 0 <= i < |rules| - 1 && MatchRule(rules, host).value == rules[1..][i] && rules[1..][i].matches(host)
          && forall j :: 0 <= j < i ==> !rules[1..][j].matches(host);
        assert rules[i + 1] == rules[1..][i];
        assert forall j :: 0 <= j < i + 1 ==> !rules[j].matches(host);
      }
    }
  }
}
