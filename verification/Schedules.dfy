/** What a request did to the board, accounted for: the board it leaves is the run of its own
    regions, in order, with other goroutines' regions only in the gaps its script offers. */
module Schedules {
  import opened Types
  import opened Regions

  /** One stretch of a run: a region of the request, or a gap in which others ran. */
  datatype Stretch = Mine(step: Step) | Gap(steps: seq<Step>)

  function After(b: Board, s: Stretch): Board {
    match s
    case Mine(step) => Apply(b, step)
    case Gap(steps) => Run(b, steps)
  }

  function Play(b: Board, run: seq<Stretch>): Board {
    if run == [] then b else After(Play(b, run[..|run| - 1]), run[|run| - 1])
  }

  function ScoringOf(s: Stretch): seq<Step> { if s.Mine? && !s.step.EvictPin? then [s.step] else [] }

  function GapOf(s: Stretch): seq<seq<Step>> { if s.Gap? then [s.steps] else [] }

  /** The request's own regions that score or trip, in order. */
  function Scoring(run: seq<Stretch>): seq<Step> {
    if run == [] then []
    else Scoring(run[..|run| - 1]) + ScoringOf(run[|run| - 1])
  }

  function GapsOf(run: seq<Stretch>): seq<seq<Step>> {
    if run == [] then []
    else GapsOf(run[..|run| - 1]) + GapOf(run[|run| - 1])
  }

  /** `xs` is `ys` with some elements left out. */
  ghost predicate Within(xs: seq<seq<Step>>, ys: seq<seq<Step>>)
    decreases |ys|
  {
    xs == [] ||
    (ys != [] &&
     ((xs[|xs| - 1] == ys[|ys| - 1] && Within(xs[..|xs| - 1], ys[..|ys| - 1])) || Within(xs, ys[..|ys| - 1])))
  }

  /** The request evicts no pin but its own host's. */
  predicate EvictsOnly(run: seq<Stretch>, host: Host) {
    forall k :: 0 <= k < |run| && run[k].Mine? && run[k].step.EvictPin? ==> run[k].step.host == host
  }

  ghost predicate Explains(run: seq<Stretch>, b: Board, after: Board, own: seq<Step>, gaps: seq<seq<Step>>, host: Host) {
    Play(b, run) == after && Scoring(run) == own && Within(GapsOf(run), gaps) && EvictsOnly(run, host)
  }

  /** From `b` to `after` the request ran exactly `own`, besides evicting expired pins of
      `host`; everything else was run by others in some of `gaps`, in their order. */
  ghost predicate Scheduled(b: Board, after: Board, own: seq<Step>, gaps: seq<seq<Step>>, host: Host) {
    exists run :: Explains(run, b, after, own, gaps, host)
  }

  // ---------------------------------------------------------------- building schedules

  lemma Snoc(b: Board, run: seq<Stretch>, s: Stretch)
    ensures Play(b, run + [s]) == After(Play(b, run), s)
    ensures Scoring(run + [s]) == Scoring(run) + ScoringOf(s)
    ensures GapsOf(run + [s]) == GapsOf(run) + GapOf(s)
  {
    assert (run + [s])[..|run|] == run;
  }

  lemma {:induction false} ConcatPlays(b: Board, xs: seq<Stretch>, ys: seq<Stretch>)
    ensures Play(b, xs + ys) == Play(Play(b, xs), ys)
    decreases |ys|
  {
    if ys == [] {
      assert xs + ys == xs;
    } else {
      var front := ys[..|ys| - 1];
      ConcatPlays(b, xs, front);
      assert (xs + ys)[..|xs + ys| - 1] == xs + front;
    }
  }

  lemma {:induction false} ConcatLists(xs: seq<Stretch>, ys: seq<Stretch>)
    ensures Scoring(xs + ys) == Scoring(xs) + Scoring(ys)
    ensures GapsOf(xs + ys) == GapsOf(xs) + GapsOf(ys)
    decreases |ys|
  {
    if ys == [] {
      assert xs + ys == xs;
    } else {
      var front, last := ys[..|ys| - 1], ys[|ys| - 1];
      ConcatLists(xs, front);
      assert (xs + ys)[..|xs + ys| - 1] == xs + front;
      Associate(Scoring(xs), Scoring(front), ScoringOf(last));
      Associate(GapsOf(xs), GapsOf(front), GapOf(last));
    }
  }

  lemma Associate<T>(a: seq<T>, b: seq<T>, c: seq<T>)
    ensures a + b + c == a + (b + c)
  {
  }

  lemma {:induction false} WithinConcat(xs: seq<seq<Step>>, ys: seq<seq<Step>>, us: seq<seq<Step>>, vs: seq<seq<Step>>)
    requires Within(xs, ys) && Within(us, vs)
    ensures Within(xs + us, ys + vs)
    decreases |ys| + |vs|
  {
    if vs == [] {
      assert xs + us == xs && ys + vs == ys;
    } else if us == [] {
      WithinConcat(xs, ys, us, vs[..|vs| - 1]);
      assert (ys + vs)[..|ys + vs| - 1] == ys + vs[..|vs| - 1];
    } else {
      assert (ys + vs)[..|ys + vs| - 1] == ys + vs[..|vs| - 1];
      if Within(us, vs[..|vs| - 1]) {
        WithinConcat(xs, ys, us, vs[..|vs| - 1]);
      } else {
        WithinConcat(xs, ys, us[..|us| - 1], vs[..|vs| - 1]);
        assert (xs + us)[..|xs + us| - 1] == xs + us[..|us| - 1];
      }
    }
  }

  lemma Then(b: Board, mid: Board, after: Board, xs: seq<Step>, ys: seq<Step>, gs: seq<seq<Step>>, hs: seq<seq<Step>>, host: Host)
    requires Scheduled(b, mid, xs, gs, host) && Scheduled(mid, after, ys, hs, host)
    ensures Scheduled(b, after, xs + ys, gs + hs, host)
  {
    var p :| Explains(p, b, mid, xs, gs, host);
    var q :| Explains(q, mid, after, ys, hs, host);
    ConcatPlays(b, p, q);
    ConcatLists(p, q);
    WithinConcat(GapsOf(p), gs, GapsOf(q), hs);
    assert Explains(p + q, b, after, xs + ys, gs + hs, host);
  }

  /** Nothing happened, whatever gaps there were. */
  lemma Idle(b: Board, gaps: seq<seq<Step>>, host: Host)
    ensures Scheduled(b, b, [], gaps, host)
  {
    assert Explains([], b, b, [], gaps, host);
  }

  lemma InGap(b: Board, steps: seq<Step>, host: Host)
    ensures Scheduled(b, Run(b, steps), [], [steps], host)
  {
    Snoc(b, [], Gap(steps));
    assert [] + [Gap(steps)] == [Gap(steps)];
    assert GapsOf([Gap(steps)]) == [steps];
    WithinItself(steps);
    assert Explains([Gap(steps)], b, Run(b, steps), [], [steps], host);
  }

  lemma WithinItself(steps: seq<Step>)
    ensures Within([steps], [steps])
  {
    assert [steps][..0] == [];
  }

  lemma OnOwn(b: Board, step: Step, host: Host)
    requires !step.EvictPin?
    ensures Scheduled(b, Apply(b, step), [step], [], host)
  {
    Snoc(b, [], Mine(step));
    assert [] + [Mine(step)] == [Mine(step)];
    assert GapsOf([Mine(step)]) == [];
    assert Explains([Mine(step)], b, Apply(b, step), [step], [], host);
  }

  lemma Evicting(b: Board, host: Host, now: Time)
    ensures Scheduled(b, Apply(b, EvictPin(host, now)), [], [], host)
  {
    var s := Mine(EvictPin(host, now));
    Snoc(b, [], s);
    assert [] + [s] == [s];
    assert GapsOf([s]) == [];
    assert Explains([s], b, Apply(b, EvictPin(host, now)), [], [], host);
  }

  // the same, as continuations of a schedule

  lemma ThenGap(b: Board, mid: Board, own: seq<Step>, gaps: seq<seq<Step>>, steps: seq<Step>, host: Host)
    requires Scheduled(b, mid, own, gaps, host)
    ensures Scheduled(b, Run(mid, steps), own, gaps + [steps], host)
  {
    InGap(mid, steps, host);
    Then(b, mid, Run(mid, steps), own, [], gaps, [steps], host);
    assert own + [] == own;
  }

  lemma ThenOwn(b: Board, mid: Board, own: seq<Step>, gaps: seq<seq<Step>>, step: Step, host: Host)
    requires Scheduled(b, mid, own, gaps, host) && !step.EvictPin?
    ensures Scheduled(b, Apply(mid, step), own + [step], gaps, host)
  {
    OnOwn(mid, step, host);
    Then(b, mid, Apply(mid, step), own, [step], gaps, [], host);
    assert gaps + [] == gaps;
  }

  lemma ThenEvict(b: Board, mid: Board, own: seq<Step>, gaps: seq<seq<Step>>, now: Time, host: Host)
    requires Scheduled(b, mid, own, gaps, host)
    ensures Scheduled(b, Apply(mid, EvictPin(host, now)), own, gaps, host)
  {
    Evicting(mid, host, now);
    Then(b, mid, Apply(mid, EvictPin(host, now)), own, [], gaps, [], host);
    assert own + [] == own && gaps + [] == gaps;
  }

  lemma ThenSkip(b: Board, mid: Board, own: seq<Step>, gaps: seq<seq<Step>>, steps: seq<Step>, host: Host)
    requires Scheduled(b, mid, own, gaps, host)
    ensures Scheduled(b, mid, own, gaps + [steps], host)
  {
    Idle(mid, [steps], host);
    Then(b, mid, mid, own, [], gaps, [steps], host);
    assert own + [] == own;
  }
}
