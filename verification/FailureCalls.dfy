/** Any number of `RecordFailure` calls in flight at once
    (internal/scoreboard/scoreboard.go:860-924): each runs its regions one at a time, between
    those of the others and of everything else. */
module FailureCalls {
  import opened Types
  import opened Regions
  import opened Requests
  import opened Dynamics

  /** Where a call stands: before its tuning snapshot, its debounce check, its penalty or its
      hook, or returned. */
  datatype Call =
    | AtSnapshot(key: Key, override: Option<Duration>, now: Time)
    | AtStamp(key: Key, override: Option<Duration>, now: Time, cfg: Config)
    | AtPenalty(key: Key, override: Option<Duration>, now: Time, cfg: Config)
    | AtHook(key: Key)
    | Returned

  /** `accepted` lists the keys that passed the debounce check, `hooked` those the hook saw. */
  datatype System = System(board: Board, calls: seq<Call>, accepted: seq<Key>, hooked: seq<Key>)

  datatype Move =
    | Enter(key: Key, override: Option<Duration>, now: Time)
    | Proceed(call: nat)
    | Elsewhere(step: Step)

  /** The debounce check lets the call through. */
  predicate Passes(b: Board, call: Call) {
    call.AtStamp? && Accepts(b, call.key, call.now, call.cfg.debounceWindow)
  }

  /** Where a call stands after its next region. */
  function NextCall(b: Board, call: Call): Call {
    match call
    case AtSnapshot(key, override, now) => if key.kind.Valid() then AtStamp(key, override, now, b.cfg) else Returned
    case AtStamp(key, override, now, cfg) => if Passes(b, call) then AtPenalty(key, override, now, cfg) else Returned
    case AtPenalty(key, _, _, _) => AtHook(key)
    case _ => Returned
  }

  /** What that region does to the board. */
  function NextBoard(b: Board, call: Call): Board {
    match call
    case AtStamp(key, _, now, cfg) => Apply(b, Stamp(key, now, cfg.debounceWindow))
    case AtPenalty(key, override, now, cfg) =>
      Apply(b, Penalize(key.host, key.id, now, cfg.PolicyFor(key.kind), cfg.scoreCap, override))
    case _ => b
  }

  /** The next region of call `c`. */
  function Resume(s: System, c: nat): System
    requires c < |s.calls|
  {
    var call := s.calls[c];
    System(NextBoard(s.board, call),
           s.calls[c := NextCall(s.board, call)],
           s.accepted + (if Passes(s.board, call) then [call.key] else []),
           s.hooked + (if call.AtHook? then [call.key] else []))
  }

  function Go(s: System, m: Move): System {
    match m
    case Enter(key, override, now) => s.(calls := s.calls + [AtSnapshot(key, override, now)])
    case Proceed(c) => if c < |s.calls| then Resume(s, c) else s
    case Elsewhere(step) => s.(board := Apply(s.board, step))
  }

  function PlayOf(s: System, moves: seq<Move>): System
    decreases |moves|
  {
    if moves == [] then s else PlayOf(Go(s, moves[0]), moves[1..])
  }

  lemma {:induction false} PlayConcat(s: System, xs: seq<Move>, ys: seq<Move>)
    ensures PlayOf(s, xs + ys) == PlayOf(PlayOf(s, xs), ys)
    decreases |xs|
  {
    if xs == [] {
      assert xs + ys == ys;
    } else {
      assert (xs + ys)[1..] == xs[1..] + ys;
      PlayConcat(Go(s, xs[0]), xs[1..], ys);
    }
  }

  // ---------------------------------------------------------------- counting

  function CountIf<T>(s: seq<T>, p: T -> bool): nat {
    if s == [] then 0 else CountIf(s[..|s| - 1], p) + (if p(s[|s| - 1]) then 1 else 0)
  }

  lemma CountSnoc<T>(s: seq<T>, x: T, p: T -> bool)
    ensures CountIf(s + [x], p) == CountIf(s, p) + (if p(x) then 1 else 0)
  {
    assert (s + [x])[..|s|] == s;
  }

  lemma CountMaybe<T>(s: seq<T>, add: bool, x: T, p: T -> bool)
    ensures CountIf(s + (if add then [x] else []), p) == CountIf(s, p) + (if add && p(x) then 1 else 0)
  {
    if add {
      CountSnoc(s, x, p);
    } else {
      assert s + [] == s;
    }
  }

  lemma {:induction false} CountUpdate<T>(s: seq<T>, c: nat, x: T, p: T -> bool)
    requires c < |s|
    ensures CountIf(s[c := x], p) + (if p(s[c]) then 1 else 0) == CountIf(s, p) + (if p(x) then 1 else 0)
  {
    var t := s[c := x];
    if c == |s| - 1 {
      assert t[..|s| - 1] == s[..|s| - 1];
    } else {
      assert t[..|s| - 1] == s[..|s| - 1][c := x];
      CountUpdate(s[..|s| - 1], c, x, p);
    }
  }

  lemma {:induction false} CountNone<T>(s: seq<T>, p: T -> bool)
    requires forall k :: 0 <= k < |s| ==> !p(s[k])
    ensures CountIf(s, p) == 0
  {
    if s != [] {
      CountNone(s[..|s| - 1], p);
    }
  }

  function IsKey(key: Key): Key -> bool { k => k == key }
  function IsPair(h: Host, i: Id): Key -> bool { (k: Key) => k.host == h && k.id == i }
  function Waits(key: Key): Call -> bool { (c: Call) => (c.AtPenalty? || c.AtHook?) && c.key == key }
  function Owes(h: Host, i: Id): Call -> bool { (c: Call) => c.AtPenalty? && c.key.host == h && c.key.id == i }

  function FailureCount(b: Board, h: Host, i: Id): nat { EntryOf(b.entries, h, i).failureCount }

  // ---------------------------------------------------------------- the invariant

  ghost predicate HookFollows(s: System, key: Key) {
    CountIf(s.accepted, IsKey(key)) == CountIf(s.hooked, IsKey(key)) + CountIf(s.calls, Waits(key))
  }

  /** Every accepted event is hooked or still on its way to the hook. */
  ghost predicate HooksFollow(s: System) {
    forall key :: HookFollows(s, key)
  }

  lemma ProceedKeepsHook(s: System, c: nat, key: Key)
    requires c < |s.calls| && HookFollows(s, key)
    ensures HookFollows(Resume(s, c), key)
  {
    var call := s.calls[c];
    CountUpdate(s.calls, c, NextCall(s.board, call), Waits(key));
    if !call.Returned? {
      CountMaybe(s.accepted, Passes(s.board, call), call.key, IsKey(key));
      CountMaybe(s.hooked, call.AtHook?, call.key, IsKey(key));
    } else {
      assert s.accepted + [] == s.accepted && s.hooked + [] == s.hooked;
    }
  }

  lemma GoKeepsHooks(s: System, m: Move)
    requires HooksFollow(s)
    ensures HooksFollow(Go(s, m))
  {
    forall key ensures HookFollows(Go(s, m), key) {
      assert HookFollows(s, key);
      match m {
        case Enter(k, override, now) => CountSnoc(s.calls, AtSnapshot(k, override, now), Waits(key));
        case Proceed(c) =>
          if c < |s.calls| {
            ProceedKeepsHook(s, c, key);
          }
        case Elsewhere(_) =>
      }
    }
  }

  lemma {:induction false} PlayKeepsHooks(s: System, moves: seq<Move>)
    requires HooksFollow(s)
    ensures HooksFollow(PlayOf(s, moves))
    decreases |moves|
  {
    if moves != [] {
      GoKeepsHooks(s, moves[0]);
      PlayKeepsHooks(Go(s, moves[0]), moves[1..]);
    }
  }

  predicate AllReturned(s: System) {
    forall c :: 0 <= c < |s.calls| ==> s.calls[c].Returned?
  }

  function Start(b: Board): System { System(b, [], [], []) }

  /** Once every call has returned, the hook has fired exactly once per accepted event,
      whatever else ran. */
  lemma HooksFireOncePerAccepted(b: Board, moves: seq<Move>)
    requires AllReturned(PlayOf(Start(b), moves))
    ensures var t := PlayOf(Start(b), moves);
      forall key :: CountIf(t.hooked, IsKey(key)) == CountIf(t.accepted, IsKey(key))
  {
    var t := PlayOf(Start(b), moves);
    PlayKeepsHooks(Start(b), moves);
    forall key ensures CountIf(t.hooked, IsKey(key)) == CountIf(t.accepted, IsKey(key)) {
      assert HookFollows(t, key);
      CountNone(t.calls, Waits(key));
    }
  }

  // ---------------------------------------------------------------- failure counts

  predicate DropMove(s: System, m: Move, h: Host, i: Id) { m.Elsewhere? && Drops(s.board, m.step, h, i) }

  /** The run never drops the entry of `(h, i)`; it may drop any other. */
  predicate DropFree(s: System, moves: seq<Move>, h: Host, i: Id)
    decreases |moves|
  {
    moves == [] || (!DropMove(s, moves[0], h, i) && DropFree(Go(s, moves[0]), moves[1..], h, i))
  }

  /** A penalty on `(h, i)` that no call of this system applies. */
  function IsStray(h: Host, i: Id): Move -> bool { (m: Move) => m.Elsewhere? && Hits(m.step, h, i) }

  /** What a drop leaves: nothing, or what the file says. */
  function CountLeft(step: Step, h: Host, i: Id): nat {
    if step.Load? then EntryOf(LoadHosts(step.hosts), h, i).failureCount else 0
  }

  lemma DropRestarts(b: Board, step: Step, h: Host, i: Id)
    requires Drops(b, step, h, i)
    ensures FailureCount(Apply(b, step), h, i) == CountLeft(step, h, i)
  {
    match step {
      case PruneBoard(now) => EntryOfPrune(b.entries, now, b.cfg.pruneAfter, h, i);
      case _ =>
    }
  }

  lemma CountFollows(b: Board, step: Step, h: Host, i: Id)
    requires !Drops(b, step, h, i)
    ensures FailureCount(Apply(b, step), h, i) == FailureCount(b, h, i) + (if Hits(step, h, i) then 1 else 0)
  {
    match step {
      case Succeed(host, id, t) =>
        EntryOfPut(b.entries, host, id, Rewarded(EntryOf(b.entries, host, id), t, b.cfg.successWeight, b.cfg.scoreCap), h, i);
      case Penalize(host, id, t, policy, cap, override) =>
        EntryOfPut(b.entries, host, id, Penalized(EntryOf(b.entries, host, id), t, policy, cap, override), h, i);
      case Decay => EntryOfDecay(b.entries, b.cfg.decayStep, h, i);
      case PruneBoard(now) => EntryOfPrune(b.entries, now, b.cfg.pruneAfter, h, i);
      case _ =>
    }
  }

  /** Only the penalty region counts a failure. */
  lemma NextBoardCounts(b: Board, call: Call, h: Host, i: Id)
    ensures FailureCount(NextBoard(b, call), h, i) == FailureCount(b, h, i) + (if Owes(h, i)(call) then 1 else 0)
  {
    match call {
      case AtStamp(key, _, now, cfg) => CountFollows(b, Stamp(key, now, cfg.debounceWindow), h, i);
      case AtPenalty(key, override, now, cfg) =>
        CountFollows(b, Penalize(key.host, key.id, now, cfg.PolicyFor(key.kind), cfg.scoreCap, override), h, i);
      case _ =>
    }
  }

  function Owed(s: System, h: Host, i: Id): nat { CountIf(s.calls, Owes(h, i)) }

  function Admitted(s: System, h: Host, i: Id): nat { CountIf(s.accepted, IsPair(h, i)) }

  /** Failures counted or still owed, less those accepted. */
  function Balance(s: System, h: Host, i: Id): int {
    FailureCount(s.board, h, i) + Owed(s, h, i) - Admitted(s, h, i)
  }

  lemma ResumeKeepsBalance(s: System, c: nat, h: Host, i: Id)
    requires c < |s.calls|
    ensures Balance(Resume(s, c), h, i) == Balance(s, h, i)
  {
    var call := s.calls[c];
    CountUpdate(s.calls, c, NextCall(s.board, call), Owes(h, i));
    NextBoardCounts(s.board, call, h, i);
    if !call.Returned? {
      CountMaybe(s.accepted, Passes(s.board, call), call.key, IsPair(h, i));
    } else {
      assert s.accepted + [] == s.accepted;
    }
  }

  lemma GoBalances(s: System, m: Move, h: Host, i: Id)
    requires !DropMove(s, m, h, i)
    ensures Balance(Go(s, m), h, i) == Balance(s, h, i) + (if IsStray(h, i)(m) then 1 else 0)
  {
    match m {
      case Enter(k, override, now) => CountSnoc(s.calls, AtSnapshot(k, override, now), Owes(h, i));
      case Proceed(c) =>
        if c < |s.calls| {
          ResumeKeepsBalance(s, c, h, i);
        }
      case Elsewhere(step) => CountFollows(s.board, step, h, i);
    }
  }

  /** `CountIf` from the front. */
  lemma {:induction false} CountCons<T>(s: seq<T>, p: T -> bool)
    requires s != []
    ensures CountIf(s, p) == (if p(s[0]) then 1 else 0) + CountIf(s[1..], p)
  {
    if |s| > 1 {
      CountCons(s[..|s| - 1], p);
      assert s[..|s| - 1][1..] == s[1..][..|s| - 2];
    }
  }

  /** Conservation: while the entry of `(h, i)` is not dropped, its count grows by exactly the
      events accepted for it, less those still owed at the end, plus those owed at the start
      and any stray penalty. */
  lemma {:induction false} FailureCountsAccepted(s: System, moves: seq<Move>, h: Host, i: Id)
    requires DropFree(s, moves, h, i)
    ensures var t := PlayOf(s, moves);
      FailureCount(t.board, h, i) + Owed(t, h, i)
        == FailureCount(s.board, h, i) + Owed(s, h, i)
           + (Admitted(t, h, i) - Admitted(s, h, i)) + CountIf(moves, IsStray(h, i))
    decreases |moves|
  {
    if moves != [] {
      GoBalances(s, moves[0], h, i);
      FailureCountsAccepted(Go(s, moves[0]), moves[1..], h, i);
      CountCons(moves, IsStray(h, i));
    }
  }

  /** Every run has a last drop of `(h, i)`, at move `k - 1`, or none, and then `k` is 0. */
  lemma {:induction false} LastDrop(s: System, moves: seq<Move>, h: Host, i: Id) returns (k: nat)
    ensures k <= |moves| && DropFree(PlayOf(s, moves[..k]), moves[k..], h, i)
    ensures k > 0 ==> DropMove(PlayOf(s, moves[..k - 1]), moves[k - 1], h, i)
    decreases |moves|
  {
    if moves == [] || DropFree(s, moves, h, i) {
      k := 0;
      assert moves[0..] == moves;
    } else {
      var rest := moves[1..];
      var j := LastDrop(Go(s, moves[0]), rest, h, i);
      k := j + 1;
      assert moves[..k][1..] == rest[..j] && moves[k..] == rest[j..];
      if j == 0 {
        assert rest[0..] == rest;
        assert PlayOf(s, moves[..0]) == s;
      } else {
        assert moves[..k - 1][1..] == rest[..j - 1];
      }
    }
  }

  /** In every run an entry's failure count is what its last drop left (nothing, or the loaded
      count), plus the calls accepted before that drop but penalised after it, plus the
      events accepted since (and any stray penalty since). */
  lemma CountSinceLastDrop(b: Board, moves: seq<Move>, h: Host, i: Id) returns (k: nat)
    requires AllReturned(PlayOf(Start(b), moves))
    ensures k <= |moves| && DropFree(PlayOf(Start(b), moves[..k]), moves[k..], h, i)
    ensures k > 0 ==> DropMove(PlayOf(Start(b), moves[..k - 1]), moves[k - 1], h, i)
    ensures var s, t := PlayOf(Start(b), moves[..k]), PlayOf(Start(b), moves);
      var left := if k == 0 then FailureCount(b, h, i) else CountLeft(moves[k - 1].step, h, i);
      FailureCount(t.board, h, i) == 
        left + Owed(s, h, i) + (Admitted(t, h, i) - Admitted(s, h, i)) + CountIf(moves[k..], IsStray(h, i))
  {
    k := LastDrop(Start(b), moves, h, i);
    var s, t := PlayOf(Start(b), moves[..k]), PlayOf(Start(b), moves);
    PlayConcat(Start(b), moves[..k], moves[k..]);
    assert moves[..k] + moves[k..] == moves;
    FailureCountsAccepted(s, moves[k..], h, i);
    CountNone(t.calls, Owes(h, i));
    if k > 0 {
      var before := PlayOf(Start(b), moves[..k - 1]);
      PlayConcat(Start(b), moves[..k - 1], [moves[k - 1]]);
      assert moves[..k - 1] + [moves[k - 1]] == moves[..k];
      assert [moves[k - 1]][1..] == [];
      assert PlayOf(before, [moves[k - 1]]) == Go(before, moves[k - 1]);
      DropRestarts(before.board, moves[k - 1].step, h, i);
    }
  }

  // ---------------------------------------------------------------- one call by itself

  function Others(steps: seq<Step>): seq<Move> {
    if steps == [] then [] else [Elsewhere(steps[0])] + Others(steps[1..])
  }

  lemma {:induction false} PlayOthers(s: System, steps: seq<Step>)
    ensures PlayOf(s, Others(steps)) == s.(board := Run(s.board, steps))
    decreases |steps|
  {
    if steps != [] {
      var moves := Others(steps);
      assert moves[0] == Elsewhere(steps[0]) && moves[1..] == Others(steps[1..]);
      PlayOthers(Go(s, moves[0]), steps[1..]);
    }
  }

  /** The moves of a call up to its debounce check. */
  function CheckMoves(c: nat, key: Key, override: Option<Duration>, t: FailTurn): seq<Move> {
    [Enter(key, override, t.now)] + [Proceed(c)] + Others(t.beforeStamp) + [Proceed(c)]
  }

  /** The moves of one call whose gaps others fill as `t` says. */
  function CallMoves(fired: bool, c: nat, key: Key, override: Option<Duration>, t: FailTurn): seq<Move> {
    if !key.kind.Valid() then [Enter(key, override, t.now)] + [Proceed(c)]
    else if fired then
      CheckMoves(c, key, override, t) + (Others(t.beforePenalty) + [Proceed(c)] + [Proceed(c)])
    else CheckMoves(c, key, override, t)
  }

  lemma PlayOne(s: System, moves: seq<Move>, m: Move)
    ensures PlayOf(s, moves + [m]) == Go(PlayOf(s, moves), m)
  {
    PlayConcat(s, moves, [m]);
    assert [m][1..] == [];
    assert PlayOf(PlayOf(s, moves), [m]) == Go(PlayOf(s, moves), m);
  }

  /** The system with one more call, standing at `call`, on board `b`. */
  function With(s: System, b: Board, call: Call): System {
    s.(board := b, calls := s.calls + [call])
  }

  lemma ProceedLast(s: System, b: Board, call: Call)
    ensures var t := With(s, b, call);
      Go(t, Proceed(|s.calls|)) == System(NextBoard(b, call), s.calls + [NextCall(b, call)],
        s.accepted + (if Passes(b, call) then [call.key] else []), s.hooked + (if call.AtHook? then [call.key] else []))
  {
    var t := With(s, b, call);
    assert t.calls[|s.calls| := NextCall(b, call)] == s.calls + [NextCall(b, call)];
  }

  /** From the debounce check on, when the check passes. */
  lemma PenaltyHalf(s: System, b: Board, key: Key, override: Option<Duration>, now: Time, cfg: Config, between: seq<Step>)
    ensures var penalty := Penalize(key.host, key.id, now, cfg.PolicyFor(key.kind), cfg.scoreCap, override);
      var r := PlayOf(With(s, b, AtPenalty(key, override, now, cfg)),
                      Others(between) + [Proceed(|s.calls|)] + [Proceed(|s.calls|)]);
      r == s.(board := Apply(Run(b, between), penalty), calls := s.calls + [Returned], hooked := s.hooked + [key])
  {
    var c := |s.calls|;
    var b1 := Run(b, between);
    var at := With(s, b, AtPenalty(key, override, now, cfg));
    PlayOthers(at, between);
    PlayOne(at, Others(between), Proceed(c));
    PlayOne(at, Others(between) + [Proceed(c)], Proceed(c));
    ProceedLast(s, b1, AtPenalty(key, override, now, cfg));
    var b2 := NextBoard(b1, AtPenalty(key, override, now, cfg));
    assert s.accepted + [] == s.accepted && s.hooked + [] == s.hooked;
    ProceedLast(s, b2, AtHook(key));
  }

  /** Up to the debounce check. */
  lemma StampHalf(s: System, key: Key, override: Option<Duration>, t: FailTurn)
    requires key.kind.Valid()
    ensures var c, cfg, b1 := |s.calls|, s.board.cfg, Run(s.board, t.beforeStamp);
      PlayOf(s, CheckMoves(c, key, override, t)) == Go(With(s, b1, AtStamp(key, override, t.now, cfg)), Proceed(c))
  {
    var c := |s.calls|;
    var enter := [Enter(key, override, t.now)] + [Proceed(c)];
    EnterHalf(s, key, override, t.now);
    PlayConcat(s, enter, Others(t.beforeStamp));
    PlayOthers(PlayOf(s, enter), t.beforeStamp);
    PlayOne(s, enter + Others(t.beforeStamp), Proceed(c));
  }

  lemma EnterHalf(s: System, key: Key, override: Option<Duration>, now: Time)
    ensures PlayOf(s, [Enter(key, override, now)] + [Proceed(|s.calls|)])
      == With(s, s.board, NextCall(s.board, AtSnapshot(key, override, now)))
  {
    PlayOne(s, [], Enter(key, override, now));
    assert [] + [Enter(key, override, now)] == [Enter(key, override, now)];
    PlayOne(s, [Enter(key, override, now)], Proceed(|s.calls|));
    ProceedLast(s, s.board, AtSnapshot(key, override, now));
    assert s.accepted + [] == s.accepted && s.hooked + [] == s.hooked;
  }

  /** `FailRun` for a valid kind, in terms of its debounce check. */
  lemma FailRunByCheck(b: Board, key: Key, override: Option<Duration>, t: FailTurn)
    requires key.kind.Valid()
    ensures var f, b1 := FailRun(b, key.host, key.id, key.kind, override, t), Run(b, t.beforeStamp);
      var stamp := Stamp(key, t.now, b.cfg.debounceWindow);
      var penalty := Penalize(key.host, key.id, t.now, b.cfg.PolicyFor(key.kind), b.cfg.scoreCap, override);
      && f.fired == Accepts(b1, key, t.now, b.cfg.debounceWindow)
      && f.board == if f.fired then Apply(Run(Apply(b1, stamp), t.beforePenalty), penalty) else b1
  {
    assert Key(key.host, key.id, key.kind) == key;
  }

  lemma StampedCall(s: System, b: Board, key: Key, override: Option<Duration>, now: Time, cfg: Config)
    ensures var r := Go(With(s, b, AtStamp(key, override, now, cfg)), Proceed(|s.calls|));
      if Accepts(b, key, now, cfg.debounceWindow) then
        r == With(s.(accepted := s.accepted + [key]), Apply(b, Stamp(key, now, cfg.debounceWindow)),
                  AtPenalty(key, override, now, cfg))
      else r == With(s, b, Returned)
  {
    ProceedLast(s, b, AtStamp(key, override, now, cfg));
    assert s.hooked + [] == s.hooked && s.accepted + [] == s.accepted;
    if !Accepts(b, key, now, cfg.debounceWindow) {
      RejectedStampIsSilent(b, Stamp(key, now, cfg.debounceWindow));
    }
  }

  lemma PassedCall(s: System, more: System, b: Board, checked: seq<Move>, key: Key, override: Option<Duration>,
                   now: Time, cfg: Config, between: seq<Step>)
    requires more.calls == s.calls && more.hooked == s.hooked
    requires PlayOf(s, checked) == With(more, b, AtPenalty(key, override, now, cfg))
    ensures var r := PlayOf(s, checked + (Others(between) + [Proceed(|s.calls|)] + [Proceed(|s.calls|)]));
      && r.board == Apply(Run(b, between), Penalize(key.host, key.id, now, cfg.PolicyFor(key.kind), cfg.scoreCap, override))
      && r.calls == s.calls + [Returned] && r.hooked == s.hooked + [key]
  {
    PlayConcat(s, checked, Others(between) + [Proceed(|s.calls|)] + [Proceed(|s.calls|)]);
    PenaltyHalf(more, b, key, override, now, cfg, between);
  }

  /** The board and hook of a call that fires. */
  lemma FiringCall(s: System, key: Key, override: Option<Duration>, t: FailTurn)
    requires key.kind.Valid() && Accepts(Run(s.board, t.beforeStamp), key, t.now, s.board.cfg.debounceWindow)
    ensures var cfg := s.board.cfg;
      var r := PlayOf(s, CallMoves(true, |s.calls|, key, override, t));
      var stamped := Apply(Run(s.board, t.beforeStamp), Stamp(key, t.now, cfg.debounceWindow));
      && r.board == Apply(Run(stamped, t.beforePenalty),
                          Penalize(key.host, key.id, t.now, cfg.PolicyFor(key.kind), cfg.scoreCap, override))
      && r.calls == s.calls + [Returned] && r.hooked == s.hooked + [key]
  {
    var cfg, b1 := s.board.cfg, Run(s.board, t.beforeStamp);
    StampHalf(s, key, override, t);
    StampedCall(s, b1, key, override, t.now, cfg);
    PassedCall(s, s.(accepted := s.accepted + [key]), Apply(b1, Stamp(key, t.now, cfg.debounceWindow)),
               CheckMoves(|s.calls|, key, override, t), key, override, t.now, cfg, t.beforePenalty);
  }

  lemma RejectedCall(s: System, key: Key, override: Option<Duration>, t: FailTurn)
    requires key.kind.Valid() && !Accepts(Run(s.board, t.beforeStamp), key, t.now, s.board.cfg.debounceWindow)
    ensures PlayOf(s, CallMoves(false, |s.calls|, key, override, t)) == With(s, Run(s.board, t.beforeStamp), Returned)
  {
    StampHalf(s, key, override, t);
    StampedCall(s, Run(s.board, t.beforeStamp), key, override, t.now, s.board.cfg);
  }

  /** A call that runs its regions one by one does what `RecordFailure` does as a whole, and
      its hook fires exactly when that says so. */
  lemma CallIsFailRun(s: System, key: Key, override: Option<Duration>, t: FailTurn)
    ensures var f := FailRun(s.board, key.host, key.id, key.kind, override, t);
      var r := PlayOf(s, CallMoves(f.fired, |s.calls|, key, override, t));
      && r.board == f.board
      && r.calls == s.calls + [Returned]
      && r.hooked == s.hooked + (if f.fired then [key] else [])
  {
    if !key.kind.Valid() {
      EnterHalf(s, key, override, t.now);
      assert s.hooked + [] == s.hooked;
    } else {
      FailRunByCheck(s.board, key, override, t);
      if Accepts(Run(s.board, t.beforeStamp), key, t.now, s.board.cfg.debounceWindow) {
        FiringCall(s, key, override, t);
      } else {
        RejectedCall(s, key, override, t);
        assert s.hooked + [] == s.hooked;
      }
    }
  }
}
