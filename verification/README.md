# Tunnelsmith: verified model of routing, healing and pool composition

Tunnelsmith forwards traffic through a pool of upstream proxies. This project models its
decision-making core in Dafny and proves what that core is for:

- **Scoreboard** (`Types`, `Selection`, `Choices`, `Regions`, `Scoreboard`): per-(host, upstream) scores, cooldowns
  and counters, host cascades, force pins and debounce stamps. The state is one value,
  `Board`; every lock region of the Go type is one `Step`, so that any interleaving of
  goroutines is a sequence of steps. The class `Scoreboard` carries the fields and updates
  them region by region; each method is proved to refine the transition system.
- **Requests** (`Requests`, `Schedules`, `Ledgers`, `Dialing`, `Forward`, `FailureCalls`): `Pick`, `RecordFailure`, `DialFor` and the
  plain-HTTP retry loop run *between* arbitrary steps of other goroutines. A script fixes clock
  readings, random draws, dial outcomes, cancellation points and what others run in each gap;
  a statement about every script is a statement about every interleaving. `Schedules` and `Ledgers`
  say what a request did to the board: one report per failed attempt that is due one, then its
  finish, and others' regions only in its gaps.
- **Run theorems** (`Pruning`, `Isolation`, `Lifecycles`, `Invariants`, `Dynamics`, `Pool`): whole-run properties of the board.
- **Auth-heal driver** (`HealDriver`, `HealRouting`), **pool composer and hot reload** (`Composer`),
  **body inspector** (`Body`), **rule compilation** (`Rules`), **refresh backoff** (`Backoff`).
- `StableSort`, `Spacing` and `Tables` hold shared reasoning: the stable sort, events a fixed gap
  apart, and the loops that sweep Go maps in arbitrary order.

The clock is an integer with zero for Go's zero time, scores are reals, and anything random or
external is an input.

## Where the code differs from what is said about it

- The startup prefix check announces (`cmd/tunnelsmith/healdriver.go:349-350`) that it catches a
  pool without a driver nested inside a driver's prefix "or vice-versa". Only one direction is
  checked: with a Mullvad pool "ws" and a Webshare pool "ws-us", the id of relay us-nyc-wg-301
  matches the Webshare driver (`HealRouting.GapIsReal`; `HealRouting.GapIsExact` says for which
  pools). No heal misfires through it, because relays are SOCKS5 and only a dial through an HTTP proxy
  records a proxy-authentication failure (`internal/upstream/upstream.go:163-170`):
  `HealRouting.FailuresRouteExactly`.
- The refresh backoff is described as min(base x 2^(n-1), 8 x base, 30 min). The shift clamp of 30
  does not rule out 64-bit overflow: with a refresh of 47279 s (13h7m59s, which
  `internal/config/config.go:755-760` accepts) the 25th delay is 94.5 s instead of half an hour
  (`Backoff.OverflowShortensDelay`). `Backoff.DelayIffNotMistaken` gives the exact condition; the
  default of 12 h is safe (`Backoff.DefaultIsSafe`).
- The prune pass is meant to drop only entries that no longer matter. An explicit cooldown
  (Retry-After) longer than `PruneAfter` breaks this (`Pruning.RetryAfterOutlivesPrune`);
  `Pruning.PassInvisibleIffSafe` says exactly when one pass is invisible.
- When the context dies during the last permitted dial, the plain pool reports exhaustion and the
  scoreboard reports cancellation; `Pool.UnknownHostDialsAsPool` states the two results with this
  one difference.
- When every candidate cools, `Pick` looks at expiry alone and ignores the rule's ranking and the
  score (`Selection.ScanAllCooled`); a force pin is consulted before a forcing rule.

## Model

| member | source | states |
|---|---|---|
| Selection.ScanBest | internal/scoreboard/scoreboard.go:759-818 | without a probe the scan returns the entry that every other eligible one comes after: first place in Prefer with unlisted last, score descending, priority ascending, pool order |
| Selection.BestIsUnique | internal/scoreboard/scoreboard.go:781-803 | at most one pool entry is best in that order |
| Selection.OrderMeaning | internal/scoreboard/scoreboard.go:759-803 | the sorted list holds exactly the eligible entries, each once, in dialling order |
| Selection.ScanProbe | internal/scoreboard/scoreboard.go:805-816 | a probe returns an eligible entry that is not the best one |
| Selection.ProbeDrawIsBijective | internal/scoreboard/probe.go:24-36 | every eligible entry but the best answers exactly one reduced draw |
| Selection.ScanAllCooled | internal/scoreboard/scoreboard.go:769-779 | when all open candidates cool, one that stops cooling first is returned, whatever its rank and score |
| Selection.ScanExhausted | internal/scoreboard/scoreboard.go:688-757 | exhausted if and only if no pool entry is untried and admitted by the first matching rule |
| Choices.WarmIsPicked | internal/scoreboard/scoreboard.go:688-819 | while some untried, permitted entry has no expiry after the reading, the answer is such an entry: the first one, or another exactly when the roll is below the chance and there are two |
| Choices.CoolingIsPickedLast | internal/scoreboard/scoreboard.go:769-779 | only when every permitted entry's expiry lies after the reading is a cooling one answered, one that stops first |
| Choices.ExhaustedMeans | internal/scoreboard/scoreboard.go:688-757 | exhausted exactly when every entry has been tried or is not listed by the first matching rule, if that forces |
| Choices.PickMeans | internal/scoreboard/scoreboard.go:677-687 | a pick is turned away exactly by a stored expiry after its reading; else the pin decides exactly when stored, live, untried and in the pool; else the scan of the board it leaves, on which an expired pin has been dropped unless renewed |
| Scoreboards.Scoreboard.ScanCandidates | internal/scoreboard/scoreboard.go:688-819 | the loops over the pool compute the scan those lemmas describe |
| Scoreboards.Scoreboard.Pick | internal/scoreboard/scoreboard.go:677-819 | cascade check, pin check with lazy eviction and scan as three separate regions, with anything in between |
| Scoreboards.Scoreboard.PickForced | internal/scoreboard/admin.go:213-249 | the live untried pin or nothing; only an expired pin is evicted, in a later region |
| Scoreboards.Scoreboard.LookupPin | internal/scoreboard/admin.go:213-249 | which of absent, expired, tried, live or dangling the pin is |
| Scoreboards.Scoreboard.RecordSuccess | internal/scoreboard/scoreboard.go:825-845 | the whole new state: capped reward, cooldown cleared, cascade cleared, nothing else |
| Scoreboards.Scoreboard.RecordFailure | internal/scoreboard/scoreboard.go:860-924 | an invalid kind changes nothing; tuning is read once, the debounce check and the penalty are separate regions, the hook fires exactly when both ran |
| Scoreboards.Scoreboard.AcceptForDebounce | internal/scoreboard/scoreboard.go:930-942 | answer and new stamp table |
| Scoreboards.Scoreboard.ApplyPenalty | internal/scoreboard/scoreboard.go:872-905 | clamped penalty; an override replaces the cooldown, a default one only extends it |
| Scoreboards.Scoreboard.DecayTick | internal/scoreboard/scoreboard.go:622-645 | every score moves one step towards zero and no further |
| Scoreboards.Scoreboard.ReplacePool | internal/scoreboard/scoreboard.go:467-507 | pool, cap and length are replaced and exactly the pins of departed upstreams dropped |
| Scoreboards.Scoreboard.Reload | internal/scoreboard/scoreboard.go:526-541 | the tuning is replaced except the decay interval |
| Scoreboards.Scoreboard.ReplaceRules | internal/scoreboard/scoreboard.go:451-455 | the rules are replaced and nothing else |
| Scoreboards.Scoreboard.DialForHost | internal/scoreboard/scoreboard.go:969-1065 | the loop and its exits as the request function of `Requests.DialForIsSafe` |
| Scoreboards.Scoreboard.TripCascade | internal/scoreboard/cascade.go:37-57 | the host's expiry is now plus the TTL; no effect for a TTL of zero or less |
| Scoreboards.Scoreboard.CascadeUntil | internal/scoreboard/cascade.go:62-73 | the expiry while active, otherwise the zero time |
| Scoreboards.Scoreboard.ForceHost | internal/scoreboard/admin.go:78-118 | errors change nothing; an accepted live pin is the one `Pick` then finds; a past deadline clears the pin |
| Scoreboards.Scoreboard.ForcedFor | internal/scoreboard/admin.go:136-156 | only a live pin is reported; an expired one is evicted in its own region |
| Scoreboards.Scoreboard.Unpin | internal/scoreboard/admin.go:122-131 | the pin is gone, and the answer says whether there was one |
| Scoreboards.Scoreboard.Forget | internal/scoreboard/admin.go:37-63 | both regions in order with others in between; the answer is whether entries, a cascade or, failing those, stamps were removed |
| Scoreboards.Scoreboard.Reset | internal/scoreboard/admin.go:255-267 | both regions in order; undisturbed it gives a board as newly built |
| Scoreboards.Scoreboard.Prune | internal/scoreboard/persist.go:278-323 | both regions in order, the second with the window read in the first; each of the four counts is what its table lost |
| Scoreboards.Scoreboard.PruneEntries | internal/scoreboard/persist.go:278-308 | the pruned tables, and each count is exactly what its table lost |
| Scoreboards.Scoreboard.BuildSnapshot | internal/scoreboard/persist.go:154-185 | lists every entry and exactly the active cascades, each once, for any iteration order |
| Scoreboards.Scoreboard.ApplySnapshot | internal/scoreboard/persist.go:231-254 | entries and cascades become those of the file, empty hosts skipped; pins and stamps stay |
| Scoreboards.Scoreboard.EntriesCount | internal/scoreboard/persist.go:438-446 | the number of (host, upstream) pairs stored |
| Tables.DropEntries | internal/scoreboard/persist.go:288-301 | deleting while iterating leaves exactly the fresh entries and non-empty hosts, and the counts add up |
| Tables.DropStamps | internal/scoreboard/persist.go:310-320 | exactly the stamps older than ten windows go |
| Tables.DecayEntries | internal/scoreboard/scoreboard.go:622-645 | the nested loops decay every entry once |
| Tables.SnapshotHosts | internal/scoreboard/persist.go:158-172 | every host and entry is listed exactly once, in any order |
| Tables.DropUnknownPins | internal/scoreboard/scoreboard.go:485-496 | keeps exactly the pins whose upstream is in the new pool |
| Pruning.PruneInvisibleIffSafe | internal/scoreboard/persist.go:285-308 | the first region of a pass is invisible to every later sequence of regions if and only if no entry it drops is still cooling |
| Pruning.PassInvisibleIffSafe | internal/scoreboard/persist.go:278-323 | the same for the whole pass, both regions on one reading, with anything run between and after them |
| Pruning.PassDropsExactly | internal/scoreboard/persist.go:278-323 | which entries, hosts, cascades and stamps the pass drops, in terms of what is stored; it keeps all else |
| Pruning.SafePrunesAreInvisible | internal/scoreboard/persist.go:278-323 | removing every prune pass from a run changes no other region's answer, if each pass is safe |
| Pruning.ShortCooldownsMakePrunesSafe | internal/scoreboard/persist.go:278-323 | cooldowns and overrides of at most PruneAfter make every pass of every run safe |
| Pruning.PruningIsInvisible | internal/scoreboard/persist.go:256-323 | from a fresh scoreboard with such cooldowns, pruning is invisible to picks and debounce decisions |
| Pruning.UnsafePruneIsVisible | internal/scoreboard/persist.go:288-301 | dropping any entry that still cools is observable, with the traffic that shows it |
| Pruning.RetryAfterOutlivesPrune | internal/scoreboard/scoreboard.go:884-901 | an override longer than PruneAfter leads, through decay, to an unsafe and visible pass |
| Isolation.HostsDoNotInterfere | internal/scoreboard/scoreboard.go:204-264 | removing every region addressed to other hosts from a run changes no answer given to a host and nothing stored for it |
| Lifecycles.TripLastsItsTtl | internal/scoreboard/cascade.go:37-57 | after a trip requests are turned away without a dial until exactly the TTL has passed, whatever other regions run; without a TTL a trip does nothing |
| Lifecycles.SuccessFrees | internal/scoreboard/scoreboard.go:825-845 | a success ends the upstream's cooldown and the host's cascade at every reading until the next failure or trip |
| Lifecycles.PinHolds | internal/scoreboard/admin.go:78-118 | an accepted pin decides every pick before its deadline, over later runs, regions between the pick's own, and pool swaps that keep the upstream |
| Lifecycles.PinLapses | internal/scoreboard/admin.go:213-249 | from its deadline on it decides none, however late and whatever has run: the answer is the scan's |
| Lifecycles.ForgetErases | internal/scoreboard/admin.go:37-63 | the host becomes one never seen; its pin and every other host stay as they were |
| Lifecycles.LastInstalledIsInForce | internal/scoreboard/scoreboard.go:451-541 | tuning, rules, pool and cap in force are those installed last, each by its own reload and nothing else; the decay interval never changes |
| Regions.RegionsKeepTheRest | internal/scoreboard/scoreboard.go:204-264 | each lock region writes only its own tables; loading a snapshot keeps pins and stamps |
| Dialing.DialForIsSafe | internal/scoreboard/scoreboard.go:969-1065 | in every interleaving: distinct dials, at most min(max(cap, 0), pool length) as read on entry; it ends won, cancelled, cascaded or exhausted exactly as the attempt reached has it (context, stored cascade, nothing permitted, dial outcome, no attempt left); each failed dial that must be reported is, in order and once, under its own id and kind and the tuning then in force, no other is; success is recorded exactly on a win and cascade tripped exactly on exhaustion; the board is what others' regions and these records make of it |
| Ledgers.ReportIsCharged | internal/scoreboard/scoreboard.go:860-924 | a report is one debounce check for that host, upstream and kind, and one penalty of that upstream, by that kind's own policy, exactly when no stamp less than a window old is stored |
| Ledgers.SettledReaches | internal/scoreboard/scoreboard.go:969-1065 | the board such a request leaves is the run of exactly its records and of others' regions, besides evictions of its host's expired pin |
| Requests.PickedIsUntried | internal/scoreboard/scoreboard.go:677-819 | whatever runs between its regions, `Pick` returns an id not tried before |
| Pool.UnknownHostDialsAsPool | internal/scoreboard/scoreboard.go:969-1065 | on a host without history the scoreboard dials the same ids and has the same winner as the plain pool, for all outcomes, caps and cancellations |
| Pool.DialLoop | internal/upstream/pool.go:108-176 | the plain loop, including the cancel flag, computes the baseline |
| Pool.NewPoolSortsStably | internal/upstream/pool.go:44-69 | a permutation in priority order that keeps the input order of ties |
| Pool.NewPoolRefuses | internal/upstream/pool.go:44-52 | refused exactly without upstreams or with a cap below one |
| Pool.NextIsPicked | internal/scoreboard/scoreboard.go:677-819 | after failures of the first k upstreams only, the next pool entry is picked |
| Invariants.PinNeverDangles | internal/scoreboard/admin.go:238-248 | in every reachable state the "no longer in the pool" branch is dead |
| Invariants.PickSparesLivePins | internal/scoreboard/admin.go:213-231 | no pick, in any interleaving, removes a pin that is live at its reading; but for expired pins the board is as if the pick had not run |
| Invariants.RunKeepsSound | internal/scoreboard/scoreboard.go:485-496 | every run of regions keeps pins in the pool and host maps non-empty |
| Invariants.DialForKeepsSound | internal/scoreboard/scoreboard.go:969-1065 | a request is a run of regions, so it keeps the same invariant |
| Invariants.SnapshotRoundTrip | internal/scoreboard/persist.go:154-254 | loading a written snapshot restores all entries and exactly the cascades active at write time, for every iteration order |
| Invariants.RestartPicksAlike | internal/scoreboard/persist.go:154-254 | without pins, a restarted process picks the same at every time from the write on |
| Invariants.RestartRunsAlike | internal/scoreboard/persist.go:154-254 | a restarted process answers every later run of regions but the debounce checks as the old one would without its pins |
| Dynamics.ScoreFollows | internal/scoreboard/scoreboard.go:622-645 | each region acts on a score by one map of that score, pruning included |
| Dynamics.CommonHistoryNeverInverts | internal/scoreboard/scoreboard.go:825-888 | a common history of any regions, drops and reloads included, neither inverts two scores nor widens their gap |
| Dynamics.ScoresStayWithinCap | internal/scoreboard/scoreboard.go:825-888 | with one cap and non-negative penalties, absolute scores stay within the cap over every run |
| Dynamics.DecayTicksAdd | internal/scoreboard/scoreboard.go:622-645 | n ticks equal one tick of n steps |
| Dynamics.DecayReachesZero | internal/scoreboard/scoreboard.go:622-645 | a score is zero after n ticks if and only if n steps cover its distance |
| Dynamics.DecayReachesZeroInTime | internal/scoreboard/scoreboard.go:622-645 | after any run, every score is zero within ceil(cap/step) ticks without new events |
| Dynamics.CooldownClosedForm | internal/scoreboard/scoreboard.go:860-924 | over any history since the last success in which the entry itself is not dropped (others may be), the cooldown is the maximum of the last override's expiry and every later default expiry |
| Dynamics.CooldownMovesForward | internal/scoreboard/scoreboard.go:884-901 | it moves back only by override, success, or the drop of its own entry |
| Dynamics.CooledIsSkipped | internal/scoreboard/scoreboard.go:706-779 | from a penalty that sets a cooldown, and until a success, an override or a drop of the entry, no scan before it is over answers that upstream while another permitted one is not cooling |
| Dynamics.EntryRemembers | internal/scoreboard/scoreboard.go:825-845 | while kept, an entry has counted exactly its successes and was last seen at its last success or failure |
| Dynamics.AcceptedAreSpaced | internal/scoreboard/scoreboard.go:930-942 | accepted readings are a window apart in lock order even if readings arrive out of order; prune passes may drop the stamp as long as no later reading lags the pass by more than nine windows |
| Dynamics.AcceptedIsGreedy | internal/scoreboard/scoreboard.go:930-942 | the accepted readings are exactly the greedy selection: the first, then each at least a window after the last selected |
| Dynamics.FailureFiresIffFresh | internal/scoreboard/scoreboard.go:860-924 | a valid failure penalises and fires exactly when nothing of its host, upstream and kind was accepted less than a window before its reading |
| Dynamics.OrderedIsDebounced | internal/scoreboard/persist.go:310-320 | with readings in order no prune pass gets in the way of that |
| Dynamics.DebounceBound | internal/scoreboard/scoreboard.go:930-942 | at most span/window + 1 events accepted in any span |
| FailureCalls.HooksFireOncePerAccepted | internal/scoreboard/scoreboard.go:860-924 | for any number of calls in flight, once all have returned the hook has fired exactly once per accepted event |
| FailureCalls.FailureCountsAccepted | internal/scoreboard/scoreboard.go:878-905 | conservation, per pair: while its entry is not dropped (whatever else is) the failure count grows by exactly the accepted events, with those still owed a penalty on either side |
| FailureCalls.CountSinceLastDrop | internal/scoreboard/scoreboard.go:878-905 | in every run the count is what the entry's last drop left (zero, or the loaded count), plus calls accepted before the drop and penalised after it, plus the events accepted since |
| FailureCalls.CallIsFailRun | internal/scoreboard/scoreboard.go:860-924 | a call run region by region does what `RecordFailure` as a whole does, and its hook fires exactly when that says so |
| Forwarding.ForwardIsAccounted | internal/listener/http.go:572-790 | in every interleaving: one round trip per id, at most the cap; retries counts failures and every answer but the one served was a failed one; it ends served, aborted or with a 502 exactly as the attempt reached has it; each failed answer due a report is reported once, in order, under its own id and the tuning then in force, no other is; success is recorded once when served, cascade tripped once when due; the board is what others' regions and these records make of it |
| Forwarding.ReportsAreDue | internal/listener/http.go:624-736 | exactly which answers are due a report, and as what: timeouts, gated refusals, what the status detector says, bodies some pattern matches |
| Forwarding.FailsMeans | internal/listener/http.go:600-755 | an answer fails exactly when it is no response, has a status the detector reports, or is inspected and meets its fault in the window or is matched there by some pattern |
| Forwarding.DueIsFailed | internal/listener/http.go:624-736 | an answer that is due a report is never the one served |
| Forwarding.HandleForward | internal/listener/http.go:546-790 | the loop computes that trace; however it ends every body the transport handed out was closed exactly once, before the next round trip; a served client got the upstream's own bytes, all of them unless it went away |
| Forwarding.TakeTurn | internal/listener/http.go:576-770 | one attempt: choice, round trip, its settling; no body is open before the round trip or after the turn |
| Forwarding.SettleResponse | internal/listener/http.go:650-770 | status detection, the inspector on the real body, scoring; whichever of the inspector, the drain or the success copy ends it, the body is closed exactly once |
| Forwarding.DrainAndClose | internal/listener/http.go:933-955 | closes the body or the replay in front of it exactly once, however the drain ends |
| Forwarding.WriteForwardSuccess | internal/listener/http.go:854-870 | copies a prefix of the body, all of it when the client stays, and closes it exactly once |
| Forwarding.Wire.RoundTrip | internal/listener/http.go:594-598 | callable only when every earlier body is closed; hands out a fresh open body |
| HealDriver.BufferAgreesWithLog | cmd/tunnelsmith/healdriver.go:155-185 | after a bump that does not dispatch, the buffer is the last min(threshold, k) of the k events in the window since the last dispatch |
| HealDriver.DispatchIffBurst | cmd/tunnelsmith/healdriver.go:155-207 | over every run a bump dispatches if and only if the unbounded log holds a burst and the gates are open |
| HealDriver.StartsExactly | cmd/tunnelsmith/healdriver.go:155-230 | from the events alone: a bump starts a heal exactly when threshold bumps since the last start lie in the window, every heal started has ended, the composer was wired, and the last end, if any, is a cooldown ago |
| HealDriver.LogIsSinceDispatch | cmd/tunnelsmith/healdriver.go:204-205 | the log is the bumps since the last one that started a heal |
| HealDriver.HealBounds | cmd/tunnelsmith/healdriver.go:155-265 | one heal in flight at most, a cooldown after the previous completion, threshold events of its own per dispatch, wired heals only |
| HealDriver.HealRate | cmd/tunnelsmith/healdriver.go:188-205 | at most span/cooldown + 1 dispatches in any interval |
| HealDriver.AuthHealDriver.Buffer | cmd/tunnelsmith/healdriver.go:160-180 | in-place compaction, append and trim of the shared backing array |
| HealDriver.AuthHealDriver.Compact | cmd/tunnelsmith/healdriver.go:162-168 | the events after the cutoff, in order, in the same array |
| HealDriver.AuthHealDriver.Bump | cmd/tunnelsmith/healdriver.go:155-207 | the whole new driver state and whether a heal starts |
| HealDriver.AuthHealDriver.FinishHeal | cmd/tunnelsmith/healdriver.go:218-265 | completion frees the flight and stamps the cooldown |
| HealDriver.Connect | cmd/tunnelsmith/healdriver.go:314-327 | every driver ends wired to the process context and the composer, nothing else changed |
| HealDriver.ConnectIsPossible | cmd/tunnelsmith/healdriver.go:304-327 | wiring the context first and the composer last is possible from every unwired run with anything in between, and nothing is dispatched before it is complete |
| HealRouting.RoutingIsExact | cmd/tunnelsmith/healdriver.go:132-140 | in an accepted configuration a static id reaches no driver, a driver pool's id reaches exactly its own, for every suffix |
| HealRouting.GapIsExact | cmd/tunnelsmith/healdriver.go:361-393 | some id of a driverless pool, ending in a relay hostname its expander accepts, matches a driver if and only if the driver's prefix continues the pool's |
| HealRouting.GapIsReal | cmd/tunnelsmith/healdriver.go:348-358 | an accepted configuration and a relay for which this happens |
| HealRouting.FailuresRouteExactly | cmd/tunnelsmith/healdriver.go:132-140 | every failure the proxy can record reaches exactly the driver of the pool its upstream came from, for every kind and suffix |
| HealRouting.Validate | cmd/tunnelsmith/healdriver.go:361-393 | accepts exactly when no driver clashes with a static id or another pool; errors name a real clash |
| HealRouting.ClashesMisroute | cmd/tunnelsmith/healdriver.go:361-393 | nothing is refused without cause: every clash is an id the driver would match that is not its own pool's |
| Composing.Startup | cmd/tunnelsmith/main.go:113-185 | startup builds scoreboard and composer from one merge, refuses exactly the merges an update would, and leaves them in step whatever traffic already runs |
| Composing.StartInStep | cmd/tunnelsmith/main.go:118-150 | a fresh scoreboard on a composition's pool is in step with it |
| Composing.PoolComposer.UpdateBlock | cmd/tunnelsmith/main.go:610-704 | refines the transactional update: committed swap, no-op or failure that changes nothing |
| Composing.UpdateKeepsInStep | cmd/tunnelsmith/main.go:610-704 | the pool stays the sorted merge of committed blocks; failure changes nothing and the same call tries again |
| Composing.UpdateMeans | cmd/tunnelsmith/main.go:610-704 | when an update applies, changes nothing or fails, in terms of ids, buildability and cap of the merge |
| Composing.InStepMeans | cmd/tunnelsmith/main.go:655-690 | a pool in step holds the statics and then each committed expansion with their ids, specs and priorities, lowest priority first and configured order among equals, under the composition's cap |
| Composing.HistoriesStayInStep | cmd/tunnelsmith/main.go:610-704 | so after every history of updates, reloads and traffic, with unique ids |
| Composing.UpdatesCommute | cmd/tunnelsmith/main.go:610-704 | updates of two blocks commute when neither order fails, down to the surviving pins |
| Composing.PoolOfUnique | cmd/tunnelsmith/main.go:467-481 | sorting a merge without duplicate ids leaves none |
| Composing.AssertUniqueIds | cmd/tunnelsmith/main.go:467-481 | true if and only if no id repeats |
| Composing.Merge | cmd/tunnelsmith/main.go:645-653 | statics, then every block in declaration order with the candidate in place |
| Composing.ReloadConfig | cmd/tunnelsmith/main.go:947-1049 | refines the reload: validation, tuning, pool decision, rules, in that order, with other goroutines between the regions |
| Composing.ReloadKeepsInStep | cmd/tunnelsmith/main.go:988-1011 | with a pool block in play a reload is its tuning and rules regions and keeps the pool in step |
| Composing.ReloadedRulesResolve | cmd/tunnelsmith/main.go:969-1011 | after a successful reload every preferred id names an upstream of the running pool for as long as no racing or later swap drops one |
| Composing.RejectedReloadKeepsBoard | cmd/tunnelsmith/main.go:969-1008 | for every file the loader accepts a rejected reload leaves the scoreboard alone; otherwise exactly what it leaves |
| Composing.ReloadsIff | cmd/tunnelsmith/main.go:969-1008 | a reload succeeds exactly when its rules compile, name only known ids, and the pool can be built when it is to be swapped |
| Composing.ReloadInstalls | cmd/tunnelsmith/main.go:981-1011 | what a successful reload leaves: new tuning and rules, the file's pool in priority order and its cap without pool blocks, and everything learned |
| Composing.CheckPreferIds | internal/upstream/rules.go:218-231 | true if and only if every preferred id is known |
| Rules.NewRuleSet | internal/upstream/rules.go:119-185 | compiles if and only if every block is valid; the error names the first bad block |
| Rules.BuildRanks | internal/upstream/rules.go:162-174 | the rank of an id is its first one-based place |
| Rules.RankIsFirstPlace | internal/upstream/rules.go:162-182 | compiled ranks and the force filter, in terms of the configured list |
| Rules.MatchIsFirst | internal/upstream/rules.go:190-202 | the rule used is the first that matches |
| Rules.Match | internal/upstream/rules.go:190-202 | the loop finds it |
| BodyInspection.BufferAndDecide | internal/failure/body.go:81-128 | the replay holds exactly the original bytes; the first pattern matching the first min(limit, length) bytes is reported; a read error is reported exactly when the window meets the fault, and closes the body once |
| BodyInspection.ReadPrefix | internal/failure/body.go:107-111 | the first min(limit, length) bytes, or a failure exactly when the network's reads meet the fault in the window |
| BodyInspection.FailsInsideOnly | internal/failure/body.go:107-111 | a fault inside the window is always met, one beyond it never |
| BodyInspection.CloseReplay | internal/failure/body.go:184-193 | closing what the inspector handed out closes the upstream's body once |
| BodyInspection.ReplayReader.Read | internal/failure/body.go:163-182 | each read hands out the next bytes and loses none; after close it yields nothing |
| BodyInspection.ReplayReader.Close | internal/failure/body.go:184-193 | closes the upstream body on the first call only |
| BodyInspection.ReadAllCalls | internal/failure/body.go:150-193 | any sequence of read sizes concatenates to a prefix of the original body, and enough of them to all of it |
| BodyInspection.FirstMatchMeaning | internal/failure/body.go:113-127 | matched if and only if some pattern matches, and the first such one is reported |
| Backoff.DelayIffNotMistaken | internal/upstream/webshare/expander.go:337-352 | the delay is min(base x 2^(n-1), 8 x base, 30 min) if and only if the wrapped product is not taken for a short delay |
| Backoff.DefaultIsSafe | internal/upstream/webshare/expander.go:321-352 | always so for the default interval of 12 h |
| Backoff.EarlyDelaysAreSafe | internal/upstream/webshare/expander.go:321-352 | always so for the first seventeen failures of any interval up to a day |
| Backoff.DelayIsMonotone | internal/upstream/webshare/expander.go:337-352 | without overflow the delay never shrinks and is constant from the fourth failure |
| Backoff.CapIsMinimum | internal/upstream/webshare/expander.go:321-330 | the cap is min(8 x base, 30 min) and its product never overflows |
| Backoff.OverflowShortensDelay | internal/upstream/webshare/expander.go:337-352 | an interval the configuration accepts for which the 25th delay is 94.5 s, after a 24th of half an hour |
| Backoff.NextInterval | internal/upstream/webshare/expander.go:270-311 | the loop's interval depends on the failures since the last success only |

## Left out

- CooledHostsByUpstream, CascadeActiveCount, ForceSnapshot, Snapshot: read-only views for metrics and the control endpoint; they would only add easy members.
- Pool.UnknownHostDialsAsPool: does not model other goroutines running beside the request; with them the two loops need not agree.
- Composing.ReloadConfig: leaves out the listener's copies of the settings and the control tokens.
- Composing.Startup: leaves out pool expansion, the rules and driver checks and the listeners.
- Entries are values stored in maps, where the source stores pointers that no goroutine keeps outside the lock.
- Counters are unbounded naturals and clock arithmetic outside `Backoff` does not wrap.
- Scores are reals: floating-point rounding is not modelled.
- `sort.SliceStable` is the stable insertion order of `StableSort`; the tie among equal expiries that `sort.Slice` leaves open is an input of the scan.
- The first lock region of a call that only reads tuning is merged with the start of the call, since it reads one immutable copy.
- Dialling, connection pooling, CONNECT, SOCKS5 and shutdown: replaced by outcomes in the scripts. Of a round trip only the answer and its body's bytes, ending and chunking are kept; the drain's timer is the number of reads it lets finish.
- Request-body buffering before the retry loop, and all header handling.
- A client write that fails halfway is taken to send nothing of that write.
- `path.Match`, regular expressions, `isPlainEncoding`, Retry-After parsing, config parsing and validation: parameters.
- `FromConfig`: the policies and settings it reads out of the file are the model's `Config`.
- gob encoding, file writes, the persistence and decay tickers and their start and stop: only the values written and the tick's effect are modelled.
- Provider clients, credential selection and the expander's `transform`; of `RunRefresh` only the interval is modelled.
- The nil-versus-empty slice distinction in `Update`'s equality test; sequences are compared.
- Metrics, logging, the UI and the control endpoint.
