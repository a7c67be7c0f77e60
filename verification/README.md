# Detection to enforcement in Network Guardian: a verified model

This project models the agents in `network_guardian/agent` that turn traffic into verdicts and
verdicts into blocks, and proves what they promise over every run, not only call by call.

| Component | Files | Form |
|---|---|---|
| Isolation sandbox engine (`isolation_sandbox_engine.py`) | `decay.dfy`, `session_protocol.dfy`, `session_safety.dfy`, `session_theorems.dfy`, `session_effects.dfy`, `isolation_sandbox_engine.dfy` | a state machine whose steps are the stretches of code between two awaits, its invariant, the theorems, what runs leave behind (releases, reports, messages), and the class whose methods take these steps in place |
| Flood guard (`flood_guard.py`) | `sliding_counter.dfy`, `flood_detector.dfy`, `flood_theorems.dfy`, `flood_feeds.dfy`, `flood_interleaving.dfy`, `flood_guard.dfy` | a naive detector that keeps full logs and recounts them, its theorems, its logs and events as functions of the packets and connections alone, handlings that overlap, and the class with pruned deques that refines it |
| Dual-pass evaluator (`dual_pass_evaluator.py`) | `field_paths.dfy`, `field_tree.dfy`, `evaluation_passes.dfy`, `evaluation_pipeline.dfy`, `evaluation_schedule.dfy`, `dual_pass_evaluator.dfy` | flattening with its inverse, the scoring loops, queues and workers as a state machine, where every submitted context ends up, and the class |
| MCP protocol parser (`mcp_protocol_parser.py`) | `method_window.dfy`, `protocol_threats.dfy`, `protocol_reports.dfy`, `protocol_parsers.dfy`, `protocol_verdicts.dfy`, `mcp_protocol_parser.dfy` | the threat list of a message, what it reports threat by threat and what that is worth, the per-protocol loops that agree with both, verdict theorems, and the class |
| Payload harvester (`payload_harvester.py`) | `payload_harvester.dfy` | the registry over whole runs, and the class |
| All together | `detection_pipeline.dfy`, `block_margins.dfy` | what a verdict of one component makes of a session of another, and how long it may wait |

`wrappers.dfy`, `decimal.dfy`, `bounded_deque.dfy` and `threat_scoring.dfy` are shared.
`dafny verify dfyconfig.toml` checks the whole project.

## How to read the model

* **Classes and runs.** The engine, the flood guard, the evaluator and the harvester keep, as ghost
  state, the run that led to their present state from a start state; `Valid()` says that the state
  is reached by it. Every public method ensures that the new state is the step of the old one, so
  every theorem about runs holds of every object (`ValidIsReachable`, `ValidIsAccounted`).
* **Actions alone.** What a run leaves behind is defined a second time, from its actions and without
  any state, and proved to be the same: logs, events and warnings of the flood guard
  (`LogsAreFeeds`, `EventsAreExpected`, `WarningsAreExpected`), the contents of the evaluation queues
  (`LanesAreScheduled`), the contributions of a session (`ReportsGathered`), the counts of every rule
  (`EveryRuleDescribed`).
* **Time.** Clock readings are parameters of the steps and never go back. The isolation engine
  counts ticks of any resolution: `ticks` of them make the half-life of 300 s, and the factor `r`
  of one tick satisfies r^ticks = 1/2. Nothing else is assumed about decay.
* **Awaits.** A report may be overtaken by any other step between `_sever_connection`, the forensic
  log and the final bookkeeping of an isolation, and every order is a run.
* **Open parts.** Which pattern matches which text, UTF-8 lengths, `str.upper` and the pattern
  templates are parameters of the model, fixed but arbitrary.
* **Logs.** Calls of the IPS and messages on the bus are appended to sequences; a bus is taken to be
  attached.

## What was found

* The threshold promise holds at every later instant exactly outside shadow mode
  (`ThresholdsHoldIffEnforcing`); in shadow mode a session can stay ACTIVE at score 80.
* "Three critical alerts with gaps of at most one half-life isolate" is false of the code by the time
  between the two clock readings of `report_threat`: exactly one half-life apart the three reach
  exactly 70 on arrival, and less when the score is read any later. `ThreeCriticalsReadLate` is the
  run. The exact condition is that the decay factors of the three at the time of reading add up to
  1.75 (`ThreeCriticalsIsolate`, `ThreeCriticalsIsolateIff`); gaps of at most one half-life meet it
  on arrival (`CloseCriticalsWeigh`).
* In the same way dual-pass blocks isolate exactly as long as 7/9 of the score are left when it is
  read (some 108 s after arrival), and parser blocks leave ACTIVE exactly as long as 2/3 are (some
  175 s): `BlocksIsolateIff` and `BlocksLeaveActiveIff`, for every delay. A context and a message
  that score exactly 60 show that the bounds cannot be better (`LeakScores60`, `ExactScores60`).
* Giving a message the system role can lower its score and weaken its action, because the role is
  part of the text whose length is judged. Three inputs: a message of 65,538 characters as
  "assistant" is blocked, and as "system", three characters shorter, loses the size warning and is
  flagged (`SystemRoleCanWeaken`); one of 1,048,575 as "user" is blocked, and as "system" is beyond
  the hard limit and flagged as malformed (`SystemRoleCanExceedLimit`); an empty one of 1,048,577 as
  "assistant" is flagged as malformed, and as "system" is parsed and allowed
  (`SystemRoleCanMeetLimit`). `SystemRoleLowersScoreIff` and `SystemRoleWeakensIff` say exactly when;
  it never happens where both texts are on the same side of the hard limit and the warning is not
  lost (`SystemRoleNeverWeakens`).
* The IDS, the only publisher of "ids.alert" in the package, puts the alert one level down
  (`network_guardian/ids/__init__.py:442-445`), and `on_ids_alert` reads the top level. So each alert
  counts 10 against "0.0.0.0", whatever its severity and source: that session can leave ACTIVE exactly
  if there are at least four of them (`PublishedAlertsIff`), and three critical ones never isolate
  it. In the model an alert has severity and source at the
  top level or not at all.
* `_handle_flood` can be overtaken at its awaits. Rates and accounts stay as they are
  (`OverlappingRateBounded`, `OverlappingAccounted`), but an earlier, shorter block that resumes late
  replaces a longer one (`LateBlockShortens`). Under any overlap the block in force is the one that
  the offences of its ip call for exactly if the event called last is the last offence of that ip, or
  already a third one (`BlockInForceIff`); it is enough that the blocks of this one ip are called in
  order (`BlocksInOrderStay`).
* Kept ports can be more than those of the window: a visitor of one port every 6 s is counted with
  every port it ever saw (`SlowVisitorIsCounted`). The two agree exactly if every port visited since
  an eviction last emptied the ip was visited in the window as well (`KeptPortsAgreeIff`).
* `release_session` says that it puts a session back to a monitored state. In the code a released
  session is never suspicious or isolated again until it is pruned, whatever it does
  (`StatusOnlyAdvances`). The model follows the code.
* Printed paths read back exactly for keys that are not empty and contain neither `.` nor `[`
  (`ReadsBackIffGood`), and what reads back is the text of what was read, so another path of good keys
  shares a text exactly if that text reads back (`SharesTextIff`). Every key with a dot inside, every key that ends in an index, and an empty
  key on top collide with other paths (`BadKeysCollide`, `DottedKeyCollides`).
* The enumeration alarm is right for every log with n calls in the window exactly if n is at most
  200 (`AlarmIsRightIff`); one call followed by 200 or more over seven other methods hides it.
* A suppression key never seen counts as fired at clock 0, so no flood is raised before the clock
  reads 30 s (`OffenceRateBounded`).
* The threshold of 60 is commented as new TCP connections per window. The code records every open
  connection again at each poll: n lasting connections over k scans in the window count n * k
  (`LastingConnectionsRecounted`).
* A GraphQL query is scanned for introspection twice, once by itself and once as text, so each such
  pattern is reported twice and counts twice (`ThreatsWorth`).
* Malformed envelopes are always flagged with score 8, whatever the thresholds say, and leave
  history and counters of parsed messages alone (`ParseStream`).
* From a registry, empty or read from disk, no sequence of harvests ever overwrites a rule exactly if
  no stored name carries a number above the size of the registry for a type that can be harvested
  (`NeverOverwritesIff`). An empty registry is such, and a restart keeps it so (`RestartStaysSafe`);
  a file edited by hand need not be (`LoadedRegistryCanCollide`).
* `_sever_connection` passes `duration_seconds` while `network_guardian/ips/__init__.py:229-237`
  calls the parameter `duration`; with that class each attempt ends as a `block_error`. The model
  counts attempts and takes their result as a parameter.
* A firewall event of severity "low" scores 15, more than "medium" with 10
  (`network_guardian/agent/isolation_sandbox_engine.py:587`); the model keeps both.

## Model

| member | source | states |
|---|---|---|
| SessionTheorems.ThresholdsHoldLater | network_guardian/agent/isolation_sandbox_engine.py:332-344 | in every reachable state outside shadow mode, now and at every later time until the next report, an active session is below 40 and a suspicious one below 70 |
| SessionTheorems.ShadowLeavesActive | network_guardian/agent/isolation_sandbox_engine.py:338-339 | for every engine in shadow mode, a concrete run that breaks the threshold promise |
| SessionTheorems.ThresholdsHoldIffEnforcing | network_guardian/agent/isolation_sandbox_engine.py:332-344 | for every configuration: all reachable sessions keep the thresholds at every later time if and only if it is not in shadow mode |
| SessionSafety.TotalRescales | network_guardian/agent/isolation_sandbox_engine.py:184-191 | the uncapped score of any list of contributions scales as score(t + d) = score(t) * decay(d) |
| SessionSafety.BelowStaysBelow | network_guardian/agent/isolation_sandbox_engine.py:184-192 | a score below a positive threshold stays below it until something is added |
| Decay.FactorPlus | network_guardian/agent/isolation_sandbox_engine.py:190 | decay over two intervals is the product of the decays |
| Decay.FactorHalves | network_guardian/agent/isolation_sandbox_engine.py:190 | what is at least one half-life old counts at most half, what is younger at least half |
| SessionSafety.InvariantKept | network_guardian/agent/isolation_sandbox_engine.py:303-449 | every enabled step of any interleaving is defined and keeps tables, scores, isolation log and in-flight accounts consistent |
| SessionTheorems.LookupsNeverFail | network_guardian/agent/isolation_sandbox_engine.py:312-313 | the session lookup of a report succeeds in every reachable state |
| SessionTheorems.TablesStayInverse | network_guardian/agent/isolation_sandbox_engine.py:282-301 | the two session tables are inverse to each other in every reachable state |
| SessionTheorems.SessionsAccounted | network_guardian/agent/isolation_sandbox_engine.py:609-622 | over any run from the start, total_sessions = live sessions + the sessions that its prune steps removed |
| SessionTheorems.PruningIsExact | network_guardian/agent/isolation_sandbox_engine.py:609-622 | pruning removes from both tables exactly the isolated or released sessions past the age limit and changes nothing else |
| SessionTheorems.StaleByAge | network_guardian/agent/isolation_sandbox_engine.py:613-616 | on a clock from 0 on, `isolated_at or created_at` is the time since isolation, or since registration when never isolated |
| SessionTheorems.IsolatedAtMostOnce | network_guardian/agent/isolation_sandbox_engine.py:382-415 | under every interleaving no session id is isolated twice, there is one IPS attempt per isolation, for the ip that the session table holds for it, and completed plus in-flight isolations are all ever begun |
| SessionTheorems.ShadowNeverEnforces | network_guardian/agent/isolation_sandbox_engine.py:429-449 | in shadow mode no session is ever isolated and the IPS is never called |
| SessionTheorems.StatusOnlyAdvances | network_guardian/agent/isolation_sandbox_engine.py:335-370 | over any run a surviving session keeps its ip, only gains contributions, and moves only forward; released is never left; a pruned id never returns |
| SessionTheorems.SparseStaysBelow | network_guardian/agent/isolation_sandbox_engine.py:184-192 | contributions of at most x spaced at least one half-life apart keep the uncapped score strictly below 2x forever |
| SessionTheorems.OneOffAnomaliesFade | network_guardian/agent/isolation_sandbox_engine.py:335-344 | a session hit by at most 20 per half-life is active, or released by hand, in every reachable state |
| SessionTheorems.LowScoresStayActive | network_guardian/agent/isolation_sandbox_engine.py:335-344 | a session whose uncapped score never reached 40 is active, or released by hand, in every reachable state |
| SessionTheorems.ThreeCriticalsReach | network_guardian/agent/isolation_sandbox_engine.py:184-192 | three contributions of at least 40 whose decay factors add up to 1.75 total at least 70, whatever else is in the list and however late |
| SessionTheorems.ThreeCriticalsReachIff | network_guardian/agent/isolation_sandbox_engine.py:184-192 | for exactly three contributions of 40 the condition is exact |
| SessionTheorems.CloseCriticalsWeigh | network_guardian/agent/isolation_sandbox_engine.py:184-192 | gaps of at most one half-life meet the condition when the third arrives |
| SessionTheorems.ThreeCriticalsIsolate | network_guardian/agent/isolation_sandbox_engine.py:332-341 | in every reachable state outside shadow mode, the report that meets the condition when its score is read isolates a session that is not released |
| SessionTheorems.ThreeCriticalsIsolateIff | network_guardian/agent/isolation_sandbox_engine.py:332-341 | of a session that took two criticals and is not isolated, a third critical isolates it if and only if the condition holds |
| SessionTheorems.ThreeCriticalsReadLate | network_guardian/agent/isolation_sandbox_engine.py:332-341 | the run of three criticals one half-life apart ends isolated if the last score is read on arrival, and suspicious if it is read any later |
| SessionEffects.ReleaseReleases | network_guardian/agent/isolation_sandbox_engine.py:360-378 | in every reachable state, releasing an ip of the table makes its session RELEASED, counts and publishes that, and leaves every other session and both tables as they are; for any other ip nothing changes |
| SessionEffects.ReleasedStays | network_guardian/agent/isolation_sandbox_engine.py:335-370 | from then on, whatever runs, the session is RELEASED in every later state that still holds it |
| SessionEffects.ReleasesCounted | network_guardian/agent/isolation_sandbox_engine.py:360-378 | over any run from the start, total_released is the number of its releases of an ip that was in the table |
| SessionEffects.ReportsGathered | network_guardian/agent/isolation_sandbox_engine.py:312-322 | over any run, a session gathers exactly the reports about its ip, in order, each with its source, score, time and summary |
| SessionEffects.SessionIsItsReports | network_guardian/agent/isolation_sandbox_engine.py:282-322 | a session opened by an action has the creation time of its registration and holds the reports of its ip from that action on, and no others |
| SessionEffects.ReportDecides | network_guardian/agent/isolation_sandbox_engine.py:332-358 | in every reachable state what a report does to status, isolations and bus, exactly, by the score when it is read: isolation from 70 (or the shadow message), suspicion from 40, otherwise nothing |
| SessionEffects.EventsAreTold | network_guardian/agent/isolation_sandbox_engine.py:403-422 | over any run the bus announces exactly the isolations completed, in order, and each release; every one was begun before and carries the one result that the IPS gave for its session; the history is the newest 500 |
| SessionEffects.ForensicsAreTold | network_guardian/agent/isolation_sandbox_engine.py:400-401 | over any run each forensic log that was written is announced once, in order |
| SessionEffects.SuspicionToldOnce | network_guardian/agent/isolation_sandbox_engine.py:343-358 | over any run no session is announced as suspicious twice; one that is suspicious was, one that is active was not |
| SessionEffects.LastSeenIsLastReport | network_guardian/agent/isolation_sandbox_engine.py:288-316 | in every reachable state a session was last seen at its last report, or at its registration |
| IsolationSandbox.SessionRecord.EffectiveScore | network_guardian/agent/isolation_sandbox_engine.py:184-192 | the loop computes the capped, decayed sum |
| IsolationSandbox.IsolationSandboxEngine.constructor | network_guardian/agent/isolation_sandbox_engine.py:226-246 | a new engine is the start state of runs |
| IsolationSandbox.IsolationSandboxEngine.RegisterSession | network_guardian/agent/isolation_sandbox_engine.py:282-301 | updates the tables in place as the Register step does, and returns the session of the ip |
| IsolationSandbox.IsolationSandboxEngine.ReportThreat | network_guardian/agent/isolation_sandbox_engine.py:303-358 | in place, exactly the Report step up to its first await |
| IsolationSandbox.IsolationSandboxEngine.IsolateSession | network_guardian/agent/isolation_sandbox_engine.py:382-393 | status and time are set before the await, the recorded score is read after that at its own clock reading, and there is one block attempt |
| IsolationSandbox.IsolationSandboxEngine.SeverConnection | network_guardian/agent/isolation_sandbox_engine.py:451-466 | one attempt for the ip if there is an IPS, none otherwise; the coroutine is left suspended |
| IsolationSandbox.IsolationSandboxEngine.AfterBlock | network_guardian/agent/isolation_sandbox_engine.py:393-401 | the step that resumes after the IPS and ends at the forensic log |
| IsolationSandbox.IsolationSandboxEngine.AfterForensicLog | network_guardian/agent/isolation_sandbox_engine.py:400-422 | the step that counts, records and publishes the isolation |
| IsolationSandbox.IsolationSandboxEngine.ReleaseSession | network_guardian/agent/isolation_sandbox_engine.py:360-378 | in place, exactly the Release step; true if and only if the ip has a session, and that one is RELEASED then |
| IsolationSandbox.IsolationSandboxEngine.PruneStaleSessions | network_guardian/agent/isolation_sandbox_engine.py:609-622 | collecting and deleting in place is exactly the Prune step |
| IsolationSandbox.IsolationSandboxEngine.ValidIsReachable | network_guardian/agent/isolation_sandbox_engine.py:214-246 | every theorem about reachable states holds of every engine object |
| SlidingCounters.SlidingCounter.Record | network_guardian/agent/flood_guard.py:122-126 | deque and port set go on representing the full call log |
| SlidingCounters.SlidingCounter.Count | network_guardian/agent/flood_guard.py:128-135 | returns the number of packets of the ip in the full log with time at or after now - window |
| SlidingCounters.DropStale | network_guardian/agent/flood_guard.py:133-135 | the pruning loop keeps exactly the recent entries of the whole log |
| SlidingCounters.SlidingCounter.UniquePorts | network_guardian/agent/flood_guard.py:137-138 | returns the number of distinct non-zero ports since the ip's last eviction |
| SlidingCounters.SlidingCounter.EvictStale | network_guardian/agent/flood_guard.py:147-154 | eviction changes no answer that the full log would give |
| SlidingCounters.StaleHasNoRecent | network_guardian/agent/flood_guard.py:151 | looking at the newest deque entry decides whether the full log holds any packet in the window |
| SlidingCounters.WindowPortsAreKept | network_guardian/agent/flood_guard.py:147-154 | eviction never hides a port scan: every distinct port of the current window is still counted |
| SlidingCounters.KeptPortsVisited | network_guardian/agent/flood_guard.py:137-154 | the kept ports are exactly those visited since an eviction last emptied the ip |
| SlidingCounters.KeptPortsAgreeIff | network_guardian/agent/flood_guard.py:137-154 | the kept ports are exactly those of the window if and only if every port visited since an eviction last emptied the ip was visited in the window as well |
| SlidingCounters.SlowVisitorIsCounted | network_guardian/agent/flood_guard.py:137-154 | for every n: a visitor of one new port every 6 s is counted with all n ports though the window holds one |
| FloodDetector.KeysDiffer | network_guardian/agent/flood_guard.py:326 | suppression keys of different floods or addresses never coincide, nor with the table warning |
| FloodTheorems.SuppressedIffRecent | network_guardian/agent/flood_guard.py:326-330 | a key is suppressed if and only if such an event was raised in the last 30 s, or the clock reads less than 30 |
| FloodFeeds.LogsAreFeeds | network_guardian/agent/flood_guard.py:255-306 | over every run the logs of the TCP, UDP, ICMP and probe counters are exactly what packets and sampled connections fed them, defined from the actions and the allowlist at their time alone; so are the allowlist and the kept ports |
| FloodFeeds.PacketRaisesExactly | network_guardian/agent/flood_guard.py:425-459 | after every run one packet adds exactly the events that the packets and connections fed before it call for: a flood whose count in the last 10 s (or whose kept ports) reach 80, 120, 60 or 30 and of which none was raised in the last 30 s, with its count, time and block |
| FloodFeeds.ScanRaisesExactly | network_guardian/agent/flood_guard.py:290-306 | the same for one scan, address by address, after its own sampling |
| FloodFeeds.EventsAreExpected | network_guardian/agent/flood_guard.py:255-459 | so all events of every run, each with number, type, address, count, threshold, time and block duration, are a function of its actions alone |
| FloodFeeds.BurstRaisesOnce | network_guardian/agent/flood_guard.py:439-444 | for every n: n ICMP packets of one address at one instant from 30 s on raise exactly one event, with count 80, if n is at least 80, and none otherwise |
| FloodFeeds.BurstIsBlocked | network_guardian/agent/flood_guard.py:372-383 | from any fresh agent such a burst can run, and ends with one block of an hour |
| FloodFeeds.WarningsAreExpected | network_guardian/agent/flood_guard.py:401-421 | over every run the table warnings are those of the scans that saw 800 connections or more at least 60 s after the last warning, or the clock's 0 |
| SlidingCounters.CountSincePlaces | network_guardian/agent/flood_guard.py:128-135 | the recursive count is the number of places of the log that hold the ip at or after the cutoff |
| FloodTheorems.HandledKeeps | network_guardian/agent/flood_guard.py:318-399 | handling a flood keeps accounts, history, spacing and table warnings consistent |
| FloodTheorems.FloodsAccounted | network_guardian/agent/flood_guard.py:333-397 | over every run offences sum to the event counter, the events, the alerts and the blocks; alert i and block i are those of event i; an ip's n-th block, counted over the blocks, lasts 1 h, 6 h, then permanently; the history is a suffix of all events of length between min(total, 2500) and 5000 |
| FloodTheorems.OffenceRateBounded | network_guardian/agent/flood_guard.py:325-335 | in any interval of length L an ip gains at most 4 (floor(L / 30) + 1) offences, whatever the traffic, and none before clock 30 |
| FloodTheorems.TableWarningsSpaced | network_guardian/agent/flood_guard.py:401-407 | table exhaustion warnings are at least 60 s apart |
| FloodTheorems.LastingConnectionsRecounted | network_guardian/agent/flood_guard.py:268-286 | over any polls, n connections that last through k scans in the window count n * k |
| FloodInterleaving.OverlappingRateBounded | network_guardian/agent/flood_guard.py:325-335 | however handlings overlap at their awaits, the offence rate of an ip stays bounded |
| FloodInterleaving.DecidesExactly | network_guardian/agent/flood_guard.py:325-331 | however handlings overlap, a decision adds one event of its kind, with its number, count, time and block, if and only if none was raised in the last 30 s and the clock reads 30 or more |
| FloodInterleaving.OverlappingAccounted | network_guardian/agent/flood_guard.py:372-397 | however they overlap, every offence decided is waiting or leads to one call of the IPS and one record |
| FloodInterleaving.LateBlockShortens | network_guardian/agent/flood_guard.py:372-383 | the run in which the one hour of a first offence replaces the six hours of the second |
| FloodInterleaving.BlockInForceIff | network_guardian/agent/flood_guard.py:372-383 | under any overlap the block of an ip in force lasts as long as its offences call for if and only if the event called last is the last offence of the ip, or at least the third |
| FloodInterleaving.BlocksInOrderStay | network_guardian/agent/flood_guard.py:372-383 | whatever else overlaps, if no alert of an ip is pending and its own blocks are called in the order of its offences, its block in force lasts as long as its last offence calls for |
| FloodTheorems.AllowlistedIsUntouched | network_guardian/agent/flood_guard.py:436-437 | over any run that never removes it, an allowlisted ip is not recorded, not blamed, and the IPS is never asked to block it |
| FloodGuard.FloodGuardAgent.constructor | network_guardian/agent/flood_guard.py:178-208 | a new agent is the start state of the naive detector; an empty allowlist is replaced |
| FloodGuard.FloodGuardAgent.ValidIsAccounted | network_guardian/agent/flood_guard.py:161-208 | every agent object is reached by a run from the start state with its own allowlist, so the theorems about runs hold of it: its events, warnings and allowlist are those that its actions call for |
| FloodGuard.FloodGuardAgent.RecordPacket | network_guardian/agent/flood_guard.py:425-459 | over the pruned counters, exactly the step of the naive detector, which the run of the agent records |
| FloodGuard.FloodGuardAgent.ScanConnections | network_guardian/agent/flood_guard.py:255-306 | sampling, table check and threshold loop together are exactly the Scan step of the naive detector |
| FloodGuard.FloodGuardAgent.HandleFlood | network_guardian/agent/flood_guard.py:318-399 | suppression, escalation, numbering, alert, block, history and event as specified |
| FloodGuard.FloodGuardAgent.HandleTableExhaustion | network_guardian/agent/flood_guard.py:401-421 | the table warning as specified |
| FloodGuard.FloodGuardAgent.Evict | network_guardian/agent/flood_guard.py:239-249 | evicting three of the four counters, each at its own clock reading, is invisible but for the kept ports |
| FloodGuard.FloodGuardAgent.AddToAllowlist | network_guardian/agent/flood_guard.py:468-470 | exactly the corresponding step |
| FloodGuard.FloodGuardAgent.RemoveFromAllowlist | network_guardian/agent/flood_guard.py:472-476 | exactly the corresponding step; true if and only if the ip was listed |
| FieldPaths.PathReadsBackIff | network_guardian/agent/dual_pass_evaluator.py:463-474 | a printed path reads back as its own steps if and only if all its keys are non-empty and free of '.' and '[' |
| FieldPaths.PathsInjective | network_guardian/agent/dual_pass_evaluator.py:463-474 | such paths never share a text |
| FieldPaths.ReadingPrints | network_guardian/agent/dual_pass_evaluator.py:463-474 | whatever text reads as a path is the text of the path that was read |
| FieldPaths.SharesTextIff | network_guardian/agent/dual_pass_evaluator.py:463-474 | any path shares its text with another path of good keys if and only if it has a bad key and its text reads as a path |
| FieldPaths.OpenBracketIsAlone | network_guardian/agent/dual_pass_evaluator.py:463-474 | every path that ends in a key with a bracket that never closes, though that key is bad, shares its text with no path of good keys |
| FieldPaths.BadKeysCollide | network_guardian/agent/dual_pass_evaluator.py:465 | at any place in a path, a key with a dot inside and a key that ends in an index give the same text as two other steps; an empty key on top gives none |
| FieldTree.IterFields | network_guardian/agent/dual_pass_evaluator.py:457-478 | the recursion prints exactly the leaves of the content in traversal order |
| FieldTree.FlattenRoundTrip | network_guardian/agent/dual_pass_evaluator.py:457-478 | for good keys every printed path reads back and looks up exactly its leaf, no path is printed twice, and every value that can be looked up is printed |
| FieldTree.LeavesInOrder | network_guardian/agent/dual_pass_evaluator.py:457-478 | the leaves come in the order of the content: of any two, the earlier one is in the earlier entry or item where their paths part |
| FieldTree.ReadsBackIffGood | network_guardian/agent/dual_pass_evaluator.py:457-478 | for any content, a leaf's path reads back if and only if the keys on the way to it are good |
| FieldTree.DottedKeyCollides | network_guardian/agent/dual_pass_evaluator.py:465 | a content with distinct keys whose two leaves get the same path |
| EvaluationPasses.MatchRules | network_guardian/agent/dual_pass_evaluator.py:381-395 | the pattern loop appends the matching rules in table order and adds exactly their weights |
| EvaluationPasses.RunPrePass | network_guardian/agent/dual_pass_evaluator.py:358-412 | the reported flags are exactly these: "oversized_context" for each field whose text is longer than 131072 bytes, and each matching rule of the table on its field; score and action are those of their weighted sum |
| EvaluationPasses.RunPostPass | network_guardian/agent/dual_pass_evaluator.py:414-453 | the same for the second pass and its table, without sizes |
| EvaluationPasses.PassFlagsIff | network_guardian/agent/dual_pass_evaluator.py:364-395 | a flag is reported of a list of fields if and only if some field is too large, for the first pass, or matches a rule of the table of the pass |
| EvaluationPasses.PostNeverFlagsSize | network_guardian/agent/dual_pass_evaluator.py:414-453 | no flag of the second pass is about a size |
| EvaluationPasses.ScoreByField | network_guardian/agent/dual_pass_evaluator.py:364-398 | the uncapped score of either pass, without its flags: 8 points for each field that is too large in the first pass, and severity times confidence for each rule that matches a field |
| EvaluationPasses.ScoreAdditive | network_guardian/agent/dual_pass_evaluator.py:358-412 | the uncapped score of a list of fields is the sum over its parts |
| EvaluationPasses.ScoreIgnoresOrder | network_guardian/agent/dual_pass_evaluator.py:358-412 | any reordering of the fields has the same score |
| EvaluationPasses.MoreFieldsNeverWeaken | network_guardian/agent/dual_pass_evaluator.py:480-491 | adding fields never weakens the action, in shadow mode or not |
| EvaluationPasses.VerdictFromReport | network_guardian/agent/dual_pass_evaluator.py:480-491 | the reported score is the field-by-field score, at most 100; block if and only if not in shadow mode and it is 60 or more, allow if and only if it is below 25 |
| EvaluationPipeline.Conservation | network_guardian/agent/dual_pass_evaluator.py:264-354 | submissions = dropped + queued (at most 500) + held + evaluated + errored; the counters are the numbers of flagged and of blocked results, together at most the total; none blocked in shadow mode |
| EvaluationPipeline.EvaluationOrder | network_guardian/agent/dual_pass_evaluator.py:308-354 | contexts are finished in the order of submission with the dropped ones left out, each with its own result |
| EvaluationPipeline.HistoryIsNewest | network_guardian/agent/dual_pass_evaluator.py:228 | the history shows the newest 1000 results, each pass in its own order; the bus has one message per result, in order, on the topic of its action; none is blocked in shadow mode |
| EvaluationSchedule.LanesAreScheduled | network_guardian/agent/dual_pass_evaluator.py:264-354 | over every run, by its submissions and the turns of the worker alone: a context is dropped exactly if 500 admitted ones wait; the others are queued, held and finished first come, first served, and the errors are those whose evaluation raised |
| DualPassEvaluation.DualPassEvaluator.constructor | network_guardian/agent/dual_pass_evaluator.py:205-237 | after construction and start the pipeline is empty |
| DualPassEvaluation.DualPassEvaluator.ValidIsAccounted | network_guardian/agent/dual_pass_evaluator.py:264-354 | every evaluator object conserves its submissions, keeps their order, counts consistently and shows the newest results |
| DualPassEvaluation.DualPassEvaluator.SubmitPre | network_guardian/agent/dual_pass_evaluator.py:264-283 | enqueues, or drops when the queue is full |
| DualPassEvaluation.DualPassEvaluator.SubmitPost | network_guardian/agent/dual_pass_evaluator.py:285-304 | the same for the second pass |
| DualPassEvaluation.DualPassEvaluator.TakePre | network_guardian/agent/dual_pass_evaluator.py:308-316 | the worker takes the oldest queued context |
| DualPassEvaluation.DualPassEvaluator.TakePost | network_guardian/agent/dual_pass_evaluator.py:332-340 | the same for the second pass |
| DualPassEvaluation.DualPassEvaluator.FinishPre | network_guardian/agent/dual_pass_evaluator.py:317-330 | one turn of the worker: evaluation, counters, history and bus, or an error |
| DualPassEvaluation.DualPassEvaluator.FinishPost | network_guardian/agent/dual_pass_evaluator.py:341-354 | the same for the second pass |
| DualPassEvaluation.DualPassEvaluator.Publish | network_guardian/agent/dual_pass_evaluator.py:495-503 | the newest result in front of the history, and one message on the topic of its action |
| MethodWindow.LogCall | network_guardian/agent/mcp_protocol_parser.py:364-375 | after each call the deque is exactly the part of the full call log that is among the last 200 and within 30 s |
| MethodWindow.EnumerationAlarm | network_guardian/agent/mcp_protocol_parser.py:375-386 | an alarm is sound; with at most 200 calls in the window it fires if and only if at least 8 methods were called |
| MethodWindow.AlarmIsRightIff | network_guardian/agent/mcp_protocol_parser.py:235 | for every number n of calls: the alarm is right for every log with n calls in the window if and only if n is at most 200 |
| MethodWindow.BurstIsMissed | network_guardian/agent/mcp_protocol_parser.py:235 | for every n above 200, a log of n calls with eight methods in the window and no alarm |
| ProtocolParsers.ParseJsonRpc | network_guardian/agent/mcp_protocol_parser.py:346-414 | method enumeration is reported if and only if there is a method name and 8 methods are in the window; the other threats are exactly the matching patterns of method, params and result; the accumulated score is what they are worth |
| ProtocolParsers.ParseMcp | network_guardian/agent/mcp_protocol_parser.py:428-500 | threats and accumulated score of MCP messages, exactly: content, tool calls, context blocks, tool results, injected items |
| ProtocolParsers.ParseGraphQl | network_guardian/agent/mcp_protocol_parser.py:514-579 | the same for GraphQL, where probes in the query count twice, with the nesting warning from 16 opening braces on |
| ProtocolParsers.ParseMultiAgent | network_guardian/agent/mcp_protocol_parser.py:593-638 | the same for multi-agent messages: leaks only of memory writes and retrievals |
| ProtocolParsers.ParseUnknown | network_guardian/agent/mcp_protocol_parser.py:652-659 | the same for the first 4096 characters of anything else |
| ProtocolParsers.EvaluateText | network_guardian/agent/mcp_protocol_parser.py:675-712 | the matching injection patterns, boosted, then the matching introspection patterns |
| ProtocolParsers.ScanExfiltration | network_guardian/agent/mcp_protocol_parser.py:714-734 | the matching exfiltration patterns |
| ProtocolReports.ThreatsAreReports | network_guardian/agent/mcp_protocol_parser.py:346-659 | for every message: a threat is in its list if and only if a part of the message reports it (a pattern that matches, a dangerous tool, deep nesting, method enumeration) |
| ProtocolReports.ThreatsWorth | network_guardian/agent/mcp_protocol_parser.py:346-659 | the weighted sum of the list is the sum of what the parts of the message are worth, by patterns, severities and tool names alone |
| ProtocolReports.EnumerationIff | network_guardian/agent/mcp_protocol_parser.py:364-386 | method enumeration is reported of a JSON-RPC call with a method name from 8 methods on, and of no other message |
| ProtocolReports.OversizedIff | network_guardian/agent/mcp_protocol_parser.py:564-579 | of all messages only a GraphQL query with more than 15 opening braces reports by itself that it is too large |
| ProtocolVerdicts.ScoreByMessage | network_guardian/agent/mcp_protocol_parser.py:285-305 | score and action of every parsed message: its worth, plus 10 beyond 65536 characters unless it already says so, at most 100; block from 60, flag from 25 |
| ProtocolVerdicts.CapTwice | network_guardian/agent/mcp_protocol_parser.py:302 | capping before the size bonus and again after it is capping once |
| ProtocolVerdicts.FinalThreatsSound | network_guardian/agent/mcp_protocol_parser.py:199-206 | every threat reported for any message weighs at least 0, and a critical one is at least 0.95 sure |
| ProtocolVerdicts.OneCriticalIsNotAllowed | network_guardian/agent/mcp_protocol_parser.py:738-743 | one critical indicator rules out "allow" |
| ProtocolVerdicts.TwoCriticalsBlock | network_guardian/agent/mcp_protocol_parser.py:738-743 | two critical indicators force "block" |
| ProtocolVerdicts.BoostRaisesHits | network_guardian/agent/mcp_protocol_parser.py:675-696 | a boost reports the same patterns at the same places, each with at least the same confidence, and never lowers the total weight |
| ProtocolVerdicts.SystemRoleNeverWeakens | network_guardian/agent/mcp_protocol_parser.py:261-305 | giving the same MCP message the system role never lowers its score nor weakens its action, for any two sizes on the same side of the hard limit, unless the text thereby loses the size warning |
| ProtocolVerdicts.SystemRoleLowersScoreIff | network_guardian/agent/mcp_protocol_parser.py:261-302 | for any two sizes, the hard limit included: the exact condition under which the score falls |
| ProtocolVerdicts.SystemRoleWeakensIff | network_guardian/agent/mcp_protocol_parser.py:261-305 | for any two sizes, the hard limit included: the exact condition under which the action weakens |
| ProtocolVerdicts.SystemRoleCanWeaken | network_guardian/agent/mcp_protocol_parser.py:261-302 | a message blocked at 65,538 characters as "assistant" and only flagged at 65,535 as "system" |
| ProtocolVerdicts.SystemRoleCanExceedLimit | network_guardian/agent/mcp_protocol_parser.py:264-267 | a message blocked at 1,048,575 characters as "user" is malformed and flagged at 1,048,577 as "system" |
| ProtocolVerdicts.SystemRoleCanMeetLimit | network_guardian/agent/mcp_protocol_parser.py:264-267 | an empty message malformed and flagged at 1,048,577 characters as "assistant" is allowed at 1,048,574 as "system" |
| ProtocolVerdicts.BlockedIsParsed | network_guardian/agent/mcp_protocol_parser.py:264-305 | only what was parsed is blocked, with at least 60 points and some threat |
| ProtocolVerdicts.McpWarning | network_guardian/agent/mcp_protocol_parser.py:285-287 | of an MCP message the size alone decides on the warning |
| McpProtocolParser.EnumerationReported | network_guardian/agent/mcp_protocol_parser.py:364-386 | the final threat list says that methods are enumerated if and only if the message calls a method and its sender has 8 in the window; with at most 200 calls in the last 30 s, if and only if 8 methods were called in these |
| McpProtocolParser.MCPProtocolParser.ParseStream | network_guardian/agent/mcp_protocol_parser.py:253-312 | score, action, bookkeeping and publication of one message, malformed or not; windows stay exact and counters and history stay those of all messages parsed; method enumeration is reported exactly as the call log says |
| McpProtocolParser.MCPProtocolParser.Finish | network_guardian/agent/mcp_protocol_parser.py:285-305 | the soft size warning, the cap and the action; the score is the capped weighted sum of the final list |
| McpProtocolParser.MCPProtocolParser.MakeMalformed | network_guardian/agent/mcp_protocol_parser.py:747-779 | score 8, flagged, counted and published as malformed only |
| McpProtocolParser.MCPProtocolParser.Publish | network_guardian/agent/mcp_protocol_parser.py:781-810 | one message on the bus: on the threat topic if and only if there are threats |
| PayloadHarvesting.NumberOfName | network_guardian/agent/payload_harvester.py:105 | the number at the end of a rule name can be read back, whatever dashes and digits precede it |
| PayloadHarvesting.NewNameIsFresh | network_guardian/agent/payload_harvester.py:105 | a registry grown from one with no name ahead never holds the next name |
| PayloadHarvesting.NoRuleIsLost | network_guardian/agent/payload_harvester.py:72-134 | from such a registry, an empty one for instance, every successful harvest adds a rule and the statistics count every detection of a known rule |
| PayloadHarvesting.EveryRuleDescribed | network_guardian/agent/payload_harvester.py:72-288 | from such a registry the rules after any run are exactly those loaded and those harvested, each as it was then, with its successes, and with its failures, increased by the detections of its name with that outcome reported while it was there |
| PayloadHarvesting.LoadedRegistryCanCollide | network_guardian/agent/payload_harvester.py:296-308 | one rule read from disk whose name ends in -2 makes the next harvest overwrite it |
| PayloadHarvesting.NeverOverwritesIff | network_guardian/agent/payload_harvester.py:105-129 | from any registry: no sequence of harvests and detections ever overwrites a rule if and only if no stored name has, for a type that can be harvested, a number above the size |
| PayloadHarvesting.RestartStaysSafe | network_guardian/agent/payload_harvester.py:296-320 | a registry written and read back after such a run is such a registry again |
| PayloadHarvesting.PayloadHarvester.HarvestFromExploitation | network_guardian/agent/payload_harvester.py:72-134 | succeeds exactly for payloads of 5 characters or more with a pattern, whatever registry was loaded, and inserts under a new name if none of the loaded names was ahead |
| PayloadHarvesting.PayloadHarvester.RecordDetection | network_guardian/agent/payload_harvester.py:280-288 | adds one to the successes of a known rule if the detection was one, otherwise to its failures, and changes nothing else |
| PayloadHarvesting.PayloadHarvester.GetStats | network_guardian/agent/payload_harvester.py:322-335 | the numbers of rules and of detections, and the successes as a part of all detections |
| DetectionPipeline.StatusByScore | network_guardian/agent/isolation_sandbox_engine.py:335-344 | outside shadow mode the status after a report, exactly, by the uncapped score |
| DetectionPipeline.StrongReport | network_guardian/agent/isolation_sandbox_engine.py:303-344 | after any run without negative reports, a report still worth 70 when read leaves its session isolated, or released if it was, and one worth 40 leaves it not active, released only if it was |
| DetectionPipeline.FirstReport | network_guardian/agent/isolation_sandbox_engine.py:303-344 | for the first report of an ip these conditions are exact |
| DetectionPipeline.FirstEvent | network_guardian/agent/isolation_sandbox_engine.py:548-597 | what the first event of an ip leads to if it is read at once, for every kind of event: scores decide by 70 and 40, dual-pass blocks by one and a half times their score, and of IDS and firewall events only critical ones leave ACTIVE |
| DetectionPipeline.DualPassBlockIsolates | network_guardian/agent/isolation_sandbox_engine.py:570-575 | delivering any dual-pass block leaves its sender isolated, or released if it was released by hand before, as long as the score is read before it has decayed to less than 7/9 |
| DetectionPipeline.McpBlockNeverStaysActive | network_guardian/agent/isolation_sandbox_engine.py:554-561 | delivering any message that the parser blocks leaves its sender not active, released only if it was before, as long as the score is read before it has decayed to less than 2/3 |
| BlockMargins.BlocksIsolateIff | network_guardian/agent/isolation_sandbox_engine.py:570-575 | for every enforcing engine and every delay: all dual-pass blocks so delayed isolate, after any run, if and only if 7/9 of the score are left |
| BlockMargins.LeakScores60 | network_guardian/agent/dual_pass_evaluator.py:414-453 | a context whose second pass scores exactly 60 |
| BlockMargins.BlocksLeaveActiveIff | network_guardian/agent/isolation_sandbox_engine.py:554-561 | for every enforcing engine and every delay: all parser blocks so delayed leave ACTIVE, after any run, if and only if 2/3 of the score are left |
| BlockMargins.ExactScores60 | network_guardian/agent/mcp_protocol_parser.py:428-500 | an MCP message that scores exactly 60 |
| DetectionPipeline.LoneIdsAlertsFade | network_guardian/agent/isolation_sandbox_engine.py:577-582 | IDS alerts below "critical", at least one half-life apart, never make a session leave ACTIVE |
| DetectionPipeline.PublishedAlertsIff | network_guardian/agent/isolation_sandbox_engine.py:577-582 | for any list of alerts, in shadow mode or not: a session that took them as the IDS publishes them can have left ACTIVE if and only if there are at least four |

## Left out

- Floating point: scores and clocks are real numbers; rounding, also of published scores, is not modelled.
- Identifiers: session ids are parameters that never repeat (uuid4); event, message and flag ids are left out, except the number in a flood event's id.
- Text: log lines, timestamps, alert descriptions, snippets, event chains, honeypot payloads and the contents of forensic files.
- Isolation engine: without an IPS there is no await before the forensic log; the model lets other steps come in between there too, which only adds runs.
- Negative scores: only where a theorem says so (`NoNegativeReports`) are reported scores taken as non-negative; every score that the parser, the evaluator and the severity tables produce is.
- Flood guard: in the class and in the runs of the detector `_handle_flood` runs to completion; `flood_interleaving.dfy` has the other orders, for the accounts, the blocks and the records. A failing IDS or IPS call, the IDS's own suppression of repeated alerts and blocks the IPS refuses are not modelled.
- Flood guard: a scan takes the connection list, and the order in which Python iterates the set of addresses, as parameters; `psutil` itself is left out. Each scan records every open connection again, as the code does.
- Sliding counter: `reset_ip` and `all_ips` are never called and left out; the ICMP counter is never evicted, as in the code.
- Dual-pass evaluator: a run lies between `start`, which replaces the queues, and `stop`; durations, timestamps and snippets are left out. An exception of the bus after the counters are updated is not modelled; an error of the evaluation is.
- Protocol parser: `_detect_protocol` and JSON decoding are left out; a message arrives decoded, or as undecodable. Ill-typed fields that make the code raise anything but a ValueError are not modelled.
- Pattern contents: regular expressions are not interpreted, so nothing is claimed about which text they match, nor that a harvested pattern detects its own payload.
- Payload harvester: reading and writing the registry file, injection types, confidences and severities of harvested rules.
- The orchestrator, gateways, watchdog, policy engine, mail and malware agents, CVSS scoring and the user interface are not part of this model.
