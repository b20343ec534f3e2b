# NetBoozt, modelled in Dafny

NetBoozt is a Windows network optimizer with a Python desktop client and a Tauri (Rust and
Svelte) desktop application. This project models its decision logic and bookkeeping as pure
Dafny functions over immutable state, and proves what that logic promises.

- **DNS resilience**:
  - the per-server DNS health tracker (UNKNOWN/UP/SLOW/DOWN with a consecutive-failure count);
  - the tiered automatic failover with its 30-second cooldown and upward search;
  - both DNS intelligence services: the Python one with scores normalised against the cycle's maximum, and the Rust one with threshold-based scores, history pruning and failover of the current best server;
  - the adapter manager's seven-rung DNS fallback ladder.
- **Diagnostics**: the Python and both Rust diagnostic chains. Each has phases that stop at the first failure, latency bands, scores and advice.
- **Monitors and logs**:
  - the alert system, with thresholds, cooldown, auto-resolution and a capped history;
  - classification of Windows events;
  - the real-time monitor and the monitoring commands;
  - the DNS service and network commands of the Rust back end.
- **Storage**:
  - speed-test thinning (hourly, daily and weekly representatives);
  - the settings and metrics document store;
  - configuration snapshots, with their JSON round trip, listing, pruning and restore.
- **Optimizations**:
  - detection of the active optimizations from the `netsh` report and registry values;
  - the optimizer and its `Tcp1323Opts` bit operations;
  - the risk-profile catalogue and the Rust profile commands.
- **Front-end stores**: the diagnostic history, alerts, terminal log, themes, metrics averages, toasts, settings and uptime clock. Also the desktop client's translations, its dark/light theme manager and its colour darkening.

The model has one module per source file (`dns_health.dfy` is `DnsHealth`, and so on). Seven helper modules are shared:

- `Wrappers`: `Option` and `Result`.
- `Seqs`: filters, counts, bounded suffixes and sums.
- `Ranking`: stable sorts and ranks, proved to be a permutation.
- `Text`: ASCII text primitives for the parsers.
- `DnsHistory`: the probe history both DNS services keep.
- `IsoTime`: naive ISO 8601 date-times.
- `PingOutput`: the matchers for Windows `ping` summaries.

The model replaces the outside world with inputs:

- A probe, a process run, a registry read, a clock reading or a random id is a parameter of the step that uses it.
- A background loop is one step function, called once per cycle.
- Latencies, rates and scores are `real`.
- Timestamps are whole seconds.
- Where the source uses fixed-width integers, the model spells out the wrap-around or saturation.

## Model

| member | source | states |
|---|---|---|
| DnsHealth.GetStatus | windows/src/monitoring/dns_health.py:241-244 | a server's record is found exactly when some entry is registered under it, and it is that entry |
| DnsHealth.Classify | windows/src/monitoring/dns_health.py:138-146 | no reply or 2000 ms and above is DOWN; below 30 ms UP; 30 to 80 ms SLOW; never UNKNOWN |
| DnsHealth.ClassifyMonotone | windows/src/monitoring/dns_health.py:138-146 | a slower reply never gets a better status, and a missing reply is as bad as any |
| DnsHealth.AddServer | windows/src/monitoring/dns_health.py:68-80 | a new server starts UNKNOWN with 0 failures; an already monitored one is left alone; no other server's record changes |
| DnsHealth.AddServerIdempotent | windows/src/monitoring/dns_health.py:68-80 | adding the same server twice is the same as adding it once |
| DnsHealth.RemoveServer | windows/src/monitoring/dns_health.py:82-87 | the server is no longer monitored and every other record is unchanged |
| DnsHealth.RemoveKeepsOthers | windows/src/monitoring/dns_health.py:82-87 | removal keeps exactly the records of the other servers, still one per server |
| DnsHealth.CheckServer | windows/src/monitoring/dns_health.py:132-177 | a removed server is skipped; otherwise its status is the classification, failures grow by one on DOWN and reset to 0 otherwise, a missing latency is stored as 9999.0, and listeners hear exactly when the status changed |
| DnsHealth.IsHealthy | windows/src/monitoring/dns_health.py:251-258 | healthy exactly when registered with status UP or SLOW and fewer than 2 consecutive failures |
| DnsHealth.HealthyIffLive | windows/src/monitoring/dns_health.py:251-258 | in any table the checker maintains, healthy holds exactly for registered UP/SLOW servers, so UNKNOWN is unhealthy |
| DnsHealth.DownSampleMakesUnhealthy | windows/src/monitoring/dns_health.py:251-258 | after a probe with no reply the server is unhealthy |
| DnsHealth.FastestIndex | windows/src/monitoring/dns_health.py:301-312 | the first UP/SLOW record of least latency, none when no record is UP/SLOW |
| DnsHealth.Fastest | windows/src/monitoring/dns_health.py:301-312 | `get_fastest_dns` names a minimum-latency UP/SLOW server, and None exactly when there is none |
| DnsHealth.ParsePing | windows/src/monitoring/dns_health.py:182-231 | no output or no average line gives (None, 100.0); otherwise the average, with the loss figure or 0 when absent |
| DnsHealth.ParseSummaryLine | windows/src/monitoring/dns_health.py:206-224 | an "Average = N ms" line reads as latency N with loss 0 |
| DnsHealth.UnparsedOutputIsDown | windows/src/monitoring/dns_health.py:208-212 | output without an average line is a DOWN sample |
| PingOutput.AverageLineParses | windows/src/monitoring/dns_health.py:206 | the average pattern reads back the number a summary line was written with |
| PingOutput.AverageLineHasNoLoss | windows/src/monitoring/dns_health.py:217 | the loss pattern finds nothing in a summary line |
| AutoFailover.Enable | platforms/python/src/monitoring/auto_failover.py:64-66 | `enable` sets the flag and keeps the loop state, the current tier, the cooldown and the log |
| AutoFailover.Disable | platforms/python/src/monitoring/auto_failover.py:69-71 | `disable` clears the flag and keeps the loop state, the current tier, the cooldown and the log |
| AutoFailover.EnableDisableUndo | platforms/python/src/monitoring/auto_failover.py:64-71 | disabling undoes an enable and enabling undoes a disable |
| AutoFailover.Start | platforms/python/src/monitoring/auto_failover.py:78-85 | `start` marks the loop running and leaves a running controller as it is |
| AutoFailover.StartIdempotent | platforms/python/src/monitoring/auto_failover.py:78-81 | starting twice is starting once |
| AutoFailover.DetectTier | platforms/python/src/monitoring/auto_failover.py:162-186 | no priority adapter or no DNS server gives none; otherwise the first tier whose primary is the first DNS server, else the first tier of the list |
| AutoFailover.TierHealthy | platforms/python/src/monitoring/auto_failover.py:188-211 | tier 7 is always healthy; any other needs a known primary that is UP or SLOW with fewer than 3 failures |
| AutoFailover.ThresholdsAgree | platforms/python/src/monitoring/auto_failover.py:202-205 | on a table the health tracker maintains, the bound of 3 failures here and the tracker's bound of 2 give the same verdict |
| AutoFailover.CanFailover | platforms/python/src/monitoring/auto_failover.py:213-219 | a switch is allowed when none happened yet or at least 30 s have passed since the last |
| AutoFailover.FindNext | platforms/python/src/monitoring/auto_failover.py:221-245 | corrected: the search with the log line repaired, where the code raises on any healthy candidate (FindNextAsWritten); the tier it returns is one of the tiers and is healthy |
| AutoFailover.FindNextLowest | platforms/python/src/monitoring/auto_failover.py:223-237 | when a candidate is healthy the search returns the lowest-numbered healthy candidate: above the current tier, or below it only when no tier is above |
| AutoFailover.FindNextFallback | platforms/python/src/monitoring/auto_failover.py:239-245 | when no candidate is healthy the search returns the first tier numbered 7, or none |
| AutoFailover.Candidates | platforms/python/src/monitoring/auto_failover.py:223-231 | the candidates are in ascending tier order and are exactly the tiers above the current one, or below it when none is above |
| AutoFailover.Check | platforms/python/src/monitoring/auto_failover.py:108-157 | with the log line repaired: nothing happens without a detected tier; a healthy tier, an active cooldown or no next tier only record the detected tier; otherwise the tier is applied, one event with the apply result is appended, the cooldown restarts and listeners hear of it |
| AutoFailover.CheckAppendsAtMostOne | platforms/python/src/monitoring/auto_failover.py:142-157 | a cycle either leaves the audit log alone or appends exactly the one event it announces, and a switch starts a new cooldown |
| AutoFailover.CheckQuietInCooldown | platforms/python/src/monitoring/auto_failover.py:128-131 | inside the cooldown a cycle records nothing and issues no command |
| AutoFailover.NoSwitchDuringCooldown | platforms/python/src/monitoring/auto_failover.py:128-154 | a cycle less than 30 s after a switch records nothing |
| AutoFailover.CheckSwitches | platforms/python/src/monitoring/auto_failover.py:121-153 | an unhealthy tier outside the cooldown with a next tier appends the switch to that tier |
| AutoFailover.Tick | platforms/python/src/monitoring/auto_failover.py:95-100 | corrected: the loop body over the repaired Check, where the code runs CheckAsWritten; a check runs only while running and enabled, otherwise nothing changes |
| AutoFailover.DisabledTickIsQuiet | platforms/python/src/monitoring/auto_failover.py:95-100 | a disabled controller's cycle runs no check, issues no command, announces no event and keeps its state; enabled again, a running loop checks as before |
| AutoFailover.FindNextAsWritten | platforms/python/src/monitoring/auto_failover.py:234-237 | as written the search raises exactly when some candidate is healthy, because the log line reads `tier.name` |
| AutoFailover.CheckAsWritten | platforms/python/src/monitoring/auto_failover.py:108-160 | as written, a cycle either records nothing or behaves like the repaired one |
| AutoFailover.AsWrittenQuietWithHealthyCandidate | platforms/python/src/monitoring/auto_failover.py:234-237 | as written, a cycle that finds a healthy candidate records nothing and issues no command |
| AutoFailover.LadderAsWrittenNeverSwitches | platforms/python/src/monitoring/auto_failover.py:108-160 | with the standard ladder the controller as written never switches, because the DHCP rung is always a healthy candidate |
| AutoFailover.LadderDhcpIsCandidate | platforms/python/src/monitoring/auto_failover.py:191-227 | below rung 7 the DHCP rung is always a healthy candidate |
| AutoFailover.LadderSwitches | platforms/python/src/monitoring/auto_failover.py:121-153 | repaired, an unhealthy rung outside the cooldown moves up to a rung no higher than 7 and records it |
| AutoFailover.History | platforms/python/src/monitoring/auto_failover.py:271-273 | `history[-limit:]`: the last `limit` events for a positive limit, the whole log for 0, a shortened prefix-free suffix for a negative one |
| AutoFailover.GetStats | platforms/python/src/monitoring/auto_failover.py:275-286 | total is the log length, successful and failed count the events with and without success |
| DnsHistory.Window | platforms/python/src/monitoring/dns_intelligence.py:275-278 | the window holds exactly the entries of that address newer than the cutoff |
| DnsHistory.Summarize | platforms/python/src/monitoring/dns_intelligence.py:280-296 | an empty window leaves the summary alone; otherwise the checks are the window size, the failures its unsuccessful entries, the ping and resolve averages the sums over the successful entries divided by their number (kept from before when there are none), and the uptime successful/total × 100 |
| DnsHistory.SummaryMeaning | platforms/python/src/monitoring/dns_intelligence.py:284-296 | checks count the window, failures and successes add up to it, uptime is in [0, 100] and is 100 exactly when nothing failed |
| DnsHistory.SummaryAveragesInRange | platforms/python/src/monitoring/dns_intelligence.py:288-291 | the average ping lies within the range of the samples it averages |
| DnsHistory.Prune | platforms/python/src/monitoring/dns_intelligence.py:141-150 | pruning keeps exactly the entries newer than the cutoff |
| DnsHistory.PruneIdempotent | platforms/python/src/monitoring/dns_intelligence.py:141-150 | pruning twice with one cutoff is pruning once |
| DnsIntelPy.InitMetrics | platforms/python/src/monitoring/dns_intelligence.py:68-119 | exactly one fresh record per configured address, in table order |
| DnsIntelPy.Find | platforms/python/src/monitoring/dns_intelligence.py:234 | the record of an address is found exactly when the address has one |
| DnsIntelPy.CheckSingle | platforms/python/src/monitoring/dns_intelligence.py:196-211 | a failed TCP connect gives (false, 0, 0); otherwise success is the resolution outcome and both times are reported |
| DnsIntelPy.Record | platforms/python/src/monitoring/dns_intelligence.py:228-253 | a probe of a known address appends one entry stamped with the batch time; an unknown one changes nothing; the addresses stay the same |
| DnsIntelPy.RecordUpdatesOnlyItsServer | platforms/python/src/monitoring/dns_intelligence.py:233-238 | the probe overwrites the live fields of its own record and no other record |
| DnsIntelPy.RecordAll | platforms/python/src/monitoring/dns_intelligence.py:228-253 | recording a batch keeps the set of addresses |
| DnsIntelPy.RecordAllAppends | platforms/python/src/monitoring/dns_intelligence.py:228-253 | each completed probe of a known server appends exactly one entry, in completion order, and nothing else changes in the history |
| DnsIntelPy.Saved | platforms/python/src/monitoring/dns_intelligence.py:132-139 | the file holds the newest 1000 entries at most, all of them when there are fewer |
| DnsIntelPy.StatsFor | platforms/python/src/monitoring/dns_intelligence.py:267-296 | a server with no entry in the 24 h window is untouched; otherwise its day summary is the window's and the success rate is its uptime |
| DnsIntelPy.CalculateStats | platforms/python/src/monitoring/dns_intelligence.py:267-296 | every record gets its own window's statistics and the addresses stay the same |
| DnsIntelPy.Rescore | platforms/python/src/monitoring/dns_intelligence.py:318-333 | every record is given the weighted score against the cycle's maxima and nothing else |
| DnsIntelPy.AssignRanks | platforms/python/src/monitoring/dns_intelligence.py:335-342 | each record gets the rank of its place in the stable descending order of scores |
| DnsIntelPy.CalculateScores | platforms/python/src/monitoring/dns_intelligence.py:298-342 | no positive average ping or no positive average resolve leaves the records alone; otherwise an average ping of 0 scores 0 |
| DnsIntelPy.PositiveMaxima | platforms/python/src/monitoring/dns_intelligence.py:309-316 | the maxima used for normalising are positive whenever the scoring runs |
| DnsIntelPy.ScoreOfBounded | platforms/python/src/monitoring/dns_intelligence.py:319-333 | the weighted 40/30/30 score of a record is in [0, 100] |
| DnsIntelPy.ScoresBounded | platforms/python/src/monitoring/dns_intelligence.py:298-333 | every score after the scoring step is in [0, 100] |
| DnsIntelPy.GetRanking | platforms/python/src/monitoring/dns_intelligence.py:354-361 | the ranking is a permutation of the records in descending score order |
| DnsIntelPy.GetBestDns | platforms/python/src/monitoring/dns_intelligence.py:344-352 | the best `count` records are a prefix of the ranking, of length `count` when there are that many |
| DnsIntelPy.RanksArePositions | platforms/python/src/monitoring/dns_intelligence.py:335-361 | after ranking, the record in place `a` of the ranking carries rank `a + 1` |
| DnsIntelPy.RanksArePermutation | platforms/python/src/monitoring/dns_intelligence.py:335-342 | ranks are distinct values in 1..n, and a higher score always gets a smaller rank |
| DnsIntelPy.CalculateScoresRanks | platforms/python/src/monitoring/dns_intelligence.py:298-342 | the scoring step either changes nothing or leaves ranks equal to ranking positions |
| DnsIntelPy.Cycle | platforms/python/src/monitoring/dns_intelligence.py:213-265 | one cycle keeps the addresses, appends one entry per probe and writes the newest 1000 entries |
| DnsIntelPy.Init | platforms/python/src/monitoring/dns_intelligence.py:96-130 | one record per configured address; a missing file gives an empty history; a loaded history holds only entries inside the retention window |
| DnsIntelRs.DefaultThresholds | platforms/tauri/src-tauri/src/services/dns_intelligence.rs:117-128 | the default configuration has a good threshold below the slow one, both positive, which the scoring needs |
| DnsIntelRs.NewMetrics | platforms/tauri/src-tauri/src/services/dns_intelligence.rs:54-75 | a fresh record is healthy, has no failure streak, score 50, rank 0 and was never checked |
| DnsIntelRs.NewState | platforms/tauri/src-tauri/src/services/dns_intelligence.rs:169-187 | a new service has one fresh record per server of the table in table order, empty logs, is stopped, has no current best and has auto-failover on |
| DnsIntelRs.Start | platforms/tauri/src-tauri/src/services/dns_intelligence.rs:190-196 | starting sets the running flag and changes nothing else |
| DnsIntelRs.StartIdempotent | platforms/tauri/src-tauri/src/services/dns_intelligence.rs:191-194 | starting a running service again has no effect |
| DnsIntelRs.Stop | platforms/tauri/src-tauri/src/services/dns_intelligence.rs:246-249 | stopping clears the running flag and changes nothing else |
| DnsIntelRs.Find | platforms/tauri/src-tauri/src/services/dns_intelligence.rs:269 | the lookup finds a record with that address, or reports that none has it |
| DnsIntelRs.TestDomain | platforms/tauri/src-tauri/src/services/dns_intelligence.rs:327-329 | the rotating test domain is always one of the test domains |
| DnsIntelRs.CheckSingle | platforms/tauri/src-tauri/src/services/dns_intelligence.rs:309-345 | success exactly when the TCP ping answered; no answer gives zero times; the resolve time is the real one only on a clock divisible by 5 with a resolution, else 1.5 times the ping |
| DnsIntelRs.SatSub | platforms/tauri/src-tauri/src/services/dns_intelligence.rs:295 | saturating subtraction: the difference, or 0 when it would be negative |
| DnsIntelRs.AppendEntry | platforms/tauri/src-tauri/src/services/dns_intelligence.rs:284-303 | after an append the history is within the cap, holds only entries newer than the cutoff, each from the old history or the new entry, and is the newest of the in-window entries |
| DnsIntelRs.AppendKeepsNewest | platforms/tauri/src-tauri/src/services/dns_intelligence.rs:286-303 | an in-window new entry is the last one kept whenever the cap is positive |
| DnsIntelRs.AppendKeepsWindowUnderCap | platforms/tauri/src-tauri/src/services/dns_intelligence.rs:296-303 | an in-window entry survives an append while the window fits the cap |
| DnsIntelRs.ProbeOne | platforms/tauri/src-tauri/src/services/dns_intelligence.rs:263-304 | one probe keeps the set of servers, appends its entry to the history and touches nothing else of the state |
| DnsIntelRs.ProbeUpdatesStreak | platforms/tauri/src-tauri/src/services/dns_intelligence.rs:269-280 | the probed server becomes healthy exactly on success and takes the timestamp; success resets the failure streak and failure extends it by one; every other record is unchanged |
| DnsIntelRs.ProbeKeepsStreakConsistent | platforms/tauri/src-tauri/src/services/dns_intelligence.rs:272-279 | a probe keeps every healthy record free of a failure streak |
| DnsIntelRs.ProbeAll | platforms/tauri/src-tauri/src/services/dns_intelligence.rs:252-306 | probing every server keeps the set of servers and leaves the history within the cap |
| DnsIntelRs.ProbeAllKeepsStreakConsistent | platforms/tauri/src-tauri/src/services/dns_intelligence.rs:263-305 | a full probe round keeps every healthy record free of a failure streak |
| DnsIntelRs.PingScore | platforms/tauri/src-tauri/src/services/dns_intelligence.rs:507-518 | the ping sub-score lies in [0, 100]: 100 up to the good threshold, between 60 and 100 up to the slow one, at most 60 beyond it and 0 from twice the slow threshold |
| DnsIntelRs.RawPingScore | platforms/tauri/src-tauri/src/services/dns_intelligence.rs:508-517 | the piecewise curve before the floor at zero, with the same bands |
| DnsIntelRs.PingScoreMonotone | platforms/tauri/src-tauri/src/services/dns_intelligence.rs:507-518 | a slower average never earns a better ping sub-score |
| DnsIntelRs.ResolveScore | platforms/tauri/src-tauri/src/services/dns_intelligence.rs:499-520 | the resolve sub-score is never negative, at most 100 for a non-negative average, and 0 from three times the slow threshold |
| DnsIntelRs.ScoreBounded | platforms/tauri/src-tauri/src/services/dns_intelligence.rs:501-528 | the weighted score of a well-formed record lies in [0, 100] |
| DnsIntelRs.StatsFor | platforms/tauri/src-tauri/src/services/dns_intelligence.rs:462-494 | a server without in-window entries keeps its statistics; otherwise they summarise its window and the success rate equals the uptime; nothing else changes |
| DnsIntelRs.Rescore | platforms/tauri/src-tauri/src/services/dns_intelligence.rs:462-528 | every record gets its window statistics and then the score of those statistics, in place |
| DnsIntelRs.AssignRanks | platforms/tauri/src-tauri/src/services/dns_intelligence.rs:531-544 | each record takes the rank of its position in the stable descending order of scores, nothing else changes |
| DnsIntelRs.CalculateScores | platforms/tauri/src-tauri/src/services/dns_intelligence.rs:448-545 | scoring keeps the servers, their health and streaks, and gives each the score of its window statistics |
| DnsIntelRs.ScoresRanked | platforms/tauri/src-tauri/src/services/dns_intelligence.rs:531-544 | after scoring the ranks are distinct values in 1..n and a higher score always has a smaller rank |
| DnsIntelRs.ScoresKeepStreakConsistent | platforms/tauri/src-tauri/src/services/dns_intelligence.rs:448-545 | scoring keeps every healthy record free of a failure streak |
| DnsIntelRs.Candidates | platforms/tauri/src-tauri/src/services/dns_intelligence.rs:574-579 | the candidates are exactly the healthy servers other than the current one, by non-increasing score |
| DnsIntelRs.FirstCandidateIsBest | platforms/tauri/src-tauri/src/services/dns_intelligence.rs:579-582 | the first candidate scores at least as well as every other healthy server |
| DnsIntelRs.Replacement | platforms/tauri/src-tauri/src/services/dns_intelligence.rs:574-585 | a replacement exists exactly when some other server is healthy, and it is a healthy other server with the best score |
| DnsIntelRs.Decision | platforms/tauri/src-tauri/src/services/dns_intelligence.rs:566-595 | failover is decided only for a current best with a record whose streak reaches the limit, towards the best-scored healthy other server; with such a streak it is refused only when no other server is healthy |
| DnsIntelRs.CheckFailover | platforms/tauri/src-tauri/src/services/dns_intelligence.rs:548-633 | in cooldown or without a decision nothing changes; otherwise exactly one successful event is recorded, the failover time is now and the chosen server becomes the current best |
| DnsIntelRs.BestHealthy | platforms/tauri/src-tauri/src/services/dns_intelligence.rs:642-644 | the best is a healthy record of maximal score, the last of equals, and none exists exactly when no record is healthy |
| DnsIntelRs.UpdateBest | platforms/tauri/src-tauri/src/services/dns_intelligence.rs:636-650 | the best healthy server becomes the current best, with no healthy server the current best is kept, and nothing else changes |
| DnsIntelRs.Iterate | platforms/tauri/src-tauri/src/services/dns_intelligence.rs:216-239 | a pass of the loop keeps the set of servers and records no failover while auto-failover is off |
| DnsIntelRs.IterateKeepsStreakConsistent | platforms/tauri/src-tauri/src/services/dns_intelligence.rs:216-239 | after every pass every healthy record is free of a failure streak |
| DnsIntelRs.BestHasNoStreak | platforms/tauri/src-tauri/src/services/dns_intelligence.rs:272-279 | the server chosen as best never has a failure streak |
| DnsIntelRs.AllMetrics | platforms/tauri/src-tauri/src/services/dns_intelligence.rs:676-681 | every record once, ascending by rank |
| DnsIntelRs.BestDns | platforms/tauri/src-tauri/src/services/dns_intelligence.rs:684-688 | the first count records of the ranked list, or all of them when there are fewer |
| DnsIntelRs.GetSummary | platforms/tauri/src-tauri/src/services/dns_intelligence.rs:719-731 | the first three servers of the rank-ordered list, or all when there are fewer; the number of servers and of history entries; the auto-failover switch and the current best server as the state holds them |
| AdapterManager.LadderNumbered | windows/src/monitoring/adapter_manager.py:104-112 | the ladder has seven rungs numbered 1 to 7 in order, and the six resolver rungs have distinct primaries |
| AdapterManager.ProviderIndex | windows/src/monitoring/adapter_manager.py:77-79 | the first provider listing the address as either of its two servers, or none when no provider lists it |
| AdapterManager.NoProviderCalledCustom | windows/src/monitoring/adapter_manager.py:32-81 | no known provider's title is "Custom", so that answer is reserved for unknown resolvers |
| AdapterManager.DnsProvider | windows/src/monitoring/adapter_manager.py:69-81 | no DNS servers reads as "DHCP/Router"; otherwise the answer is "Custom" exactly when no provider lists the first server, and else the title of a provider that lists it |
| AdapterManager.PriorityIndex | windows/src/monitoring/adapter_manager.py:262-268 | the position of the first active adapter of lowest metric, and none exactly when no adapter is up |
| AdapterManager.PriorityAdapter | windows/src/monitoring/adapter_manager.py:262-268 | the priority adapter is an active adapter whose metric is no larger than any active adapter's, and none exactly when no adapter is up |
| AdapterManager.SortedByPriority | windows/src/monitoring/adapter_manager.py:270-272 | a permutation of the adapters in non-decreasing metric order |
| AdapterManager.ByName | windows/src/monitoring/adapter_manager.py:255-260 | the first adapter whose name equals the given one ignoring case, and none exactly when no name matches |
| AdapterManager.RungOf | windows/src/monitoring/adapter_manager.py:284-287 | the resolver rung whose primary equals the address, or none when no rung of the first six has it |
| AdapterManager.DetectTier | windows/src/monitoring/adapter_manager.py:274-296 | no priority adapter or no DNS gives the DHCP rung; a primary matching a resolver rung gives that rung; else a custom tier 0 with the first server and the second or "" |
| AdapterManager.FallbackStatus | windows/src/monitoring/adapter_manager.py:298-306 | the seven rungs in order, each flagged exactly when its number is the detected tier's |
| AdapterManager.FallbackStatusFlagsOne | windows/src/monitoring/adapter_manager.py:298-306 | a custom resolver flags no rung and any other detection flags exactly one |
| AdapterManager.ApplyTier | windows/src/monitoring/adapter_manager.py:338-366 | success exactly when the number is within 1..7 and an adapter is up; rung 7 resets the priority adapter to DHCP and any other sets its primary and secondary |
| AdapterManager.Perform | windows/src/monitoring/adapter_manager.py:322-357 | a DNS change keeps every adapter's name, status and metric |
| AdapterManager.PriorityIgnoresDns | windows/src/monitoring/adapter_manager.py:262-268 | the priority adapter depends only on status and metric, so a DNS change cannot move it |
| AdapterManager.ApplyThenDetect | windows/src/monitoring/adapter_manager.py:338-366 | on a freshly detected adapter list, applying rung n and detecting again reports rung n |
| AdapterManager.StaleRedetection | windows/src/monitoring/adapter_manager.py:262-268 | with a second detection appended to the first and the same status and metrics, `min` keeps the first detection's entry, so the tier is read off its stale DNS list |
| AdapterManager.ApplyThenRedetectAsWritten | windows/src/monitoring/adapter_manager.py:338-366 | within one manager, applying a rung other than the detected one and detecting again does not report the applied rung |
| AdapterManager.DetectRung | windows/src/monitoring/adapter_manager.py:281-287 | an adapter whose first server is a resolver rung's primary is detected on that rung |
| AdapterManager.NumberAt | windows/src/monitoring/adapter_manager.py:169 | a matched number is non-negative and ends after where it started |
| AdapterManager.SpeedAt | windows/src/monitoring/adapter_manager.py:169-172 | a matched speed is non-negative |
| AdapterManager.ToMbps | windows/src/monitoring/adapter_manager.py:173-176 | Gbps values are multiplied by 1000 and both units are truncated to the integer below |
| AdapterManager.LinkSpeedMbps | windows/src/monitoring/adapter_manager.py:168-178 | a missing field reads as 0, text with no speed in it as 1000, and the result is never negative |
| AdapterManager.LinkSpeedOfPlainNumber | windows/src/monitoring/adapter_manager.py:168-176 | "N Gbps" reads as N times 1000 and "N Mbps" as N |
| AdapterManager.SpeedOfPlainNumber | windows/src/monitoring/adapter_manager.py:169-172 | digits, a space and a unit match as that number and unit |
| AdapterManager.UnitOfWord | windows/src/monitoring/adapter_manager.py:169 | the words Gbps and Mbps read as their units |
| AdapterManager.NumberOfPlainDigits | windows/src/monitoring/adapter_manager.py:169 | a run of digits not followed by a dot reads as its value and ends at its last digit |
| AdapterManager.MetricOf | windows/src/monitoring/adapter_manager.py:182-184 | a missing interface metric counts as 100 |
| NetDiagPy.PingTarget | windows/src/monitoring/network_diagnostics.py:296-334 | an empty target fails; a ping succeeds exactly when it exited cleanly and shows an Average figure or a per-reply time, the Average figure taking precedence |
| NetDiagPy.UsableLatencies | windows/src/monitoring/network_diagnostics.py:340-343 | no more usable latencies than pings |
| NetDiagPy.Collect | windows/src/monitoring/network_diagnostics.py:338-345 | the ISP loop collects at most the number of latencies it wants |
| NetDiagPy.CollectTakesFirst | windows/src/monitoring/network_diagnostics.py:340-345 | the loop that stops at two keeps exactly the first two usable latencies |
| NetDiagPy.NoUsableNoLatency | windows/src/monitoring/network_diagnostics.py:340-343 | no latency is collected exactly when no ping is usable |
| NetDiagPy.CheckIsp | windows/src/monitoring/network_diagnostics.py:336-351 | the ISP check succeeds exactly when some target answered, with the mean of the first two answers, and fails without latency otherwise |
| NetDiagPy.DnsCandidates | windows/src/monitoring/network_diagnostics.py:355-360 | the first two configured servers, or 8.8.8.8 and 1.1.1.1 when none is configured |
| NetDiagPy.Attempts | windows/src/monitoring/network_diagnostics.py:359-360 | every pair of test domain and candidate server is tried, and only those |
| NetDiagPy.AttemptAt | windows/src/monitoring/network_diagnostics.py:359-360 | domain d on server s is the lookup tried at position d times the number of servers plus s |
| NetDiagPy.CheckDns | windows/src/monitoring/network_diagnostics.py:353-384 | the DNS check succeeds exactly when some lookup tried resolves, and then reports a latency |
| NetDiagPy.FirstLookupWins | windows/src/monitoring/network_diagnostics.py:359-377 | when the first domain resolves on the first server, that lookup's time is reported |
| NetDiagPy.CalculateHealth | windows/src/monitoring/network_diagnostics.py:386-393 | the health is Down exactly when there is neither a non-zero ISP latency nor a router latency |
| NetDiagPy.Band | windows/src/monitoring/network_diagnostics.py:394-403 | the bands below 20, 50, 100 and 200 ms are Excellent, Good, Fair and Poor, and Bad above; never Down |
| NetDiagPy.BandMonotone | windows/src/monitoring/network_diagnostics.py:390-403 | a higher latency never yields a better band |
| NetDiagPy.Clauses | windows/src/monitoring/network_diagnostics.py:413-420 | the router advice appears exactly above 10 ms, the DNS advice above 100 ms and the WiFi advice for Poor or Bad health |
| NetDiagPy.Recommendation | windows/src/monitoring/network_diagnostics.py:405-422 | Excellent has its own advice; otherwise the advice is the clauses that apply joined by ". ", or the default advice when none applies |
| NetDiagPy.AllThreeClauses | windows/src/monitoring/network_diagnostics.py:405-422 | a slow router, a slow DNS and a poor or bad link give the three clauses in that order, joined by ". " |
| NetDiagPy.FailureOf | windows/src/monitoring/network_diagnostics.py:115-193 | the failure point is the first phase that fails: each phase is reached exactly when every earlier one passed |
| NetDiagPy.Run | windows/src/monitoring/network_diagnostics.py:100-213 | the first failing phase decides the failure point; adapter, router and Internet failures give Down and a DNS failure Poor; each flag and latency is set only for phases that ran; a full pass computes the health and its advice |
| NetDiagPy.Assemble | windows/src/monitoring/network_diagnostics.py:115-213 | the report of a known failure point carries the flags, latencies, health and advice that go with that point |
| NetDiagPy.HealthAt | windows/src/monitoring/network_diagnostics.py:118-196 | a full pass computes the health, a DNS failure gives Poor and any earlier failure Down |
| NetDiagPy.Advice | windows/src/monitoring/network_diagnostics.py:124-212 | a full pass gives the health's advice and a failure the advice of its phase |
| NetDiagPy.FullPassIsUp | windows/src/monitoring/network_diagnostics.py:142-196 | a run that passes every phase is never Down |
| NetDiagPy.Diagnose | windows/src/monitoring/network_diagnostics.py:215-218 | only a full pass replaces the remembered last result |
| DiagCmdRs.RouterFailureBlamesAdapter | platforms/tauri/src-tauri/src/commands/diagnostics.rs:78-120 | with a working adapter and an unreachable router, the command as written reports the adapter as the failure point where the corrected one reports the router |
| DiagCmdRs.FailureOf | platforms/tauri/src-tauri/src/commands/diagnostics.rs:92-172 | corrected: a failed router phase is failure point Router, where the code keeps Adapter; otherwise the failure point is the first phase that fails, each phase reached exactly when every earlier one passed |
| DiagCmdRs.FailureAgreesExceptRouter | platforms/tauri/src-tauri/src/commands/diagnostics.rs:75-172 | the as-written and corrected failure points agree exactly when the adapter failed or the router answered |
| DiagCmdRs.LatencyScore | platforms/tauri/src-tauri/src/commands/diagnostics.rs:182-190 | the component score lies in [0, 100]: 100 exactly up to the excellent limit, then within 90..95, 80..90 and 65..80 across the good, fair and poor bands, below 65 beyond, and 0 from 19/6 of the poor limit |
| DiagCmdRs.Frac | platforms/tauri/src-tauri/src/commands/diagnostics.rs:185-187 | the position within a band is a share in (0, 1] |
| DiagCmdRs.Tail | platforms/tauri/src-tauri/src/commands/diagnostics.rs:189 | the decay beyond the poor limit lies in [0, 65) and reaches 0 at 19/6 of the poor limit |
| DiagCmdRs.LatencyScoreMonotone | platforms/tauri/src-tauri/src/commands/diagnostics.rs:182-190 | a slower component never scores better |
| DiagCmdRs.Round | platforms/tauri/src-tauri/src/commands/diagnostics.rs:205 | rounding gives the whole number within half of the value |
| DiagCmdRs.ComponentScores | platforms/tauri/src-tauri/src/commands/diagnostics.rs:192-200 | a router at 0 ms scores 100, a failed Internet phase a flat 40, and every component lies in [0, 100] |
| DiagCmdRs.Weighted | platforms/tauri/src-tauri/src/commands/diagnostics.rs:202-204 | the weighted score lies in [0, 100], is at most 70 with the flat Internet score, and is 100 exactly when every component is |
| DiagCmdRs.HealthOf | platforms/tauri/src-tauri/src/commands/diagnostics.rs:207-217 | the bands at 85, 70, 50 and 25 are Excellent, Good, Fair and Poor, and Bad below; never Down |
| DiagCmdRs.HealthMonotone | platforms/tauri/src-tauri/src/commands/diagnostics.rs:207-217 | a higher score never gives a worse band |
| DiagCmdRs.Slowest | platforms/tauri/src-tauri/src/commands/diagnostics.rs:220-229 | the slowest component is one over its threshold with the largest latency-to-threshold ratio, the last among equals, and none exactly when no component is over |
| DiagCmdRs.LatencyData | platforms/tauri/src-tauri/src/commands/diagnostics.rs:220-224 | three components, each with a positive threshold |
| DiagCmdRs.RouterProbe | platforms/tauri/src-tauri/src/commands/diagnostics.rs:105-127 | no gateway counts as 0 ms, and a gateway fails exactly when TCP port 80, TCP port 443 and ICMP all fail |
| DiagCmdRs.Advise | platforms/tauri/src-tauri/src/commands/diagnostics.rs:231-244 | a Fair connection gets the acceptable advice, which names a slow component exactly when one is over its threshold |
| DiagCmdRs.Run | platforms/tauri/src-tauri/src/commands/diagnostics.rs:72-244 | corrected: the failure point is the corrected FailureOf, so a failed router phase reports Router; each flag is set exactly for the phases that passed; an early failure returns Down with score 0; past the DNS phase the score is a whole number in [0, 100] and the health not Down, never Excellent without Internet |
| DiagCmdRs.Command | platforms/tauri/src-tauri/src/commands/diagnostics.rs:72-107 | the command fails with the spawn error when the adapter script, or once an adapter was found the gateway script, cannot start; otherwise it returns the run's report, failure point Adapter when no adapter was found |
| DiagCmdRs.Grade | platforms/tauri/src-tauri/src/commands/diagnostics.rs:192-217 | the health is the 85/70/50/25 band of the unrounded weighted component score and the score is that value rounded half up; never Down, a whole number in [0, 100], never Excellent without Internet |
| DiagCmdRs.Score | platforms/tauri/src-tauri/src/commands/diagnostics.rs:192-204 | the 10/15/25/50 weighted score of the router, ISP, DNS and Internet components, in [0, 100] |
| DiagCmdRs.RoundMonotone | platforms/tauri/src-tauri/src/commands/diagnostics.rs:205 | rounding keeps the order of scores |
| DiagCmdRs.SlowerRunNeverScoresHigher | platforms/tauri/src-tauri/src/commands/diagnostics.rs:192-217 | a run whose every component is at least as slow, with the Internet phase failing in both or answering in both, never scores higher and never gets a better health band |
| DiagCmdRs.RoundWithin | platforms/tauri/src-tauri/src/commands/diagnostics.rs:205 | rounding a score in [0, 100] keeps it in [0, 100] |
| DiagCmdRs.InstantRunIsPerfect | platforms/tauri/src-tauri/src/commands/diagnostics.rs:72-217 | a run in which every phase answers instantly scores 100 and is Excellent |
| DiagCmdRs.ProviderHealth | platforms/tauri/src-tauri/src/commands/diagnostics.rs:300-319 | a provider is online exactly when it answered the ping; an offline one has 0 ms and is not tried for a lookup |
| DiagCmdRs.HealthKeys | platforms/tauri/src-tauri/src/commands/diagnostics.rs:323-333 | the sort key puts online servers first and then the faster, with offline servers tied |
| DiagCmdRs.SortHealth | platforms/tauri/src-tauri/src/commands/diagnostics.rs:322-333 | a permutation of the results with every online server before every offline one and the online ones by ascending latency |
| DiagCmdRs.OfflineKeepTableOrder | platforms/tauri/src-tauri/src/commands/diagnostics.rs:323-325 | offline servers tie, so the stable sort keeps them in table order |
| DiagCmdRs.CheckDnsHealth | platforms/tauri/src-tauri/src/commands/diagnostics.rs:285-336 | one result per provider, online ones first by ascending latency, and every offline one with 0 ms and no lookup |
| DiagCmdRs.CheckSingleDnsHealth | platforms/tauri/src-tauri/src/commands/diagnostics.rs:349-377 | an unparsable address is an error; success and resolution hold exactly when the TCP connect or the lookup worked; a TCP success reports its time and a total failure the sentinel 999 |
| DiagSvcRs.PingHost | platforms/tauri/src-tauri/src/services/diagnostics.rs:238-253 | a response time is kept exactly when it parsed and is not negative, so the -1 of no reply is dropped |
| DiagSvcRs.QuickCheck | platforms/tauri/src-tauri/src/services/diagnostics.rs:77-101 | connected exactly when 1.1.1.1 answered in more than 0 ms, with that latency; the message bands are below 50 ms, below 100 ms and slower; otherwise no connection with 0 ms |
| DiagSvcRs.FailureOf | platforms/tauri/src-tauri/src/services/diagnostics.rs:119-186 | corrected: a failed router phase is failure point Router, where the code keeps Adapter; otherwise the failure point is the first phase that fails, each phase reached exactly when every earlier one passed |
| DiagSvcRs.RouterFailureBlamesAdapter | platforms/tauri/src-tauri/src/services/diagnostics.rs:107-153 | with a working adapter and a failing router phase, the service as written reports the adapter where the corrected one reports the router |
| DiagSvcRs.FailureAgreesExceptRouter | platforms/tauri/src-tauri/src/services/diagnostics.rs:104-186 | the as-written and corrected failure points agree exactly when the adapter failed or the router answered |
| DiagSvcRs.Max | platforms/tauri/src-tauri/src/services/diagnostics.rs:189-191 | the larger of two latencies |
| DiagSvcRs.HealthOf | platforms/tauri/src-tauri/src/services/diagnostics.rs:193-203 | the bands below 20, 50, 100 and 200 ms are Excellent, Good, Fair and Poor, and Bad above; never Down |
| DiagSvcRs.HealthOfLatencies | platforms/tauri/src-tauri/src/services/diagnostics.rs:189-203 | the health of three latencies is the band of one of them and no better than the band of any |
| DiagSvcRs.HealthMonotone | platforms/tauri/src-tauri/src/services/diagnostics.rs:193-203 | a larger latency never gives a better band |
| DiagSvcRs.HealthAdvice | platforms/tauri/src-tauri/src/services/diagnostics.rs:205-212 | a full pass's advice is the text of its health band, and each text reads back as its band, so different bands give different advice |
| DiagSvcRs.Run | platforms/tauri/src-tauri/src/services/diagnostics.rs:104-216 | corrected: the failure point is the corrected FailureOf, so a failed router phase reports Router; each flag is set exactly for the phases that passed, the adapter exactly when a non-empty name was found; any failure gives Down and a full pass never does; passed phases have positive latencies; a full pass takes the band of the largest latency and that band's advice |
| DiagSvcRs.FastPassIsExcellent | platforms/tauri/src-tauri/src/services/diagnostics.rs:189-194 | a full pass with every latency under 20 ms is Excellent |
| AlertSystem.Init | platforms/python/src/monitoring/alert_system.py:68-116 | a new system has a threshold for every alert type, no history and no alert times |
| AlertSystem.SetThreshold | platforms/python/src/monitoring/alert_system.py:118-131 | a known type takes the new value and the severity and cooldown that are given, keeping the rest; an unknown type changes nothing |
| AlertSystem.EnableAlert | platforms/python/src/monitoring/alert_system.py:133-139 | a known type's enabled flag is set and nothing else changes; an unknown type changes nothing |
| AlertSystem.LastOpen | platforms/python/src/monitoring/alert_system.py:202-203 | the position of the most recent unresolved alert of the type, or none when every alert of it is resolved |
| AlertSystem.AutoResolve | platforms/python/src/monitoring/alert_system.py:198-207 | the most recent unresolved alert of the type, and no other, becomes resolved at the current time |
| AlertSystem.AutoResolveOnlyLatest | platforms/python/src/monitoring/alert_system.py:202-207 | an earlier unresolved alert of the same type stays open after auto-resolution |
| AlertSystem.SpeedAlertAsWrittenNeverFires | platforms/python/src/monitoring/alert_system.py:154 | a download rate below 10 Mbps, the only one the caller checks, never breaches the low-speed threshold as written, yet falls short of it |
| AlertSystem.FastLinkBreachesAsWritten | platforms/python/src/monitoring/alert_system.py:154 | a 100 Mbps link breaches the low-speed threshold as written, although it is well above the minimum |
| AlertSystem.BreachAgreesExceptSpeed | platforms/python/src/monitoring/alert_system.py:154 | the corrected comparison agrees with the written one for every type except the low-speed one |
| AlertSystem.Trim | platforms/python/src/monitoring/alert_system.py:277-281 | the most recent 1000 alerts, the history unchanged when it is within the cap |
| AlertSystem.CheckMetric | platforms/python/src/monitoring/alert_system.py:141-196 | corrected: the low-speed type breaches below its threshold, where the code compares `value > threshold`; an unknown or disabled type does nothing; a value within its threshold auto-resolves; a breach fires exactly when the cooldown allows, appending one alert with the type's severity and threshold, trimming, and recording the time |
| AlertSystem.FiredAlertIsNewest | platforms/python/src/monitoring/alert_system.py:173-175 | a fired alert is the newest entry of the history |
| AlertSystem.NoRefireInCooldown | platforms/python/src/monitoring/alert_system.py:159-196 | right after an alert fires, the same breach does not fire again within the cooldown |
| AlertSystem.ResolveAlert | platforms/python/src/monitoring/alert_system.py:262-268 | an unresolved alert becomes resolved, a resolved one keeps its first resolution time, and nothing else changes |
| AlertSystem.ResolveIdempotent | platforms/python/src/monitoring/alert_system.py:265-267 | resolving twice is resolving once |
| AlertSystem.ClearHistory | platforms/python/src/monitoring/alert_system.py:270-275 | the history and the alert times are emptied and the thresholds kept |
| AlertSystem.Active | platforms/python/src/monitoring/alert_system.py:245-248 | exactly the unresolved alerts |
| AlertSystem.Recent | platforms/python/src/monitoring/alert_system.py:250-255 | exactly the alerts at or after the cutoff |
| AlertSystem.OfType | platforms/python/src/monitoring/alert_system.py:257-260 | exactly the alerts of the type |
| AlertSystem.KindCountsSum | platforms/python/src/monitoring/alert_system.py:292-295 | the per-type counts add up to the number of alerts |
| AlertSystem.SeverityCountsSum | platforms/python/src/monitoring/alert_system.py:297-299 | the per-severity counts add up to the number of alerts |
| AlertSystem.GetStats | platforms/python/src/monitoring/alert_system.py:283-307 | the total, the active count and the resolved count that completes it, and per-type and per-severity counts listing exactly the values that occur |
| WindowsEvents.ClassifyText | platforms/python/src/monitoring/windows_events.py:246-261 | DNS timeout words under a DNS provider or message win; a DNS failure needs failure words without timeout words; WLAN classes need a WLAN provider, and a connection is reported only without disconnect or limited words |
| WindowsEvents.Classify | platforms/python/src/monitoring/windows_events.py:236-261 | a known event ID decides alone; otherwise the lower-cased message and provider decide |
| WindowsEvents.DisconnectNeverConnect | platforms/python/src/monitoring/windows_events.py:253-259 | a disconnect message is never classified as a connection, though "disconnect" contains "connect" |
| WindowsEvents.Query | platforms/python/src/monitoring/windows_events.py:208-231 | the classified records become events, never more than the records; with nothing classifiable the result is empty; a first record with a null message, or a null provider and an undecided ID, gives no events |
| WindowsEvents.Intact | platforms/python/src/monitoring/windows_events.py:215-231 | the records before the first one whose null message or provider makes the classifier raise |
| WindowsEvents.QueryCountsClassifiable | platforms/python/src/monitoring/windows_events.py:215-231 | one event per classifiable record before the first breaking one, no more and no fewer |
| WindowsEvents.QueryIsClassifiedRecords | platforms/python/src/monitoring/windows_events.py:215-231 | the k-th event is the k-th classifiable record before the first breaking one, with its type, time, provider, level, message and ID: none dropped and the order kept |
| WindowsEvents.QueryStopsAtBreak | platforms/python/src/monitoring/windows_events.py:231-235 | a record that makes the classifier raise hides every record after it: the query returns what it gathered before |
| WindowsEvents.AddNew | platforms/python/src/monitoring/windows_events.py:150-161 | no new events changes nothing; otherwise they are appended and the list cut to the newest 1000 |
| WindowsEvents.AddNewKeepsBatch | platforms/python/src/monitoring/windows_events.py:156-161 | a batch of at most 1000 new events survives whole as the newest entries |
| WindowsEvents.GetEvents | platforms/python/src/monitoring/windows_events.py:271-282 | exactly the events at or after the cutoff, of the given type when one is given |
| WindowsEvents.DnsTimeoutCount | platforms/python/src/monitoring/windows_events.py:284-291 | the number of DNS timeouts and failures at or after the cutoff, zero when there are none |
| WindowsEvents.DnsCountMonotone | platforms/python/src/monitoring/windows_events.py:284-291 | a wider window counts at least as many |
| WindowsEvents.SummaryOf | platforms/python/src/monitoring/windows_events.py:297-317 | corrected: the summary computed under the one lock, which the code never returns because it takes the lock twice: the number of events of the last hour, per-type counts listing exactly the types that occur, the DNS counts of five minutes and of the hour, and the WLAN disconnects and limits |
| WindowsEvents.Acquire | platforms/python/src/monitoring/windows_events.py:95 | the lock is acquired exactly when it is not held |
| WindowsEvents.DnsTimeoutCountLocked | platforms/python/src/monitoring/windows_events.py:284-291 | with the lock free the count is returned, and with it held the call never returns |
| WindowsEvents.SummaryAsWrittenNeverReturns | platforms/python/src/monitoring/windows_events.py:299-311 | the summary takes the lock and then asks for it again, so it never returns |
| RealtimeMonitor.Measure | windows/src/monitoring/realtime_monitor.py:31-80 | a measured latency is returned and remembered; a failed probe returns and keeps the last known value |
| RealtimeMonitor.MeasureWindows | windows/src/monitoring/realtime_monitor.py:55-80 | the returned and remembered latency agree; on a clean exit the first per-reply time is the latency; a failed ping or an output without one returns the last value |
| RealtimeMonitor.FailuresKeepLast | windows/src/monitoring/realtime_monitor.py:74-80 | repeated failures keep returning the last measured value |
| RealtimeMonitor.FindAdapter | windows/src/monitoring/realtime_monitor.py:213-239 | the exact adapter name wins; otherwise the first similar name; with none the totals labelled "All" |
| RealtimeMonitor.ExactNameWins | windows/src/monitoring/realtime_monitor.py:216-219 | an exact match wins over an earlier similar name |
| RealtimeMonitor.AdapterSpeed | windows/src/monitoring/realtime_monitor.py:282-297 | the totals and an adapter with unknown or zero speed count as 1000 Mbps, any other its own speed |
| RealtimeMonitor.RatesBetween | windows/src/monitoring/realtime_monitor.py:257-277 | without a previous snapshot or elapsed time every rate is zero; otherwise each rate times the interval gives back the counter difference, in megabits for transfers |
| RealtimeMonitor.GrowingCountersNonNegative | windows/src/monitoring/realtime_monitor.py:260-265 | growing byte counters give non-negative transfer rates |
| RealtimeMonitor.Capture | windows/src/monitoring/realtime_monitor.py:207-280 | a sample is rated against the previous snapshot, becomes the previous one and is appended to a history that keeps its newest 300 entries |
| RealtimeMonitor.Recent | windows/src/monitoring/realtime_monitor.py:304-322 | exactly the snapshots at or after the cutoff |
| RealtimeMonitor.Downloads | windows/src/monitoring/realtime_monitor.py:344-364 | the download rate of each snapshot, in order |
| RealtimeMonitor.Uploads | windows/src/monitoring/realtime_monitor.py:345-365 | the upload rate of each snapshot, in order |
| RealtimeMonitor.PositiveMean | windows/src/monitoring/realtime_monitor.py:344-349 | the mean of the strictly positive samples: their sum divided by their number, 0 without one, never negative and at most the largest sample |
| RealtimeMonitor.IdleSampleIgnored | windows/src/monitoring/realtime_monitor.py:344-345 | a sample that is not strictly positive never changes the average |
| RealtimeMonitor.AverageRates | windows/src/monitoring/realtime_monitor.py:324-351 | zero for an empty window; otherwise the download and upload averages are the means of the strictly positive download and upload rates of the window, never negative |
| RealtimeMonitor.PeakRates | windows/src/monitoring/realtime_monitor.py:353-366 | the peaks bound every rate of the window, each peak is one of the window's rates, and an empty window gives zeros |
| RealtimeMonitor.AverageBelowPeak | windows/src/monitoring/realtime_monitor.py:324-366 | the average download never exceeds the peak download |
| MonitoringCmd.ParseU64 | platforms/tauri/src-tauri/src/commands/monitoring.rs:184-195 | an unsigned parse yields a value below 2^64, reads a run of digits as its value, and rejects the empty text |
| MonitoringCmd.ParseRoundTrip | platforms/tauri/src-tauri/src/commands/monitoring.rs:160-184 | a printed counter reads back as itself |
| MonitoringCmd.ParseStats | platforms/tauri/src-tauri/src/commands/monitoring.rs:179-199 | with at least eight fields the counters are read in order, an unreadable one as 0; with fewer every counter is 0 |
| MonitoringCmd.StatsLineRoundTrip | platforms/tauri/src-tauri/src/commands/monitoring.rs:158-196 | the parser reads back every statistics line the script prints |
| MonitoringCmd.Start | platforms/tauri/src-tauri/src/commands/monitoring.rs:56-66 | starting while active is an error; otherwise the flag is set and the interval is the requested one but at least 500 ms |
| MonitoringCmd.Stop | platforms/tauri/src-tauri/src/commands/monitoring.rs:125-128 | stopping clears the flag, so monitoring can start again |
| MonitoringCmd.SatSub | platforms/tauri/src-tauri/src/commands/monitoring.rs:81-84 | the counter difference, or 0 when the counter went backwards |
| MonitoringCmd.Mbps | platforms/tauri/src-tauri/src/commands/monitoring.rs:86-99 | the rate is non-negative and times the interval gives back the bytes in megabits |
| MonitoringCmd.PerSec | platforms/tauri/src-tauri/src/commands/monitoring.rs:101-102 | packets per second truncated towards zero |
| MonitoringCmd.Sample | platforms/tauri/src-tauri/src/commands/monitoring.rs:70-111 | a failed read emits the default metrics and keeps the remembered counters; otherwise the byte rates are the saturating deltas in Mbps over the interval, the packet rates the saturating deltas per second truncated, the error and drop counts are copied and the new counters are remembered |
| MonitoringCmd.CounterResetReadsAsIdle | platforms/tauri/src-tauri/src/commands/monitoring.rs:81-86 | a counter that went backwards reads as no traffic, not as a negative rate |
| MonitoringCmd.FirstSampleAsWrittenSpikes | platforms/tauri/src-tauri/src/commands/monitoring.rs:70-87 | starting from zero counters, the first sample reports every byte moved since the adapter came up as one interval's traffic, where the corrected loop reports none |
| MonitoringCmd.SampleFrom | platforms/tauri/src-tauri/src/commands/monitoring.rs:70-111 | corrected: without previous counters the first sample reports zero rates and remembers the counters, where the code starts from zero counters; with them it is the loop's sample |
| MonitoringCmd.CurrentMetrics | platforms/tauri/src-tauri/src/commands/monitoring.rs:132-150 | a read error is returned; otherwise zero transfer rates, the latency, and the cumulative packet counters in the per-second fields |
| DnsService.GetProvider | platforms/tauri/src-tauri/src/services/dns.rs:74-76 | a provider is found exactly when one has the id, and it is a provider with that id |
| DnsService.GetProviderFindsEach | platforms/tauri/src-tauri/src/services/dns.rs:28-76 | every provider of the table is found by its own id, as the ids are distinct |
| DnsService.ServerListSplits | platforms/tauri/src-tauri/src/services/dns.rs:90-93 | the server list splits back at its comma into the primary and the secondary, or is the primary alone |
| DnsService.SucceededIffNoError | platforms/tauri/src-tauri/src/services/dns.rs:101 | the empty-output test adds nothing: success is exactly the absence of "error" |
| DnsService.Outcome | platforms/tauri/src-tauri/src/services/dns.rs:186-205 | a script that fails to run is an error; one that runs succeeds exactly when its output does not contain "error" |
| DnsService.SetDns | platforms/tauri/src-tauri/src/services/dns.rs:89-102 | the set-servers script's run error is returned; otherwise success exactly when its output does not contain "error" |
| DnsService.SetDnsByProvider | platforms/tauri/src-tauri/src/services/dns.rs:105-112 | an unknown provider or no adapter is an error; otherwise the provider's two servers are set on the adapter, successful exactly when the output has no "error" |
| DnsService.ResetToDhcp | platforms/tauri/src-tauri/src/services/dns.rs:115-123 | the reset script's run error is returned; otherwise success exactly when its output does not contain "error" |
| DnsService.FlushCache | platforms/tauri/src-tauri/src/services/dns.rs:126-129 | the cache-clearing script's run error is returned; otherwise success exactly when its output does not contain "error" |
| DnsService.PingDns | platforms/tauri/src-tauri/src/services/dns.rs:152-164 | a run error is returned; otherwise the trimmed output is the latency when it reads as a number, and an error when not |
| DnsService.NoReplyIsMinusOne | platforms/tauri/src-tauri/src/services/dns.rs:156-162 | the script's no-reply answer reads as -1 |
| DnsService.Best | platforms/tauri/src-tauri/src/services/dns.rs:133-144 | the best is a latency that is positive and below the largest f64, no larger than any other such latency and strictly smaller than every earlier one; none exactly when no latency qualifies |
| DnsService.Latencies | platforms/tauri/src-tauri/src/services/dns.rs:136-137 | the latency of every provider's primary server, in table order |
| DnsService.SelectBestDns | platforms/tauri/src-tauri/src/services/dns.rs:132-149 | the provider with the lowest positive latency, the earliest in the table on ties; an error exactly when none answered with a positive latency |
| DnsService.SilentProviderNeverChosen | platforms/tauri/src-tauri/src/services/dns.rs:137-156 | a provider whose server did not reply is never chosen |
| DnsService.CheckResolution | platforms/tauri/src-tauri/src/services/dns.rs:168-183 | a run error is returned; otherwise the name resolved exactly when the trimmed output is "OK" |
| NetworkCmd.NetworkAdapters | platforms/tauri/src-tauri/src/commands/network.rs:57-87 | a failed listing is an error; trimmed output opening with `[` is read as a list, with `{` as one adapter, and anything else means no adapters |
| NetworkCmd.CurrentDns | platforms/tauri/src-tauri/src/commands/network.rs:92-144 | only a script that cannot start is an error; empty output, the cmdlet's own error text or undecodable output mean automatic configuration; the DHCP flag holds exactly when no server is listed; a missing alias keeps the requested adapter name |
| NetworkCmd.CurrentDnsKeepsDecoded | platforms/tauri/src-tauri/src/commands/network.rs:125-133 | a decoded alias and non-empty server list come back unchanged, marked as not automatic |
| NetworkCmd.QuotedListSplits | platforms/tauri/src-tauri/src/commands/network.rs:154-157 | the quoted server list splits at its comma into the two quoted addresses |
| NetworkCmd.EscapeRoundTrip | platforms/tauri/src-tauri/src/commands/network.rs:187-240 | doubling single quotes loses nothing: the adapter name reads back from the escaped text |
| NetworkCmd.WithElevation | platforms/tauri/src-tauri/src/commands/network.rs:173-207 | the result is Ok exactly when the first run succeeds or a permission failure is followed by a successful elevated run; a failed elevated run yields the administrator-rights error; success is always true |
| NetworkCmd.SetDnsServers | platforms/tauri/src-tauri/src/commands/network.rs:148-207 | a successful first run of the quoted server list answers true; after a permission failure the answer is Ok exactly when the elevated run, on the quote-escaped adapter name, succeeds; any other failure is an error |
| NetworkCmd.ResetDnsToDhcp | platforms/tauri/src-tauri/src/commands/network.rs:212-261 | a successful reset answers true; after a permission failure the answer is Ok exactly when the elevated reset, on the quote-escaped adapter name, succeeds; any other failure is an error |
| NetworkCmd.FlushDnsCache | platforms/tauri/src-tauri/src/commands/network.rs:265-271 | an error exactly when the script cannot start; otherwise its exit status |
| NetworkCmd.Secondary | platforms/tauri/src-tauri/src/commands/network.rs:360-368 | the second best server when there are two; otherwise a server exists exactly when some ranked server of the same provider at another address exists, and it is one of those |
| NetworkCmd.ApplyBestDns | platforms/tauri/src-tauri/src/commands/network.rs:347-390 | no monitored server is an error; otherwise the top-ranked server and its secondary are set on the adapter and the exit status is the answer |
| NetworkCmd.ApplyBestUsesSameProvider | platforms/tauri/src-tauri/src/commands/network.rs:351-368 | asking for one best server yields exactly the top of the ranking, so the secondary always comes from the provider match |
| SpeedTestStorage.Keys | platforms/python/src/storage/speed_test_storage.py:131-183 | the group keys are distinct, each is the key of some test, and every test's key is among them |
| SpeedTestStorage.Group | platforms/python/src/storage/speed_test_storage.py:136-139 | a key's group holds exactly the tests with that key |
| SpeedTestStorage.Closest | platforms/python/src/storage/speed_test_storage.py:146-167 | `min` with a key: a member of the group at the smallest distance, the first such one |
| SpeedTestStorage.PerKey | platforms/python/src/storage/speed_test_storage.py:129-170 | one test per key in first-appearance order, each a test of that key at least as close to the target as any other of its key |
| SpeedTestStorage.Representative | platforms/python/src/storage/speed_test_storage.py:143-168 | the chosen test has the key and is at least as close as every test of that key |
| SpeedTestStorage.WeekPick | platforms/python/src/storage/speed_test_storage.py:187-197 | a Wednesday test closest to noon by hour when the week has one, else the middle test of the week |
| SpeedTestStorage.PerWeek | platforms/python/src/storage/speed_test_storage.py:172-199 | one test per week, in first-appearance order, each of its own week |
| SpeedTestStorage.WeekRepresentative | platforms/python/src/storage/speed_test_storage.py:186-197 | the pick of a week is a test of that week |
| SpeedTestStorage.Tier | platforms/python/src/storage/speed_test_storage.py:85-96 | a tier holds exactly the tests whose age satisfies it |
| SpeedTestStorage.Kept | platforms/python/src/storage/speed_test_storage.py:98-114 | only ids of stored tests are kept, and every test of the last 24 hours is; ThinsToOnePerBucket bounds the older tiers |
| SpeedTestStorage.CleanupOf | platforms/python/src/storage/speed_test_storage.py:65-122 | the deleted ids are exactly the stored ids that are not kept; everything from the last 24 hours is kept |
| SpeedTestStorage.SaveTest | platforms/python/src/storage/speed_test_storage.py:50-63 | after the save, exactly the stored tests plus the new one whose id the cleanup keeps remain |
| SpeedTestStorage.SavedTestSurvives | platforms/python/src/storage/speed_test_storage.py:50-99 | a test saved with an age under a day survives its own cleanup |
| SpeedTestStorage.Recent | platforms/python/src/storage/speed_test_storage.py:201-212 | exactly the fetched tests at or after the cutoff remain |
| SpeedTestStorage.KeepsEachHour | platforms/python/src/storage/speed_test_storage.py:91-147 | between one and seven days old, every hour that had a test keeps one of that hour at least as close to half past as the given one |
| SpeedTestStorage.KeepsEachDay | platforms/python/src/storage/speed_test_storage.py:163-168 | between seven and thirty days old, every day that had a test keeps one of that day at least as close to noon as the given one |
| SpeedTestStorage.KeepsEachWeek | platforms/python/src/storage/speed_test_storage.py:185-197 | beyond thirty days, every week that had a test keeps one of that week |
| SpeedTestStorage.OnePerHour | platforms/python/src/storage/speed_test_storage.py:141-149 | the hourly thinning never keeps two tests of the same hour |
| SpeedTestStorage.PerKeyOneEach | platforms/python/src/storage/speed_test_storage.py:129-170 | the hourly and daily aggregation never picks two tests of one key |
| SpeedTestStorage.PerWeekOneEach | platforms/python/src/storage/speed_test_storage.py:172-199 | the weekly aggregation never picks two tests of one week |
| SpeedTestStorage.IdInSelection | platforms/python/src/storage/speed_test_storage.py:99-118 | with distinct document ids, an id kept from a selection belongs to a test of that selection |
| SpeedTestStorage.KeptIsPick | platforms/python/src/storage/speed_test_storage.py:98-114 | with distinct document ids, a kept test older than a day is the pick of its own tier's aggregation |
| SpeedTestStorage.ThinsToOnePerBucket | platforms/python/src/storage/speed_test_storage.py:98-118 | with distinct document ids, the cleanup keeps at most one test per clock hour between one and seven days old, one per day between seven and thirty, and one per week beyond |
| SpeedTestStorage.Median | platforms/python/src/storage/speed_test_storage.py:246 | the median lies between two of the values |
| SpeedTestStorage.Period | platforms/python/src/storage/speed_test_storage.py:216-223 | exactly the fetched tests within the last `days` days |
| SpeedTestStorage.GetStats | platforms/python/src/storage/speed_test_storage.py:214-247 | the count is the number of tests in the period; all zeros for an empty period; otherwise the download, upload and latency averages are the period's sums divided by the count, min and max are downloads of the period bounding every one, and the mean and median lie between them |
| DbManager.GetSetting | windows/src/storage/db_manager.py:221-228 | the default when no document has the key; otherwise the value of a document with that key |
| DbManager.Overwrite | windows/src/storage/db_manager.py:216-217 | every document with the key is replaced by the new one, every other stays in place |
| DbManager.SaveSetting | windows/src/storage/db_manager.py:205-219 | a new key is appended; an existing key keeps the table's length and every document of it becomes the new one; documents of other keys are untouched; afterwards the key is present |
| DbManager.OverwriteKeepsOthers | windows/src/storage/db_manager.py:216-228 | overwriting one key leaves the lookup of every other key unchanged |
| DbManager.AppendKeepsOthers | windows/src/storage/db_manager.py:218-228 | appending a document of another key leaves the lookup unchanged |
| DbManager.SaveThenGet | windows/src/storage/db_manager.py:205-228 | reading a key right after saving it gives the saved value |
| DbManager.SaveKeepsOthers | windows/src/storage/db_manager.py:205-228 | saving one key leaves the value read for every other key as it was |
| DbManager.SaveKeepsUnique | windows/src/storage/db_manager.py:205-219 | the settings table keeps at most one document per key |
| DbManager.SaveState | windows/src/storage/db_manager.py:163-176 | the cache key afterwards holds the state with its detection time |
| DbManager.LoadState | windows/src/storage/db_manager.py:178-201 | a state comes back exactly when the cache holds a readable detection time less than an hour old, and it is the cached state, or an empty one when the cache holds none |
| DbManager.StateRoundTrip | windows/src/storage/db_manager.py:163-201 | a saved state reads back unchanged exactly while it is younger than an hour, and as nothing afterwards |
| DbManager.RecentTests | windows/src/storage/db_manager.py:80-89 | newest first, `min(limit, n)` tests drawn from the table without repetition (a sub-multiset of it), so exactly the whole table when it holds at most `limit` tests |
| DbManager.RecentAreNewest | windows/src/storage/db_manager.py:84-89 | a test left out of the recent list is no newer than any returned one |
| DbManager.Downloads | windows/src/storage/db_manager.py:113 | the download of every test, in order |
| DbManager.Latencies | windows/src/storage/db_manager.py:115 | the latency of every test, in order |
| DbManager.GetTestStats | windows/src/storage/db_manager.py:99-124 | the fixed defaults (worst latency 999) for an empty table; otherwise the count, the download, upload and latency averages as sums over the table divided by its size, a best download and worst latency that occur in the table and bound every test, and the mean download at most the best |
| DbManager.NextId | windows/src/storage/db_manager.py:258 | a new document's id is above every id in the table |
| DbManager.SaveMetric | windows/src/storage/db_manager.py:237-273 | below the cap the metric is simply appended; in every case only stored documents and the new one remain |
| DbManager.Capped | windows/src/storage/db_manager.py:262-271 | trimming keeps only documents that were there |
| DbManager.CappedBounded | windows/src/storage/db_manager.py:262-271 | trimming leaves at most 1000 documents, with distinct ids |
| DbManager.AppendFreshId | windows/src/storage/db_manager.py:258 | appending with the next id keeps the ids distinct |
| DbManager.SaveMetricBounded | windows/src/storage/db_manager.py:237-273 | the metrics table stays within 1000 documents with distinct ids |
| DbManager.Newest | windows/src/storage/db_manager.py:264-269 | the 1000 newest are at most 1000 stored documents |
| DbManager.OutsideNewestIsOlder | windows/src/storage/db_manager.py:264-269 | a document outside the 1000 newest is no newer than one inside |
| DbManager.SaveMetricKeepsNewest | windows/src/storage/db_manager.py:261-271 | a metric dropped by the cap is no newer than any metric kept |
| DbManager.ClearOld | windows/src/storage/db_manager.py:316-323 | in both the tests and the metrics table, exactly the documents at or after the cutoff remain |
| DbManager.ClearOldIdempotent | windows/src/storage/db_manager.py:316-323 | clearing twice with the same cutoff is clearing once |
| BackupSystem.ToDict | windows/src/storage/backup_system.py:37-41 | the dictionary's timestamp is ISO text of one of the two shapes `isoformat` writes |
| BackupSystem.FromDict | windows/src/storage/backup_system.py:43-47 | reading fails exactly when the timestamp text is not a date-time; otherwise a valid date-time and every other field copied |
| BackupSystem.DictRoundTrip | windows/src/storage/backup_system.py:37-47 | a snapshot written out and read back is the same snapshot |
| BackupSystem.BackupId | windows/src/storage/backup_system.py:66 | fifteen characters, digits apart from the `_` at position 8; for a valid date-time the year, month, day, hour, minute and second read back from their columns |
| BackupSystem.FileName | windows/src/storage/backup_system.py:214 | `backup_<id>.json` is a name the backup glob matches |
| BackupSystem.Backups | windows/src/storage/backup_system.py:243 | exactly the files of the directory whose names match `backup_*.json` |
| BackupSystem.Lookup | windows/src/storage/backup_system.py:223-227 | a file is found exactly when one has the name, and it is a file of the directory with that name |
| BackupSystem.LookupFinds | windows/src/storage/backup_system.py:223-231 | in a directory with one file per name, looking a file's name up finds that file |
| BackupSystem.LoadSnapshot | windows/src/storage/backup_system.py:221-237 | nothing when no file has the name; a snapshot only when a file of that name holds it |
| BackupSystem.Without | windows/src/storage/backup_system.py:345 | the files of other names stay and the named one goes, keeping names unique |
| BackupSystem.Save | windows/src/storage/backup_system.py:212-217 | the file of the snapshot's name is replaced; every other file stays and nothing else appears |
| BackupSystem.SaveThenLoad | windows/src/storage/backup_system.py:212-237 | a saved snapshot loads back unchanged |
| BackupSystem.DeleteSnapshot | windows/src/storage/backup_system.py:340-349 | the answer is whether the file existed; afterwards exactly the other files remain |
| BackupSystem.DeleteThenLoad | windows/src/storage/backup_system.py:340-349 | after a deletion the snapshot no longer loads |
| BackupSystem.InsertByName | windows/src/storage/backup_system.py:243 | one insertion step of the name sort keeps the files and the descending name order |
| BackupSystem.ByNameDescending | windows/src/storage/backup_system.py:243 | the backup files rearranged into descending name order |
| BackupSystem.Loaded | windows/src/storage/backup_system.py:244-254 | the snapshots read from the files, skipping unreadable ones, each read from one of the files |
| BackupSystem.LoadedPrefix | windows/src/storage/backup_system.py:243-251 | reading a prefix of the files yields a prefix of the snapshots |
| BackupSystem.Cap | windows/src/storage/backup_system.py:248-251 | the count check comes after the append, so at least one snapshot is listed whatever the limit |
| BackupSystem.ListSnapshots | windows/src/storage/backup_system.py:239-256 | the first readable snapshots in descending file-name order, at most the cap, each stored in a backup file of the directory |
| BackupSystem.Collect | windows/src/storage/backup_system.py:241-256 | the loop collects exactly the first readable snapshots up to the cap |
| BackupSystem.ListedAreBackups | windows/src/storage/backup_system.py:243-248 | every listed snapshot is stored in a backup file of the directory |
| BackupSystem.LoadedAreBackups | windows/src/storage/backup_system.py:243-248 | every snapshot read from the sorted backups is stored in a backup file of the directory |
| BackupSystem.SortedIsBackup | windows/src/storage/backup_system.py:243 | sorting brings in no file that is not a backup of the directory |
| BackupSystem.Doomed | windows/src/storage/backup_system.py:357-360 | only backup files of the directory are marked for deletion |
| BackupSystem.Cleanup | windows/src/storage/backup_system.py:351-364 | at most 50 backups means nothing changes; otherwise exactly the doomed files go, keeping names unique |
| BackupSystem.CleanupSparesOthers | windows/src/storage/backup_system.py:353 | files that are not backups are never deleted |
| BackupSystem.CleanupBounded | windows/src/storage/backup_system.py:355-363 | after a cleanup at most 50 backups remain |
| BackupSystem.SparedIsSurvivor | windows/src/storage/backup_system.py:357-360 | a backup that is not doomed is among the 50 last by modification time |
| BackupSystem.CleanupDeletesOldest | windows/src/storage/backup_system.py:357-363 | a deleted backup is no newer than any backup kept |
| BackupSystem.CurrentDns | windows/src/storage/backup_system.py:112-131 | nothing when the command fails; otherwise non-empty, stripped lines |
| BackupSystem.CreateSnapshot | windows/src/storage/backup_system.py:63-96 | the snapshot carries the id from the creation time, the adapter, the captured servers and registry values, and the given description or the default one |
| BackupSystem.CreateBounded | windows/src/storage/backup_system.py:93-96 | creating a snapshot leaves at most 50 backups |
| BackupSystem.CreateThenLoad | windows/src/storage/backup_system.py:63-96 | a snapshot written after every existing file survives its own cleanup and loads back unchanged |
| BackupSystem.SavedIsNewest | windows/src/storage/backup_system.py:93 | the file just written is newer than every other file |
| BackupSystem.NewestSurvives | windows/src/storage/backup_system.py:357-360 | the unique most recently modified backup is never doomed |
| BackupSystem.NewestOfBackups | windows/src/storage/backup_system.py:353-357 | the newest file, being a backup, is the newest backup |
| BackupSystem.CleanupKeepsLoad | windows/src/storage/backup_system.py:221-237 | a file that survives the cleanup still loads under its id |
| BackupSystem.RestoreDns | windows/src/storage/backup_system.py:283-306 | success exactly when the reset and then the setting of the joined servers both succeed |
| BackupSystem.RestoreRegistry | windows/src/storage/backup_system.py:308-338 | only registry writes; the throttling index first when saved; the TCP option written last exactly when the earlier write did not fail; nothing for an empty record |
| BackupSystem.RestoreSnapshot | windows/src/storage/backup_system.py:258-281 | false with no change when the snapshot does not load; otherwise true exactly when there are no servers or restoring them on the given adapter, or else the snapshot's own, succeeds |
| BackupSystem.RegistryNeverDecides | windows/src/storage/backup_system.py:273-338 | registry failures never change the verdict |
| BackupSystem.RestoreTargetsSnapshotAdapter | windows/src/storage/backup_system.py:266-288 | with no adapter given, the first change resets the adapter the snapshot was taken on |
| IsoTime.Pad | windows/src/storage/backup_system.py:40-66 | a number written in exactly the requested count of decimal digits |
| IsoTime.PadRoundTrip | windows/src/storage/backup_system.py:40-46 | padded digits read back as the number |
| IsoTime.Iso | windows/src/storage/backup_system.py:40 | `isoformat` text is 19 characters, or 26 when the microseconds are not zero |
| IsoTime.ParseIso | windows/src/storage/backup_system.py:46 | whatever `fromisoformat` accepts is a valid date-time |
| IsoTime.IsoRoundTrip | windows/src/storage/backup_system.py:40-46 | reading back what `isoformat` wrote gives the same date-time |
| Detection.Switch | platforms/python/src/optimizations/detection.py:157-162 | a state reads enabled exactly when it shows the word "enabled" |
| Detection.Congestion | platforms/python/src/optimizations/detection.py:118-141 | the state shows a provider word and is enabled exactly when that word is ctcp, cubic or bbr; without a netsh line, enabled exactly when `TcpCongestionControl` reads 1 |
| Detection.Rss | platforms/python/src/optimizations/detection.py:143-162 | enabled exactly when it shows "enabled"; without a netsh line, enabled exactly when `RssBaseCpu` can be read at all |
| Detection.Ecn | platforms/python/src/optimizations/detection.py:164-184 | enabled exactly when it shows "enabled"; without a netsh line, enabled exactly when `EnableECN` reads 1 |
| Detection.Flag | platforms/python/src/optimizations/detection.py:319-333 | a registry-only detector shows the value read and is enabled exactly when it reads 1, or takes its default when it cannot be read |
| Detection.WindowScalingWith | platforms/python/src/optimizations/detection.py:201-223 | with a reported auto-tuning level, enabled exactly when the lowered level is in the level list; without one, enabled exactly when `Tcp1323Opts` is unreadable or has bit 0 set |
| Detection.CapturedLevelIsOneWord | platforms/python/src/optimizations/detection.py:205-210 | the captured level is one word, so it never equals the two-word "highly restricted" of the list |
| Detection.HighlyRestrictedReadsDisabled | platforms/python/src/optimizations/detection.py:205-210 | the "highlyrestricted" report line reads as window scaling off against the list as written, and as on against the single-word spellings |
| Detection.WindowScalingFixed | platforms/python/src/optimizations/detection.py:205-210 | with a reported level, enabled exactly when the lowered level is one of the single-word levels netsh prints |
| Detection.Timestamps | platforms/python/src/optimizations/detection.py:225-241 | shows the `Tcp1323Opts` value; enabled exactly when it is unreadable or has bit 1 set |
| Detection.Chimney | platforms/python/src/optimizations/detection.py:257-277 | enabled exactly when it shows "enabled"; without a netsh line, enabled exactly when `EnableTCPChimney` reads 1 |
| Detection.Throttling | platforms/python/src/optimizations/detection.py:279-297 | shows the throttling index and counts as enabled exactly when it is 0xFFFFFFFF |
| Detection.TaskOffload | platforms/python/src/optimizations/detection.py:299-317 | enabled exactly when it shows "enabled", and assumed on when netsh does not report it |
| Detection.AutoTuning | platforms/python/src/optimizations/detection.py:335-355 | shows a level word and is enabled exactly when it is normal or experimental |
| Detection.DetectAll | platforms/python/src/optimizations/detection.py:37-85 | corrected: window scaling is read by WindowScalingFixed, so "highlyrestricted" reads enabled where the code reads disabled; one state per optimization id, in detection order |
| Detection.Detectors | platforms/python/src/optimizations/detection.py:44-83 | corrected: the thirteen detectors each give one reading, window scaling by WindowScalingFixed rather than the code's level list |
| Detection.Labelled | platforms/python/src/optimizations/detection.py:157 | each reading is stored under its id |
| Detection.NothingReadable | platforms/python/src/optimizations/detection.py:37-85 | with no netsh output and no readable registry value, exactly window scaling, timestamps, SACK, task offload and auto-tuning count as enabled |
| Detection.StateOf | platforms/python/src/optimizations/detection.py:371-373 | nothing exactly when no state has the id; otherwise the state detected under it |
| Detection.EnabledOnes | platforms/python/src/optimizations/detection.py:375-381 | exactly the enabled states |
| Detection.DisabledOnes | platforms/python/src/optimizations/detection.py:383-389 | exactly the disabled states |
| Detection.EnabledDisabledPartition | platforms/python/src/optimizations/detection.py:375-389 | every detected state is in exactly one of the enabled and disabled sets, and their sizes add up |
| Detection.GetSummary | platforms/python/src/optimizations/detection.py:391-401 | total, enabled count, their difference, and the enabled share as a percentage rounded down, 0 with nothing detected |
| Detection.Percentage | platforms/python/src/optimizations/detection.py:400 | the share rounded down: 0 for an empty total, otherwise the largest whole percentage not above the share, at most 100 |
| Optimizer.WriteDword | platforms/python/src/optimizations/optimizer.py:71-81 | the write reports success exactly when the registry accepts it, and only then changes the one value |
| Optimizer.Attempt | platforms/python/src/optimizations/optimizer.py:104-116 | a result under the optimization's id that succeeded exactly when the step did, asking for a reboot only on success |
| Optimizer.ApplyRss | platforms/python/src/optimizations/optimizer.py:146-170 | success exactly when the adapter query succeeds with a non-empty name and the RSS command on that adapter succeeds; never a reboot |
| Optimizer.WithBit0 | platforms/python/src/optimizations/optimizer.py:197-202 | bit 0 set or cleared as asked, every other bit kept |
| Optimizer.WithBit1 | platforms/python/src/optimizations/optimizer.py:197-202 | bit 1 set or cleared as asked, every other bit kept |
| Optimizer.ApplyWindowScaling | platforms/python/src/optimizations/optimizer.py:172-189 | succeeds exactly when the registry is writable, then asking for a reboot |
| Optimizer.ApplyTimestampsAsWritten | platforms/python/src/optimizations/optimizer.py:191-216 | succeeds exactly when the registry is writable, then asking for a reboot |
| Optimizer.ApplyTimestamps | platforms/python/src/optimizations/optimizer.py:191-216 | corrected: toggles bit 1 of `Tcp1323Opts`, where the code toggles bit 0; succeeds exactly when the registry is writable, then asking for a reboot |
| Optimizer.ApplyThrottling | platforms/python/src/optimizations/optimizer.py:238-257 | succeeds exactly when the registry is writable, then asking for a reboot |
| Optimizer.Run | platforms/python/src/optimizations/optimizer.py:95-276 | corrected: "timestamps" runs the corrected ApplyTimestamps; every known optimization succeeds or fails; a reboot is asked exactly on the success of window scaling, timestamps, chimney or throttling; a failure changes nothing; a success changes at most the one registry value the key writes |
| Optimizer.RunShell | platforms/python/src/optimizations/optimizer.py:95-170 | a command-only optimization succeeds or fails, asking for a reboot only for a successful chimney change |
| Optimizer.RunRegistry | platforms/python/src/optimizations/optimizer.py:172-216 | corrected: the timestamps branch writes bit 1; a registry optimization succeeds or fails; only a success asks for a reboot and it changes only its own value |
| Optimizer.ApplyOptimization | platforms/python/src/optimizations/optimizer.py:280-308 | corrected: dispatches through the corrected Run; a known key's result is appended and the reboot flag becomes set once any result asks for one; an unknown key fails with nothing run or kept |
| Optimizer.ApplyKeepsConsistent | platforms/python/src/optimizations/optimizer.py:293-301 | every kept result succeeded or failed, and a reboot is required exactly when a kept result asked for one |
| Optimizer.ApplyBatch | platforms/python/src/optimizations/optimizer.py:310-318 | corrected: dispatches through the corrected Run; one result per key; the kept results grow by one per known key; unknown keys fail |
| Optimizer.BatchKeepsKnown | platforms/python/src/optimizations/optimizer.py:314-316 | the result reported for a known key is one of the kept results |
| Optimizer.BatchKeepsConsistent | platforms/python/src/optimizations/optimizer.py:310-318 | a batch keeps the bookkeeping consistent |
| Optimizer.GetSummary | platforms/python/src/optimizations/optimizer.py:320-331 | the total, the success and failure counts over the kept results, the reboot flag and the results |
| Optimizer.SummaryAddsUp | platforms/python/src/optimizations/optimizer.py:320-331 | successes and failures add up to the total |
| Optimizer.WindowScalingReadsBack | platforms/python/src/optimizations/optimizer.py:172-189 | after the write the detector's registry reading of window scaling agrees with the request, and timestamps read off since the whole value was overwritten |
| Optimizer.ThrottlingReadsBack | platforms/python/src/optimizations/optimizer.py:238-257 | after the write the detector reads throttling as switched off exactly when that was asked |
| Optimizer.TimestampsReadBack | platforms/python/src/optimizations/optimizer.py:191-216 | toggling bit 1 switches the detector's timestamps reading as asked and keeps the window-scaling bit |
| Optimizer.TimestampsAsWrittenMissesBit | platforms/python/src/optimizations/optimizer.py:195-204 | as written, enabling timestamps on a zero value leaves the detector reading them off and turns on the window-scaling bit |
| NetworkOptimizer.Find | platforms/python/src/optimizations/network_optimizer.py:280-284 | nothing exactly when no entry has the id; otherwise the catalogue entry with that id |
| NetworkOptimizer.ApplyOne | platforms/python/src/optimizations/network_optimizer.py:278-306 | an unknown id fails without running anything; a known one succeeds exactly when its command exits with status 0 |
| NetworkOptimizer.Selected | platforms/python/src/optimizations/network_optimizer.py:312-323 | exactly the ids of the entries the level admits |
| NetworkOptimizer.ApplyProfile | platforms/python/src/optimizations/network_optimizer.py:308-332 | one outcome per selected id, each from running that entry's command; the custom level applies nothing |
| NetworkOptimizer.LevelsNest | platforms/python/src/optimizations/network_optimizer.py:312-323 | conservative selects a subset of balanced, and balanced a subset of aggressive |
| NetworkOptimizer.AggressiveIsAll | platforms/python/src/optimizations/network_optimizer.py:321-323 | the aggressive level selects every entry |
| NetworkOptimizer.BalancedIsAllWithoutHighRisk | platforms/python/src/optimizations/network_optimizer.py:316-323 | with only low and medium risks, balanced selects exactly what aggressive does |
| NetworkOptimizer.ConservativeSkipsMedium | platforms/python/src/optimizations/network_optimizer.py:312-314 | a medium-risk entry is never part of the conservative profile |
| NetworkOptimizer.CatalogueRisks | platforms/python/src/optimizations/network_optimizer.py:75-253 | every shipped entry is low or medium risk, and the SYN-retransmission and chimney entries are the medium ones |
| NetworkOptimizer.CatalogueWellFormed | platforms/python/src/optimizations/network_optimizer.py:75-253 | the shipped catalogue's ids are distinct |
| OptimizerCmd.SecondPiece | platforms/tauri/src-tauri/src/commands/optimizer.rs:38 | a second piece exists exactly when the line holds a colon, and it holds no colon itself |
| OptimizerCmd.SplitHasSecond | platforms/tauri/src-tauri/src/commands/optimizer.rs:38 | a line splits at colons into more than one piece exactly when it holds a colon |
| OptimizerCmd.ExtractFrom | platforms/tauri/src-tauri/src/commands/optimizer.rs:35-44 | "unknown" when no line contains the key and a colon; otherwise the trimmed second piece of the first such line |
| OptimizerCmd.ExtractsReportLine | platforms/tauri/src-tauri/src/commands/optimizer.rs:35-53 | a report line `key : value` yields the value |
| OptimizerCmd.Labels | platforms/tauri/src-tauri/src/commands/optimizer.rs:63-131 | one note per step, in step order |
| OptimizerCmd.FirstFailure | platforms/tauri/src-tauri/src/commands/optimizer.rs:64-131 | every step before the position succeeds, and the step at it fails when it is inside the list |
| OptimizerCmd.RunSteps | platforms/tauri/src-tauri/src/commands/optimizer.rs:58-135 | Ok exactly when every step succeeds, listing every note; otherwise the error of the first failing step |
| OptimizerCmd.Run | platforms/tauri/src-tauri/src/commands/optimizer.rs:58-135 | Ok exactly when no step fails, listing every note; otherwise the error of the first failing step |
| OptimizerCmd.ProfileSteps | platforms/tauri/src-tauri/src/commands/optimizer.rs:61-131 | conservative runs 3 steps, balanced 7 and aggressive 11, none a deletion |
| OptimizerCmd.ApplyProfile | platforms/tauri/src-tauri/src/commands/optimizer.rs:58-135 | Ok exactly when every step of the profile succeeds, then with one note per step |
| OptimizerCmd.ProfilesNest | platforms/tauri/src-tauri/src/commands/optimizer.rs:61-131 | each profile runs every step of the one below it |
| OptimizerCmd.ResetToDefaults | platforms/tauri/src-tauri/src/commands/optimizer.rs:140-162 | fails only on one of its three netsh steps, with that step's error; otherwise reports all six steps |
| OptimizerCmd.ResetShape | platforms/tauri/src-tauri/src/commands/optimizer.rs:140-160 | three netsh steps followed by three deletions |
| OptimizerCmd.TrailingDeletes | platforms/tauri/src-tauri/src/commands/optimizer.rs:197-209 | steps that end in deletions fail only on one of the steps before them |
| DiagnosticStore.Band | platforms/tauri/src/lib/stores/diagnosticStore.ts:104-109 | a score of 90 or more is excellent and one below 25 critical, the bands in between ordered by threshold |
| DiagnosticStore.BandMonotone | platforms/tauri/src/lib/stores/diagnosticStore.ts:104-109 | a higher score never falls into a worse band |
| DiagnosticStore.HealthScore | platforms/tauri/src/lib/stores/diagnosticStore.ts:67-112 | the score is clamped to 0..100 and its status is its band; a failed adapter caps it at 50, router at 60, ISP at 70, DNS at 80 and never excellent |
| DiagnosticStore.CleanRunScoresFull | platforms/tauri/src/lib/stores/diagnosticStore.ts:70-102 | with every phase passing, no speed test and fast DNS and router, the score is a full 100, excellent |
| DiagnosticStore.SlowerNeverScoresHigher | platforms/tauri/src/lib/stores/diagnosticStore.ts:71-81 | slower DNS or router latencies never raise the score |
| DiagnosticStore.FailureNeverScoresHigher | platforms/tauri/src/lib/stores/diagnosticStore.ts:97-102 | turning any phase from passed to failed never raises the score |
| DiagnosticStore.SpeedAdvice | platforms/tauri/src/lib/stores/diagnosticStore.ts:402-408 | the speed recommendation is the low-speed one exactly below 10 Mbps |
| DiagnosticStore.DnsAdvice | platforms/tauri/src/lib/stores/diagnosticStore.ts:410-416 | the DNS recommendation says DNS is down exactly when it did not answer |
| DiagnosticStore.LatencyAdvice | platforms/tauri/src/lib/stores/diagnosticStore.ts:418-426 | the router warning comes exactly above 100 ms, and the excellent advice only when all three latencies are low |
| DiagnosticStore.Scored | platforms/tauri/src/lib/stores/diagnosticStore.ts:335-398 | a created report carries its measured fields and the health band of its own score |
| DiagnosticStore.SpeedTestReport | platforms/tauri/src/lib/stores/diagnosticStore.ts:313-342 | a speed-test report passes every phase, takes the ping as DNS latency and the speed recommendation |
| DiagnosticStore.DnsOnlyReport | platforms/tauri/src/lib/stores/diagnosticStore.ts:344-371 | a DNS-only report fails only at DNS, and exactly when DNS did not answer |
| DiagnosticStore.LatencyOnlyReport | platforms/tauri/src/lib/stores/diagnosticStore.ts:373-399 | each phase passes exactly below its bound: 100 ms router, 150 ms ISP, 200 ms DNS |
| DiagnosticStore.SlowRouterIsPoor | platforms/tauri/src/lib/stores/diagnosticStore.ts:104-109 | a router slower than 100 ms makes a latency report poor or critical |
| DiagnosticStore.Add | platforms/tauri/src/lib/stores/diagnosticStore.ts:151-166 | the new report, with its id, is first and is followed by the newest reports, at most 20 in all |
| DiagnosticStore.GetById | platforms/tauri/src/lib/stores/diagnosticStore.ts:171-174 | finds a report with that id, and finds nothing exactly when no report has it |
| DiagnosticStore.Latest | platforms/tauri/src/lib/stores/diagnosticStore.ts:193-236 | the newest report, and nothing exactly when the history is empty |
| DiagnosticStore.AddThenFind | platforms/tauri/src/lib/stores/diagnosticStore.ts:151-196 | an added report is the latest and is found by its id |
| DiagnosticStore.Remove | platforms/tauri/src/lib/stores/diagnosticStore.ts:179-181 | no kept report has the id, and every report with another id is kept |
| DiagnosticStore.RemoveUndoesAdd | platforms/tauri/src/lib/stores/diagnosticStore.ts:151-181 | removing a report just added under a fresh id to a history that was not full gives that history back |
| DiagnosticStore.Import | platforms/tauri/src/lib/stores/diagnosticStore.ts:213-229 | succeeds exactly on a document with a reports array, which then replaces the history cut to 20; otherwise the history stays |
| DiagnosticStore.Export | platforms/tauri/src/lib/stores/diagnosticStore.ts:201-208 | the document carries the whole history as its reports |
| DiagnosticStore.ImportOfExport | platforms/tauri/src/lib/stores/diagnosticStore.ts:201-229 | importing an export restores the exported history, whatever was there before |
| DiagnosticStore.ExcellentRaisesIssueAsWritten | platforms/tauri/src/lib/stores/diagnosticStore.ts:238-241 | with an excellent latest report, `hasIssues` as written is true while the intended one is false |
| DiagnosticStore.HasIssuesMatchesSuccess | platforms/tauri/src/lib/stores/diagnosticStore.ts:238-278 | the corrected `hasIssues` holds exactly when the latest report would not count as a success |
| DiagnosticStore.JsRound | platforms/tauri/src/lib/stores/diagnosticStore.ts:300-302 | `Math.round` lands within half a unit of its argument |
| DiagnosticStore.CommonIssue | platforms/tauri/src/lib/stores/diagnosticStore.ts:288-297 | `none` exactly when no report failed; otherwise a failure point counted at least as often as any other, the first such one in history order |
| DiagnosticStore.KindCounts | platforms/tauri/src/lib/stores/diagnosticStore.ts:281-285 | one entry per kind present, holding the number of reports of that kind |
| DiagnosticStore.SuccessRate | platforms/tauri/src/lib/stores/diagnosticStore.ts:278-302 | a percentage in 0..100, 100 when every report is good or excellent and 0 when none is |
| DiagnosticStore.DiagnosticStats | platforms/tauri/src/lib/stores/diagnosticStore.ts:244-310 | an empty history gives all zeros and no issue; otherwise the total, success rate, common issue and counts by kind; the DNS and router latency means over every report and the health-score mean over the scored reports, each within half of its rounded value; the download and upload means over the speed-tested reports, each within 0.05 of its value rounded to a tenth |
| AlertStore.EmptyIsValid | platforms/tauri/src/lib/stores/alertStore.ts:20-36 | the store starts with no alerts, and an empty store has distinct ids below the serial |
| AlertStore.Add | platforms/tauri/src/lib/stores/alertStore.ts:36-65 | the alert goes first, undismissed, under an id built from the time and the next serial; the older alerts follow unchanged |
| AlertStore.AddIsFresh | platforms/tauri/src/lib/stores/alertStore.ts:36-57 | the id of an added alert belongs to no alert already stored, so ids stay distinct |
| AlertStore.Duration | platforms/tauri/src/lib/stores/alertStore.ts:70-84 | a shortcut's display time is 0 exactly for errors, which stay until closed, and at most 6000 ms otherwise |
| AlertStore.Notify | platforms/tauri/src/lib/stores/alertStore.ts:70-84 | `success`, `error`, `warning` and `info` add one alert of their type with their display time in front of the others |
| AlertStore.Dismiss | platforms/tauri/src/lib/stores/alertStore.ts:89-93 | the alerts with the id are marked dismissed and every other alert is unchanged, in place |
| AlertStore.Remove | platforms/tauri/src/lib/stores/alertStore.ts:98-100 | no alert with the id remains and every alert with another id does |
| AlertStore.Clear | platforms/tauri/src/lib/stores/alertStore.ts:105-107 | no alert remains; the serial counter keeps counting |
| AlertStore.ClearErrors | platforms/tauri/src/lib/stores/alertStore.ts:112-114 | no error alert remains and every alert of another type does |
| AlertStore.OperationsKeepValid | platforms/tauri/src/lib/stores/alertStore.ts:89-114 | dismissing, removing, clearing and clearing errors keep the ids distinct |
| AlertStore.DismissHidesOnly | platforms/tauri/src/lib/stores/alertStore.ts:23-93 | a dismissed alert leaves the active list, and dismissing never changes the error count |
| AlertStore.ClearErrorsLeavesNoError | platforms/tauri/src/lib/stores/alertStore.ts:23-33 | after clearing errors the error count is 0 and the active list is the old one without its errors |
| AlertStore.RemoveUndoesAdd | platforms/tauri/src/lib/stores/alertStore.ts:48-100 | removing an alert just added gives back the list it was added to |
| TerminalStore.SliceFrom | platforms/tauri/src/lib/stores/terminalStore.ts:31-65 | JavaScript's `slice` with a negative start keeps that many last entries, and a start of `-0` keeps them all |
| TerminalStore.AddLog | platforms/tauri/src/lib/stores/terminalStore.ts:20-47 | the new entry is last, after the newest 499 of the old log, so the log never holds more than 500 |
| TerminalStore.AddLogKeepsNewest | platforms/tauri/src/lib/stores/terminalStore.ts:20-31 | adding an entry gives the newest 500 of the old log with the new entry appended: the newest 499 old entries, then the new one |
| TerminalStore.Clear | platforms/tauri/src/lib/stores/terminalStore.ts:49-52 | clearing leaves only the info entry that announces it |
| TerminalStore.AddOnEmpty | platforms/tauri/src/lib/stores/terminalStore.ts:22-51 | an entry added to an empty log is the whole log |
| TerminalStore.BatchEntries | platforms/tauri/src/lib/stores/terminalStore.ts:56-63 | one dry-run entry per command, in order, each carrying its command and the dry-run source |
| TerminalStore.FullBatchOverflowsAsWritten | platforms/tauri/src/lib/stores/terminalStore.ts:65 | a batch of 500 commands onto a non-empty log keeps the whole old log, leaving more than 500 entries |
| TerminalStore.AddBatch | platforms/tauri/src/lib/stores/terminalStore.ts:55-66 | as intended: the batch after the old entries, and only the newest 500 of all of them kept |
| TerminalStore.AddBatchAgreesBelowCap | platforms/tauri/src/lib/stores/terminalStore.ts:65 | for fewer than 500 commands the code as written gives the intended log |
| TerminalStore.BatchShowsInDryRun | platforms/tauri/src/lib/stores/terminalStore.ts:55-75 | after a batch that fits, the dry-run list is the old one followed by the batch |
| TerminalStore.DryRunLogs | platforms/tauri/src/lib/stores/terminalStore.ts:73-75 | exactly the entries at level dryrun |
| TerminalStore.ErrorLogs | platforms/tauri/src/lib/stores/terminalStore.ts:78-80 | exactly the entries at level error |
| ThemeStore.DefaultIdsMatch | platforms/tauri/src/lib/stores/themeStore.ts:51-193 | the five built-in themes carry the ids default-dark, matrix, cyber, minimal and ocean, in that order |
| ThemeStore.InitialIsValid | platforms/tauri/src/lib/stores/themeStore.ts:195-199 | the initial state is the built-in themes with default-dark current and no wallpaper, and it is valid |
| ThemeStore.SetTheme | platforms/tauri/src/lib/stores/themeStore.ts:244-251 | the id becomes current exactly when some theme has it; nothing else changes |
| ThemeStore.SetWallpaper | platforms/tauri/src/lib/stores/themeStore.ts:254-259 | only the wallpaper changes |
| ThemeStore.AddCustomTheme | platforms/tauri/src/lib/stores/themeStore.ts:262-267 | the theme is appended after all others, whatever its id; nothing else changes |
| ThemeStore.RemoveCustomTheme | platforms/tauri/src/lib/stores/themeStore.ts:270-276 | a built-in id removes nothing; any other id removes exactly its themes; a current id that is named falls back to default-dark, even a built-in one |
| ThemeStore.Reset | platforms/tauri/src/lib/stores/themeStore.ts:279-281 | a valid state with only the built-in themes, no wallpaper and the first built-in theme showing |
| ThemeStore.CurrentTheme | platforms/tauri/src/lib/stores/themeStore.ts:289-291 | a theme with the current id when there is one, otherwise the first built-in theme |
| ThemeStore.RemoveKeepsDefaults | platforms/tauri/src/lib/stores/themeStore.ts:273 | the built-in themes stay at the head of the list through any removal |
| ThemeStore.OperationsKeepValid | platforms/tauri/src/lib/stores/themeStore.ts:244-291 | every operation keeps the built-in themes first and the current id naming a theme, so the current-theme fallback is never needed |
| ThemeStore.Persist | platforms/tauri/src/lib/stores/themeStore.ts:227-233 | what is saved is the current id, the wallpaper and only the themes that are not built in |
| ThemeStore.Load | platforms/tauri/src/lib/stores/themeStore.ts:202-219 | nothing saved gives the initial state; saved text gives its ids and the built-in themes before the saved ones |
| ThemeStore.PersistThenLoad | platforms/tauri/src/lib/stores/themeStore.ts:202-233 | saving and loading keeps the current id and wallpaper and gives the built-in themes followed by the custom ones in order |
| ThemeStore.PersistRoundTrip | platforms/tauri/src/lib/stores/themeStore.ts:202-233 | a state of the built-in themes followed by custom ones comes back unchanged |
| AppStores.AverageMetrics | platforms/tauri/src/lib/stores.ts:49-65 | nothing for an empty history; otherwise, over the last 60 snapshots, the download, upload and latency averages are their sums divided by the number of snapshots, totals of errors and drops, and peaks that bound every sample and their means and are themselves samples |
| AppStores.OlderSnapshotsIgnored | platforms/tauri/src/lib/stores.ts:52 | snapshots older than the last 60 never change the averages |
| AppStores.AddToast | platforms/tauri/src/lib/stores.ts:260-270 | the earlier toasts stay in place and the new one comes last under the returned id; a fresh id keeps the ids distinct |
| AppStores.AutoRemoveDelay | platforms/tauri/src/lib/stores.ts:265-267 | a toast stays for its own duration, or 3000 ms when it has none or 0; never 0 |
| AppStores.RemoveToast | platforms/tauri/src/lib/stores.ts:266-273 | no toast with the id remains and every toast with another id does |
| AppStores.RemoveUndoesAddToast | platforms/tauri/src/lib/stores.ts:260-273 | removing a toast just added under a new id gives back the list it was added to |
| AppStores.ResetSettings | platforms/tauri/src/lib/stores.ts:213-231 | the defaults: dark theme, Spanish, minimize to tray, no start with Windows, notifications on, 1-second interval, no auto-failover, sound alerts on |
| AppStores.LoadSettings | platforms/tauri/src/lib/stores.ts:232 | each field the partial settings name is taken from them and every other is kept |
| AppStores.LoadSettingsLaws | platforms/tauri/src/lib/stores.ts:232 | loading nothing changes nothing, loading twice equals loading once, and loading complete settings restores them |
| AppStores.SetActive | platforms/tauri/src/lib/stores.ts:288-300 | switching on starts the timer if none runs; switching off stops a running one and resets the uptime to 0; otherwise nothing changes |
| AppStores.Tick | platforms/tauri/src/lib/stores.ts:292-294 | each second adds 1 to the uptime while the timer runs |
| AppStores.UptimeLaws | platforms/tauri/src/lib/stores.ts:284-300 | the timer runs exactly while monitoring is on, switching off leaves 0, and monitoring always counts from 0 |
| AppStores.TwoDigits | platforms/tauri/src/lib/stores.ts:307 | `padStart(2, '0')`: all digits, at least two, exactly two below 100 |
| AppStores.TwoDigitsRoundTrip | platforms/tauri/src/lib/stores.ts:307 | the padded digits read back as the number |
| AppStores.FormattedUptime | platforms/tauri/src/lib/stores.ts:303-308 | `hh:mm:ss` with colons in place, eight characters below 100 hours |
| AppStores.FormattedUptimeRoundTrip | platforms/tauri/src/lib/stores.ts:303-308 | the clock text reads back as the uptime, with minutes and seconds below 60 |
| Translations.TableOf | windows/src/gui/theme.py:197 | `LANG.get(code, LANG['es'])`: the language's own table, or the Spanish one for a code without a table |
| Translations.T | windows/src/gui/theme.py:195-197 | the current language's text for a known key, the Spanish text under an unknown language, and the key itself when the table lacks it |
| Translations.SetLanguage | windows/src/gui/theme.py:199-203 | the code becomes current exactly when it has a table |
| Translations.LanguageStaysKnown | windows/src/gui/theme.py:193-203 | the current language always has a table, from the start and after every change |
| Translations.SameKeys | windows/src/gui/theme.py:133-190 | both tables translate the same keys |
| Translations.UnknownKeyEchoed | windows/src/gui/theme.py:195-197 | a key neither table translates comes back unchanged in every language |
| ThemeManager.PalettesAgree | windows/src/gui/theme_manager.py:22-85 | the dark and light palettes name the same entries and share their radii |
| ThemeManager.Get | windows/src/gui/theme_manager.py:94-97 | a value exactly for the keys a palette has, and then the current palette's |
| ThemeManager.GetAll | windows/src/gui/theme_manager.py:99-101 | a copy holding every palette key |
| ThemeManager.GetAgreesWithGetAll | windows/src/gui/theme_manager.py:94-101 | `get` returns each entry of the copy and nothing the copy lacks |
| ThemeManager.NotifyAll | windows/src/gui/theme_manager.py:111-115 | one call per registered callback, in order, each given the new mode |
| ThemeManager.EveryCallbackCalled | windows/src/gui/theme_manager.py:111-115 | every callback is called and its own outcome recorded, however many of them raise |
| ThemeManager.ApplyTheme | windows/src/gui/theme_manager.py:103-115 | the mode becomes current, the callbacks stay registered and each is called with the mode |
| ThemeManager.Init | windows/src/gui/theme_manager.py:87-92 | a new manager is in its initial mode with no callbacks |
| ThemeManager.OnThemeChange | windows/src/gui/theme_manager.py:122-124 | the callback is registered after the others and the mode is unchanged |
| ThemeManager.Toggle | windows/src/gui/theme_manager.py:117-120 | the other mode becomes current, with every callback told |
| ThemeManager.ToggleTwice | windows/src/gui/theme_manager.py:117-120 | toggling twice gives back the manager, and each toggle tells every callback the new mode |
| ThemeManager.DarkOrLight | windows/src/gui/theme_manager.py:117-132 | exactly one of dark and light holds, and toggling swaps them |
| ColorUtil.HexValue | platforms/python/src/gui/github_tab.py:324 | a hex digit of either case has a value below 16, and nothing else has one |
| ColorUtil.PyHexInt | platforms/python/src/gui/github_tab.py:324 | `int(piece, 16)` on a piece of at most two characters lies between -15 and 255 |
| ColorUtil.Slice | platforms/python/src/gui/github_tab.py:324 | Python's slice clamps to the string: never longer than asked, and the plain slice when in range |
| ColorUtil.StripHashes | platforms/python/src/gui/github_tab.py:323 | `lstrip('#')` leaves no leading `#` and is never longer |
| ColorUtil.StripHashesSuffix | platforms/python/src/gui/github_tab.py:323 | what `lstrip('#')` leaves is the string after a run of `#`s |
| ColorUtil.Darker | platforms/python/src/gui/github_tab.py:325 | the darker channel is the larger of 0 and the channel less 30: black exactly up to 30, and never lighter than the channel |
| ColorUtil.DarkerMonotone | platforms/python/src/gui/github_tab.py:325 | a lighter channel never darkens to a darker one |
| ColorUtil.HexDigit | platforms/python/src/gui/github_tab.py:326 | the lower-case digit of a value reads back as that value |
| ColorUtil.Hex2 | platforms/python/src/gui/github_tab.py:326 | `format(v, '02x')` is two lower-case hex digits |
| ColorUtil.Hex2RoundTrip | platforms/python/src/gui/github_tab.py:324-326 | two written digits read back as the value they were written from |
| ColorUtil.Format | platforms/python/src/gui/github_tab.py:326 | `#` followed by six lower-case hex digits |
| ColorUtil.Channels | platforms/python/src/gui/github_tab.py:324 | the three channels read from the pieces at 0, 2 and 4, each between -15 and 255 |
| ColorUtil.Darkened | platforms/python/src/gui/github_tab.py:325-326 | three darkened channels written as `#` and six lower-case hex digits |
| ColorUtil.DarkenColor | platforms/python/src/gui/github_tab.py:319-326 | succeeds exactly when all three channels read, and then gives `#` and six lower-case hex digits |
| ColorUtil.HashOptional | platforms/python/src/gui/github_tab.py:323 | leading `#`s, one, several or none, make no difference |
| ColorUtil.ChannelsOfFormat | platforms/python/src/gui/github_tab.py:324-326 | the channels of a written colour read back as written |
| ColorUtil.DarkenRoundTrip | platforms/python/src/gui/github_tab.py:319-326 | a written colour darkens channel by channel into the colour of the darkened channels |
| ColorUtil.DarkensEachChannel | platforms/python/src/gui/github_tab.py:319-326 | any colour text that darkens gives a colour whose channels are the input's, each 30 darker and floored at 0 |
| ColorUtil.BlackStaysBlack | platforms/python/src/gui/github_tab.py:325 | black cannot get darker |

## Left out

- Everything graphical (windows, tabs, charts, the tray) and the toolkit calls the stores and the theme manager make (`ctk.set_appearance_mode`, console `print`): widget layout is not behaviour.
- Threads, sleep loops, thread pools, `running` flags and locks: each background loop is modelled as one step function over explicit state. The one lock whose use matters, in `windows_events.py`, is modelled as held or free for the finding below.
- Processes, PowerShell, `netsh`, `nslookup`, `ping`, TCP connects, `winreg`, `psutil` and the Tauri IPC: their results are inputs (the `run`, `ok` and probe parameters) and their command texts are carried as values, not executed.
- The file system, TinyDB internals, local storage and JSON text: storage is a sequence or map of documents, and a JSON document is the datatype it decodes to.
- Clocks and random sources (`datetime.now`, `Date.now`, `crypto.randomUUID`, `random.choice`): parameters. BackupSystem.CreateSnapshot takes one `now` for the two `datetime.now()` calls of `create_snapshot`, whose id and timestamp can differ by the time between them.
- Floating-point rounding and display formatting: latencies, rates and scores are exact `real`s, and printed decimals, message texts and log lines are not modelled.
- Detection.Percentage: computes `int(enabled / total * 100)` exactly, as the floor of the exact quotient; Python's float division could round a quotient just under an integer up to it.
- ColorUtil.PyHexInt: covers `int(piece, 16)` only for pieces of at most two characters, the only ones `_darken_color` slices. Python also accepts non-ASCII decimal digits and non-ASCII whitespace there; the model rejects such a piece.
- Text: lower-casing, digits and whitespace are ASCII only; Python's and Rust's Unicode versions agree with it on ASCII input.
- `adapter_manager.py`: `_detect_adapters` appends to the adapter list without clearing it, so a repeated detection duplicates adapters; the model takes the detected list as an input.
- AdapterManager.ApplyThenDetect: holds for a freshly detected adapter list only. Within one manager, `apply_dns_tier` re-runs `_detect_adapters`, which appends, and `min` keeps the stale first entry; AdapterManager.ApplyThenRedetectAsWritten shows that the applied rung is then not reported. `get_adapter_summary`, `set_adapter_metric` and `get_active_adapters` are PowerShell or display wrappers and are not modelled.
- `network_diagnostics.py`: `quick_check` and the text report are not modelled; the full diagnostic and its parts are.
- `services/diagnostics.rs`: the early-return recommendations are constructors of an `Advice` datatype; the six band texts are modelled as strings.
- `commands/diagnostics.rs`: the phase-five recommendation is overwritten by the score-based advice because the code goes on to scoring; this is modelled as written. The advice texts are an `Advice` datatype.
- `commands/network.rs`: the DNS intelligence wrapper commands (lines 280-342) only forward to the service and are not modelled; NetworkCmd.SetDnsServers and NetworkCmd.ResetDnsToDhcp carry the error's standard error text in `Err` without the "Error al configurar DNS:" prefix.
- `dns_intelligence.rs`: the metrics `HashMap`'s iteration order is the order of the `metrics` sequence. A history entry stamped 0 is dropped at once because the cutoff saturates at 0 and retention is strict; this is modelled as written.
- `dns_intelligence.py`: loading and saving the history file are modelled as the pruning on load and the last-1000 cut on save; the JSON file itself is not.
- `auto_failover.py`: `get_history(0)` returns the whole history because `history[-0:]` is `history[0:]`; this is modelled as written.
- `db_manager.py`: `save_network_test`, `get_tests_by_date_range`, `save_optimization`, `get_active_optimizations`, `get_optimization_history`, `toggle_optimization`, `get_all_settings`, `get_recent_metrics`, `export_to_json`, `import_from_json` and `get_db_stats` are single TinyDB inserts, queries or file copies with no decision logic, and are not modelled.
- `speed_test_storage.py`: `get_recent_tests(limit=1000)` is an input, the 1000 newest tests. An ISO week is a seven-day block counted from a Monday, which groups the same days as the ISO (year, week) key. SpeedTestStorage.GetStats gives `0.0` for the median of an empty period, where the source's dictionary has no median entry at all.
- SpeedTestStorage.Median: states only that the result lies between two of the values, not that it is the middle of the sorted values.
- `backup_system.py`: `_get_ip_config`, `_get_tcp_settings` and `_get_registry_values` read the machine and are inputs; listing with `limit <= 0` still returns one snapshot because the code appends before it checks the limit, and this is modelled as written.
- `network_optimizer.py`: `reset_to_defaults`, `generate_report` and `get_current_value` run or format commands without decisions beyond those modelled.
- OptimizerCmd: a process that cannot be spawned and one that exits with an error are one `ok = false` case; Rust's `lines()` is modelled as splitting at `'\n'` with a trailing `'\r'` not removed.
- `themeStore.ts`: the CSS the store derives from a theme is not modelled; a theme is its id, name and background.
- `stores.ts`: the writable stores without logic (adapters, DNS providers, thresholds, speed-test state, UI flags) and `toasts.clear`, which only empties the list, are not modelled.
- `theme_manager.py` and `theme.py`: the module-level singleton, `init_theme` and the palette constants other than the manager's two palettes are not modelled.
- AutoFailover.FindNext: models the search with the log line at `auto_failover.py:236` repaired; the code reads `tier.name`, which a tier lacks, and raises whenever a candidate is healthy, as AutoFailover.FindNextAsWritten models.
- AutoFailover.Tick: runs the repaired AutoFailover.Check; the loop as written runs AutoFailover.CheckAsWritten, which ends the cycle quietly whenever a candidate is healthy.
- WindowsEvents.Query: a `TimeCreated` value `fromisoformat` cannot read, and JSON the decoder rejects, also end the query; timestamps are given as seconds and the output as parsed records, so neither case is modelled.
- Optimizer.Run: dispatches "timestamps" to the corrected ApplyTimestamps (bit 1), not to the code's `current | 1` (bit 0), which Optimizer.ApplyTimestampsAsWritten models; the Findings row gives the input.
- Optimizer.RunRegistry: its timestamps branch is the corrected writer, as for Optimizer.Run.
- Optimizer.ApplyOptimization: runs through the corrected Optimizer.Run, so its timestamps result is the corrected one.
- Optimizer.ApplyBatch: runs through the corrected Optimizer.Run, so its timestamps results are the corrected ones.
- DiagCmdRs.Run: uses the corrected DiagCmdRs.FailureOf, so a working adapter with an unreachable router reports failure point Router; the code keeps Adapter, and `adapterOk <==> Reached(failure) > 0` does not hold of it there. DiagCmdRs.RouterFailureBlamesAdapter models the code.
- DiagSvcRs.Run: uses the corrected DiagSvcRs.FailureOf, with the same consequence for an unreachable router; DiagSvcRs.RouterFailureBlamesAdapter models the code.
- Detection.DetectAll: reads window scaling with Detection.WindowScalingFixed, so "highlyrestricted" reads enabled where the code reads it disabled; Detection.WindowScalingWith models the code's level list.
- Detection.Detectors: the window-scaling detector is Detection.WindowScalingFixed, as for Detection.DetectAll.
- TerminalStore.AddBatchAgreesBelowCap: holds for any batch of fewer than 500 commands; batches of more than 500 behave differently again (the slice start turns positive) and are covered only by the intended AddBatch.

## Findings

| source | as written | input that shows it | evidently intended | confidence | as-written member | corrected member |
|---|---|---|---|---|---|---|
| platforms/python/src/monitoring/auto_failover.py:236 | the log line of the upward search reads `tier.name`, which `DNSFallbackTier` lacks; the exception is caught at line 159 and the cycle ends | an unhealthy tier 1 outside the cooldown with the DHCP tier 7 above it, which always counts as healthy | log the tier's provider and switch to the healthy tier found | high; not executed | AutoFailover.AsWrittenQuietWithHealthyCandidate | AutoFailover.LadderSwitches |
| platforms/python/src/optimizations/optimizer.py:194-202 | enabling or disabling TCP timestamps sets or clears bit 0 of `Tcp1323Opts`, which `detection.py` (lines 214, 230) reads as window scaling | `Tcp1323Opts` = 0 and timestamps enabled: the value becomes 1, read as window scaling on and timestamps still off | toggle bit 1 and keep bit 0 | high; not executed | Optimizer.TimestampsAsWrittenMissesBit | Optimizer.TimestampsReadBack |
| platforms/tauri/src/lib/stores/diagnosticStore.ts:240 | `hasIssues` is true whenever the latest health is not 'good' | a latest report whose health is 'excellent' | issues only when the latest report is neither good nor excellent, as the success rate counts | high; not executed | DiagnosticStore.ExcellentRaisesIssueAsWritten | DiagnosticStore.HasIssuesMatchesSuccess |
| platforms/tauri/src/lib/stores/terminalStore.ts:65 | `logs.slice(-(MAX_LOGS - entries.length))` with 500 entries is `slice(-0)`, which keeps the whole log | a batch of 500 commands onto a log of one entry gives 501 entries | keep the newest 500 of the old log and the batch together | high; not executed | TerminalStore.FullBatchOverflowsAsWritten | TerminalStore.AddBatch |
| platforms/python/src/monitoring/windows_events.py:299-311 | `get_summary` holds the non-reentrant `threading.Lock` of line 95 and calls `get_dns_timeout_count`, which takes it again at line 288 | any call of `get_summary` | compute the DNS counts under the lock already held | high; not executed | WindowsEvents.SummaryAsWrittenNeverReturns | WindowsEvents.SummaryOf |
| platforms/tauri/src-tauri/src/commands/diagnostics.rs:116-120 | a failing router phase returns with `failure_point` still `Adapter`, its initial value; the `Router` variant is never assigned | a working adapter and an unreachable router | failure point `Router` | high; not executed | DiagCmdRs.RouterFailureBlamesAdapter | DiagCmdRs.FailureOf |
| platforms/tauri/src-tauri/src/services/diagnostics.rs:134-153 | the same: a failing router phase reports failure point `Adapter` | a working adapter and a router ping that fails | failure point `Router` | high; not executed | DiagSvcRs.RouterFailureBlamesAdapter | DiagSvcRs.FailureOf |
| platforms/python/src/monitoring/alert_system.py:154 | every type breaches when `value > threshold`, including the low-speed type whose threshold is a minimum | a download rate of 5 Mbps against the 10 Mbps threshold does not alert, and 100 Mbps does | the low-speed type breaches below its threshold | medium; not executed | AlertSystem.SpeedAlertAsWrittenNeverFires | AlertSystem.CheckMetric |
| platforms/tauri/src-tauri/src/commands/monitoring.rs:70-73 | the previous byte counters start at 0, so the first sample divides every byte since the adapter came up by one interval | the first sample after start on an adapter that has received any bytes | report no rate until a previous sample exists | medium; not executed | MonitoringCmd.FirstSampleAsWrittenSpikes | MonitoringCmd.SampleFrom |
| platforms/python/src/optimizations/detection.py:205-210 | the enabled levels list the two-word "highly restricted", but `(\w+)` captures one word and `netsh` prints "highlyrestricted" | the report line `Receive Window Auto-Tuning Level : highlyrestricted` | count "highlyrestricted" as auto-tuning enabled | medium; not executed | Detection.HighlyRestrictedReadsDisabled | Detection.WindowScalingFixed |
