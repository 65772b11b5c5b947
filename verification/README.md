# A verified model of the DNS multiplexer

A Dafny model of the service's stateful parts and proofs of what each promises over whole runs:
the response cache, the tunnel supervisor, the resolver pool with the forwarding threads on top of
it, the resolver scan with its selection, and the `slipnet://` profile codec.  One older component
is added, the round-robin pool of the Python proxy.

`dafny verify dfyconfig.toml` checks everything.

## How the modules fit together

| file | what it holds |
|---|---|
| `Dns.dfy` | parsed messages, cache keys, `minTTL` with its fixed-width arithmetic |
| `CacheModel.dfy`, `CacheRecency.dfy` | the cache as a sequence of entries with deadlines; inclusion and transparency; then that its order is the order of last use |
| `RecencyList.dfy`, `Cache.dfy` | the recency list as a ring of heap nodes, and `DNSCache` over it and its map, proved against `CacheModel` |
| `Supervisor.dfy`, `SupervisorSteps.dfy`, `SshChain.dfy`, `StopChain.dfy` | the tunnel manager, its monitors and its processes as a transition system; tunnel safety, what each step brings about, then ssh, then Stop |
| `TunnelManager.dfy` | the manager as a class whose locked sections are the steps of that system |
| `PoolModel.dfy`, `Latency.dfy`, `PoolHistory.dfy`, `Pool.dfy` | the pool's operations on values, the integer moving average, the derived state as a function of the history, and `ResolverPool` as a class |
| `Filters.dfy` | what it means to keep some elements of a list in their order |
| `Forwarding.dfy`, `Proxy.dfy` | any number of queries under way at once over one pool and cache, step by step; and one query as an imperative method over the two classes, with TCP framing |
| `SingleQuery.dfy`, `SoloRuns.dfy` | the two agree: the outcomes of the method are exactly those of the thread while no other gets a turn |
| `Verify.dfy`, `Scan.dfy` | one verification, and the bounded fan-out with its early callback |
| `StableSort.dfy`, `Selection.dfy`, `AutoScan.dfy`, `Rescan.dfy` | the in-place sorts, top-N selection, the readiness gate and the paths of the scanner, the rescan channel |
| `Choices.dfy` | what GetNext chooses among other threads |
| `DownEvents.dfy`, `CallbackRun.dfy` | the forwarding threads and the rescan channel in one system, and a run with a down event |
| `GoStrings.dfy`, `Base64.dfy`, `Profile.dfy` | the library functions the codec rests on, base64 (RFC 4648, section 4), and the parser, patcher and generator |
| `RoundRobin.dfy`, `RoundRobinHealth.dfy` | the Python pool: fairness, then health |

A section under a mutex and an atomic load are one step each.  The clock, upstream replies,
process exits, random choices and the order in which goroutines run are arbitrary.  Methods that
work on objects are proved against functions on values (`ensures contents == Step(old(contents), …)`,
`ensures State() == Apply(old(State()), …)`), and the theorems are about those functions and
about all runs of them.

## Results worth knowing before reading

* **The ssh guarantee depends on when Start is called.**  `Start` looks only at `tunnelCmd`.  Called
  while `monitorTunnel` lies between giving up that handle and restarting, it launches a second
  chain, and `startSSH` overwrites `sshCmd` unchecked.  `StopChain.SecondStartDoublesSsh` is a run
  from the initial state that ends with two ssh processes alive, one of which Stop would not
  capture.  `SshChain.StartIsSafeExactly` gives the exact condition in every reachable state in which
  Start can launch: in ssh mode no ssh alive and, unless the manager is stopped, no restart pending;
  in direct mode none.  Once stopped a pending restart does no harm (`StopChain.StoppedPendingIsSafe`),
  an ssh not ended yet does (`StopChain.StartWhileStoppingDoublesSsh`).  `main.go` calls Start once,
  which meets the condition (`SshChain.StartOnceIsDisciplined`).  Tunnel safety itself needs none.
* **A Start after Stop launches again**, since `Start` never reads `stopped`:
  `StopChain.StartAfterStopLaunches` is a run in which Stop has returned and a slipnet is alive.
  `StopChain.StopIsFinal` says exactly when Stop is final: unless such a Start finds the binary and
  no tunnel handle, and its launch succeeds.
* **Patching is idempotent exactly** when the tunnel type ends in at most one `_ssh`
  (`Profile.PatchIsIdempotent`): the patcher strips one suffix a time.
* **The codec does not escape its separator.**  Generating and parsing are inverse exactly when no
  configured field contains `|` (`Profile.ParseGenerated`); likewise for the host that the patcher
  writes (`Profile.PatchCommutesExactlyWithPlainHost`).
* **A framed TCP reply can be read back exactly** when it is shorter than 65536 bytes; a longer one
  gets a wrapped length (`Proxy.FramedReadsBack`).
* **A scan stops making progress exactly** when there is something to scan and `workers` is 0, since
  a channel without capacity accepts nothing (`Scan.ScanTerminates`).
* **From below the latency average stops short of a constant sample**, because of the integer
  division: four nanoseconds short, or where it started if that is nearer.  The sample is reached if
  and only if the latency does not start below it (`Latency.Settles`,
  `Latency.ReachedExactlyFromAbove`).
* `GetNext` of the Go pool never reaches its round-robin or random fallback, since no score is
  negative (`Pool.ScoreNonNegative`); its comment speaks of the logarithm of the latency where the
  code divides by the latency.  The model follows the code.
* The comment above `patchProfile` mentions the host only; the code also sets the port.  The
  generated profile always carries port 1080, whatever the listen address says.

## Model

| member | source | states |
|---|---|---|
| Dns.KeysIgnoreCase | cache.go:40-51 | Two queries share a cache key exactly when type and class agree and the names differ at most in ASCII case (RFC 1035, section 2.3.3) |
| Dns.KeysOfQuestions | cache.go:40-51 | Every message with a question has a key and nothing else has |
| Dns.MinTTLIsLeast | cache.go:53-77 | minTTL is the least TTL over all records of the three sections except OPT (RFC 6891, section 6.1.3), in nanoseconds, 0 without one; the product of a 32-bit TTL and a second fits an int64 |
| Dns.ComputeMinTTL | cache.go:59-76 | The nested loops with `min` and `first` compute that TTL in int64 |
| CacheModel.RunKeepsShape | cache.go:79-149 | In every run the keys are distinct and the size is at most max(1, maxSize) |
| CacheModel.PutEvictsLeastRecent | cache.go:130-139 | What a Put keeps of the other keys is a prefix of the list, all of them below capacity and as many as leave room for the new entry at capacity |
| CacheRecency.PositionIsRecency | cache.go:99-148 | In every run the list is in recency order: an entry stands before another exactly because the last storing Put or hitting Get for its key came later |
| CacheRecency.PutEvictsLeastRecentlyUsed | cache.go:130-139 | Every key that a Put evicts was last used before every other key that it keeps, and it evicts only from a full cache |
| CacheModel.LargerCacheIncludesSmaller | cache.go:79-149 | Inclusion with expiry: under the same timed operations the recency list of the smaller cache is always a subsequence of the larger one's, entries equal, sizes apart by at most M - N |
| CacheModel.LargerCacheHitsWhereSmallerHits | cache.go:79-149 | A larger cache hits wherever a smaller one does, with the same bytes |
| CacheModel.HitsAreExplained | cache.go:80-149 | Every hit of every run goes back to the latest Put stored for that key, within its least TTL; the bytes are equal except for the first two, which are the query's ID |
| CacheModel.StoredResponsesAreServed | cache.go:80-149 | Conversely, a response with a TTL above zero is served, under the ID of the query, to every query for its key up to its put time plus its least TTL, while fewer than max(1, maxSize) other keys were touched and nothing was stored for the key since |
| CacheModel.PutIsStored | cache.go:112-149 | After a Put the first entry is the response under its key until put time plus least TTL; without a key or a TTL nothing changes |
| CacheModel.GetDeletesWhatExpired | cache.go:93-97 | A Get deletes the entry for its key if that is past its deadline, and no other entry |
| CacheModel.EntriesComeFromLastPut | cache.go:112-149 | Every entry of a reachable cache is what the latest storing Put for its key stored; hits never alter it |
| RecencyList.List.constructor | cache.go:32-38 | A fresh list is an empty ring |
| RecencyList.List.Unlink | cache.go:94 | Making the neighbours of a node skip it takes exactly that node out of the ring |
| RecencyList.List.LinkFront | cache.go:143 | Linking between root and front puts the node first and leaves the others in order |
| RecencyList.List.Back | cache.go:132 | The last node, null for an empty list |
| RecencyList.List.PushFront | cache.go:143 | A new node with the key comes first, the rest unchanged |
| RecencyList.List.Remove | cache.go:94 | Exactly that node leaves, the order of the others stays |
| RecencyList.List.MoveToFront | cache.go:99 | That node comes first, the order of the others stays |
| Cache.DNSCache.constructor | cache.go:32-38 | A new cache is valid and empty |
| Cache.DNSCache.Delete | cache.go:94-95 | Removing a key from list and map together keeps them in agreement and removes that key alone |
| Cache.DNSCache.Evict | cache.go:130-139 | The eviction loop keeps the longest recency prefix that leaves room for one entry |
| Cache.DNSCache.Get | cache.go:80-109 | Get refines the sequence model: the map and the ring still agree, the reply is a fresh array with exactly the model's bytes, no stored array is written |
| Cache.DNSCache.Put | cache.go:112-149 | Put refines the sequence model, with its early returns, replacement, eviction and deadline |
| Cache.CopyWithId | cache.go:100-107 | The reply is a fresh copy with the query's first two bytes if both are at least two long |
| Cache.Locate | cache.go:25-30 | Map keys equal list keys, and each entry's element is the node that holds its key |
| Supervisor.AtMostOneTunnel | tunnel.go:62-144 | In every interleaving at most one slipnet is alive, and one that is alive is `tunnelCmd`, whoever calls Start and however often |
| Supervisor.OnlyItsMonitorClearsTheHandle | tunnel.go:204-232 | Until the monitor of the process in `tunnelCmd` has reaped it, nobody replaces the handle: no older monitor clears it and a pending restart that finds it starts nothing |
| Supervisor.RunKeepsTunnelInv | tunnel.go:204-262 | The supporting invariant on handles, processes and monitors is kept by every run |
| SupervisorSteps.StartLaunchesTunnel | tunnel.go:62-104 | A Start that launches adds exactly one process, a living slipnet at the given port, which becomes `tunnelCmd`; in ssh mode the port is recorded and the lock held |
| SupervisorSteps.StartRefuses | tunnel.go:66-72 | With a tunnel or without the binary nothing changes; a failed launch changes at most the recorded port |
| SupervisorSteps.MonitorRestartsTunnel | tunnel.go:224-231 | A monitor that wakes up in a manager that is not stopped and has no tunnel launches one, in either mode |
| SupervisorSteps.MonitorRestartsSsh | tunnel.go:251-261 | A monitorSSH that wakes up with a tunnel, no ssh handle and not stopped launches an ssh dialing the recorded port |
| SupervisorSteps.ChainLaunchesSsh | tunnel.go:133-144 | The end of startWithSSH launches an ssh dialing that port, or nothing, and releases the lock |
| SupervisorSteps.LaunchesExactly | tunnel.go:62-262 | A process is added exactly at these steps |
| SupervisorSteps.MonitorMoves | tunnel.go:204-246 | A monitor gives up its own handle and no other, ends if the manager is stopped, waits for the ssh whose handle it reads, and sleeps |
| SupervisorSteps.ExitMoves | tunnel.go:205 | An exit ends that process and touches nothing else |
| SupervisorSteps.StopMoves | tunnel.go:397-427 | Stop sets the mark, takes both handles and waits for the ssh, then the tunnel |
| SupervisorSteps.TunnelCanBeRestored | tunnel.go:204-232 | From every reachable state with a dead tunnel in a manager that is not stopped, its own monitor alone brings back a living slipnet at any port given, in either mode |
| SupervisorSteps.SshCanBeRestored | tunnel.go:234-262 | Likewise the monitor of a dead ssh under a tunnel, on the recorded port |
| SupervisorSteps.DirectModeRestarts | tunnel.go:204-232 | A run in direct mode with one Start in which the first tunnel has died and a second one lives |
| SshChain.SshFollowsTunnel | tunnel.go:218-231 | At most one ssh is alive and it is `sshCmd`; none is alive while startWithSSH waits for the new tunnel; from the moment the handle is given up until a tunnel runs again, even if the restart fails, an ssh is alive only while the monitor is on its way to end that very ssh, so none once stopSSH is done |
| SshChain.EverySshDialsTheTunnel | tunnel.go:146-202 | Every ssh ever launched dials the port given to the slipnet then in `tunnelCmd` |
| StopChain.StoppedLaunchesExactlyByStart | tunnel.go:204-262 | Once stopped, a process is launched in a run if and only if a call of Start finds the binary and no tunnel handle and launches slipnet; no monitor launches anything |
| StopChain.StopIsFinal | tunnel.go:397-435 | Every process alive when Stop sets `stopped` is one of the two handles it captured; afterwards something is launched if and only if a Start launches it; without such a Start nothing comes alive, no ssh is alive beside a monitor past stopSSH, and nothing is alive when Stop has returned, then or later |
| StopChain.NoStartNoLaunch | main.go:577-616 | The order of calls in main, no Start after Stop, meets the condition |
| StopChain.StartAfterStopLaunches | tunnel.go:62-75 | A run from the initial state in which Stop has returned and a later Start has a slipnet alive |
| StopChain.PendingIsReached | tunnel.go:204-219 | One Start and the exit of its tunnel lead to a state with a restart pending and an ssh alive, in which a Start is not safe |
| StopChain.SecondStartDoublesSsh | tunnel.go:188-200 | A run from the initial state with two ssh processes alive, one of them behind neither handle |
| StopChain.StoppedPendingIsSafe | tunnel.go:226-228 | A reachable stopped state with a restart pending in which a Start is safe |
| StopChain.StartWhileStoppingDoublesSsh | tunnel.go:62-75 | A run from the initial state in which a Start after Stop, while an ssh is still alive, ends with two |
| SshChain.StartOnceIsDisciplined | main.go:577-581 | The order of calls in main, one Start first, meets the condition of the ssh theorems |
| SshChain.StartIsSafeExactly | tunnel.go:62-75 | In every reachable state in which Start can launch, it keeps the one-ssh guarantee if and only if it is in direct mode, or no ssh is alive and, unless the manager is stopped, no restart is pending; otherwise a run with two ssh processes exists |
| SshChain.DirectRunsAreDisciplined | tunnel.go:85-104 | In direct mode every run meets the condition of the ssh and Stop theorems, whoever calls Start and when |
| SshChain.RunKeepsSshInv | tunnel.go:234-262 | The supporting invariant about pending restarts, the ssh handle and Stop is kept by every run |
| TunnelManager.Manager.Start | tunnel.go:62-75 | Start is the model's step on the fields, and refuses exactly when a handle is set or the binary is missing |
| TunnelManager.Manager.StartWithSsh | tunnel.go:107-131 | The part up to the launch: the port is recorded before the launch can fail |
| TunnelManager.Manager.FinishStartWithSsh | tunnel.go:133-144 | The part after the wait for the port, under the same lock; ssh dials that port |
| TunnelManager.Manager.TunnelExited | tunnel.go:207-216 | First section of monitorTunnel: clears the handle only if it is its own, goes on unless stopped |
| TunnelManager.Manager.TunnelRestart | tunnel.go:224-231 | Second section: starts a tunnel only if not stopped and no handle is set |
| TunnelManager.Manager.SshExited | tunnel.go:237-246 | First section of monitorSSH, likewise |
| TunnelManager.Manager.SshRestart | tunnel.go:251-261 | Second section: launches at most one ssh, dialing the recorded port |
| TunnelManager.Manager.Stop | tunnel.go:397-402 | The locked section of Stop and the two handles it captures |
| Latency.AverageInRange | pool.go:162-170 | For positive samples in [L, H] with 10 * H below 2^63 the stored latency stays in [L, H] and no int64 operation wraps |
| Latency.WrapsAround | pool.go:169 | A result is the int64 that differs from the exact one by a multiple of 2^64 |
| Latency.DivisionTruncates | pool.go:169 | The quotient leaves a remainder shorter than the divisor with the sign of the dividend |
| Latency.StepTowards | pool.go:162-170 | Under a constant sample one step from above comes closer, one from more than four below comes closer but stays four below, and within four below nothing moves |
| Latency.Settles | pool.go:162-170 | After at most as many updates as the gap the latency is exactly at its limit: the sample from above, four below it from further below, its start within four below |
| Latency.ReachedExactlyFromAbove | pool.go:162-170 | A constant sample is ever reached if and only if the latency does not start below it |
| Latency.Monotone | pool.go:162-170 | On the way it moves in one direction and never overshoots |
| PoolModel.ApplyKeepsWf | pool.go:77-89 | After every operation healthyCache is the healthy resolvers in list order, or the whole list if none is; the stats domain covers the list and only grows |
| PoolModel.RunKeepsWf | pool.go:342-358 | The same over whole runs, and a list started non-empty stays non-empty |
| PoolModel.OldSnapshotsKeepStats | pool.go:91-115 | A resolver in any earlier healthyCache still has its stats entry later |
| PoolHistory.HealthyCacheIsWhatIsUp | pool.go:77-89 | Over runs: if some listed resolver is up by its history, healthyCache is exactly the listed resolvers that are up, in list order; otherwise it is the whole list |
| PoolHistory.NothingDownIsDrawn | pool.go:91-112 | What can be drawn is listed, and up while any listed resolver is |
| PoolHistory.ListIsLastInstalled | pool.go:342-347 | The list is the one installed last |
| PoolHistory.CountersCount | pool.go:186-201 | The counters are the numbers of sends, failures and successes of that resolver |
| PoolHistory.CallbackIsLastSet | pool.go:219-223 | A callback is set exactly if the last registration set one |
| PoolModel.HealthIsHistory | pool.go:197-215 | In every reachable state a resolver is down iff since its last success or live probe it had a dead probe or ten failures; healthy means a streak below ten; re-listing does not revive it |
| PoolModel.CallbackAtTenthFailure | pool.go:205-209 | A failure takes a resolver down exactly when it is the tenth since the reset with no dead probe since |
| PoolModel.CallbackOncePerReset | pool.go:197-215 | Between two times a resolver is taken down there is a success or a live probe |
| PoolModel.LatencyIsAverage | pool.go:162-170 | The stored latency is the moving average of that resolver's own samples, untouched by every other operation |
| PoolModel.LatencyInRange | pool.go:152-176 | In a run of the pool the latency is 0 before the first sample and then within the bounds of the samples |
| Pool.ScoreNonNegative | pool.go:121-133 | A score is never negative, so the fallback of GetNext is not reached |
| Pool.ResolverPool.constructor | pool.go:50-67 | All listed resolvers are healthy with zero counters |
| Pool.ResolverPool.RebuildHealthyCache | pool.go:77-89 | The loop computes the derived list |
| Pool.ResolverPool.MarkSent | pool.go:186-191 | Counts one send, nothing else |
| Pool.ResolverPool.MarkSuccessWithLatency | pool.go:152-176 | The model's success step, in int64 arithmetic, ignoring unknown resolvers |
| Pool.ResolverPool.MarkFailure | pool.go:197-215 | The model's failure step; the callback is due exactly when the resolver goes down and one is set |
| Pool.ResolverPool.ApplyProbeResults | pool.go:251-260 | The draining loop applies the probes in order of arrival and rebuilds |
| Pool.ResolverPool.UpdateResolvers | pool.go:346-358 | Replaces the list; known resolvers keep their stats, streak and health, new ones start fresh |
| Pool.ResolverPool.GetNext | pool.go:91-149 | The answer is one of the sampled candidates; by cross-multiplication none has a better success rate over latency, latencies counting at least 1 ms and a rate as 1 where nothing was sent; it is the first such; and it is up while a listed resolver is |
| Pool.ScoresCompare | pool.go:121-137 | Scores are ordered exactly by success rate over latency |
| Forwarding.CountersAreConserved | proxy.go:96-121 | Over all concurrent queries, health checks and list replacements each resolver keeps sent = ok + fail + attempts in flight |
| Forwarding.RatesAreRates | pool.go:117-126 | Every success rate that GetNext computes lies in [0, 1] although other threads run between its two loads |
| Choices.ChoiceIsBest | pool.go:108-142 | Whatever runs between its loads, GetNext draws three candidates from its snapshot, or as many as that has, and settles on the first that is best by the counters it loaded |
| Forwarding.NothingCrashes | proxy.go:248-273 | No interleaving draws from an empty list, misses a stats entry or ends a search without a result, and the list stays non-empty |
| Forwarding.ConcurrentHealthIsHistory | pool.go:197-215 | The health theorem holds of the pool of any concurrent run |
| Forwarding.RepliesAreUpstreamResponses | proxy.go:87-127 | Every reply written is the upstream's response to that query, or, from the cache, a copy except for the ID of the latest response stored for the same key, which some upstream sent, within its least TTL |
| Proxy.QueryAddsUp | proxy.go:96-121 | Whatever the upstreams do, a query leaves no send unaccounted for, and it is answered exactly when its last attempt is marked a success |
| Proxy.QueryCounts | proxy.go:96-121 | The answer is the first upstream's, or the second's if the first fails and another resolver is drawn; exactly the attempts made are counted, each as it ended |
| Proxy.SecondQueryIsCached | proxy.go:123-127 | After an answer with a TTL above zero the same question gets the same bytes under its own ID until that TTL is over, and the pool is not touched |
| Proxy.Forwarder.Ask | proxy.go:96-121 | First attempt and retry: at most two, the retry to another resolver or not at all, each marked; the first goes to a resolver that is up while a listed one is |
| Proxy.Forwarder.Forward | proxy.go:87-127 | Cache and pool end up as specified and the reply is the specified one, on hit, success, retry and failure |
| Proxy.Forwarder.Handle | proxy.go:222-282 | The same behind the two-byte framing; an incomplete, empty or oversized message changes nothing and is not answered |
| SingleQuery.PickRun | pool.go:91-142 | From any state of the concurrent system, GetNext can settle on any resolver of its snapshot |
| SingleQuery.ServedIsARun | proxy.go:87-127 | From any state of the concurrent system, every outcome of the method (pool, cache, reply written) is the outcome of a run of the query's thread alone |
| SoloRuns.RunIsServed | proxy.go:87-127 | Conversely, whatever the query's thread does while no other gets a turn, from its first step to its last, is an outcome of the method |
| Proxy.FramedReadsBack | proxy.go:279-282 | A framed reply is read back, with the bytes after it untouched, exactly when it fits the two-byte length (RFC 1035, section 4.2.2) |
| Proxy.FramedLayout | proxy.go:279-282 | The length in network byte order, then the message |
| Proxy.UnframedExactly | proxy.go:222-236 | A stream holds a message exactly if it begins with a length and that many bytes |
| Verify.Matches | scanner.go:373-384 | Only the first TXT record decides |
| Verify.PossibleExactly | scanner.go:324-387 | The results a verification can have are exactly those for its resolver in which verified implies WORKING |
| Verify.VerifyResolver | scanner.go:324-387 | Status by the probe alone; verified exactly when the probe worked and the first TXT record of a readable challenge answer matches, so verified implies WORKING |
| Scan.ScanIsSafe | scanner.go:411-447 | At every moment at most `workers` verifications are in flight; the callback was begun at most once; begun early, it has exactly the first targetCount verified resolvers |
| Scan.ScanResult | scanner.go:392-464 | On return there is one result per input; the callback ran exactly once if something is WORKING and never otherwise; it got the early list, else all verified, else the WORKING ones; and it has finished |
| Scan.ScanTerminates | scanner.go:411-447 | Every run takes at most 4n + 2 steps, and an unfinished state can step unless there is something to scan and no worker |
| Scan.SelectFilters | scanner.go:419-427 | The callback gets the resolvers of exactly the results in question, in the order in which they were recorded |
| Scan.AllWorkersCanRun | scanner.go:408-411 | As many verifications as there are workers, or inputs if fewer, can be in flight at once |
| Scan.VerifiedWork | scanner.go:411-419 | Every recorded result is one that verifyResolver can return, so none is verified without being WORKING |
| StableSort.SwapIsStable | autoscan.go:335-337 | Exchanging neighbours with different keys is a stable permutation |
| StableSort.InnerStep | autoscan.go:328-338 | A pass of the inner loop that goes on after the element has found its place breaks nothing |
| StableSort.SortedStableIsUnique | autoscan.go:326-340 | Ordered and stable determine the result: there is only one |
| Selection.SortVerifyResults | autoscan.go:326-340 | The in-place loops give a stable permutation ordered by verified, then latency |
| Selection.SortByScore | scanner.go:574-581 | Likewise by score descending, then latency |
| Selection.PrefixIsBest | autoscan.go:249-281 | The first topN of the sorted candidates are the fastest, none slower than one left out |
| Selection.ProcessResults | autoscan.go:249-281 | Of the eligible results (the verified ones, or the WORKING ones if none is verified), each as often as it occurs, it installs min(topN, n), or all without a limit, fastest first and none slower than one left out; keeps the old pool exactly when nothing works |
| AutoScan.ReadyGate.Do | autoscan.go:169 | Only the first call closes the channel, and the pool at that moment is what those who wait find |
| AutoScan.CompletedCalls | scanner.go:429-461 | A completed scan called back exactly when some result works, once, with a non-empty list |
| AutoScan.AutoScanner.OnReady | autoscan.go:221-227 | The early list is in the pool when readiness is signalled |
| AutoScan.AutoScanner.InitialScanBuiltin | autoscan.go:216-235 | If anything works, readiness is signalled with the early list in the pool, which then gets the fastest of all results; otherwise it is kept and readiness signalled |
| AutoScan.AutoScanner.InitialScan | autoscan.go:139-176 | On every path readyCh is closed exactly once on return, with the list of findns or the early list of the built-in scan in the pool if there is one; on return the pool holds the former or the final selection, never an empty list |
| AutoScan.AutoScanner.ScanAndUpdate | autoscan.go:179-199 | A later round installs the list of findns or the best of the results, or keeps the pool |
| AutoScan.AutoScanner.Thinning | autoscan.go:124-130 | The maintenance tick triggers a scan exactly if fewer than half of the wanted resolvers can be drawn and there are more to scan |
| AutoScan.DoReload | reload.go:92-101 | A file without resolvers keeps the pool, so the list stays non-empty |
| Rescan.NoRescanIsLost | autoscan.go:92-98 | In every interleaving a captured callback is pending, or a token waits, or a token consumed after it ran started a scan |
| Rescan.LoopReacts | autoscan.go:118-134 | A token or the periodic tick starts a scan and nothing else does; a thinning pool leaves a token |
| DownEvents.DownAtExactly | pool.go:205-209 | The listed positions are exactly the failures that take a resolver down with a callback set, in order |
| DownEvents.NoDownEventIsLost | pool.go:203-214 | In every interleaving of all threads with the scanner the captured callbacks are, one for one and in order, the failures that take a resolver down with a callback set; each is pending, or a token waits, or a token consumed after it ran started a scan |
| CallbackRun.CallbackIsCaptured | pool.go:203-214 | Such a run exists: with a callback set, ten failed queries in a row capture it |
| DownEvents.DownAtTenthFailure | pool.go:205-209 | Each of them is the tenth failure since the reset with no dead probe since |
| Rescan.TokenServesAllCallbacks | autoscan.go:118-125 | The next token consumed serves every callback that has run, so dropped sends lose nothing |
| GoStrings.SplitJoin | config.go:73 | Splitting what was joined gives the fields back if none contains the separator |
| GoStrings.PrefixesAndSuffixes | tunnel.go:326 | A suffix is what was put behind, and trimming takes off exactly that |
| GoStrings.AtoiReadsDecimal | config.go:93-98 | Every number that fits 64 bits is read back from its decimal form, the others are refused |
| GoStrings.AtoiAccepts | config.go:93-98 | Nothing is accepted but an optional sign and digits |
| GoStrings.SplitHostPortExactly | tunnel.go:330 | An address is taken apart exactly if it is host:port without further colons or brackets, or [host]:port, and into these two |
| GoStrings.StripWeave | config.go:60 | White space put anywhere into a string without any is removed again |
| GoStrings.SpaceLenIsRune | config.go:60 | What counts as white space is the UTF-8 form of one of the code points of unicode.IsSpace |
| GoStrings.SpaceLenOfRune | config.go:60 | And each of these counts |
| Base64.DecodeEncode | tunnel.go:341 | Decoding inverts encoding on all byte strings |
| Base64.Alphabet | tunnel.go:341 | The alphabet of RFC 4648, table 1 |
| Base64.Rfc4648Vectors | tunnel.go:341 | The test vectors of section 10 of RFC 4648 |
| Base64.DecodeAccepts | config.go:62 | Decoding succeeds exactly on multiples of four characters of the alphabet, the last one or two of which may be padding |
| Base64.DecodeWithoutPadding | config.go:62-71 | Dropping any part of the trailing padding leaves the decoded bytes unchanged |
| Base64.PadLoop | config.go:64-66 | The padding loop adds at most three characters and reaches a multiple of four |
| Profile.ParseSlipNetURI | config.go:53-134 | The parser, field by field with its defaults and its three errors, on every string |
| Profile.ParseReadsFields | config.go:73-131 | The profile read from an encoded list of fields has each value from its place in the list, or its default where that is empty, missing or no valid number; fewer than twelve fields are refused |
| Profile.ParseInverts | config.go:73-131 | Round trip of every profile without separators: written in 24 fields and encoded, it is read back in full |
| Profile.ParseErrors | config.go:55-71 | The scheme and base64 errors occur exactly for a missing prefix and an undecodable rest, and the patcher hands such a URI back |
| Profile.PatchProfile | tunnel.go:300-342 | The patcher, with every way of returning its input unchanged |
| Profile.PatchRewrites | tunnel.go:320-341 | Of an encoded list of at least ten fields it changes the type by one suffix and port and host by the non-empty parts of the address, and nothing else; a shorter list comes back as it is |
| Profile.GenerateProfileURI | tunnel.go:344-378 | The generator |
| Profile.PatchCommutesWithParse | tunnel.go:300-342 | For every URI that parses and every address whose host and port are free of the separator, parsing the patched URI gives the original profile with one `_ssh` stripped, host and port replaced, all else equal |
| Profile.PatchCommutesExactlyWithPlainHost | tunnel.go:328-341 | For an address whose port is free of the separator, patching commutes with parsing if and only if its host is free of it |
| Profile.PatchSetsHostAndPort | tunnel.go:328-338 | With a non-empty host and a positive decimal port, exactly these are the host and port parsed |
| Profile.PatchIsIdempotent | tunnel.go:325-338 | Patching again with the same address changes nothing if and only if the type had at most one `_ssh` suffix |
| Profile.PatchAndTunnelType | config.go:36-50 | After patching the displayed type is the same exactly for profiles without ssh and for the two ssh types with a displayed name of their own; the profile still counts as ssh exactly if the type ended in two suffixes |
| Profile.ShownNames | config.go:36-50 | The displayed names, and that an ssh profile is one whose type ends in the suffix |
| Profile.GeneratedTypeAndHost | tunnel.go:345-358 | noizdns is generated as sayedns, no type as dnstt, any other as it is; the host is that of the address, or all interfaces if it has none |
| Profile.ParseGenerated | tunnel.go:344-378 | Parsing a generated URI returns the domain, key, mapped type and listen host, port 1080, transport udp and the fixed values, if and only if none of the four contains the separator |
| Profile.ParseToleratesSpaceAndPadding | config.go:59-71 | White space anywhere in the base64 and missing trailing padding leave the parse result unchanged |
| RoundRobin.ApplyKeepsWf | dns-mux.py:122-125 | Rebuilding only when a resolver changes side keeps the healthy list right |
| RoundRobinHealth.DealsOutWhatIsUp | dns-mux.py:122-125 | Over runs: the healthy list is exactly the listed resolvers that are up by their history, in list order, or the whole list if none is |
| RoundRobinHealth.RunFollows | dns-mux.py:142-181 | A resolver is down exactly if since its last success or live probe it had a dead probe or three failures |
| RoundRobin.RepliesTakeTurns | dns-mux.py:127-134 | While the list stays the same the i-th answer is the element i places on, whatever marks and checks run in between |
| RoundRobin.AnswersInOrder | dns-mux.py:132-134 | In plain arithmetic the i-th answer is the element at the index plus i, modulo the length |
| RoundRobin.ShareIsEven | dns-mux.py:132-133 | Of k * n + m consecutive turns a position gets k, and one more exactly if it lies less than m places past the start |
| RoundRobin.RoundRobinIsFair | dns-mux.py:122-134 | In any window of k * n + m calls over an unchanged list of length n, each list position is chosen k or k + 1 times and exactly m of them k + 1 times, from any starting index |
| RoundRobin.ResolverIsNamedInTurn | dns-mux.py:127-134 | In a list without repetitions a resolver is named exactly as often as its position is chosen |
| RoundRobin.RaisesExactlyWhen | dns-mux.py:127-157 | An operation raises an error exactly for an empty list, a success of a resolver that is not listed, or such a resolver's third failure in a row |
| RoundRobin.ListedMarksRaiseNothing | dns-mux.py:127-181 | A pool with resolvers whose callers mark only listed ones never raises, over whole runs |
| RoundRobin.ResolverPool.GetNext | dns-mux.py:127-134 | The method answers, raises and advances as the model does, in either mode |
| RoundRobin.ResolverPool.RebuildHealthyCache | dns-mux.py:122-125 | The healthy resolvers in list order, or all of them |
| RoundRobin.ResolverPool.MarkSuccess | dns-mux.py:142-149 | The model's step, with its error for a resolver that is not listed |
| RoundRobin.ResolverPool.MarkFailure | dns-mux.py:151-157 | The model's step, down at the third failure, with the error of a resolver that is not listed |
| RoundRobin.ResolverPool.ApplyProbes | dns-mux.py:175-181 | The locked half of the health check |

## Left out

- Sockets, DoH requests, deadlines, binding retries, the accept and read loops and their worker limit: input and output. An upstream exchange is an arbitrary reply or error.
- Flags, start-up wiring, deployment scripts, embedded binaries, logging and statistics strings. `main.go` is used only for the order of calls.
- findns: its runs are parameters that may fail or return any list.
- DNS wire parsing, HMAC and nonces, and the seven compatibility probes of `scanResolver` are oracles. What a message parses to is an arbitrary function of its bytes.
- Ageing of TTLs inside cached bytes and keys that depend on EDNS or flags: the code has neither.
- AutoScan.AutoScanner.InitialScanBuiltin: runs the callback of a completed scan before the selection and not at its place inside the scan; the callback is taken to return.
- Pool.ResolverPool.UpdateResolvers: ends before `ExportVerified`, which asks for the read lock while the write lock is held (pool.go:343, pool.go:362, pool.go:367): nothing is claimed about progress past it. The same goes for `AutoScan.AutoScanner.OnReady`, `InitialScanBuiltin`, `InitialScan`, `ScanAndUpdate` and `AutoScan.DoReload`, which pass through it: that readiness is signalled, and with what pool, is said of a call that returns.
- Pool.ResolverPool.ApplyProbeResults: is the half of the health check under the lock, given its results; the probing half and its second read of the list, which matters only when the list is replaced during a check, are not modelled.
- Pool.ResolverPool.GetNext: is the method run alone, with exact reals where the code has floating point; its loads among other threads are steps of `Forwarding`, where a mark is one step.
- Forwarding.CountersAreConserved: counts with unbounded naturals where the code has 64-bit counters.
- Forwarding.NothingCrashes: takes probe results to name resolvers that were listed and new lists to be non-empty, as every caller ensures.
- Stats entries are values in a map. The code shares one record per resolver, which is never replaced, so the two agree.
- Cover traffic: it sends through the pool without counting.
- StopChain.StopIsFinal, like `SshChain.SshFollowsTunnel`: they rest on two facts about processes. `Wait` returns only after the exit, and stopSSH and Stop go on only when the process they signal has exited, by SIGTERM or by Kill.
- SshChain.SshFollowsTunnel: takes every Start that launches in ssh mode to find no ssh alive and, unless stopped, no restart pending; `SshChain.StartIsSafeExactly` shows this to be necessary. `StopChain.StopIsFinal` takes the same of the calls before Stop, for the processes it captures; `StopChain.SecondStartDoublesSsh` shows why. Its part about the time between two tunnels is stated for a manager that is not stopped; after Stop, `StopChain.StopIsFinal` has it.
- Liveness of the supervisor: a failed restart ends supervision (tunnel.go:229-231), so only safety is stated.
- `buildSlipnetArgs` apart from the address and port it passes on, and the askpass file of `startSSH`.
- Profile.PatchCommutesExactlyWithPlainHost: says nothing of addresses with the separator in the port, where the text after it is read as the host and the fields behind move by one.
- The statistics counters of the Python pool, whose UDP retry is not counted as sent, and its proxies.
- RoundRobin.ResolverPool.ApplyProbes: is the locked half of the health check; an empty list makes the thread pool raise before that.
- AutoScan.ReadyGate.Do: has no callers at the same time; the early callback has returned before the driver does (`Scan.ScanResult`), so the two calls come one after the other.
