# Verified model of the tamizdat core

Tamizdat is a proxy whose node lowers routing rules to kernel packet filters, supervises a
local TUN, limits and paces the dials behind it, hot-reloads its outbounds, accounts traffic
against quotas, and sniffs and parses wire data to choose routes. This project models those
parts in Dafny and proves what they promise for every input, every interleaving and every
failure of an external command.

`dafny verify dfyconfig.toml` checks all of it.

## How the model is built

Code that only computes is a function. Code that changes things step by step is a class or a
method with loops, and each method's contract ties its result or its new state to a function
whose properties are then proved as lemmas. Concurrent protocols are state machines: one step
is one atomic action of the code (a critical section, an atomic counter operation, one
external command), steps of different goroutines interleave freely, and the theorems hold
for every sequence of steps.

| file | what it models |
|---|---|
| `Prefixes.dfy` | address prefixes as bit strings, and the in-place normalisation of prefix lists |
| `IngressPolicy.dfy` | the front end of the policy compiler: rules lowered and adjacent domain rules coalesced |
| `NftCompiler.dfy` | its back end: ingress rules to lines of the classify chain, read packet by packet |
| `DnsGroups.dfy` | the reversed order in which domain groups are handed to the DNS daemon |
| `LocalTunnel.dfy` | the compiler from end to end: loaded rules to the fates of packets |
| `HostRoutes.dfy` | the route controller and one generation's supervisor loop, with failing commands |
| `Supervisor.dfy` | the manager: reconcile, close, and the generations it starts and stops |
| `TargetGates.dfy` | per-target admission gates with deletion, cooldowns and wake-ups |
| `DialProtocol.dfy` | a dial from admission to connection: gates, slots, hand-over, eviction |
| `DialPacing.dfy` | the open-rate token bucket and the recovery breaker |
| `Leases.dfy` | outbound generations, leases and hot reload |
| `Balancer.dfy`, `Failover.dfy` | attempt order, latency hysteresis and failover, for one call and for concurrent calls |
| `ByteAccounting.dfy` | byte counters, flushes with rollback, and the quota hook |
| `ClientHello.dfy`, `StreamReplay.dfy` | server-name sniffing and the peeking connection |
| `Protobuf.dfy`, `GeoDat.dfy` | the protobuf wire format and the geo databases on it |
| `DnsCache.dfy` | the DNS cache reader and the question builder |
| `Dispatch.dfy` | rule matching and order-independent resolution |
| `Sequences.dfy`, `ByteStrings.dfy`, `Integers.dfy`, `DomainNames.dfy`, `Options.dfy` | shared facts about sequences, bytes, machine integers, domain names and absent values |

Properties that turned out false of the code are stated with the exact condition under which
they hold, and a failing input or run shows that the condition is needed:

| exact condition | fails at |
|---|---|
| `NftCompiler.RuleFaithfulIff`: a rule combines no destination with sources of both families | `LocalTunnel.SplitRuleEmitsNothing` |
| `LocalTunnel.ManagedSetsAgreeIff`: the rules that come first for some name answered with the address are exactly the rules that list the packet's name | `LocalTunnel.SharedNameLosesRule`, `LocalTunnel.SharedAddressTakesRule` |
| `Leases.ClosedUnderLeaseIff`: the dialer was open when the lease was taken | `Leases.ClosedMemberCanBeLeased` |
| `Supervisor.OwnedIsRunningOrStale`: the generation is not left over from a failed stop | `Supervisor.EarlyReturnOverStale` |
| `GeoDat.CidrReadIff`, `GeoDat.GeoIpListReadIff`: no IPv4 address in IPv6 form | `GeoDat.MappedHostRefused`, `GeoDat.MappedPrefixRefusesFile` |
| `DnsCache.QuestionReproducesIff`: no dot inside a label, nothing to trim at the ends | `DnsCache.DottedLabelChanges`, `DnsCache.TrimmedNameChanges` |
| `DnsCache.LiveIsExactIff`: the age does not leave the int64 range | `DnsCache.AncientEntryIsLive` |
| `ClientHello.FirstFragmentDecides`: the server_name extension ends in the first record | `ClientHello.SplitHelloIsMissed` |
| `ByteAccounting.SplitInvertsJoinIff`: no NUL in the user identifier | `ByteAccounting.SeparatorInUserMisattributes` |

The identifiers that the program makes are hexadecimal (internal/userdb/helpers.go:24), so
the last failing input can only come from elsewhere.

Where the code and its comments disagree the model follows the code. The comment on the
session key separator speaks of a four-character string; the constant is one NUL.

## Model

| member | source | states |
|---|---|---|
| Prefixes.Masked | internal/localtun/policy.go:431-433 | masking clears the host bits and keeps exactly the addresses the prefix contains |
| Prefixes.SortedCopy | internal/localtun/policy.go:434-443 | the sorted copy is ordered by family, address and length and is a permutation of its input |
| Prefixes.SortInPlace | internal/localtun/policy.go:434-443 | the array becomes the sorted copy of what it held |
| Prefixes.IsCovered | internal/localtun/policy.go:446-456 | the inner search answers whether some kept prefix of the same family, no longer, contains the candidate |
| Prefixes.FilterInPlace | internal/localtun/policy.go:444-461 | filtering over its own backing array keeps what filtering a separate copy would: no unread element is overwritten |
| Prefixes.NormalizeIngressPrefixes | internal/localtun/policy.go:426-462 | the method computes the normal form of the list, including the unmasked pass-through of lists shorter than two |
| Prefixes.NormalFormIsMaximal | internal/localtun/policy.go:426-462 | for two or more inputs the normal form is strictly sorted and consists of exactly the masked inputs that no other masked input covers |
| Prefixes.NormalFormCovers | internal/localtun/policy.go:426-462 | the normal form covers an address if and only if the input list does |
| Prefixes.NormalFormDisjoint | internal/localtun/policy.go:426-462 | any two prefixes of the normal form have no address in common |
| Prefixes.OverlapCovers | internal/localtun/policy.go:448-454 | two prefixes that share an address are nested, so covering is the only way to overlap |
| Prefixes.CoveredByMaximal | internal/localtun/policy.go:446-461 | every masked input is covered by one that nothing else covers |
| IngressPolicy.LocalTunnelOutbound | internal/localtun/policy.go:50-80 | an outbound is chosen if and only if the user's rules agree on a tag, and then it is that tag |
| IngressPolicy.AppendUniqueDomains | internal/localtun/policy.go:234-247 | appends exactly the names not seen before, in order |
| IngressPolicy.LowerSources | internal/localtun/policy.go:124-134 | succeeds if and only if every source parses, and splits them by family in order |
| IngressPolicy.LowerTokens | internal/localtun/policy.go:136-186 | collects the destinations of a rule token by token and fails at the first bad one |
| IngressPolicy.LowerRule | internal/localtun/policy.go:98-203 | a rule is lowered if and only if its parts are acceptable, to the rule its specification gives |
| IngressPolicy.LowerMeaning | internal/localtun/policy.go:98-203 | the lowered rule matches a query if and only if the loaded rule does |
| IngressPolicy.MergedRuleMatches | internal/localtun/policy.go:204-214 | a merge of two mergeable rules matches exactly what either matches |
| IngressPolicy.AddRulePreserves | internal/localtun/policy.go:204-221 | adding a rule, merged or appended, keeps the first-match answer of every query |
| IngressPolicy.CoalescePreserves | internal/localtun/policy.go:204-221 | coalescing chains of any length keeps the first-match answer of every query |
| IngressPolicy.CoalesceShape | internal/localtun/policy.go:204-221 | every surviving rule's index is its position and no two neighbours could still be merged |
| IngressPolicy.GroupsAreRuns | internal/localtun/policy.go:204-224 | the number of surviving domain rules is the number of maximal runs of mergeable neighbours in the input |
| IngressPolicy.CoalesceInto | internal/localtun/policy.go:204-221 | one step of the loop fails exactly when it would open a seventh domain group, and otherwise adds the rule and counts the groups |
| IngressPolicy.AddLoaded | internal/localtun/policy.go:98-221 | one round of the build extends the policy by exactly that rule, and an error in it means that the whole snapshot is unacceptable |
| IngressPolicy.BuildIngressPolicy | internal/localtun/policy.go:82-224 | a policy is built if and only if the snapshot is acceptable; its rules are the coalesced lowered rules, its group count is theirs and at most six |
| IngressPolicy.PolicyMeaning | internal/localtun/policy.go:82-224 | for every query the built policy gives the first-match answer of the loaded rules |
| NftCompiler.SetDeclarations | internal/localtun/selective_linux.go:224-245 | declares the bypass sets and, for every rule with a destination, its set or sets |
| NftCompiler.ClassifyLines | internal/localtun/selective_linux.go:247-279 | the loop emits the guards, every rule's lines in order, then the fallback |
| NftCompiler.NftConfig | internal/localtun/selective_linux.go:221-293 | the table holds those sets, that classify chain, the killswitch chain, and its own hook exactly in fail-closed mode |
| NftCompiler.RuleHit | internal/localtun/selective_linux.go:506-563 | for every packet the lines of one rule fire exactly when the rule applies, with its action's verdict for the packet's family, unless the rule is the shape that emits no line |
| NftCompiler.RuleFaithfulIff | internal/localtun/selective_linux.go:506-563 | the lines of a rule fire on exactly the packets it applies to if and only if it does not combine a destination with sources of both families |
| NftCompiler.DeclaredSets | internal/localtun/selective_linux.go:224-245 | after all declarations every rule finds its own sets, none overwritten by another rule |
| NftCompiler.ClassifyMeaning | internal/localtun/selective_linux.go:247-279 | for every packet and well-formed policy the classify chain, read line by line, gives the fate of first-match over the rules that emit lines, with guards before and fallback after |
| NftCompiler.CompilerCorrect | internal/localtun/selective_linux.go:221-293 | without a rule of that shape the chain gives the fate of first-match over all rules |
| NftCompiler.KillswitchMeaning | internal/localtun/selective_linux.go:280-290 | the killswitch drops everything the policy would not pass, and passes only what the guards let by |
| NftCompiler.AcceptedPoliciesCompile | internal/localtun/selective_linux.go:221-293 | every accepted snapshot yields well-formed rules, and their chain gives each packet the fate of first-match over those rules that emit lines |
| DnsGroups.ReverseInPlace | internal/localtun/selective_linux.go:619-637 | the two-index swap loop reverses the array |
| DnsGroups.ManagedGroups | internal/localtun/selective_linux.go:619-637 | the groups handed to the DNS daemon are the domain rules in reverse |
| DnsGroups.GroupPriority | internal/localtun/selective_linux.go:619-637 | since the daemon lets the last group win, reversal makes the first domain rule win |
| LocalTunnel.ManagedSetsAgreeIff | internal/localtun/selective_linux.go:619-637 | whatever the daemon has answered, for an address and a name its sets agree with every domain rule's list if and only if the first rule of every name answered with that address lists the name and every rule that lists the name is the first rule of a name so answered |
| LocalTunnel.ManagedSetAt | internal/localtun/selective_linux.go:231-235 | since the sets have no timeout, a rule's set holds an address if and only if some answer with it was for a name that the rule is the first to list |
| LocalTunnel.OnlyNameSharedIff | internal/localtun/selective_linux.go:619-637 | for an address answered for one name only the condition is that no two rules list that name |
| LocalTunnel.FirstActionIsFirstMatch | internal/localtun/selective_linux.go:506-563 | with sets that agree, first-match over packets is first-match over queries |
| LocalTunnel.LoweredSplitIff | internal/localtun/policy.go:98-203 | a lowered rule has the shape that emits no line if and only if the loaded rule combines a destination with sources of both families |
| LocalTunnel.CompiledFateIsLoadedFate | internal/localtun/policy.go:82-224 | for every acceptable snapshot without a rule of that shape and every packet on which the DNS sets agree, the compiled chain gives the fate of first-match over the loaded rules |
| LocalTunnel.ManagedFateIsLoadedFate | internal/localtun/selective_linux.go:221-293 | the same with the sets as the daemon has filled them after any history of answers, under that condition |
| LocalTunnel.SplitRuleEmitsNothing | internal/localtun/selective_linux.go:506-563 | an acceptable one-rule snapshot that matches traffic and for which no line is emitted |
| LocalTunnel.SharedNameLosesRule | internal/localtun/selective_linux.go:619-637 | two accepted rules that list one name: with a direct fallback and after any answers, every UDP packet to it that the guards hand on passes, although first-match over the loaded rules drops it |
| LocalTunnel.SharedAddressTakesRule | internal/localtun/selective_linux.go:231-235 | two accepted rules for different names: once the blocked name has been answered with an address, every packet to the other name at that address is dropped, although first-match over the loaded rules passes it and no two rules list it |
| HostRoutes.StageResult | internal/localtun/selective_linux.go:107-115 | the staging batch replaces the table whatever was there, hooked to the killswitch exactly when guarded |
| HostRoutes.ActivateResult | internal/localtun/selective_linux.go:314-343 | the activation batch leaves exactly one jump and the two DNS redirects, whichever chains existed |
| HostRoutes.DetachResult | internal/localtun/selective_linux.go:345-367 | the detach batch removes both base chains and nothing else |
| HostRoutes.WaitRuntime | internal/localtun/manager.go:361-409 | the first deciding event ends the wait: a cancelled context cleanly, an exit or the third health failure in a row as an error |
| HostRoutes.Generation.Command | internal/localtun/selective_linux.go:61-66 | a command that succeeds took effect; one that fails may or may not have; every state is recorded |
| HostRoutes.Generation.Nft | internal/localtun/selective_linux.go:113-115 | a batch takes effect as a whole or not at all |
| HostRoutes.Generation.DeactivateHooks | internal/localtun/selective_linux.go:345-367 | success means no base chain is left; failure leaves the table either untouched or detached |
| HostRoutes.Generation.TearDown | internal/localtun/selective_linux.go:164-170 | every command runs although an earlier one failed; success means the dataplane is gone |
| HostRoutes.Generation.DropStaleV6 | internal/localtun/selective_linux.go:124-130 | both IPv6 removals run although the first failed; nothing else changes |
| HostRoutes.Generation.VerifyCleanup | internal/localtun/selective_linux.go:369-418 | success means no table and no routes remain, and that the rule query either worked and found no rule or failed without printing anything |
| HostRoutes.Generation.Cleanup | internal/localtun/selective_linux.go:158-177 | in either mode and whether or not a killswitch is in force, success leaves nothing of the generation; while the classifier may still be hooked the dataplane is not touched; the killswitch in force is given up exactly here |
| HostRoutes.Generation.EnterFailClosed | internal/localtun/selective_linux.go:428-455 | success in fail-closed mode confirms the killswitch as the only hook target over an empty dataplane; without that mode it is Cleanup |
| HostRoutes.Generation.RollbackSetup | internal/localtun/selective_linux.go:187-197 | without an error of its own the rollback leaves the killswitch alone in fail-closed mode and nothing otherwise; a confirmed killswitch stays confirmed |
| HostRoutes.Generation.ActivateHooks | internal/localtun/selective_linux.go:314-343 | success points both hooks at the target in one batch and changes nothing else |
| HostRoutes.Generation.Stage | internal/localtun/selective_linux.go:107-133 | success leaves a staged table without a live classifier over a complete dataplane |
| HostRoutes.Generation.Publish | internal/localtun/selective_linux.go:134-146 | success hooks the classifier, with managed DNS running if the policy has domain groups |
| HostRoutes.Generation.Setup | internal/localtun/selective_linux.go:75-147 | success publishes the classifier over a complete dataplane; failure touched nothing or was rolled back, unless the rollback failed as well |
| HostRoutes.Generation.FinishRoutes | internal/localtun/manager.go:350-359 | a generation that is not cancelled never releases the killswitch; without an error the routes end blocked after a runtime failure in fail-closed mode and removed otherwise |
| HostRoutes.Generation.RunOnce | internal/localtun/manager.go:284-333 | a session runs only with the killswitch confirmed (in fail-closed mode) and the classifier over a complete dataplane; an attempt that is over, unless its teardown failed, left only the killswitch or nothing |
| HostRoutes.Generation.Supervise | internal/localtun/manager.go:242-282 | over any number of attempts and any command failures, in every state a live classifier has its rule and route, and a confirmed killswitch stays armed in every state until a cancelled generation starts its cleanup; a clean end leaves nothing |
| HostRoutes.Generation.Drive | internal/localtun/selective_linux.go:75-197 | over any sequence of setups, cleanups, rollbacks and fail-closed entries, in either mode and with any command failures, every state is safe, every span from a confirmed killswitch to the Cleanup that gives it up is armed throughout, nothing but a Cleanup gives it up, and a last call without error leaves what it promises |
| Supervisor.NextKeepsInv | internal/localtun/manager.go:140-282 | every step of the manager and of its goroutines keeps the protocol invariant |
| Supervisor.AtMostOneSupervisor | internal/localtun/manager.go:171-240 | in every run two live generations are the same one |
| Supervisor.StartsOnlyAfterCleanup | internal/localtun/manager.go:171-240 | in every run a new generation starts only when every earlier one has stopped and been cleaned up |
| Supervisor.DisabledStaysDisabled | internal/localtun/manager.go:411-415 | after a successful close or disabling reconcile no older generation overwrites the disabled status, until a request to enable completes |
| Supervisor.OwnedIsRunningOrStale | internal/localtun/manager.go:171-240 | in every run an owned generation is alive and uncancelled if and only if it is not left over from a stop that failed |
| Supervisor.EarlyReturnOverStale | internal/localtun/manager.go:171-178 | a run after which asking for the configuration on record succeeds at once although its goroutine is gone |
| Supervisor.Manager.Publish | internal/localtun/manager.go:411-415 | only the current generation's status is published |
| Supervisor.Manager.LetOthersRun | internal/localtun/manager.go:242-276 | while the manager waits the supervisor goroutines take any steps of theirs, and nothing else moves |
| Supervisor.Manager.StopLocked | internal/localtun/manager.go:209-240 | stopping is a cancel, whatever the goroutines do meanwhile, then the stop outcome: done, timed out or a retried cleanup |
| Supervisor.Manager.Reconcile | internal/localtun/manager.go:140-192 | reconcile is exactly its script of machine steps and does nothing when the wanted configuration is on record with a cancel function; after an enabling reconcile without error a live, uncancelled generation stands if and only if that early return was not taken over one left from a failed stop |
| Supervisor.Manager.Launch | internal/localtun/manager.go:179-192 | starting a generation is the machine's completing step: next number, status, channel and goroutine |
| Supervisor.Manager.TurnOff | internal/localtun/manager.go:179-184 | disabling is the machine's completing step: the number moves on so that older generations can no longer publish |
| Supervisor.Manager.Close | internal/localtun/manager.go:194-207 | close is exactly its script of machine steps, and success means disabled |
| Supervisor.Manager.ShutOff | internal/localtun/manager.go:194-207 | the end of a close is the machine's completing step, with the disabled status |
| TargetGates.Gatekeeper.TryAcquire | internal/tunengine/dialer_native.go:742-781 | one pass of the wait loop grants exactly when the target is admissible, and otherwise returns the channel and deadline to wait on |
| TargetGates.Gatekeeper.Release | internal/tunengine/dialer_native.go:795-841 | a release is the specified change of the gate table: counts, cooldowns, wake-up and deletion |
| TargetGates.Gatekeeper.ReapStale | internal/tunengine/dialer_native.go:871-883 | reaping removes exactly the stale idle gates and closes no channel |
| TargetGates.NextKeepsInv | internal/tunengine/dialer_native.go:742-883 | every acquire pass, release, reap, wake-up and tick keeps conservation, channel ownership, count bounds and waiter coverage |
| TargetGates.AdmissionsConserved | internal/tunengine/dialer_native.go:742-841 | in every run and for every target the gate counts exactly the outstanding admissions, never more than six, although gates are deleted and recreated |
| TargetGates.NoLostWakeup | internal/tunengine/dialer_native.go:746-780 | in every run, when a target is admissible every dial blocked on it has been signalled or its timer has expired |
| TargetGates.FailureCooldownNeedsThree | internal/tunengine/dialer_native.go:795-841 | a failed release starts a cooldown only as the third failure in a row for that target |
| TargetGates.NoisyCooldownNeedsBurst | internal/tunengine/dialer_native.go:845-861 | a successful release starts a cooldown only after more than ten opens for that target within ten seconds |
| DialProtocol.NextKeepsInv | internal/tunengine/dialer_native.go:344-489 | every step of every dial, connection close and reap keeps the bookkeeping invariant |
| DialProtocol.SlotsConserved | internal/tunengine/dialer_native.go:409-467 | in every run slots in use are the dials holding one plus the connections not yet closed, within the limits |
| DialProtocol.FinishedDialsSettled | internal/tunengine/dialer_native.go:390-467 | a finished dial holds nothing, and recorded exactly one outcome if it passed the recovery wait and none otherwise |
| DialProtocol.SuccessesAreConnections | internal/tunengine/dialer_native.go:390-404 | once all dials are finished the outcomes recorded are as many as the dials that passed the recovery wait, and the successes among them as many as the connections handed out |
| DialProtocol.ReleaseIsMatched | internal/tunengine/dialer_native.go:795-803 | no gate release is ever unmatched |
| DialProtocol.EverythingReturns | internal/tunengine/dialer_native.go:571-640 | once dials are finished and connections closed, however often, nothing is in use |
| DialProtocol.PickVictim | internal/tunengine/dialer_native.go:657-682 | evicts the longest idle connection, and only if it has been idle for 15 seconds |
| DialProtocol.PickIdle | internal/tunengine/dialer_native.go:684-702 | reaps exactly the connections idle for two minutes |
| DialPacing.OpenPace.Acquire | internal/tunengine/dialer_native.go:704-740 | one pass refills, then takes a token or says how long to wait |
| DialPacing.GrantsWithinBudget | internal/tunengine/dialer_native.go:704-740 | the first grants cost no more than the tokens at hand plus what accrued |
| DialPacing.PacingBound | internal/tunengine/dialer_native.go:704-740 | any grants i to j are at most 24 plus one per interval of the time between them, whenever the polls came |
| DialPacing.Recovery.Record | internal/tunengine/dialer_native.go:534-555 | recording an outcome is the specified change of the breaker |
| DialPacing.CountSinceReset | internal/tunengine/dialer_native.go:534-555 | the failure count is the failures recorded outside a pause since the last success or pause, and stays below the threshold |
| DialPacing.PauseNeedsThreshold | internal/tunengine/dialer_native.go:534-555 | each pause is preceded by exactly threshold failures recorded outside a pause with no success among them |
| DialPacing.PauseOnlyGrows | internal/tunengine/dialer_native.go:534-555 | the end of the pause never moves back, and a new pause ends strictly later |
| Leases.TrackedDialer.Acquire | internal/outbounds/registry.go:443-448 | taking a lease counts it |
| Leases.TrackedDialer.Retire | internal/outbounds/registry.go:468-486 | retiring closes now exactly if there is no lease and it was not closed yet |
| Leases.TrackedDialer.Release | internal/outbounds/registry.go:488-504 | releasing closes now exactly if this was the last lease of a retired dialer not closed yet |
| Leases.LeasedDialer.Close | internal/outbounds/registry.go:584-590 | a second close of a lease does nothing |
| Leases.Registry.Resolve | internal/outbounds/registry.go:333-364 | always leases: the tag, else the default, else direct, else a fresh direct dialer; no other dialer changes |
| Leases.Registry.ResolveExact | internal/outbounds/registry.go:366-381 | leases if and only if the tag is published, and then that dialer |
| Leases.Registry.Swap | internal/outbounds/registry.go:319-328 | publishes the new generation whole, retires every dialer of the old one, and closes exactly the idle ones |
| Leases.NextKeepsInv | internal/outbounds/registry.go:319-504 | every resolve, member lease, publication, retirement, release and close keeps the lease invariant |
| Leases.ClosedOnceAndOnlyRetired | internal/outbounds/registry.go:468-504 | in every run each dialer is closed at most once and only when retired |
| Leases.LeaseKeepsOpen | internal/outbounds/registry.go:443-504 | in every run a lease taken before the close, as every lease from the registry is, keeps its dialer open until released |
| Leases.ReplacedAndIdleIsClosed | internal/outbounds/registry.go:411-504 | in every run a replaced dialer whose leases are all released has been closed exactly once |
| Leases.ClosedUnderLeaseIff | internal/outbounds/registry.go:443-504 | in every run the dialer under an unreleased lease is closed if and only if it was closed already when the lease was taken |
| Leases.ClosedMemberCanBeLeased | internal/outbounds/balancer.go:259-283 | a run in which a balancer kept across a reload leases a member of its own generation that the reload has closed |
| Balancer.RecoveryBelowThreshold | internal/outbounds/balancer.go:415-427 | for every int64 threshold above one, wrap-around included, the recovery level is at least one and below the threshold |
| Balancer.Metric | internal/outbounds/balancer.go:429-445 | no metric exactly when both figures are unknown, otherwise the worse of the two |
| Balancer.NoFlapping | internal/outbounds/balancer.go:384-413 | over any series of RTTs between the recovery level and the threshold a member's class never changes |
| Balancer.SlowPartLists | internal/outbounds/balancer.go:371-375 | the stable sort orders slow members by RTT with ties in configuration order and loses none |
| Balancer.AliveOrderRanks | internal/outbounds/balancer.go:353-382 | any two positions of the order are ranked healthy before slow before cooling, by RTT among slow ones, else by configuration order |
| Balancer.AliveOrderIsPermutation | internal/outbounds/balancer.go:353-382 | the attempt order holds every member exactly once |
| Balancer.RotationIsPermutation | internal/outbounds/balancer.go:344-350 | so does the round-robin order, from every start |
| Balancer.CooldownsFollowOutcomes | internal/outbounds/balancer.go:447-459 | after a dial exactly the members tried have new cooldowns, set by failure and cleared by success |
| Balancer.BalancerDialer.NoteHighRtt | internal/outbounds/balancer.go:384-413 | updates one member's flag with hysteresis and reports its RTT when slow |
| Balancer.BalancerDialer.OrderedAlive | internal/outbounds/balancer.go:353-382 | computes the alive order from cooldowns, flags and metrics and leaves every flag as the classification says |
| Balancer.BalancerDialer.OrderedMembers | internal/outbounds/balancer.go:336-351 | in either mode every member once; the round-robin counter wraps at 64 bits |
| Balancer.Rotate | internal/outbounds/balancer.go:344-350 | the loop builds the rotation from its start |
| Balancer.BalancerDialer.NoteFailure | internal/outbounds/balancer.go:447-452 | a failure starts a cooldown in alive mode if one is configured |
| Balancer.BalancerDialer.NoteSuccess | internal/outbounds/balancer.go:454-459 | a success ends the cooldown in alive mode |
| Balancer.BalancerDialer.TryInOrder | internal/outbounds/balancer.go:265-282 | over any order the loop tries members until one connects or the caller's context ends, releasing the lease of each that failed |
| Balancer.BalancerDialer.DialContext | internal/outbounds/balancer.go:259-283 | success holds exactly one more lease, on the last member tried, all earlier ones having failed; failure holds no lease and means that all were tried or the caller's context ended |
| Failover.NextKeepsInv | internal/outbounds/balancer.go:259-459 | every read, write, lease and attempt of any call, and every close of a connection, keeps the bookkeeping invariant |
| Failover.LeasesConserved | internal/outbounds/balancer.go:259-283 | in every interleaving of calls a member's leases are the calls dialing through it plus the open connections over it |
| Failover.LeasesReturn | internal/outbounds/balancer.go:492-509 | once all calls have returned and all connections are closed, however often, nothing is leased |
| Failover.OrdersArePermutations | internal/outbounds/balancer.go:336-413 | although the scan reads cooldowns and flags that other calls change meanwhile, every call's order holds each member exactly once |
| Failover.CooldownIsLastNote | internal/outbounds/balancer.go:447-459 | in every interleaving a member's cooldown is what the last outcome recorded for it makes of it, whichever call recorded it |
| Failover.CallsRecordTheirOrder | internal/outbounds/balancer.go:265-282 | in every interleaving a call that connected recorded one failure for each member before the chosen one, in its order, then the success; one that gave up recorded failures only, for all members unless its context had ended |
| Failover.ConnsAreSuccesses | internal/outbounds/balancer.go:271-274 | there are as many connections as calls that returned one |
| Failover.CallCanMove | internal/outbounds/balancer.go:259-283 | a call that has not returned always has a step to take |
| ByteAccounting.SplitInvertsJoinIff | internal/userdb/accounting.go:316-325 | the flush credits the very user and session that were counted if and only if the user identifier has no separator |
| ByteAccounting.SeparatorInUserMisattributes | internal/userdb/accounting.go:316-325 | an identifier with a separator whose bytes go to another user's row |
| ByteAccounting.SplitKeeps | internal/userdb/accounting.go:316-325 | splitting a session key loses nothing and happens exactly at the first separator |
| ByteAccounting.SessionRowsDistinct | internal/userdb/accounting.go:316-325 | two session counters never flush into the same row |
| ByteAccounting.BytesConserved | internal/userdb/accounting.go:179-201 | in every interleaving of adds and flushes, failing anywhere, committed plus dropped plus counted plus in-flight plus not-yet-applied bytes equal those asked for, for every counter |
| ByteAccounting.FoundRowsDropNothing | internal/userdb/accounting.go:310-336 | a counter whose row every transaction found loses nothing |
| ByteAccounting.IdleTotals | internal/userdb/accounting.go:240-341 | with nothing running, database and memory together hold every byte asked for, whatever failed before |
| ByteAccounting.HookFiresOncePerCycle | internal/userdb/accounting.go:140-220 | after each publication the overrun hook fires exactly once, at the first counted traffic that reaches the budget, and never for the sentinel budget |
| ByteAccounting.CappedUserTripsOnce | pkg/tamizdat/server.go:472-484 | for every cap and usage, with the budget as the server publishes it, the hook fires exactly once per cycle if there is a cap and counted traffic brings the usage to it, and otherwise never |
| ByteAccounting.Accounting.Add | internal/userdb/accounting.go:179-221 | credits user and session counters by direction, ignores blank users and empty deltas, and runs the quota step |
| ByteAccounting.Accounting.AddDirection | internal/userdb/accounting.go:190-201 | credits one direction of the user counter and, with a session, of the session counter |
| ByteAccounting.Accounting.AddOutbound | internal/userdb/accounting.go:73-90 | credits the outbound counters by direction |
| ByteAccounting.Accounting.FireOverrunOnce | internal/userdb/accounting.go:160-168 | calls the hook only if it has not been called since the last publication |
| ByteAccounting.Accounting.SetUserRemaining | internal/userdb/accounting.go:140-157 | publishes the budget and re-arms the hook |
| ByteAccounting.Accounting.SwapAll | internal/userdb/accounting.go:248-273 | takes every counter out and leaves it at zero |
| ByteAccounting.Accounting.Flush | internal/userdb/accounting.go:240-341 | commit-or-nothing: success empties every counter into its row or drops it for want of one; failure leaves counters and database as they were; after a commit, and only then, exactly the users with counted bytes are reported to the callback |
| ByteAccounting.Transact | internal/userdb/accounting.go:298-341 | the transaction succeeds if and only if it begins, every row held is written and it commits |
| ClientHello.ParseSni | internal/sniff/tls.go:156-186 | the list walk returns the first host_name entry, normalized, if it is complete and not blank |
| ClientHello.FindServerName | internal/sniff/tls.go:135-152 | the extension walk answers from the first server_name extension |
| ClientHello.ParseClientHelloExtensions | internal/sniff/tls.go:84-152 | the cursor walk past the fixed fields agrees with reading them one by one, on every byte string |
| ClientHello.TlsClientHello | internal/sniff/tls.go:44-80 | the whole parser agrees with its specification on every byte string, truncated records included |
| ClientHello.PrefixStable | internal/sniff/tls.go:44-186 | a name found on a byte prefix is returned unchanged on every extension of it |
| ClientHello.WellFormedHelloIsRead | internal/sniff/tls.go:44-186 | every well-formed ClientHello record whose first server_name extension holds a name list yields the first host_name of that list, normalized, whatever follows |
| ClientHello.HelloCut | internal/sniff/tls.go:84-152 | of a hello cut anywhere the name is found if and only if the cut is not before the end of the first server_name extension |
| ClientHello.FirstFragmentDecides | internal/sniff/tls.go:44-80 | for a hello spread over several records, whatever follows, the name is found if and only if that extension ends in the first record |
| ClientHello.ArrivedBytesDecide | internal/sniff/tls.go:57-64 | of a record that has arrived in part the name is found if and only if the bytes reach the end of that extension |
| ClientHello.SplitHelloIsMissed | internal/sniff/tls.go:44-80 | a hello that yields its name in one record and none when split one byte before its end |
| ClientHello.ShortFragmentRunsOn | internal/sniff/tls.go:57-64 | a first record shorter than the handshake header is run together with whatever follows it, the next record header included |
| ClientHello.NamelessHelloIsRead | internal/sniff/tls.go:84-152 | a well-formed ClientHello without that extension yields no name, however much of it is in the first record |
| StreamReplay.NothingLost | internal/sniff/sniff.go:88-159 | in every interleaving of fill, peek and reads, delivered, buffered, in-transit and unread bytes make up the stream in order |
| StreamReplay.NextKeepsWhole | internal/sniff/sniff.go:88-159 | every action of the fill and of a read keeps the stream whole and in order |
| StreamReplay.DeliveredIsPrefix | internal/sniff/sniff.go:126-159 | what readers have seen is always a prefix of the stream |
| StreamReplay.PeekedNameIsTheStreams | internal/sniff/sniff.go:108-123 | whenever the peek times out, a server name found in it is the one the whole stream would give |
| StreamReplay.BufferedConn.RunFill | internal/sniff/sniff.go:88-99 | the fill is one read of at most 4096 bytes, stored, then announced |
| StreamReplay.RunSniffers | internal/sniff/sniff.go:187-191 | the host is that of the first sniffer that finds one, and there is none only if no sniffer finds one |
| StreamReplay.PeekConn | internal/sniff/sniff.go:181-193 | whether or not the fill comes before the timer, the connection handed on has every byte; a host is the first sniffer's on the peeked bytes and, for a sniffer whose answer more bytes cannot change, that of the whole stream; no data means that nothing was peeked |
| StreamReplay.TlsIsStable | internal/sniff/tls.go:44-186 | the TLS sniffer is such a sniffer |
| StreamReplay.BufferedConn.Read | internal/sniff/sniff.go:126-159 | a read drains the buffer before the connection, and reports the fill's error only once the buffer is empty |
| Protobuf.UvarintRead | node/geo_dat.go:496-499 | reading inverts writing for every 64-bit value, within ten bytes |
| Protobuf.FieldRead | node/geo_dat.go:495-537 | reading inverts writing for every field of the four wire types, whatever follows |
| Protobuf.ReadMessage | node/geo_dat.go:341-365 | the field loop of the message readers computes the fold of its step and stops at the first malformed or refused field |
| Protobuf.UnknownFieldsIgnored | node/geo_dat.go:341-365 | fields a reader does not act on change nothing, wherever they stand |
| Protobuf.UnknownFieldsDropped | node/geo_dat.go:341-365 | the bytes of a message mean the same with such fields taken out |
| Protobuf.MessageRead | node/geo_dat.go:341-365 | reading the bytes of any list of fields is folding over that list |
| GeoDat.UnknownDropped | node/geo_dat.go:322-486 | every one of the message readers gives the same answer with the fields it does not know taken out |
| GeoDat.CidrFold | node/geo_dat.go:367-388 | the reader of a prefix message takes the last address and the last length, in any order among any fields |
| GeoDat.RuleFold | node/geo_dat.go:447-486 | the reader of a rule message refuses if and only if some kind is unknown, and otherwise takes the last kind and value |
| GeoDat.EntryFold | node/geo_dat.go:341-365 | the reader of a list takes the last name and every item in order, and refuses if and only if it cannot read one |
| GeoDat.CidrRead | node/geo_dat.go:367-400 | every encoding of a prefix is read as that prefix unmapped and masked, or refused if it is then too long |
| GeoDat.CidrReadIff | node/geo_dat.go:367-400 | a prefix comes back from any of its encodings if and only if it is masked and not an IPv4-mapped IPv6 address |
| GeoDat.RuleRead | node/geo_dat.go:447-486 | a domain rule comes back from any of its encodings |
| GeoDat.GeoIpListReadIff | node/geo_dat.go:322-400 | reading a geoip file gives back the lists it encodes if and only if every prefix in them is recoverable, with the fields in any order and unknown ones anywhere at any level |
| GeoDat.MappedPrefixRefusesFile | node/geo_dat.go:367-400 | one IPv4-mapped prefix longer than 32 bits anywhere makes the whole file unreadable |
| GeoDat.MappedHostRefused | node/geo_dat.go:389-400 | a masked prefix whose own encoding is refused |
| GeoDat.GeoSiteListRead | node/geo_dat.go:402-486 | a geosite file always gives back the lists it encodes |
| GeoDat.GeoIpRoundTrip | node/geo_dat.go:322-400 | writing lists as a geoip file and reading it gives them back if and only if every prefix is recoverable |
| GeoDat.GeoSiteRoundTrip | node/geo_dat.go:402-486 | writing any lists of domain rules as a geosite file and reading it gives them back |
| GeoDat.MergeItems | node/geo_dat.go:151-164 | the loop with its seen set appends the first occurrence of every new item and touches no other name |
| GeoDat.Merge | node/geo_dat.go:146-166 | the merge loop over entries, skipping blank names, computes the merge of the whole source |
| GeoDat.UnionIsFirstOccurrences | node/geo_dat.go:151-164 | a merged list is the old list followed by exactly the items neither in it nor earlier in the source |
| GeoDat.MergeIsUnion | node/geo_dat.go:146-166 | under every name the merge is the union of what was there and everything the source holds under that name |
| GeoDat.MergeIdempotent | node/geo_dat.go:196-229 | merging the same source twice is merging it once |
| GeoDat.MergeKeepsDistinct | node/geo_dat.go:196-229 | lists without repeats stay without repeats |
| DnsCache.DecodeDnsQName | internal/localtun/chinadns_cache_linux.go:165-190 | the label walk accepts exactly the terminated names of short labels that form a domain |
| DnsCache.Questions.BuildDnsQuestion | internal/localtun/chinadns_cache_linux.go:268-285 | builds header, name, type and class under the next identifier, or refuses and uses no identifier |
| DnsCache.QuestionReproducesIff | internal/localtun/chinadns_cache_linux.go:165-285 | whatever the library trims, the question built for a cached name carries the very bytes that were cached if and only if no label has a dot and trimming leaves the name as it is |
| DnsCache.PlainNameReproduced | internal/localtun/chinadns_cache_linux.go:268-285 | the condition is enough |
| DnsCache.ReproducedNameIsPlain | internal/localtun/chinadns_cache_linux.go:268-285 | the condition is needed |
| DnsCache.LdhNamesReproduced | internal/localtun/chinadns_cache_linux.go:268-285 | names of letters, digits and hyphens are always reproduced, if trimming leaves those alone |
| DnsCache.DottedLabelChanges | internal/localtun/chinadns_cache_linux.go:165-285 | a cached label with a dot that is asked as two labels |
| DnsCache.TrimmedNameChanges | internal/localtun/chinadns_cache_linux.go:165-285 | a cached name ending in a no-break space that is asked without it |
| DnsCache.ParseChinaDnsCache | internal/localtun/chinadns_cache_linux.go:111-155 | the answer is exactly the live A and AAAA questions of all entries, each once, sorted by name and type, or nothing if any entry is malformed or there are too many |
| DnsCache.CollectQueries | internal/localtun/chinadns_cache_linux.go:111-150 | the scan with its offset and count collects exactly those questions |
| DnsCache.SortQueries | internal/localtun/chinadns_cache_linux.go:152-161 | sorting a set of questions keeps them all and orders them strictly by name bytes, then type |
| DnsCache.LiveIsExactIff | internal/localtun/chinadns_cache_linux.go:142-148 | the int64 liveness test agrees with exact arithmetic if and only if the entry's age stays out of the range that wraps |
| DnsCache.AncientEntryIsLive | internal/localtun/chinadns_cache_linux.go:142-148 | an entry that exact arithmetic finds expired and the test finds alive |
| DnsCache.TruncationRejectedIff | internal/localtun/chinadns_cache_linux.go:114-134 | a cut of a readable cache file is accepted if and only if it falls on an entry boundary |
| Dispatch.SuffixMatchIsUnder | node/rules.go:263-276 | the form without allocation matches exactly the name and the names below it |
| Dispatch.PortInRanges | node/rules.go:410-417 | the search answers whether some range holds the port |
| Dispatch.CidrsContain | node/rules.go:364-376 | the search answers whether some prefix contains the address |
| Dispatch.SomeDomainHits | node/rules.go:202-208 | the search answers whether some matcher hits the host |
| Dispatch.Match | node/rules.go:177-225 | a rule matches if and only if every category present admits the request |
| Dispatch.ResolveRule | node/dispatcher.go:87-122 | the nested loops return the first direct match, else, if the strategy resolves, the first rule that matches any address, else nothing |
| Dispatch.AnswerIgnoresOrder | node/dispatcher.go:98-120 | the answer is unique and the same for every order and repetition of the resolved addresses |
| Dispatch.Resolve | node/dispatcher.go:69-80 | the matching rule's tag, else the default, else the first outbound |

## Left out

- Text: nft, ip, uci and DNS-daemon configuration as text, process launching, DNS probing and the dnsmasq snapshot; commands are atomic steps that succeed, fail untouched, or fail having taken effect.
- Parsing of rule text, ports, prefixes and tags: rules reach the policy compiler already parsed, each part marked good or bad; the geo lookups inside a rule are part of that.
- Teardown of the TUN device by the engine, and everything below the engine.
- The DNS daemon: that it puts a name in the last group that lists it and adds every answer to that group's sets is taken from the configuration written for it and the comment on it; its cache and its own expiry are not modelled.
- Real clocks and floating-point rounding: time is an integer, tokens are exact rationals.
- Text outside ASCII: blank user names follow ASCII in the accounting model; cached names, server names and geo names take the library's trimming and case folding as parameters.
- DNS resolution, regular expressions and the text form of addresses in dispatch: they are parameters.
- The transport, TLS and HTTP/2 layers, WireGuard and credential code, the desktop applications, URI and JSON configuration, metrics and logging.
- The database schema and SQL: a transaction commits or does nothing, and each write says whether it found its row.
- ByteAccounting.BytesConserved: counters are unbounded integers; int64 overflow of a counter is not modelled.
- ByteAccounting.HookFiresOncePerCycle: one Add's quota step and one SetUserRemaining are each atomic, the hook is installed, byte counts are not negative and the budget does not overflow int64.
- ByteAccounting.Accounting.Flush: the order in which rows are written and users are reported follows a map iteration and is not modelled.
- Balancer.BalancerDialer.DialContext: one call at a time, which is where the order can be tied to one moment's cooldowns and flags; concurrent calls are the machine of `Failover.dfy`. An attempt that times out is one that fails.
- ClientHello.FirstFragmentDecides: a first record shorter than the four bytes of the handshake header is left to ShortFragmentRunsOn, since what is then found depends on the bytes of the next record header.
- DnsCache.Questions.BuildDnsQuestion: the identifier counter is unbounded; its low 16 bits are sent, as in the code.
- Supervisor.Manager.Reconcile: choosing and validating the one enabled configuration before the lock is taken is not modelled.
- TargetGates.Gatekeeper.TryAcquire: the wait between two passes is the machine's, not the method's.
- Leases.Registry.Swap: building the new generation from the database is not modelled, only its publication.
- Dispatch.Match: compiling a rule from configuration is not modelled.
- StreamReplay.BufferedConn.Read: the wait for the fill is the machine's, so the method starts once the fill is announced.
