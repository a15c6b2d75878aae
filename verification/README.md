# Verified models of the DNS router, the DNS client and the service daemon

Dafny models of the parts of the repository that are hardest to get right by reading, with proofs of what they are
for. All files belong to one project: `dafny verify dfyconfig.toml`.

**The DNS rule walk** (`dns/router.go`). An exchange walks an ordered list of rules. `evaluate` rules send queries and
go on; race rules are armed and judged when their answers are in; other rules wait, drain the armed rules, or commit.
The walk is modelled in several ways, and they are connected:

- `WalkReference` says what an exchange means: a plain interpreter (`Sequential`) that finishes each query before the
  next rule, and the set of results that race rules make possible (`Possible`). It knows nothing of futures, armed
  lists or wake-ups.
- `RuleWalk` and `WalkSystem` are the concurrent machine: turns of the walk, passes of the resume loop, the one-slot
  wake channel, and completions by the servers in any order. `WalkSafety`, `WalkCourse`, `WalkTurns` and `WalkRuns`
  hold the invariant over all runs; `WalkProgress` the wake-ups and the termination measure; `WalkReach` the converse
  direction; `WalkSpeculation` what the `speculative` flag can and cannot change; `WalkWindow` what happens when a turn
  is not atomic.
- `WalkMeaning` reads results off the rule list: which rule decides, which options its query has, and which earlier
  query a response comes from, without the functions the other models share.
- `WalkExchange` is the imperative form, a class with the fields of the walk's state, proved against the machine.

`RuleOptions`, `RuleValidator` and `LegacyMode` model the static checks on rule lists and connect them to the walk: an
accepted list is one the walk is correct for. `RuleMeaning` says what the checks decide, condition by condition.

**The DNS client** (`dns/client.go`, `dns/extension_edns0_subnet.go`). `ClientFlight` is the per-key lock as a state
machine over any number of exchanges, `FlightEffects` says what an exchange brings about, and `ClientExchange` is one
exchange as it runs amid the others. `ResponseTtl`,
`CacheKey` and `ClientCache` are the answer cache with its two stores, in memory and saved
(`experimental/cachefile/dns_cache.go`); `CacheHistory` is about whole histories of both. `ClientSubnet` is the client
subnet option and the subnet part of the cache key.

**The service daemon** (`daemon/`). `ServiceLifecycle` is start, reload, close and interrupt by any number of callers
over two locks, `ServiceEffects` says what the calls bring about, and `ServiceCalls` are the calls as they run amid the
others. `ConnectionEvents` is the incremental event stream and the table a client rebuilds from it. `Taildrop` is the
chunk reader of a multi-file send.

**Start-up and storage.** `TransportStart` (`dns/transport_manager.go`) starts servers in dependency order.
`ScopeTree` (`adapter/lifecycle.go`) is the tree of cleanup scopes, `ScopeOrder` the order in which they close.
`SavedBinary` (`adapter/experimental.go`) is the codec of saved rule sets.

Some properties one would expect do not hold of the code on all inputs. The model keeps the code's behaviour, names
inputs where the property fails, and proves when it holds:

- An answer that arrives between settling and scanning in one turn, or between settling and sweeping in the resume
  loop, is lost to that rule: `WalkWindow.WindowLosesAnswer`, `WalkWindow.SweepLosesAnswer`, and the exact conditions
  `WalkWindow.WindowView` and `WalkWindow.ArmedWindowView`.
- Two overlapping rule-set updates, each of which passes its check, can leave the router in a mode its rules do not
  fit, since checking and committing are separate sections: `LegacyMode.OverlapCanBreak` and
  `LegacyMode.OverlappingUpdates`. So can one update that is checked before the start and made after it:
  `LegacyMode.StartCanBreak` and `LegacyMode.CheckedBeforeStart`.
- Setting a client subnet can add a second option record: `ClientSubnet.SecondOptAppears` and
  `ClientSubnet.SetKeepsOneOpt`.
- A subnet that is an IPv4 address written as an IPv6 one is not read back, so key and query disagree:
  `ClientSubnet.MappedIsLost`, `ClientSubnet.GetAfterSet` and `ClientSubnet.KeyIsCarried`.
- The two stores of the cache differ once an entry is saved, since saving takes the part of a second off its expiry:
  `ClientCache.TruncationShows`, and `ClientCache.TruncationIff`, `CacheHistory.StoresAgree` and
  `CacheHistory.StoresAgreeIff` for how far and exactly when.
- Two tags can come to the same name in the persistent store, exactly when one is the other with the parts of a key
  behind it: `CacheKey.SeparatorInTag` and `CacheKey.TagsCollideIff`. Two plain keys share an entry there exactly when
  they differ in the class of the question at most: `CacheHistory.ClassesCollide` and `CacheHistory.DiskKeyIff`.
- A connection that closes while the first list is drawn up is announced as closed while its snapshot stays:
  `ConnectionEvents.InitialGap`, and `ConnectionEvents.Serve` for which connections a client lacks and how long.

## Model

| member | source | states |
|---|---|---|
| `WalkRuns.OutcomeIsPossible` | dns/router.go:575-805 | In every run over a well-formed list, whatever the order of answers, an exchange that ends without being cancelled ends with a result the reference semantics allows |
| `WalkRuns.OutcomeIsSequential` | dns/router.go:575-805 | Without race rules every completion order commits the same result (rule, response, transport, options), that of the sequential interpreter |
| `WalkReach.PossibleIffReached` | dns/router.go:575-895 | The results allowed by the reference semantics are exactly the results of the uncancelled runs, in both directions |
| `WalkReach.SequentialIsReached` | dns/router.go:575-805 | When no race rule can commit, some run ends with the sequential result |
| `WalkReach.EagerWins` | dns/router.go:807-895 | From any reachable state that is still heading for a race rule that can win, some run commits that rule's result |
| `WalkReference.FirstHitWins` | dns/router.go:585-625 | If some race rule would match with all its answers, some race rule up to it can win the race |
| `WalkReference.SequentialAt` | dns/router.go:575-763 | The sequential result is the same from every point the interpreter passes, so a suspended walk can be resumed there |
| `WalkRuns.RunInv` | dns/router.go:575-895 | The invariant (tags, futures, armed entries, bindings and position agree with the reference) holds in every reachable state |
| `WalkMeaning.OutcomeIsExplained` | dns/router.go:575-805 | In every run the result is that of the first rule that ends the exchange at its turn, or of a race rule, by its action: the query to its server, or the default server, with the options given up to it, or the answer behind its tag |
| `WalkMeaning.OptionsAt` | dns/router.go:366-390 | At a rule that is reached, cache switches hold if the exchange or a matched options rule set them; TTL, timeout and subnet are those of the last matched options rule that says something about them |
| `WalkMeaning.AccumulatedMore` | dns/router.go:366-390 | One more rule's options: switches add up, its TTL, timeout and subnet win where it has them, removal over setting |
| `WalkMeaning.AccumulatedIsUnique` | dns/router.go:366-390 | These laws leave no freedom: they determine the options |
| `WalkMeaning.SentQuery` | dns/router.go:400-414 | A query has the accumulated options, the router's strategy if there is none, and no cache for a fake-IP route |
| `WalkMeaning.Sources` | dns/router.go:657-680 | The response behind a tag at a rule is that of the last matched evaluate rule for it, sent with the options given up to it; without its server it takes the untagged response away and leaves a tagged one |
| `WalkMeaning.MatchesWhatItSees` | dns/router.go:643-649 | A rule matches by the answers behind its tags and, if it reads it, the untagged one, and by no others |
| `WalkMeaning.ReachedIff` | dns/router.go:575-763 | A rule is reached exactly when no matched rule before it, race rules apart, has an action that ends the exchange |
| `WalkMeaning.RaceTurn` | dns/router.go:585-625 | A rule with `race` that is bound to a response never holds the walk; lacking an answer it is armed with the options and untagged future of that moment |
| `WalkMeaning.OrderedTurn` | dns/router.go:626-649 | Any other rule waits for an answer it lacks, and never joins the race |
| `WalkMeaning.ActionWhileRacing` | dns/router.go:654-757 | While race rules are open, speculative rules send their query, a route once and early, and everything else that sends or answers waits |
| `WalkProgress.NoLostWakeup` | dns/router.go:503-526 | While an exchange waits, if the awaited answer has arrived or an armed rule is ready, the wake channel holds a token |
| `WalkProgress.NotStuck` | dns/router.go:775-805 | An unfinished exchange always has a step other than being cancelled: its own, or an answer a server still owes |
| `WalkProgress.StepDescends` | dns/router.go:575-805 | Every step descends in the lexicographic measure of remaining rules, open answers, wake token, armed rules and phase |
| `WalkProgress.ExchangeEnds` | dns/router.go:775-805 | Under every schedule, the exchange ends |
| `WalkSpeculation.RaceBarrier` | dns/router.go:666-668 | In every run, while a race rule is armed, no rule judged in order commits and none sends a query unless it is speculative |
| `WalkSpeculation.RaceCommit` | dns/router.go:606-895 | Wherever an armed rule commits, in the resume loop or when a race rule is armed with nothing pending, all its bound answers are in and its result is that of the environment it was armed in |
| `WalkSpeculation.QueriesSentOnce` | dns/router.go:721-733 | In every run no rule sends two queries; the query sent at the end is either new or exactly the one started early |
| `WalkSpeculation.SpeculativeRouteIsNeutral` | dns/router.go:721-733 | Marking or unmarking route rules as speculative leaves the set of results an exchange can end with unchanged |
| `WalkSpeculation.SpeculativeWithoutRace` | dns/router.go:654-668 | With no race rule up to a rule, its `speculative` flag changes no run at all |
| `WalkWindow.WindowView` | dns/router.go:584-629 | A rule whose settling and scanning are separated sees the finished responses exactly when none of its tagged answers arrived in between |
| `WalkWindow.WindowLosesAnswer` | dns/router.go:584-592 | Counterexample: an answer that arrives in that window is lost, and the rule is passed as it would be in no order of whole turns |
| `WalkWindow.ArmedWindowView` | dns/router.go:778-779 | In the resume loop an armed rule, with its own untagged response, sees the finished responses exactly when none of its tagged answers arrived between settling and sweeping |
| `WalkWindow.SweepLosesAnswer` | dns/router.go:778-779 | Counterexample: an answer in that window is lost, and the armed rule is judged without it and disarmed |
| `WalkExchange.ExchangeWithRules` | dns/router.go:765-773 | The imperative exchange ends for every interference of the servers, with a possible result, and with the sequential one when there are no race rules |
| `WalkExchange.Walk.ResumeExchange` | dns/router.go:775-805 | The resume loop terminates, keeps the object in a reachable state of the machine, and returns the result of that run |
| `WalkExchange.Walk.WalkRules` | dns/router.go:575-763 | The walk loop follows the machine amid answers that arrive between turns, descends in the measure, and stops only to suspend or commit |
| `WalkExchange.Walk.Turn` | dns/router.go:575-763 | One turn changes the fields exactly as one step of the machine does |
| `WalkExchange.Walk.Act` | dns/router.go:654-757 | The action of a matched rule changes the fields exactly as the machine's action step does |
| `WalkExchange.Walk.Arm` | dns/router.go:585-625 | A race rule is armed with the options and untagged future of that moment, and swept at once if nothing is pending |
| `WalkExchange.Walk.SettleFutures` | dns/router.go:528-549 | The settling loop moves exactly the finished and unsettled tagged answers into the named responses |
| `WalkExchange.Walk.SweepArmed` | dns/router.go:807-895 | The sweep judges ready armed rules in order, disarms each, and stops at the first that decides |
| `WalkExchange.Walk.CollectPending` | dns/router.go:585-605 | The pending list is the unresolved futures of the rule's tags in order, then the untagged one |
| `WalkExchange.Walk.LaunchQuery` | dns/router.go:503-526 | A launch appends one new future with the next number and changes nothing else |
| `WalkExchange.Walk.AnswerArrives` | dns/router.go:503-526 | A completion marks its future done and leaves a token in the wake channel |
| `WalkExchange.Walk.ResumeOnce` | dns/router.go:775-805 | One pass settles, sweeps and then commits, finishes, blocks or walks on as the machine's resume pass does |
| `WalkExchange.Walk.AwaitWake` | dns/router.go:775-805 | Waiting ends with the token consumed or the exchange cancelled, and always ends |
| `WalkExchange.Walk.FinishPending` | dns/router.go:897-921 | The final query is sent, or the one started early is awaited, and the exchange ends with its answer or cancelled |
| `RuleWalk.SettleKeeps` | dns/router.go:528-549 | Settling touches only the settled marks, named responses and named transports |
| `RuleValidator.Validate` | dns/router.go:1529-1590 | A list is accepted exactly when every rule reads only what earlier rules provide; the error names the first rule that does not and a flaw it has; the warnings are exactly the deserved ones |
| `RuleValidator.CheckRule` | dns/router.go:1541-1582 | One rule passes exactly when it is accepted given the rules before it; otherwise the flaw is one it has |
| `RuleValidator.UseIsBinding` | dns/router.go:1613-1673 | The tags a rule tree reads are exactly the tags it binds when compiled |
| `RuleValidator.TagsAreDefinedOnce` | dns/router.go:1529-1590 | In an accepted list every tag a rule refers to is defined by exactly one rule, which comes strictly earlier |
| `RuleValidator.AcceptedIsWellFormed` | dns/router.go:1529-1590 | An accepted list compiles to one the walk's theorems apply to |
| `RuleValidator.TagOwner` | dns/router.go:528-549 | In every run over an accepted list, the future and transport behind a tag are those of the one rule that defines it |
| `RuleValidator.WarnedFlagHasNoEffect` | dns/router.go:1545-1550 | Where the validator warns that `speculative` has no effect, removing the flag leaves every run unchanged |
| `RuleMeaning.AcceptedMeaning` | dns/router.go:1529-1673 | From conditions and actions: accepted exactly when every condition can be judged outside legacy mode, no logical rule answers over a named tag, everything read is defined earlier, and no tag twice |
| `RuleMeaning.TreesMeaning` | dns/router.go:1613-1673 | Which rule trees pass, and that they read the untagged response exactly if a part matches on it or answers with it, and a tag exactly if a part names it |
| `RuleMeaning.FlawMeaning` | dns/router.go:1613-1673 | A flaw found in a tree is that of a condition or action in it |
| `RuleMeaning.SpeculativeWarning` | dns/router.go:1545-1550 | The warning comes exactly where there is a flag to remove and no rule in front races |
| `RuleMeaning.CompiledMeaning` | route/rule/rule_dns.go:427-530 | A compiled rule binds the tags named in its tree, binds the untagged response exactly if a condition does, and answers with its own tag |
| `LegacyMode.ModeRequirements` | dns/router.go:1448-1509 | The merged requirements of the list, or the first rule whose requirements cannot be found |
| `LegacyMode.FlagsAreAsked` | dns/router.go:1428-1509 | A merged flag is set exactly when some rule of the list asks for it |
| `RuleMeaning.FlagsMeaning` | dns/router.go:1399-1509 | From conditions, actions and rule sets anywhere in the trees: what disables legacy mode, what needs it, what sets a strategy |
| `RuleMeaning.ModeMeaning` | dns/router.go:1434-1446 | The mode, and when there is none, from the same |
| `RuleMeaning.SoundMeaning` | dns/router.go:229-278 | When rules may run in a mode, from the same |
| `LegacyMode.StartMode` | dns/router.go:175-221 | The router starts only in a mode its rules are sound in, and refuses exactly when the mode cannot be resolved or the list is not accepted |
| `LegacyMode.CheckUpdate` | dns/router.go:258-278 | A rule-set update is let through exactly when the running mode stays sound with it |
| `LegacyMode.CheckUpdateBeforeStart` | dns/router.go:229-258 | Before the start, an update passes exactly when the router could start with it |
| `LegacyMode.SerialUpdatesStaySound` | dns/router.go:229-278 | Over any run of updates that do not overlap, the running mode stays sound |
| `LegacyMode.OverlappingUpdates` | dns/router.go:258-278 | Under any overlap legacy mode stays sound, and the other mode is unsound exactly when the rules need legacy mode and nothing disables it |
| `LegacyMode.OverlapCanBreak` | route/rule/rule_set_local.go:140-149 | Counterexample: two overlapping updates that each pass their check leave the mode unsound |
| `LegacyMode.CheckedBeforeStart` | dns/router.go:248-258 | An update checked before the start and made after it leaves the mode sound exactly when nothing disables legacy mode, or the other mode comes out again |
| `LegacyMode.StartCanBreak` | dns/router.go:248-258 | Counterexample: one such update leaves the mode unsound |
| `ServiceLifecycle.AtMostOneInstance` | daemon/started_service.go:250-358 | For any callers and interleaving, at most one instance is alive |
| `ServiceLifecycle.StartedIsLive` | daemon/started_service.go:250-358 | Status STARTED means that the published instance exists, is the live one and was not interrupted |
| `ServiceLifecycle.InterruptedIsClosed` | daemon/started_service.go:160-167 | An interrupted start never publishes STARTED and is closed before the lifecycle lock is free again |
| `ServiceEffects.InterruptLasts` | daemon/started_service.go:160-167 | A start or close called while an instance is starting: in every later state that instance is unannounced, and once the lifecycle lock is free it is closed and detached |
| `ServiceEffects.WhoIsCancelled` | daemon/started_service.go:160-167 | An instance is cancelled exactly when a start or close is called while it is the starting one |
| `ServiceEffects.StatusTells` | daemon/started_service.go:250-358 | In every reachable state the status tells what the holder of the lifecycle lock does or the last one left, but for error reports |
| `ServiceEffects.ShutCreatesNothing` | daemon/started_service.go:254-258 | Once the service is shut and no start is past its entry, no instance is ever created |
| `ServiceLifecycle.NoDeadlock` | daemon/started_service.go:250-358 | While a caller has not returned, some caller can move |
| `ServiceLifecycle.MoveAdvances` | daemon/started_service.go:250-358 | Every move brings its caller nearer to returning and leaves the others where they are |
| `ServiceCalls.Service.InterruptStart` | daemon/started_service.go:160-167 | The instance of a start under way is cancelled and flagged, and nothing else changes |
| `ServiceCalls.Service.EnterStart` | daemon/started_service.go:254-278 | The first locked section of a start: refused when closed, else detaches the previous instance or announces STARTING |
| `ServiceCalls.Service.LeaveStart` | daemon/started_service.go:293-313 | The last locked section of a start: interrupted, failed or STARTED, and whether the instance has to be closed |
| `ServiceCalls.Service.EnterClose` | daemon/started_service.go:333-341 | The first locked section of a close: refused only when there is nothing to close |
| `ServiceCalls.Service.StartOrReloadService` | daemon/started_service.go:250-316 | Amid any steps of other callers it returns; it ends interrupted exactly if another call cancelled its instance; an interrupted or unbooted instance was never published and is closed; otherwise its instance is published, attached and the only live one |
| `ServiceCalls.Service.CloseService` | daemon/started_service.go:329-351 | Amid any steps of other callers it returns, and then no instance is alive or attached and the status is idle, or an error reported since |
| `ServiceCalls.Service.SetError` | daemon/started_service.go:353-358 | The status is FATAL and nothing else changes |
| `ServiceCalls.Service.ShutDown` | daemon/started_service.go:318-321 | The service is closed to starts and nothing else changes |
| `ServiceCalls.OthersHarmless` | daemon/started_service.go:160-358 | No step of another caller moves a caller, or touches the instances while it has the lifecycle lock |
| `TransportStart.StartTransports` | dns/transport_manager.go:76-128 | Each server starts once and after its dependencies; with no start error it succeeds exactly when every dependency exists and the graph has no cycle |
| `TransportStart.Lint` | dns/transport_manager.go:109-125 | The diagnosis terminates and reports a genuine cycle or a dependency that is genuinely missing |
| `TransportStart.StartPass` | dns/transport_manager.go:81-99 | One pass keeps the start order and, if it starts nothing, every remaining server is held up |
| `TransportStart.StartedIsAcyclic` | dns/transport_manager.go:76-128 | A complete start order exists only for a complete graph without cycles |
| `TransportStart.Manager.Create` | dns/transport_manager.go:155-184 | Each refusal exactly in its case; the list, default and fake-address server after every outcome |
| `TransportStart.Manager.Initialize` | dns/transport_manager.go:43-60 | Succeeds exactly when a default exists or may be made from the fallback, which only joins an empty list |
| `TransportStart.Manager.StartAll` | dns/transport_manager.go:61-65 | Servers registered without clash start, or fail, as the dependency graph demands |
| `ScopeTree.ClosedRunsAllOnce` | adapter/lifecycle.go:85-142 | Whatever was added, started and closed before, after the root is closed every registered cleanup has run exactly once |
| `ScopeTree.CloseReverses` | adapter/lifecycle.go:128-142 | Closing runs the cleanups of the subtree in reverse of first registration; closing again runs nothing |
| `ScopeTree.LateCleanup` | adapter/lifecycle.go:85-89 | A closed scope takes a cleanup and does not run it; another close does |
| `ScopeOrder.ClosingOrder` | adapter/lifecycle.go:85-142 | From the history alone: after any registrations and starts, closing runs own cleanups by their time and those of a component together by the time of its first start, last first |
| `ScopeTree.NoStartAfterClose` | adapter/lifecycle.go:91-97 | After a scope is closed no start in it or below it succeeds, whatever else happens in the tree |
| `ScopeTree.OpsConserve` | adapter/lifecycle.go:85-142 | After any operations, what ran together with what is still registered is what was added |
| `ScopeTree.RunCleanups` | adapter/lifecycle.go:128-142 | Every cleanup runs, last first and recursively, even if some fail; the errors are one for each failed entry, a child's wrapped in one |
| `ScopeTree.ReportIsComplete` | adapter/lifecycle.go:106-141 | Behind the errors are exactly the cleanups with a real error, in the order they ran |
| `ScopeTree.FailuresMeaning` | adapter/lifecycle.go:139-141 | The errors are those of cleanups that ended neither well nor with something closed already |
| `ScopeTree.Tree.AddCleanup` | adapter/lifecycle.go:85-89 | A cleanup joins the end of its scope's list |
| `ScopeTree.Tree.StartComponent` | adapter/lifecycle.go:91-115 | Refused exactly by a closed scope; a component gets one child scope, at its first start |
| `ScopeTree.Tree.CloseScope` | adapter/lifecycle.go:128-142 | The scope is emptied and sealed, its cleanups run, and their real errors are returned |
| `SavedBinary.RoundTrip` | adapter/experimental.go:58-149 | Decoding an encoded record gives it back, with any bytes after it and any fields set before |
| `SavedBinary.PrefixIsRejected` | adapter/experimental.go:95-149 | No strict prefix of an encoding decodes |
| `SavedBinary.EncodeIsInjective` | adapter/experimental.go:58-93 | Records with the same encoding are the same |
| `SavedBinary.OtherVersions` | adapter/experimental.go:133-135 | A record of version 0 or 1 has no hash and leaves the one that was there; later versions are read like 2 |
| `SavedBinary.UvarintLayout` | adapter/experimental.go:64-67 | Lengths are in seven-bit groups, the lowest first, with the high bit on all bytes but the last, and none to spare |
| `SavedBinary.FormatExample` | adapter/experimental.go:58-93 | The bytes of a small record |
| `SavedBinary.MinusOne` | adapter/experimental.go:72-75 | Negative times are in two's complement |
| `SavedBinary.UvarintRoundTrip` | adapter/experimental.go:64-67 | A 64-bit length is read back, at any point of the ten-byte limit and with any bytes after it |
| `SavedBinary.BlobRoundTrip` | adapter/experimental.go:102-113 | Length-prefixed bytes are read back and the rest is left over |
| `SavedBinary.SecondsRoundTrip` | adapter/experimental.go:114-119 | A signed 64-bit time in big-endian bytes is read back |
| `SavedBinary.ReadUvarintAt` | adapter/experimental.go:102-105 | The byte loop reads what the specification reads and never passes the end of the input |
| `SavedBinary.ReadBlobAt` | adapter/experimental.go:106-113 | A length beyond the remaining input is refused; otherwise exactly that many bytes are taken |
| `SavedBinary.Record.MarshalBinary` | adapter/experimental.go:58-93 | Writes the encoding of the fields |
| `SavedBinary.Record.UnmarshalBinary` | adapter/experimental.go:95-149 | Sets the fields one after the other, also the partial ones of a failed decoding |
| `ClientFlight.OneHolder` | dns/client.go:300-306 | In every interleaving, two exchanges that hold a key hold different keys |
| `ClientFlight.ClosedOnce` | dns/client.go:252-257 | No channel is closed twice; a channel is closed exactly when its maker owes no close, and has left the map by the time its maker returns |
| `ClientFlight.EntriesHaveHolders` | dns/client.go:300-306 | Every entry of the lock map belongs to an exchange that is still under way |
| `ClientFlight.NothingLeftBehind` | dns/client.go:300-453 | When all exchanges have returned, on whatever path, the lock map and the refresh map are empty and all channels are closed |
| `ClientFlight.OneRefresh` | dns/client.go:682-688 | At most one background refresh per cache key is under way |
| `FlightEffects.StaleIsRefreshed` | dns/client.go:309-313 | Over every run, an exchange that is served a stale answer has its cache key refreshed by the time it has returned |
| `FlightEffects.FreshStartsNothing` | dns/client.go:309-325 | After a fresh hit, or a miss that goes on to query, it never starts a refresh |
| `FlightEffects.WhoRefreshes` | dns/client.go:682-688 | A refresh is registered exactly by an exchange that was served stale, and leaves exactly when it is over |
| `FlightEffects.WaitsForHolder` | dns/client.go:326-344 | An exchange that finds its key taken and may wait does not query before the channel of the holder is closed |
| `FlightEffects.StartsOver` | dns/client.go:329-331 | One that may not wait starts over as one that may |
| `ClientFlight.WaiterIsServed` | dns/client.go:326-344 | A waiter can go on, or the exchange it waits for can move and owes the close; holders never wait |
| `ClientFlight.NotStuck` | dns/client.go:300-361 | Without any timeout, some exchange can move until all have returned |
| `ClientFlight.ExchangesEnd` | dns/client.go:307-361 | Without new arrivals every run has a bounded number of steps |
| `ClientExchange.Client.LoadOrStore` | dns/client.go:300-306 | Returns the channel of the key, or stores a new one for it |
| `ClientExchange.Client.BeginRefresh` | dns/client.go:683-686 | A refresh is registered exactly when none is |
| `ClientExchange.Client.Exchange` | dns/client.go:404-453 | Amid any steps of other exchanges, an exchange that may wait or starts over to wait returns on every path, holds no key and has closed every channel it made; after a stale answer its key is being refreshed |
| `ClientExchange.Client.AwaitClose` | dns/client.go:332-336 | Waiting ends: the exchange behind the channel goes on until it closes it |
| `ClientExchange.Client.Release` | dns/client.go:252-257 | Deletes the key and closes the channel, in two steps, if one is held; a refresh is due exactly after a stale hit |
| `ClientExchange.Client.Refresh` | dns/client.go:687-729 | A background refresh makes way for the next one of its key |
| `ClientExchange.OthersHarmless` | dns/client.go:259-453 | No step of another exchange moves an exchange, reopens a channel or changes who made it |
| `CacheHistory.AnswerProvenance` | dns/client.go:363-402 | Every answer from memory comes from the last exchange stored for its transport, question, subnet and environment, with NOERROR or NXDOMAIN, and differs from that response in TTLs only, which fit the remaining lifetime or the optimistic window |
| `CacheHistory.SavedAnswerProvenance` | dns/client.go:631-655 | The same for the persistent store under any savings, cleanups and clears, with an expiry less than a second short |
| `ClientCache.StoredIff` | dns/client.go:363-388 | A response is stored exactly when the cache is on, its rcode is 0 or 3, no checker refuses it, the environment is unchanged or was unknown, and its lifetime is positive; and what is then stored |
| `ClientCache.RejectedIff` | dns/client.go:367-381 | A response is rejected exactly when the checker refuses it or, with a checker, its rcode is neither 0 nor 3 |
| `CacheHistory.MemoryIsLastStored` | dns/client.go:520-540 | With any evictions and clears, an entry in memory is what the last storing exchange left under its key |
| `CacheHistory.DiskIsLastStored` | experimental/cachefile/dns_cache.go:18-129 | What the persistent store finds under a key is what was last stored, exact while pending and in whole seconds once saved |
| `ClientCache.ServedLifetime` | dns/client.go:611-628 | A fresh TTL is the remaining lifetime in whole seconds and never increases; stale answers carry 1, only inside the window, and do not turn fresh again |
| `ClientCache.DeadForGood` | dns/client.go:615-624 | Exactly the entries past lifetime and window are not served, and they stay so |
| `CacheHistory.StoresServe` | dns/client.go:597-655 | For one question class and tags without separator bytes, after the same history memory serves the last entry stored and the persistent store serves it exact while pending, in whole seconds once saved |
| `CacheHistory.StoresAgree` | dns/client.go:597-655 | The stores then give the same message; TTL and staleness are the same for pending, whole-second and unexpiring entries, and otherwise differ by one second at most, never in favour of the saved one |
| `CacheHistory.StoresAgreeIff` | dns/client.go:597-655 | From then on the stores agree on a key exactly when nothing is stored, it is pending, it has no part of a second or does not expire, or it is over |
| `ClientCache.TruncationIff` | experimental/cachefile/dns_cache.go:42-57 | Whole-second expiry changes no answer exactly when the expiry was a whole second or does not count |
| `ClientCache.TruncationShows` | experimental/cachefile/dns_cache.go:42-57 | Counterexample: an entry that loses a second of TTL, and is gone half a second early, once saved |
| `ClientCache.TruncationIsNear` | experimental/cachefile/dns_cache.go:42-57 | How far a saved entry can differ from the exact one |
| `ClientCache.CleanupIff` | experimental/cachefile/dns_cache.go:164-190 | Cleaning up saved entries changes no later answer exactly when the optimistic timeout is not negative or nothing expires |
| `ClientCache.Client.Flush` | experimental/cachefile/dns_cache.go:103-129 | A pending entry is saved in whole seconds and forgotten |
| `ClientCache.Client.CleanUp` | experimental/cachefile/dns_cache.go:164-221 | Exactly the saved entries past expiry and optimistic timeout are removed |
| `ClientCache.Client.ClearCache` | dns/client.go:500-510 | Both stores are emptied |
| `CacheHistory.ClassesCollide` | dns/client.go:631-635 | The answer to one question is served for one that differs in class only |
| `CacheHistory.DiskKeyIff` | dns/client.go:104-113 | Plain keys share an entry of the persistent store exactly when they differ in class at most |
| `ClientCache.TamperIsInvisible` | dns/client.go:604-628 | Whatever a caller writes into an answer it was given, the cache and the next answer are unaffected |
| `ClientCache.Client.StoreCache` | dns/client.go:520-540 | Stores a copy with its expiry in the store in use, and nothing for TTL 0 |
| `ClientCache.Client.FinishExchange` | dns/client.go:363-389 | Rejection, storing under the environment of now, TTL rewriting and the id of the answer, with the caller's message kept apart from the cache |
| `ClientCache.Client.LoadMemoryResponse` | dns/client.go:601-629 | A fresh object with the answer due at this time, or nothing; a dead entry is dropped |
| `ClientCache.Client.LoadPersistentResponse` | dns/client.go:631-655 | A fresh object with the answer due at this time, or nothing |
| `ClientCache.Response.ApplyResponseOptions` | dns/client.go:674-679 | One TTL on all records, the requested one or the computed one |
| `ResponseTtl.ComputeTimeToLive` | dns/client.go:201-219 | The loops compute the time to live of the response |
| `ResponseTtl.TimeToLiveMeaning` | dns/client.go:201-219 | That time is the SOA's for a negative answer, else the least positive TTL of the records that are not OPT, 0 if there is none; no other number has this property |
| `ResponseTtl.ExtractNegativeTtl` | dns/client.go:187-199 | The lesser of TTL and minimum of the first SOA record in the authority section |
| `ResponseTtl.NormalizeRecords` | dns/client.go:221-230 | Sets every TTL but those of OPT records |
| `ResponseTtl.NormalizedTimeToLive` | dns/client.go:221-230 | A normalized response with an answer has the written time to live |
| `CacheKey.NameRoundTrip` | dns/client.go:104-113 | Tag, subnet and environment can be read back from the persistent name of a key without separator bytes |
| `CacheKey.NameIsInjective` | dns/client.go:104-113 | Keys with the same name agree in tag, subnet and environment |
| `CacheKey.Base36RoundTrip` | dns/client.go:109-111 | The environment number is read back from its base-36 text |
| `CacheKey.NameExample` | dns/client.go:104-113 | A name in full, with both separators and base-36 digits |
| `CacheKey.SeparatorInTag` | dns/client.go:104-113 | Counterexample: a tag with a separator byte that takes the name of another key |
| `CacheKey.TagsCollideIff` | dns/client.go:104-113 | Two tags can come to the same name exactly when one is the other followed by the parts of a key |
| `CacheKey.FinishKey` | dns/client.go:134-141 | A response is storable exactly when the environment is unchanged or was unknown, and is stored under the present one |
| `ClientSubnet.KeyIsCarried` | dns/client.go:115-132 | The subnet of the cache key is the one the prepared message carries, exactly unless a set subnet is IPv4-mapped |
| `ClientSubnet.KeyFromPrepared` | dns/client.go:732-744 | The key is the same from the raw and from the prepared message |
| `ClientSubnet.GetAfterSet` | dns/extension_edns0_subnet.go:16-34 | A subnet that was set is read back exactly when it is not IPv4-mapped |
| `ClientSubnet.OptionIsRight` | dns/extension_edns0_subnet.go:94-105 | The option that is set has the family of the address, the bits and the address, and keeps its scope |
| `ClientSubnet.PreparedMeaning` | dns/client.go:732-744 | The query carries, and the key has, no subnet if it is to be removed, else that of the options, else that of the client, else that of the message |
| `ClientSubnet.MappedIsLost` | dns/extension_edns0_subnet.go:16-34 | Counterexample: an IPv4-mapped prefix comes back as no valid prefix |
| `ClientSubnet.LastSetWins` | dns/extension_edns0_subnet.go:62-106 | Setting twice gives the same message as setting the second only |
| `ClientSubnet.GetAfterRemove` | dns/extension_edns0_subnet.go:36-60 | After removal no subnet is carried, and removing again changes nothing |
| `ClientSubnet.RemoveAfterSet` | dns/extension_edns0_subnet.go:62-106 | Setting touches only subnet options, and adds an empty option record at most |
| `ClientSubnet.SetKeepsOneOpt` | dns/extension_edns0_subnet.go:67-89 | A message with at most one option record keeps at most one exactly if it has none, carries a subnet, or ends with the option record |
| `ClientSubnet.SecondOptAppears` | dns/extension_edns0_subnet.go:67-89 | Counterexample: a record after the option record makes a second one appear |
| `ClientSubnet.SetClientSubnet` | dns/extension_edns0_subnet.go:62-106 | The edit is the specified one at the specified record and option |
| `ClientSubnet.FindSubnet` | dns/extension_edns0_subnet.go:67-80 | The search finds the first subnet option, else the last record if it is an option record |
| `ClientSubnet.ClientSubnetFromMessage` | dns/extension_edns0_subnet.go:16-34 | The nested loops return the prefix of the first subnet option |
| `ClientSubnet.RemoveClientSubnet` | dns/extension_edns0_subnet.go:36-60 | All subnet options are removed, and a message without any is returned as it is |
| `ClientSubnet.PrepareExchangeMessage` | dns/client.go:732-744 | Removes, sets the subnet of the options or the client, or leaves the message alone |
| `ClientSubnet.NewKeySubnet` | dns/client.go:115-125 | The subnet part of the cache key |
| `ConnectionEvents.Serve` | daemon/started_service.go:808-873 | After every event and tick of a subscription the client's open set is the one last listed without the lost connections; it is right throughout exactly when no connection is in both first lists; with steady counters its totals are the counters last read; each input says exactly what it should, by the readings: a zero update exactly when a connection rose at the tick before and does not now |
| `ConnectionEvents.FirstTickIsNotZero` | daemon/started_service.go:955-1014 | No zero update at the first tick after an announcement |
| `ConnectionEvents.AlwaysRightIff` | daemon/started_service.go:882-908 | The open set is right after every input exactly when no connection is in both first lists |
| `ConnectionEvents.InitialGap` | daemon/started_service.go:882-908 | Counterexample: a connection in both first lists is missing on the client, until its end or a tick without it |
| `ConnectionEvents.Stream.BuildInitial` | daemon/started_service.go:882-908 | The open connections, then the closed ones are announced; the client lacks exactly those in both lists; snapshots are the active counters |
| `ConnectionEvents.Stream.ApplyEvent` | daemon/started_service.go:910-948 | Snapshot and replay stay in step; known connections are not announced again; no other connection is touched |
| `ConnectionEvents.Stream.BuildTrafficUpdates` | daemon/started_service.go:950-1046 | After a tick the snapshots are the active table and its counters; the events are exactly those the active connections call for and the end of every other known one |
| `ConnectionEvents.Stream.Refresh` | daemon/started_service.go:955-1014 | One connection gets at most one event, the one due; the replay differs from the snapshot only by what a counter lost or a second reading added |
| `ConnectionEvents.DueSays` | daemon/started_service.go:955-1014 | The event due, from the readings: announced when new, the difference when it rose, zero exactly when it rose before and does not now, else none |
| `ConnectionEvents.FlagsAfterTick` | daemon/started_service.go:972-1013 | After a tick the flag of a snapshot says exactly whether the counters rose at that tick |
| `ConnectionEvents.Stream.Prune` | daemon/started_service.go:1016-1043 | Exactly the connections that are not active are ended |
| `ConnectionEvents.ReplayConcat` | daemon/started_service.go:837-872 | Replaying messages one by one or as one is the same, so draining several events into one message changes nothing |
| `Taildrop.SendFiles` | daemon/started_service_taildrop.go:210-239 | Success is exactly that each provider took the whole of its file in the stream, with its declared size; counts add up in every case |
| `Taildrop.ChunkReader.SendFile` | daemon/started_service_taildrop.go:210-238 | One file succeeds exactly when the bytes taken are the chunks up to the next file-done message and fit the declared size |
| `Taildrop.ChunkReader.ReadBytes` | daemon/started_service_taildrop.go:257-284 | Hands out the next bytes of the file, ends exactly at its end, reports exactly when 1 MiB is unacknowledged, and leaves less than that |
| `Taildrop.ChunkReader.FinishFile` | daemon/started_service_taildrop.go:286-311 | Accepts exactly a file taken whole with its declared size; the buffer is then empty |
| `Taildrop.ChunkReader.BeginFile` | daemon/started_service_taildrop.go:252-255 | Starts a file where the stream stands |
| `Taildrop.FilesAppend` | daemon/started_service_taildrop.go:210-238 | The first n + 1 files of a stream are its first n and the first file of what follows |

## Left out

- Rule matching, rule-set loading and the servers' answers: fixed functions of the rule, the bound responses and the query during one exchange.
- Atomic turns: the walk's theorems treat settling and scanning in one turn as one step, and so settling and sweeping in one pass of the resume loop; `WalkWindow` states what each of the two windows loses.
- Contexts, cancelling of leftover futures, logging, `LookupStrategy` and reverse mapping: no influence on which result commits.
- `exchangeWithRulesAsync`: the same walk and resume loop behind a callback.
- Address lookup (`lookupWithRules`) and legacy-mode matching (`matchDNS`): easy members beside the walk.
- `validateEvaluateFakeIPRules`, unknown rule types and registry errors: single look-ups.
- RuleValidator.WarnedFlagHasNoEffect: is about rules without `race`, because a rule with both flags is refused when it is built (route/rule/rule_dns.go:94-95).
- LegacyMode.OverlappingUpdates: starts with no update on its way; `LegacyMode.CheckedBeforeStart` is about an update checked before the start and made after it.
- LegacyMode.SerialUpdatesStaySound: is about updates that do not overlap, because the property is false of overlapping ones; `LegacyMode.OverlappingUpdates` is the exact condition.
- Updates while the router is closing, which the code lets through unchecked.
- Scopes are values named by paths: two pointers to one scope, and cleanups added to a scope that was already closed and detached, are not captured.
- `waitForStarted` and the status subscription: no claim on when a subscriber learns of a status.
- ScopeOrder.ClosingOrder: is about histories before the first close; the text a child's error is wrapped in is not modelled.
- ServiceLifecycle.NoDeadlock: says that some caller can move, not that the mutex is fair to a given caller.
- ServiceCalls.Service.Acquire: other callers take any steps before the wait, and during it the holder of the lock goes on until it leaves; a lock handed on to others for ever is not modelled.
- ClientExchange.Client.AwaitClose: other exchanges take any steps before the wait, and during it the exchange behind the channel goes on until it closes it.
- ClientCache.StoredIff: whether a request is plain enough for the cache (dns/client.go:277-287) is given from outside.
- Client cache: LRU order and capacity (any eviction is allowed), packing of messages (taken as lossless), the two steps of saving an entry (taken as one) and a saving that fails, which drops the entry and lets an older saved one come back, the rejected-response store, hints removed from HTTPS records, and the option record of the final answer.
- ClientCache.ServedLifetime: computes whole seconds exactly, where the code goes through a floating-point number of seconds.
- CacheHistory.StoresAgree: needs one question class and tags without bytes 0 and 1, because the stores differ otherwise, and no negative optimistic timeout where saved entries are cleaned up.
- Keys are compared for fixed strategy and TTL rewriting, which the cache key does not hold.
- The text form of a subnet is taken as injective and free of separator bytes; the environment hash is any number.
- ClientSubnet: in-place edits are on a copy of the message, so messages are values here; sharing of the spare capacity of the record list is not captured.
- ConnectionEvents: descriptions and closing times of connections; the table of active connections has distinct ids.
- ConnectionEvents.Serve: totals are exact only for counters that do not go down and agree in the two readings of a new connection; `ConnectionEvents.Stream.Refresh` states the difference otherwise.
- Taildrop: the start message with its refusals, progress messages, and providers that go on reading after an error.
- SavedBinary.RoundTrip: whole seconds only, and nil and empty byte strings are the same, as in the format.
- Everything else in the repository: inbounds, outbounds, transports, TLS, platform code, generated files, JSON options.
