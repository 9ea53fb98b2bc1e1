# WayHop, verified models

WayHop is a daemon that applies routing configurations to a router. This project models the parts of it that
carry state, ordering or a promise about every run, and proves those promises. Each module follows one source
file or one pair of files; step-by-step code is written as methods and classes, proved against functions of
the old state, and the promises are then proved about those functions over all inputs, runs or reachable
states. `dafny verify dfyconfig.toml` checks everything.

| modules | what they model |
|---|---|
| Failsafe, FailsafeRuns, FailsafeReboot, FailsafeLateProbes, FailsafeRecords | the rollback window: its critical sections, every interleaving of them, when a reboot follows a rollback, and what the window's fields say of its history |
| Placement, Reorder, Undo, Discard | undoing review rows, reordered lists included, and "discard all" |
| Binstore | the engine-binary store and its unpacked copy under kills at any step |
| Hybrid, Generator, GeneratorMeaning, GeneratorRefs, GeneratorDns, GeneratorGaps | what the config generator emits, keeps, drops and refers to |
| Override | the operator's merge patch and prepends |
| Damping, Failover, FailoverRuns | the failover loop over runs of ticks |
| Health | group health derived through nested groups |
| Ctflush, CtflushPlans, Netlink | which conntrack entries are flushed, and the netlink messages that do it |
| EscapeStrip, Supervisor | the core's escape-sequence stripper and log ring, and its supervisor |

## What the proofs found

- A list may download its rule-set through `block`: `Validate` accepts it and the generator emits it as an
  outbound that does not exist (`GeneratorGaps.DownloadThroughBlock`). A DNS detour written `Block` gets past
  the check for `block` the same way (`GeneratorGaps.DetourSpeltBlock`). Neither needs hybrid mode.
- In hybrid mode the profile-wide rule-set detour is not counted as a reference
  (`GeneratorGaps.DownloadDefaultIsNotSeeded`), and an unreferenced group survives the kernel-bearing group it
  lists (`GeneratorGaps.NestedGroupIsLost`).
- A DNS detour is checked as written and emitted trimmed, a bootstrap resolver is checked trimmed and emitted
  as written: an id or a name with a space in front dangles (`GeneratorGaps.DetourLosesItsSpace`,
  `GeneratorGaps.BootstrapKeepsItsSpace`).
- A DNS rule can name a list's set that is not emitted, when the address cache of the list holds a name
  (`GeneratorGaps.DnsRuleNamesNoSet`). The feed reader of internal/cidrfeed yields prefixes only, so such a
  name comes from an edited or restored profile.
- A router can reboot with no rollback ever claimed, against internal/failsafe/failsafe.go:355-363. A goroutine
  reads the clock before it probes and its tick is not gated by the epoch, so a probe that outlives its window
  ticks the next one at its old time and can be handed the only ActRollback, which it may not claim. In
  `FailsafeLateProbes.RebootWithoutRollback` two probes outlive their windows and every goroutine keeps to the
  default Grace and Interval. The Manager bounds no probe; the daemon's own check gives up after 8 seconds
  (internal/server/failsafe.go:60), less than Grace, so with that one only a stalled process comes to this.
  The exact condition is `FailsafeReboot.RebootFollowsRollbackIff`; the order holds while superseded ticks come
  before every other tick of a window (`FailsafeReboot.EarlyTicksRollBackFirst`) and would always hold with
  ticks gated (`FailsafeReboot.OwnTicksRollBackFirst`).
- A rollback that failed by hand can end as "rolled back", against internal/failsafe/failsafe.go:251-255: a later
  tick's rollback verdict overwrites the phase, and its own claim is refused because the window was dispatched
  (`FailsafeRecords.FailedRollbackShowsRolledBack`; exactly when, `FailsafeRecords.FailureIsHiddenIff`).
- A Reload that is under way when a Stop begins can set the intent again after that Stop has returned, and the
  watchdog then starts the core (`Supervisor.StopIsUndone`); nothing else can (`Supervisor.WatchdogAfterStopIff`).
- A tab, or any other control byte, inside a control string ends it, although section 5.6 of ECMA-48 allows
  00/08 to 00/13 in a command string: the rest of the string shows in the log (`EscapeStrip.TabEndsAString`).
- Storing a compressed binary over a pending record whose rename fails can lose the record
  (`Binstore.FailedSettleLosesTheRecord`, with the exact condition).
- The comment at internal/changeset/undo.go:122-131 says that a few passes of "discard all" are enough in
  practice. What holds of every input is that the passes end at the baseline, that each lowers a measure, and
  that when the cap cuts them off every one of them still changed something.

## Model

| member | source | states |
|---|---|---|
| Failsafe.Manager.ArmHealth | internal/failsafe/failsafe.go:116-146 | a new window: epoch advanced, every verdict and claim of the old one cleared, nothing else |
| Failsafe.Manager.TickHealth | internal/failsafe/failsafe.go:298-385 | a tick changes the window exactly as the three-way verdict function says and answers its action |
| Failsafe.Manager.ClaimRollback | internal/failsafe/failsafe.go:219-227 | the automatic claim succeeds only for the current epoch with nothing dispatched, and takes the window |
| Failsafe.Manager.MarkRollbackDone | internal/failsafe/failsafe.go:243-249 | success is recorded for the current epoch only |
| Failsafe.Manager.MarkRollbackFailed | internal/failsafe/failsafe.go:255-267 | failure is recorded for the current epoch only, and reopens the window to a manual retry |
| Failsafe.Manager.Keep | internal/failsafe/failsafe.go:388-404 | Confirm ends the window and invalidates its epoch |
| Failsafe.Manager.DisarmWindow | internal/failsafe/failsafe.go:412-424 | Disarm ends the window, says whether one was pending |
| Failsafe.Manager.RecordRolledBack | internal/failsafe/failsafe.go:433-447 | MarkRolledBack records an outside rollback and invalidates the epoch |
| Failsafe.Manager.RollbackNowBegin | internal/failsafe/failsafe.go:480-519 | a manual rollback is refused as superseded, busy or final, or claims the window |
| Failsafe.Manager.RollbackNowEnd | internal/failsafe/failsafe.go:520-557 | its outcome is recorded only while its epoch is still current |
| FailsafeRuns.StepKeepsInv | internal/failsafe/failsafe.go:116-557 | every step of every actor keeps the invariant of claims, closures and escalation |
| FailsafeRuns.RollbackDiscipline | internal/failsafe/failsafe.go:212-267 | one closure in flight per window; a second only after a recorded failure, none after a success; one automatic claim |
| FailsafeRuns.VerdictsInOrder | internal/failsafe/failsafe.go:298-385 | a window's verdicts come in order, rollback once and before the reboot, and each is acted on in its own window only; of a rollback run it says nothing |
| FailsafeReboot.AutoClaimedIff | internal/failsafe/failsafe.go:158-236 | over every run, when a window armed with a closure reboots: the automatic path claimed the closure only if its own goroutine was handed the rollback, and exactly then when no manual call had claimed it |
| FailsafeReboot.RebootFollowsRollbackIff | internal/failsafe/failsafe.go:158-236 | so the closure was claimed before the reboot exactly when its own goroutine was handed the rollback or a manual call claimed it |
| FailsafeReboot.EveryRecordedReboot | internal/failsafe/failsafe.go:158-236 | the same of every reboot in the log of any run, against what the log held before it |
| FailsafeReboot.EarlyTicksRollBackFirst | internal/failsafe/failsafe.go:158-210 | no such window reboots before its closure was claimed while ticks of older goroutines come before every other tick of a window |
| FailsafeReboot.OwnTicksRollBackFirst | internal/failsafe/failsafe.go:298-363 | nor would one if every tick were the current window's own |
| FailsafeReboot.SupersededTicksOnce | internal/failsafe/failsafe.go:158-210 | once a window is replaced its goroutine ticks at most once more, and only if it had already found its context live |
| FailsafeLateProbes.RebootWithoutRollback | internal/failsafe/failsafe.go:158-210 | a run at the default durations, Grace and Interval kept, in which two probes outlive their windows and the third reboots with a closure and no claim at all |
| FailsafeRuns.SupersededStepsChangeNothing | internal/failsafe/failsafe.go:219-267 | in any continuation a claim, mark, reboot or end of an older epoch changes neither state nor record |
| FailsafeRuns.EpochsGrow | internal/failsafe/failsafe.go:116-146 | no continuation of a run lowers the epoch |
| FailsafeRuns.EveryRunKeepsClock | internal/failsafe/failsafe.go:298-385 | over every run, where the window's tick times do not fall: the stored bad time is the measured one plus the blind intervals that begin at or before time 0 |
| FailsafeRuns.StartedComparesMeasured | internal/failsafe/failsafe.go:304-315 | once times are positive that is the measured bad time alone |
| FailsafeRuns.TickVerdict | internal/failsafe/failsafe.go:298-385 | each verdict as a function of the window's history, times not falling: bad time against the thresholds, nothing on Unknown, one rollback, reboot only after that verdict |
| FailsafeRuns.BlindTimeCountsFromTimeZero | internal/failsafe/failsafe.go:298-325 | after a tick at time 0 blind time alone brings a rollback |
| FailsafeRecords.ManualRollbackByRecord | internal/failsafe/failsafe.go:480-519 | over every run, for an armed window with a closure: a manual rollback is refused while one runs, only ends the watch after a success, and claims the closure otherwise |
| FailsafeRecords.AutoRollbackByRecord | internal/failsafe/failsafe.go:188-227 | and the automatic path claims it exactly while nothing of the window is recorded |
| FailsafeRecords.PhaseTellsTheWindow | internal/failsafe/failsafe.go:298-385 | over every run the phase of an armed window is what its ticks, their verdicts and its records make it |
| FailsafeRecords.WatchEndsWhenKept | internal/failsafe/failsafe.go:331-351 | the watch ends on a healthy tick exactly after a rollback verdict or the keep window after Arm |
| FailsafeRecords.ClosedForGood | internal/failsafe/failsafe.go:388-447 | after Keep, Disarm or MarkRolledBack nothing changes, no closure is claimed and no reboot made until the next Apply, close or manual rollback |
| FailsafeRecords.FailureIsHiddenIff | internal/failsafe/failsafe.go:364-385 | a window whose last record is a failed rollback comes to show "rolled back" exactly when a tick gives that verdict |
| FailsafeRecords.FailedRollbackShowsRolledBack | internal/failsafe/failsafe.go:364-385 | a run at the default durations whose only rollback fails and which ends showing "rolled back" |
| Placement.RestoreIndex | internal/changeset/undo.go:343-394 | the scan computes the restore slot for any two id lists |
| Placement.RestoreSlotIsOptimal | internal/changeset/undo.go:343-394 | fewest shared ids on the wrong side over all slots; the current slot if it is as good, else the earliest best |
| Placement.RankSlotLoop | internal/changeset/undo.go:410-460 | the scan computes the rank slot, repeated ids included |
| Placement.RankSlotQualifies | internal/changeset/undo.go:410-460 | the slot has the baseline's number of shared lists in front, and is the nearest such slot |
| Placement.RelativeOrderLoop | internal/changeset/changeset.go:998-1012 | the loop numbers the shared lists in order |
| Placement.RelativeOrderAt | internal/changeset/changeset.go:998-1012 | a shared list's number is how many shared ones stand in front of it |
| Reorder.InversionsInsert | internal/changeset/undo.go:343-394 | inserting at a slot adds exactly its misplaced count to the inversions |
| Reorder.MovedCanImprove | internal/changeset/undo.go:148-178 | while shared lists are out of order, one that is shown as moved has a better slot than its own |
| Reorder.NoRowsMeansInOrder | internal/changeset/changeset.go:853-865 | no Position row at all exactly when the shared lists stand in baseline order |
| Reorder.NoRowsMeansSameOrder | internal/changeset/changeset.go:853-865 | the same, as equality of the two shared subsequences |
| Undo.DiffRoutingLists | internal/changeset/changeset.go:739-877 | the loops produce the rows function: added, modified, position, removed; a list is compared with the last baseline one of its id |
| Undo.UndoOrdered | internal/changeset/undo.go:308-334 | the undo drops, restores or replaces one list, and refuses when there is nothing to undo |
| Undo.UndoRestores | internal/changeset/undo.go:308-334 | by where the list stands: which slot it goes to, with the baseline's content and the fetch stamps it has by now, the others as they were; refused exactly when nothing would change |
| Undo.InsertAt | internal/changeset/undo.go:759-767 | the element lands at the clamped index and the rest keep their order |
| Undo.UndoPositionClears | internal/changeset/undo.go:561-575 | refused exactly without a Position row; afterwards none for that list; same lists, the others in order |
| Discard.DiffRow | internal/changeset/changeset.go:739-877 | the review holds a row exactly when what it says is true of the two states |
| Discard.ReportIsExact | internal/changeset/changeset.go:739-877 | a list is reported exactly when added, removed, modified or moved |
| Discard.UndoReportedOnce | internal/changeset/undo.go:148-178 | one pass replays each reported list once |
| Discard.UndoReported | internal/changeset/undo.go:132-143 | up to four passes, stopping at a quiet one |
| Discard.UndoProgress | internal/changeset/undo.go:308-334 | every successful undo strictly lowers (lists pending, inversions) |
| Discard.OnePass | internal/changeset/undo.go:148-178 | only Position rows survive a pass; it touches something exactly when a row was pending, and then lowers the measure |
| Discard.OnePassSuffices | internal/changeset/undo.go:148-178 | survivors not reordered: one pass gives the baseline lists in order, up to refresh stamps |
| Discard.CleanReviewIsBaseline | internal/changeset/changeset.go:739-877 | no routing row exactly when the lists are the baseline's |
| Discard.PassesEnd | internal/changeset/undo.go:120-143 | without a cap the passes end, at the baseline |
| Discard.DiscardAll | internal/changeset/undo.go:120-143 | with any cap: touched exactly when a row was pending, only Position rows left, baseline unless every pass still changed something |
| Binstore.Shelf.StoreCompressed | internal/binstore/binstore.go:120-146 | the directory goes through exactly the states of the protocol, for every outcome of every file operation |
| Binstore.StoreKeepsRunnable | internal/binstore/binstore.go:120-166 | a kill at any step leaves a matching record of a runnable copy; all steps done, the new one |
| Binstore.StoreLeaves | internal/binstore/binstore.go:120-146 | the new gzip in place, the unpacked binary gone and the record named or still pending, as the steps went; when the record or the rename failed nothing was replaced |
| Binstore.FailedSettleLosesTheRecord | internal/binstore/binstore.go:150-157 | if settle's rename fails the record survives exactly when its name is never touched again |
| Binstore.InstallsSurviveKills | internal/binstore/binstore.go:120-320 | installs one after another, each possibly killed anywhere, with unpacks, removals of the copy and power cuts in between, never lose the runnable copy |
| Binstore.Shelf.Unpack | internal/binstore/binstore.go:284-320 | the run directory goes through exactly the states of the protocol |
| Binstore.UnpackAnswersIff | internal/binstore/binstore.go:284-320 | answers exactly for a copy already marked with the recorded digest, left as it is, or a gzip with it that inflates while every step goes through; then the copy and its marker are there, and after a failure no marker vouches for another copy |
| Binstore.ReadIs | internal/binstore/binstore.go:161-190 | the record at its own name, else the pending one; only while it describes the stored file |
| Binstore.RemovalsTake | internal/binstore/binstore.go:194-209 | what is left after removals that may each fail |
| Binstore.UnpackIsHonest | internal/binstore/binstore.go:284-320 | where the record read holds a whole digest, an answered copy is what the gzip with that digest inflates to; and no state has a marker for another copy |
| Binstore.UnpackIsHonestAfterEveryRun | internal/binstore/binstore.go:194-320 | the same, where the record read holds a whole digest, after any run of stores, unpacks and removals killed anywhere |
| Binstore.UnpackAfterInstalls | internal/binstore/binstore.go:120-320 | after any run of installs and uses killed anywhere the digest is whole, and an answered copy is what the stored gzip itself inflates to |
| Hybrid.Visit | internal/generator/singbox.go:159-169 | the recursive walk yields a set closed under membership and forced by what it started from |
| Hybrid.HybridReachable | internal/generator/singbox.go:101-174 | reachability is the least set with every surviving reference in it that is closed under group membership |
| Generator.OutboundsFrom | internal/generator/singbox.go:244-388 | what is emitted: direct, the endpoints and groups kept, a policy outbound per policy in use; refused exactly when one has no mark |
| Generator.RouteFrom | internal/generator/singbox.go:2122-2229 | user rules, the final, the catch-all flag, and each geo set once |
| Generator.RoutingFrom | internal/generator/singbox.go:607-726 | list sets in order; every rejecting list rule before every routing one |
| Generator.DnsListTags | internal/generator/singbox.go:985-1016 | the loop answers the tags of the first enabled list with the id |
| Generator.DnsFrom | internal/generator/singbox.go:740-924 | servers kept, rules kept, final, and the geo sets not yet there |
| Generator.Generate | internal/generator/singbox.go:238-577 | as far as the modelled checks and parts go: a config for a profile that passes them and whose policies have marks, no other, and which config |
| GeneratorMeaning.RouteRulesAre | internal/generator/singbox.go:538-577 | the route rules are the core's user rules in order, then the rejecting lists', then the routing lists', and last the catch-all of a blocking default: rule by rule, and no others |
| GeneratorMeaning.UserRulesAre | internal/generator/singbox.go:2122-2197 | which user rules are the core's; each rejects exactly when it is written block in any case, else names its outbound, and has its own matchers and geo sets |
| GeneratorMeaning.ListRulesAre | internal/generator/singbox.go:607-726 | the same of the lists that reject, and of those that do not |
| GeneratorMeaning.FinalIs | internal/generator/singbox.go:2131-2146 | the final outbound is the last enabled default's that does not block, else direct |
| GeneratorMeaning.RouteSetsAre | internal/generator/singbox.go:607-726 | the rule-sets are the geo sets of the core's rules, downloaded directly, and the sets of the core's lists, with their downloads and entries |
| GeneratorMeaning.OutboundsAre | internal/generator/singbox.go:244-388 | outbound by outbound: direct, the endpoints and groups the core needs, one per policy in use |
| GeneratorMeaning.RootsAre | internal/generator/singbox.go:101-174 | the tags that reachability begins at are exactly those that something the core keeps refers to |
| GeneratorMeaning.KernelEgressIs | internal/generator/singbox.go:49-80 | with unique ids: a policy, a kernel endpoint, or a group with one |
| GeneratorMeaning.DnsBlockIs | internal/generator/singbox.go:740-924 | DNS servers and rules one by one in order, what each says, and the final server |
| GeneratorMeaning.DnsSetsAre | internal/generator/singbox.go:817-886 | the geo sets DNS adds: those its kept rules name and the route lacks |
| GeneratorMeaning.PoliciesKnownIs | internal/generator/ndmpolicy.go:20-32 | refused for a policy exactly when an enabled list points at one without a mark |
| GeneratorMeaning.TrimIs | internal/generator/singbox.go:2203-2229 | trimming takes the white space off both ends and nothing else |
| GeneratorRefs.RoutesResolve | internal/generator/singbox.go:2122-2197 | every outbound named by an emitted rule, and the final, is emitted: valid profiles, all modes |
| GeneratorRefs.MembersResolveUnlessNested | internal/generator/singbox.go:366-379 | group members are emitted exactly unless an unreferenced group lists an unreferenced kernel-bearing one |
| GeneratorRefs.DownloadsResolveWhenKept | internal/generator/singbox.go:642-668 | download detours are emitted exactly when no list downloads through a block and the default is kept without them |
| GeneratorRefs.DnsDetoursResolveWhenKept | internal/generator/singbox.go:769-809 | VPN resolvers name emitted endpoints; DNS detours are emitted exactly when trimming does not change what they name |
| GeneratorRefs.NothingDanglesIff | internal/generator/singbox.go:238-388 | the whole config refers to nothing missing exactly under those three conditions |
| GeneratorRefs.GuardsDecide | internal/generator/singbox.go:238-388 | three guards a caller can check are enough for any valid profile, and needed when ids are written plainly |
| GeneratorRefs.FlatProfileIsWhole | internal/generator/singbox.go:49-174 | flat groups, an unset, direct or referenced default and plainly written builtins are enough |
| GeneratorGaps.DownloadDefaultIsNotSeeded | internal/generator/singbox.go:101-174 | a valid flat hybrid profile whose download default dangles |
| GeneratorGaps.NestedGroupIsLost | internal/generator/singbox.go:366-379 | a valid hybrid profile whose group names a missing member |
| GeneratorGaps.DownloadThroughBlock | internal/model/validate.go:519-534 | a valid profile whose list downloads through a missing outbound |
| GeneratorGaps.DetourSpeltBlock | internal/model/dns.go:261-277 | a valid profile whose DNS detour is a missing outbound |
| GeneratorGaps.DetourLosesItsSpace | internal/generator/singbox.go:799-809 | a valid profile whose DNS detour loses its leading space and names nothing |
| GeneratorGaps.BootstrapKeepsItsSpace | internal/generator/singbox.go:810-812 | a valid profile whose bootstrap resolver keeps its leading space and names nothing |
| GeneratorGaps.DnsRuleNamesNoSet | internal/generator/singbox.go:670-677 | a valid profile whose DNS rule names a missing rule-set |
| GeneratorDns.DnsTagsAreTheListsOwn | internal/generator/singbox.go:981-1016 | what DNS calls a list's sets is what routing called them, exactly unless a name in the address feed alone keeps the list |
| GeneratorDns.RouteRulesNameEmittedSets | internal/generator/singbox.go:607-726 | every rule-set an emitted route rule names is emitted |
| GeneratorDns.DnsRulesNameEmittedSets | internal/generator/singbox.go:817-886 | every rule-set an emitted DNS rule names is emitted, exactly unless a rule names such a list |
| GeneratorDns.RuleSetTagsAreDistinct | internal/generator/singbox.go:679-683 | geo, remote, inline and DNS geo sets never share a tag |
| GeneratorDns.DnsTargetsAreEmitted | internal/generator/singbox.go:740-908 | no emitted DNS rule and not the final names a server that was left out |
| GeneratorDns.BootstrapsResolveWhenKept | internal/generator/singbox.go:810-812 | bootstrap resolvers are emitted exactly when surrounding space does not make them another name |
| GeneratorDns.BootstrapGuard | internal/generator/singbox.go:810-812 | resolvers written without surrounding space are enough, and needed when the servers' tags are written so |
| Override.MergePatch | internal/generator/override.go:283-298 | the loop computes MergePatch of section 2 of RFC 7396 |
| Override.MergeIdempotent | internal/generator/override.go:283-298 | merging the same patch twice is merging it once |
| Override.PatchDecides | internal/generator/override.go:283-298 | wherever the patch says something the result has it: a null removes, a value is there, an object makes one |
| Override.PatchShadows | internal/generator/override.go:141-155 | the path walk finds whether the patch decides an ancestor of a path |
| Override.UnshadowedStays | internal/generator/override.go:141-155 | what is at a path the patch does not shadow survives the merge |
| Override.ShadowedIsLost | internal/generator/override.go:141-155 | under one it shadows the result does not depend on the prepended items at all: the check refuses only what would be lost |
| Override.ParseAccepts | internal/generator/override.go:72-124 | an accepted override prepends only at known paths its patch does not shadow |
| Override.ParseIsExact | internal/generator/override.go:72-124 | accepted exactly when prepend is an object of arrays of objects at the four paths with no segment decided by the rest; and nothing of the override is lost |
| Override.Config.Apply | internal/generator/override.go:221-241 | the config is changed in place by the prepends and then the merge |
| Override.PrependAndMergeCommute | internal/generator/override.go:246-298 | at an unshadowed path prepending and merging commute |
| Override.OrderDoesNotMatter | internal/generator/override.go:221-241 | for any accepted override the two orders of Apply agree |
| Override.NothingPrependedIsLost | internal/generator/override.go:219-279 | the final array at each prepend path holds every item once, in order, between the generated ones: in front, or for route.rules behind as many guards as there are |
| Override.NothingElseIsTouched | internal/generator/override.go:219-279 | at any other path applying is the merge alone |
| Damping.Damper.Penalize | internal/failover/damper.go:97-101 | the member's state is decayed to now and raised by one flap; the others untouched |
| Damping.Damper.Suppressed | internal/failover/damper.go:107-122 | the answer and the member's new state, lift by the suppression cap included |
| Damping.PenaltyIsDecayedFlaps | internal/failover/damper.go:87-101 | the lazy penalty is the sum of the flaps each decayed to now, whatever was asked between |
| Damping.QueryAnswers | internal/failover/damper.go:107-122 | a query's answer from the calls alone: decayed flaps above SuppressAt begin a suppression, above ReuseAt keep it, until MaxSuppress |
| Damping.SuppressionIsBounded | internal/failover/damper.go:107-122 | an unbroken stretch of suppressed answers spans less than the cap |
| Failover.LowestLatencyAlive | internal/failover/controller.go:104-115 | found exactly when one is alive: a live member no live one beats, faster than every live one in front of it |
| Failover.DecideTargetsAlive | internal/failover/controller.go:118-176 | a change goes to a member shown alive, and off a live one only past min-dwell |
| Failover.DecideIs | internal/failover/controller.go:118-176 | what each policy is for, by index; it moves there at once off no live member, else exactly when min-dwell has passed |
| Failover.OutlierDetector.Record | internal/failover/outlier.go:71-87 | the member's state follows the ejection function, the others stay |
| Failover.EjectionsGrow | internal/failover/outlier.go:67-93 | over any run of reports: each ejection follows enough failures in a row, lasts base times its number up to the cap, and begins only when the last is over |
| Failover.WindowsGrow | internal/failover/outlier.go:67-87 | the windows never shrink and never pass the cap |
| Failover.EjectsWhenDue | internal/failover/outlier.go:67-87 | a report begins an ejection exactly when it is due, and for how long |
| Failover.FilterKeepsOneAlive | internal/failover/runner.go:92-133 | filtering only hides members, and never the last one alive |
| Failover.FilterHidesExcluded | internal/failover/runner.go:92-133 | exactly the suppressed and ejected members read as dead, unless that would leave none |
| Failover.VisitIs | internal/failover/runner.go:168-200 | what an emergency is, from raw health, and what Decide is asked |
| Failover.Runner.RunTick | internal/failover/runner.go:161-228 | a tick changes detectors, pending and last switch as the tick function says, group by group |
| FailoverRuns.RunKeepsInv | internal/failover/runner.go:161-228 | over every run pending and last-switch entries tell the truth about the history |
| FailoverRuns.EverySwitchIsEarned | internal/failover/runner.go:161-228 | every committed switch goes to a member alive in raw health; outside an emergency past min-dwell and to a target wanted for the hold without break |
| FailoverRuns.SwitchesWhenEarned | internal/failover/runner.go:161-228 | and a change is applied as soon as it is due: at once in an emergency, else when its target has been wanted for the hold |
| FailoverRuns.OneReportATick | internal/failover/runner.go:92-116 | over every run a member's ejection state is what one report a tick makes of it, however many groups share it |
| FailoverRuns.OneFlapADrop | internal/failover/runner.go:92-133 | and its damper state what one flap for each drop, and a query for each live sighting, make of it |
| FailoverRuns.SwitchAtZeroIsForgotten | internal/failover/controller.go:162-176 | a switch at time 0 would not hold the next: why the run theorem asks for positive times |
| Health.DeriveGroups | internal/health/monitor.go:545-600 | the in-place passes, which stop early, compute the same as all of them |
| Health.GroupHealthIsReachability | internal/health/monitor.go:545-600 | any graph, any order: Alive, Down or Unknown by what is reachable; an alive group's latency is a reachable target's |
| Health.GroupShowsFirstLive | internal/health/monitor.go:545-600 | without membership cycles every group shows its first live member's health, latency included |
| Health.ReachesIsWithin | internal/health/monitor.go:545-600 | a target reachable at all is reachable in as many hops as there are groups |
| Ctflush.ContainsLinear | internal/ctflush/ctflush.go:176-183 | the scan is membership in any prefix |
| Ctflush.ContainsSorted | internal/ctflush/ctflush.go:170-173 | on sorted prefixes the binary search asks the last one that starts at or before the address |
| Ctflush.ContainsIsMembership | internal/ctflush/ctflush.go:168-173 | and when they are disjoint that is linear membership |
| Ctflush.ByStartCollapses | internal/ctflush/ctflush.go:155-166 | sorting disjoint prefixes of one family gives what the search needs |
| Ctflush.BuildView | internal/ctflush/ctflush.go:112-151 | the loops build the plan's view: tags, WAN marks, zones, bypass |
| Ctflush.MatchIsExact | internal/ctflush/ctflush.go:186-223 | yes, no and unknown say exactly whether every, no or some way of resolving the zone matches |
| Ctflush.EvalLoop | internal/ctflush/ctflush.go:227-237 | the backward scan is the last match |
| Ctflush.KnownMeansWorldsAgree | internal/ctflush/ctflush.go:227-237 | known exactly when all ways of resolving the hidden matches have the same last match |
| Ctflush.EvalIsEveryWorlds | internal/ctflush/ctflush.go:227-237 | and then mark and match are those of every world |
| CtflushPlans.FlushIsSound | internal/ctflush/ctflush.go:265-313 | for any two plans, the new one with disjoint zone members and zone marks that are egress or policy marks or none: a flushed flow's next packet would leave by another exit than a new flow's, in every world; outside hybrid, where nothing is open, exactly those flows. Bypassed, private and the router's own flows leave by the main table |
| CtflushPlans.KnownIffAgreed | internal/ctflush/ctflush.go:227-237 | a verdict is known exactly when every world of the plan has the same zone mark the flow last |
| CtflushPlans.RemovedIsSound | internal/ctflush/ctflush.go:281-299 | with the plane removed a flow is flushed exactly when it is not pinned to the main table and the old plan sent it another way |
| Ctflush.Flush | internal/ctflush/ctflush.go:333-372 | only stale entries are tried, in order; deleted and gone count the kernel's answers; the cap |
| CtflushPlans.DoomedAreTheStale | internal/ctflush/ctflush.go:333-356 | what there is to try is every stale entry once, in the dump's order |
| Netlink.EncodeRequest | internal/ctflush/nlmsg.go:42-59 | the bytes written into the buffer are header, family and padded attributes |
| Netlink.RequestBytes | internal/ctflush/nlmsg.go:42-59 | the header's bytes as numbers in either byte order, the family in its place, and then the attributes |
| Netlink.ParseAttrsLoop | internal/ctflush/nlmsg.go:91-106 | the loop splits any buffer, and says when it is malformed |
| Netlink.AttrsRoundTrip | internal/ctflush/nlmsg.go:91-106 | attributes with their own length come back byte for byte |
| Netlink.RequestRoundTrip | internal/ctflush/nlmsg.go:42-106 | and so out of a whole request |
| Netlink.AttributeReadsBack | internal/ctflush/nlmsg.go:91-106 | length, type without its flags, payload |
| Netlink.DeleteLeadsWithTuple | internal/ctflush/nlmsg.go:69-82 | an accepted delete leads with the dumped tuple and is never a request without one |
| Netlink.DumpedEntriesAreDeletable | internal/ctflush/nlmsg.go:109-163 | a dumped entry is deleted by its own tuple exactly unless that is empty |
| Netlink.DeleteNamesTheEntry | internal/ctflush/nlmsg.go:69-82 | the delete of a dumped entry is its tuple, id and zone byte for byte, as message type 2 with request and ack |
| Netlink.ParseEntryLoop | internal/ctflush/nlmsg.go:109-163 | the nested loops compute the entry |
| Netlink.EntrySaysItsAttributes | internal/ctflush/nlmsg.go:109-163 | tuple, zone, id, mark in network order and addresses are what the last attribute for each gave, whatever else is there |
| Netlink.EntryIsReadIff | internal/ctflush/nlmsg.go:109-163 | read exactly when the message and all its tuples are well-formed and there is a tuple |
| Netlink.ReadMessagesLoop | internal/ctflush/nlmsg.go:169-199 | ends on every buffer with the reader's answer |
| Netlink.ReaderTakesOneMessage | internal/ctflush/nlmsg.go:169-199 | the reader takes exactly one encoded message off a buffer and drops another request's |
| Netlink.ReadNone | internal/ctflush/nlmsg.go:169-199 | what ends a buffer with the request still open, and what is malformed |
| Netlink.ReadOne | internal/ctflush/nlmsg.go:169-199 | done and error messages of the request end the reading with the kernel's answer; anything else goes on behind it |
| Netlink.ReaderFollowsMessages | internal/ctflush/nlmsg.go:169-199 | any messages in one buffer give their entries in order |
| EscapeStrip.Writer.Write | internal/core/singbox.go:173-186 | a write runs the state machine over its bytes, claims all of them and appends what remains, or claims none when the sink fails |
| EscapeStrip.Writer.FeedByte | internal/core/singbox.go:189-253 | one byte, every state, aborts included |
| EscapeStrip.SplitsDoNotMatter | internal/core/singbox.go:173-186 | the same text whatever the writes it came in |
| EscapeStrip.LinesAreIndependent | internal/core/singbox.go:189-253 | stripping is line-local for all byte strings |
| EscapeStrip.OutputHasNoEscape | internal/core/singbox.go:189-246 | no escape byte ever comes through |
| EscapeStrip.PlainTextIsKept | internal/core/singbox.go:189-246 | text without escapes is unchanged |
| EscapeStrip.StripIsIdempotent | internal/core/singbox.go:189-246 | stripping twice is stripping once |
| EscapeStrip.SequencesVanish | internal/core/singbox.go:189-246 | a complete sequence of a handled form, with no control byte inside, vanishes from the middle of text and nothing else does |
| EscapeStrip.BrokenOffIsDropped | internal/core/singbox.go:189-253 | a sequence broken off by a control byte, a non-ASCII one or an ESC is dropped and the byte read as if it had never been |
| EscapeStrip.ControlStringVanishesIff | internal/core/singbox.go:189-253 | a control string without ESC or BEL inside, closed by BEL or ST, vanishes exactly when no control byte stands in it |
| EscapeStrip.EscapeEndsAString | internal/core/singbox.go:189-253 | an ESC inside a control string ends it: with a backslash as its proper end, else what it opens is read as if the string had never been |
| EscapeStrip.TabEndsAString | internal/core/singbox.go:189-253 | a command string with a tab in it does not vanish |
| EscapeStrip.RingLog.Write | internal/core/singbox.go:102-125 | the ring holds the last whole lines of the stream and the open piece |
| EscapeStrip.LinesAreTheLines | internal/core/singbox.go:102-125 | whatever lines a stream is made of are its lines, trimmed of carriage returns, the blank ones left out |
| Supervisor.SingBox.StartCore | internal/core/singbox.go:310-318 | Start sets the intent unless closed and spawns only what is not alive |
| Supervisor.SingBox.WatchdogStart | internal/core/singbox.go:330-342 | the watchdog spawns only with intent and without a live core |
| Supervisor.SingBox.TakeForStop | internal/core/singbox.go:391-410 | Stop takes the process out of the supervisor and drops the intent |
| Supervisor.StepKeepsInv | internal/core/singbox.go:310-493 | every step of every interleaving keeps the supervisor's invariant |
| Supervisor.StartBringsUp | internal/core/singbox.go:310-318 | a core that is up is kept and wanted, else a fresh one is spawned, unless closed, missing or failing, and then nothing changes |
| Supervisor.WatchdogBringsUp | internal/core/singbox.go:330-342 | a fresh core exactly for one that is wanted and not up |
| Supervisor.StopBringsDown | internal/core/singbox.go:391-446 | nothing tracked or wanted, and the process it took is dead when it returns |
| Supervisor.ReloadRestarts | internal/core/singbox.go:472-493 | a fresh core and the old one dead, or the intent back |
| Supervisor.ShutdownIsFinal | internal/core/singbox.go:455-460 | nothing opens the supervisor again |
| Supervisor.NoOrphanCore | internal/core/singbox.go:310-493 | every live process is tracked or held by a Stop in flight; nothing is spawned after closing |
| Supervisor.ShutdownLeavesNone | internal/core/singbox.go:455-460 | Shutdown done and no Stop in flight: no process lives |
| Supervisor.SingBox.Close | internal/core/singbox.go:455-458 | Shutdown's first section only closes |
| Supervisor.SingBox.Reassert | internal/core/singbox.go:472-491 | a failed Reload only sets the intent |
| Supervisor.WatchdogFollowsIntent | internal/core/singbox.go:320-342 | a watchdog start only while the intent was set since the last Stop, by a Start or by a Reload that may be older than that Stop |
| Supervisor.WatchdogAfterStopIff | internal/core/singbox.go:320-493 | after a Stop, with no Start or Reload called since, the watchdog can start the core exactly when an earlier Reload had not returned |
| Supervisor.StopIsUndone | internal/core/singbox.go:472-493 | a run in which such a Reload undoes a Stop that has returned |

## Left out

- Failsafe: the last-check fields that Status shows; 64-bit times and counters are unbounded.
- FailsafeRuns.TickVerdict: asks that observation times do not fall; with a unix clock they are positive too, and then the bad time is the measured one. Grace and Interval do not bound the steps and the clock may be set back, so every theorem about all runs holds of a larger set than the timers allow; the run of FailsafeLateProbes.RebootWithoutRollback keeps to them.
- FailoverRuns.EverySwitchIsEarned: asks that tick times are positive and do not fall, as a unix clock gives them; a switch at time 0 would be forgotten, see FailoverRuns.SwitchAtZeroIsForgotten.
- Failover.Runner.RunTick: a health source or a selector that answers is an input of the tick; hand-over of existing connections is not modelled.
- Damping.PenaltyIsDecayedFlaps: penalties are reals and the decay is any function that turns sums of times into products; rounding of the floating-point power is not modelled.
- Discard.DiscardAll: speaks of routing lists, whose other fields are one body with equality plus the two refresh stamps; endpoints, groups, rules, device groups, DNS and settings are undone without an order and are not modelled. It does not say that four passes always reach the baseline.
- Undo: field-level undo of a single setting inside a list.
- Binstore.UnpackIsHonest: nothing else writes the two directories between the digest and the inflation; a digest is the bytes it was taken of; times are numbers. Write, RemoveStaleCompressed and file modes are not modelled.
- Binstore.StoreKeepsRunnable: asks that the incoming gzip is not mistaken for the stored one (it differs in size or time) and that settle's rename, where one is due, succeeds; without the latter Binstore.FailedSettleLosesTheRecord.
- Generator.Generate: the rendering of each protocol, inbounds, guard and probe rules, cache and log settings and the field changes for newer cores are not modelled, nor the errors of rendering. Address parsing, the format of a source and the addresses of a scope are inputs; white space and letter case are those of Latin text; access-policy outbounds come in order of first use rather than sorted.
- Hybrid.HybridReachable: the roots are visited in any order, as Go ranges over a map.
- GeneratorRefs.NothingDanglesIff: rests on the part of Validate stated as Hybrid.Valid; the checks of ports, addresses, matchers and group cycles are not needed and not modelled. That the kernel plane routes what the core leaves out is not stated.
- GeneratorDns.DnsTargetsAreEmitted: the resolver chosen for the outbounds' own names (dnsDefaultResolverTag) is not modelled.
- Override.ParseAccepts: decoding of the text, its size limit, and the check that prepended rules name known outbounds are not modelled; Parse starts from decoded JSON.
- Health.DeriveGroups: the hysteresis of recorded stats (record) is not modelled; in membership cycles, which validation refuses, the latency of an alive group need not settle, its state does.
- CtflushPlans.FlushIsSound: prefixes are parsed and addresses unmapped already. Different marks are different exits by construction of the model.
- Ctflush.Flush: a dump that fails, an entry whose destination is no address, and the copy of an entry out of the read buffer are not modelled.
- EscapeStrip.SequencesVanish: of control strings, only those without a control byte inside; for the others EscapeStrip.ControlStringVanishesIff and, with an ESC inside, EscapeStrip.EscapeEndsAString.
- Supervisor.ShutdownLeavesNone: a kill ends the process, and Stop returns only once its process is dead; a process that survives both signals is not modelled. ReapStrays, config checks and version queries are left out.
- Importers, exporters, share links, panel texts, impact notes and secret redaction: no state and no property beyond one body.
