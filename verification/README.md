# Verified models of the chat agent's state-handling code

The project models the parts of the agent service, its watchdog and its scripts in which state, branching or
arithmetic decide whether the service is right, and proves what each of them promises. It is written for Dafny
4.11; `dafny verify dfyconfig.toml` checks all of it.

| module | models |
|---|---|
| `NullCollapse` | the OpenAPI publication pass that turns `anyOf: [T, null]` into `T`, against JSON Schema 2020-12 |
| `SkillStream` | the streaming filter that hides the skill-state block, and the parser that cuts it out |
| `Autoheal` | the rolling-window ledger of automatic service heals, shared by several threads |
| `Videogen` | the video-generation table, its workers and their lapsing finish lease, and the posting of jobs |
| `Username` | the search for a free username under truncation |
| `Episodes`, `PatroniLeader`, `ReplicaDrift` | the alert-once-per-episode machine and its two users |
| `Guardrails` | wrapping and unwrapping instructions with the two safety prompts |
| `Dsn` | the host list of a multi-host database URL and the connection failover |
| `Pool` | creation and closing of the one connection pool by interleaved coroutines |
| `Coach` | the life of the coach's proposals and what applying one may change |
| `RateLimit` | the fixed-bucket counters and the sliding bound they imply |
| `Percentile` | the interpolated percentiles of the latency comparison |
| `SoulFile` | section validation and the version-hash handshake of the Soul File page |
| `Consolidation` | the backfill that makes identity memories global |

`JsonValues`, `Strings` and `Options` hold what these share: JSON documents, Python's string operations, optional values.

Code that works in place is a class or a loop here, proved against a function; the properties are proved about that
function. Concurrency is a state machine over the source's atomic steps: a locked section, an SQL statement or
transaction, a stretch of a coroutine between two await points. The properties hold for every run of it. Each SQL
statement or transaction is one step on a map or a list of rows. Time is a parameter. `sha256` is an arbitrary
injective function. HTTP replies, connections and the results of external calls are parameters that take any value.

## What was found

Some properties one would expect do not hold of the code. The code is modelled as it is; a lemma gives an input,
and another gives the exact condition where one was found.

- A second null-collapse pass can still change the document although no null-anyOf is nested in another
  (`NullCollapse.NestingProvisoIsNotEnough`, `NullCollapse.SecondPassIdleIff`), and a sibling constraint the variant
  restates differently is lost (`NullCollapse.SiblingConstraintLost`, `NullCollapse.MergeKeepsIff`). The comment at
  `app/main.py:472-492` says semantics are preserved; they are for the schemas of `NullCollapse.CollapsePreservesMeaning`.
- A heal stamp is sampled before the lock is taken. When another thread reserves in between, the global deque can
  under-count the service deques, and a past window can hold more heals than its cap
  (`Autoheal.StaleStampBreaksCover`, `Autoheal.StaleStampBreaksCaps`). `Autoheal.CapsHoldIff` gives the windows that
  are safe for a given age of the stamps. By a small age many attempts must be open at once, more than the two threads
  of the watchdog make; the run shows what the ledger alone allows.
- A force-update that raises is rolled back even if it landed, so every lost reply lets one more heal than the cap land
  (`Autoheal.LostRepliesBreakCaps`, `Autoheal.LandedCapsHoldIff`).
- When listing the tasks of a service raises, the alerts already found in that poll are dropped although their services
  are marked as alerted (`ReplicaDrift.DueIsDeliveredIff`), so a service can be reported recovered that was never
  reported drifting (`ReplicaDrift.AlarmLost`). The docstring at `watchdog/replica_drift.py:107-110` promises the alert.
- Unwrapping guardrails is not idempotent (`Guardrails.StripNotIdempotent`); `Guardrails.OnceIsEnough` and
  `Guardrails.OnceIsEnoughIff` say for which texts it is.
- A bracketed IPv6 literal in the database URL does not parse, and a raw slash in the password hides all hosts
  (`Dsn.HostListInvertsIff`, `Dsn.SlashHidesHosts`). A query straight after the hosts is taken for part of them
  (`Dsn.QueryNeverParses`, `Dsn.QueryRaisesIff`).
- A pool whose `close` fails after taking it down stays published (`Pool.DeadPoolHandedOut`, `Pool.HandsOutOpenIff`).
- A proposal that is only an empty blob supersedes the pending one and is then found by no query
  (`Coach.NewProposalFoundIff`). The docstring at `app/repositories/coach_repo.py:307-309` promises exactly one applied
  row per session; earlier applied rows stay (`Coach.AppliedOnce`). Overlapping requests can apply a row that was
  superseded or discarded (`Coach.LawfulIff`).
- An apply that raises behind its audit row leaves a trail that names the proposal too often (`Coach.AuditedIff`). One
  that raises after the bot was changed leaves the proposal pending, and in the text lane and mostly in the section lane
  no retry can mark it applied while the bot stays so (`Coach.RetryAfterRaise`).
- The comment at `app/rate_limiter.py:29-30` speaks of expiries of 60 s and one hour set on the first write; the code
  renews 120 s and two hours on every hit, which is what `RateLimit.CountersAreExact` needs.
- A section id may end in a newline (`SoulFile.MatchesIffSlug`), the hash a PUT of an empty list returns is not the one
  GET shows (`SoulFile.GetAfterPutIff`), and the fallback section of a blank flat text cannot be sent back
  (`SoulFile.EchoSavedIff`, `SoulFile.FallbackWellFormedIff`).
- The backfill overwrites the value of an existing global row of another category and keeps that category
  (`Consolidation.GlobalIsIdentityIff`). The docstring at `scripts/consolidate_identity_memories.py:14-17` calls it safe
  mid-traffic; a fact written between the reading of the winner and the transaction is lost
  (`Consolidation.StaleWinnerLosesUpdate`). `Consolidation.SafeMidTrafficIff` says exactly when nothing is lost.

## Model

| member | source | states |
|---|---|---|
| `NullCollapse.CollapsibleIff` | app/main.py:497-502 | the pass merges exactly the nodes whose `anyOf` is one variant beside nothing but `{"type": "null"}`, and merges that variant |
| `NullCollapse.PublishedNullable` | app/main.py:504-512 | what is published for such a node, member by member: the variant's members, those of the node the variant lacks except `anyOf`, and the node's default before the variant's unless it is null; nothing else, each published in its turn; it raises exactly when one of them does |
| `NullCollapse.ScalarVariantRaises` | app/main.py:504 | a lone variant that is not an object raises |
| `NullCollapse.PublishedElsewhere` | app/main.py:512-515 | every other object keeps exactly its keys, every list its length and order, and all else is as it was |
| `NullCollapse.MergeShrinks` | app/main.py:495-514 | the dict the pass recurses into after a merge holds only proper parts of the node, so the recursion terminates although it goes into a freshly built dict |
| `NullCollapse.MergeMeaning` | app/main.py:499-511 | without clashing siblings one merge step drops the null alternative and nothing else: the merged node accepts no more than the node, and every non-null instance the node accepts |
| `NullCollapse.MergeLosesClashes` | app/main.py:499-511 | with clashes, of any keywords: an instance the merged dict accepts is accepted by the node exactly when it meets the clashing constraints, and whatever the node accepts besides null is still accepted |
| `NullCollapse.CollapsePreservesMeaning` | app/main.py:472-514 | main theorem: under the definitions rewritten too, the published schema accepts only what the original accepts, and every null-free instance the original accepts, for every schema of the vocabulary, any nesting, recursive `$ref`s and any meaning of the other keywords |
| `NullCollapse.SchemaPreserved` | app/main.py:495-514 | the induction behind it, schema by schema and keyword by keyword |
| `NullCollapse.SiblingConstraintLost` | app/main.py:506-508 | the boundary: a sibling constraint that the variant restates differently is lost, on a concrete schema and instance |
| `NullCollapse.ClashChangesMeaning` | app/main.py:506-508 | every such lost constraint of the open vocabulary shows: under some meaning of its keyword the node rejects an instance the merged dict accepts |
| `NullCollapse.MergeKeepsIffImplied` | app/main.py:499-511 | so the merge keeps meaning, whatever the open keywords mean, exactly when everything the merged dict accepts meets the clashing constraints |
| `NullCollapse.MergeKeepsIff` | app/main.py:499-511 | the condition on the schema itself, for clashes of `type` and of the open vocabulary: nothing clashes but `type`, and there every instance of the variant's type is one of the node's |
| `NullCollapse.SiblingDecided` | app/main.py:506-508 | the exhibited schema falls under that condition and fails it |
| `NullCollapse.ComponentsRewritten` | app/main.py:495-523 | the schemas a document carries, under the `#/components/schemas/` references that name them, are rewritten one by one by the pass over the whole document |
| `NullCollapse.DocumentKeepsMeaning` | app/main.py:495-523 | a schema anywhere in the document, a query parameter under `paths` or a component, keeps its meaning, its references resolved in the same document before and after the pass |
| `NullCollapse.SettlesIffPlain` | app/main.py:499-514 | no `[T, null]` node is left exactly when the input settles, a condition on the input alone |
| `NullCollapse.CollapseKeepsDepth` | app/main.py:495-514 | a nesting bound survives the merge step and the whole pass |
| `NullCollapse.UnchangedIffPlain` | app/main.py:495-514 | the pass returns its input exactly when there is no collapsible node anywhere |
| `NullCollapse.SecondPassIdleIff` | app/main.py:495-514 | a second pass changes nothing exactly when the input settles |
| `NullCollapse.FlatSettles` | app/main.py:495-514 | inputs whose null-anyOf variants are neither collapsible themselves nor become null settle |
| `NullCollapse.NestingProvisoIsNotEnough` | app/main.py:495-514 | forbidding nested null-anyOfs is not enough for that: a concrete schema on which the second pass still changes something |
| `SkillStream.StreamStep` | app/services/coach/skill_parser.py:107-134 | looking at the held-back tail and the new token decides as looking at the whole text does: same tag, same output, same tail |
| `SkillStream.SkillStateStreamFilter.constructor` | app/services/coach/skill_parser.py:102-105 | the filter starts valid and empty |
| `SkillStream.SkillStateStreamFilter.Feed` | app/services/coach/skill_parser.py:107-134 | what was emitted so far is exactly what is safe of the text so far; unsuppressed, fewer characters than the tag has are held back and nothing is lost |
| `SkillStream.SkillStateStreamFilter.Divide` | app/services/coach/skill_parser.py:125-134 | the longest-first search for a possible tag start computes the safe part and the held-back part |
| `SkillStream.SkillStateStreamFilter.Flush` | app/services/coach/skill_parser.py:136-142 | at the end exactly the text before the first open tag, or all of it, has been emitted |
| `SkillStream.Stream` | app/services/coach/skill_parser.py:73-142 | main theorem: for every text and every way of cutting it into chunks, the outputs together are the text up to the first open tag |
| `SkillStream.ShownIsFinal` | app/services/coach/skill_parser.py:107-134 | whatever arrives later, what was shown is a prefix of the text before the tag: no character of the tag is ever emitted |
| `SkillStream.HeldIsNeeded` | app/services/coach/skill_parser.py:125-134 | nothing is held back needlessly: some continuation makes every held-back character part of the tag |
| `SkillStream.HeldBelowTag` | app/services/coach/skill_parser.py:125-134 | while no tag is complete, at most 12 characters are held back |
| `SkillStream.ParseAgreesIff` | app/services/coach/skill_parser.py:31-58 | streamed and parsed text agree up to outer white space exactly when there is no open tag or the first block is closed and only white space and blocks follow |
| `SkillStream.BlockEndIs` | app/services/coach/skill_parser.py:31-34 | what the lazy pattern matches from an open tag: the shortest block that holds more than white space, else the shortest there is, and nothing exactly when there is none |
| `SkillStream.SubIs` | app/services/coach/skill_parser.py:57 | blocks are cut out from left to right, and what stands between them stays |
| `SkillStream.CleanedIs` | app/services/coach/skill_parser.py:49-57 | the cleaned text is the text itself, unstripped, where it holds no block, and otherwise what stands around its blocks, stripped |
| `SkillStream.ReplyThenBlock` | app/services/coach/skill_parser.py:38-58 | the documented case: one closed non-empty block at the end of the reply |
| `Autoheal.RollbackUndoes` | watchdog/autoheal.py:173-222 | a rollback that nothing came between leaves both deques as if the stamp had not been there |
| `Autoheal.AutohealState.Trim` | watchdog/autoheal.py:147-154 | the loop drops exactly the stamps older than the window from the front |
| `Autoheal.TrimmedIsRest` | watchdog/autoheal.py:147-154 | what trimming leaves: the entries from the first on that is not older than the hour |
| `Autoheal.AutohealState.Reserve` | watchdog/autoheal.py:173-210 | check and reservation under the lock: new ledger and verdict, in the order disabled, global cap, service cap |
| `Autoheal.AutohealState.RollbackReservation` | watchdog/autoheal.py:213-222 | each deque loses its last entry exactly when that is this stamp |
| `Autoheal.AutohealState.TryHeal` | watchdog/autoheal.py:228-313 | one uninterrupted attempt: which outcome for which ledger, and the ledger after it; an update that raises is rolled back whether it landed or not, and the cooldown is set exactly after a failed verify |
| `Autoheal.LedgerNeverUnderCounts` | watchdog/autoheal.py:147-222 | main theorem: in every run of any threads, with rollbacks at any time and even stale stamps, both deques hold at least as many entries for a recent stamp as attempts carry it whose update has not raised |
| `Autoheal.GlobalDequeCoversServices` | watchdog/autoheal.py:173-222 | with stamps in order, for every recent stamp the global deque holds at least as many entries as all service deques together |
| `Autoheal.RollbackDominatesIff` | watchdog/autoheal.py:213-222 | exactly when a single rollback breaks that cover |
| `Autoheal.StaleStampBreaksCover` | watchdog/autoheal.py:173-222 | a stamp sampled before another thread reserved can break the cover: a concrete run |
| `Autoheal.LaggingCapsHold` | watchdog/autoheal.py:147-210 | when stamps lag by at most D seconds behind the latest tried, every window shorter than the hour by D holds at most the service cap and the global cap of attempts that were not rolled back, whenever it ends |
| `Autoheal.LandedHealsBound` | watchdog/autoheal.py:147-222 | the heals that landed in such a window, whether their call answered or raised, number at most the cap and the lost replies of the run |
| `Autoheal.LostRepliesBreakCaps` | watchdog/autoheal.py:273-284 | the bound is reached: with stamps in order, f lost replies let f more heals than the cap land in one second |
| `Autoheal.LandedCapsHoldIff` | watchdog/autoheal.py:147-222 | exactly when the caps hold for the heals that landed: when length and lag together do not exceed the hour and no reply is lost |
| `Autoheal.RollingCapsHold` | watchdog/autoheal.py:147-210 | with stamps in order, every window of an hour ending at any time respects both caps for attempts not rolled back, not only windows ending at a check |
| `Autoheal.StaleStampBreaksCaps` | watchdog/autoheal.py:147-222 | under any caps one stamp older than the latest, by one second or more, overfills a past window with heals that landed and answered: a concrete run, without any failure unless a cap is one |
| `Autoheal.CapsHoldIff` | watchdog/autoheal.py:147-222 | the exact condition for attempts not rolled back: the caps hold in every window of a length, for all runs lagging at most D, exactly when length and D together do not exceed the hour |
| `Autoheal.CooldownIsKept` | watchdog/autoheal.py:228-313 | when attempts on a service do not overlap, no grant for it is stamped within an hour after a failed verify |
| `Autoheal.VerdictIs` | watchdog/autoheal.py:173-210 | the exact verdict in every run with stamps in order and attempts on a service not overlapping: disabled exactly while a failed verify of the service is less than an hour old, else refused for the global cap and then for the service's exactly when the deque holds that many entries of the last hour, else granted |
| `Autoheal.FromTheStart` | watchdog/watchdog.py:286-330 | all of these from the empty ledger, for the two threads that call it or any number |
| `Videogen.VideogenTable.CreatePending` | app/videogen/repository.py:23-49 | a new video id gets a pending row with its token; a known one is refused and nothing changes |
| `Videogen.VideogenTable.AttachComfyId` | app/videogen/repository.py:52-61 | the one unguarded update: only the job id changes, whatever the status |
| `Videogen.VideogenTable.ClaimForFinish` | app/videogen/repository.py:91-120 | won exactly when the row is pending and unclaimed or its claim is older than the lease; then only the claim time changes |
| `Videogen.VideogenTable.MarkComplete` | app/videogen/repository.py:138-152 | only a pending row becomes complete, with its URL, and loses its token |
| `Videogen.VideogenTable.MarkFailed` | app/videogen/repository.py:155-165 | only a pending row becomes failed, with at most 500 characters of reason, and loses its token |
| `Videogen.VideogenTable.FailStale` | app/videogen/repository.py:168-187 | exactly the pending rows older than the limit fail, and their number is returned |
| `Videogen.SweepIsExact` | app/videogen/repository.py:168-187 | in any state a sweep leaves no stale row, changes exactly those that were and in them only status, reason and token |
| `Videogen.NothingStaleAfterSweep` | app/videogen/worker.py:99-105 | in every run from then on, no row that was older than the limit at the sweep is pending |
| `Videogen.PendingUntilClosed` | app/videogen/worker.py:60-97 | what each step does to a pending row: when exactly it completes, with which URL, when exactly it fails, with which reason, and that it keeps its token and who asked for what otherwise |
| `Videogen.RowsAppear` | app/videogen/repository.py:23-49 | a row appears exactly by a request for it, and none goes away |
| `Videogen.WorkerIsFree` | app/videogen/worker.py:36-97 | exactly when a worker is free again |
| `Videogen.TerminalIsForever` | app/videogen/repository.py:138-187 | in every run a complete or failed row has no token and keeps its status, URL and reason, whatever late completes, failures and sweeps arrive |
| `Videogen.CompleteMeansDelivered` | app/videogen/storage.py:99-122 | in every run, a complete row had its thumbnail stored, then its video, then its draft registered |
| `Videogen.LeaseIsKept` | app/videogen/repository.py:91-120 | in every run with any number of workers, successive claims of a row are more than a lease apart |
| `Videogen.ClaimsAreLeasesApart` | app/videogen/repository.py:91-120 | any k claims of a row span more than k - 1 leases |
| `Videogen.FinishIsExclusive` | app/videogen/worker.py:62-97 | while finishes take at most the lease, no two workers are in the finish section of one row |
| `Videogen.FirstClaim` | app/videogen/worker.py:38-97 | under that condition and in clean runs a claim that succeeds is the first for its row |
| `Videogen.DraftPostedOnce` | app/videogen/worker.py:38-97 | without deaths inside a finish and without missing tokens the draft of a video is attempted at most once |
| `Videogen.NoRowIsStranded` | app/videogen/worker.py:17-20 | a worker that dies inside a finish strands nothing: in every run a pending row with its job id and token can, once a lease has passed, be taken by any idle worker from its claim to its completion, and no other row is touched |
| `Videogen.FromTheStart` | app/videogen/worker.py:38-111 | the guarantees from an empty table |
| `Videogen.AdvanceOne` | app/videogen/worker.py:38-97 | one worker undisturbed: every outcome of the poll, of the claim and of each step of the finish, closing the row included, with the row and the effects it leaves; of a draft post that raises it says that it was attempted |
| `Videogen.Post` | app/videogen/comfyui.py:73-128 | only a connection that never landed is tried again: at most one copy is delivered, exactly one on success, none when every attempt failed to connect |
| `Username.BaseName` | app/routes/influencers.py:335-341 | the base is 3 to 15 characters of a-z and 0-9 |
| `Username.BaseIsSlug` | app/routes/influencers.py:335-341 | it is the slug without the characters that do not belong: its first fifteen of them, with `bot` behind fewer than three |
| `Username.KeepAppend` | app/routes/influencers.py:335-341 | filtering takes each character by itself, in order |
| `Username.KeepOne` | app/routes/influencers.py:335-341 | and keeps it or drops it |
| `Username.NumberedKeepsBase` | app/routes/influencers.py:344-346 | a number goes behind the base, which gives way only by as much as the name would be too long |
| `Username.NumberedInjective` | app/routes/influencers.py:344-346 | numbers with equally many digits give different names, however the base is cut |
| `Username.Pigeonhole` | app/routes/influencers.py:344-346 | so as many names are taken as numbers of one length were tried |
| `Username.FreeBelow` | app/routes/influencers.py:343-347 | with fewer than 9·10^(d-1) names taken, some number below 10^d is free |
| `Username.SettleUnusedSlug` | app/routes/influencers.py:319-347 | the search terminates; its result is untaken, the first untaken one, of the right shape, and unchanged by the client |
| `Username.ClientLeavesAlone` | app/routes/influencers.py:331-341 | a name of that shape reaches the create call as it was checked |
| `Username.NumbersCanCollide` | app/routes/influencers.py:344-346 | truncation does make different numbers collide: 2 and 12 on one base |
| `Episodes.StateIsTrace` | watchdog/patroni_leader.py:114-150 | the state is a fact about the trace: when the current unhealthy run began and whether it has reached the threshold |
| `Episodes.TruncIs` | watchdog/patroni_leader.py:121 | elapsed seconds drop the fraction, on either side of zero |
| `Episodes.SaysWhatIsDue` | watchdog/patroni_leader.py:114-150 | main theorem: at every poll of every trace, even with the clock running back, the machine says what the definition over the whole trace makes due |
| `Episodes.OneAlarmPerRun` | watchdog/replica_drift.py:140-151 | an unhealthy run sounds at most one alarm |
| `Episodes.LongRunAlarms` | watchdog/replica_drift.py:140-151 | an unhealthy run that reaches the threshold does sound one |
| `Episodes.RecoveryBetweenAlarms` | watchdog/replica_drift.py:152-172 | between two alarms there is a recovery |
| `Episodes.AlarmBeforeRecovery` | watchdog/replica_drift.py:152-172 | a recovery answers an alarm of the run that just ended, with silence between |
| `Episodes.AlarmIsFirstCrossing` | watchdog/patroni_leader.py:114-150 | with a clock that never goes back the alarm is at the first poll of the run at which the exact elapsed time reaches the threshold |
| `Episodes.RunDeliversAlarmIff` | watchdog/watchdog.py:319-334 | when polls can lose what they say: a run that reaches the threshold delivers an alarm exactly when the poll that says it is not lost, and never two |
| `Episodes.RecoveryAnswersDeliveredIff` | watchdog/watchdog.py:319-334 | a delivered recovery answers an alarm of the run just ended, which was delivered exactly when its poll was not lost |
| `Episodes.RecoveryWithoutAlarm` | watchdog/watchdog.py:319-334 | a trace on which a recovery is delivered and no alarm was |
| `PatroniLeader.LeaderName` | watchdog/patroni_leader.py:85-93 | the name of the first member in a leader role, if any |
| `PatroniLeader.LeaderState.constructor` | watchdog/patroni_leader.py:61-70 | a fresh state is between episodes |
| `PatroniLeader.LeaderState.CheckOnce` | watchdog/patroni_leader.py:96-150 | one poll is one step of the episode machine, and its alert carries what the poll showed |
| `PatroniLeader.Watch` | watchdog/patroni_leader.py:96-150 | over a whole history of member lists the alerts are those due |
| `ReplicaDrift.DriftWatch.CountRunning` | watchdog/replica_drift.py:75-85 | counts the tasks whose state is running |
| `ReplicaDrift.DriftWatch.Filter` | watchdog/replica_drift.py:68-72 | keeps the services with the prefix, in order |
| `ReplicaDrift.RunningIs` | watchdog/replica_drift.py:75-85 | as many as the states hold `running` |
| `ReplicaDrift.TargetsAppend` | watchdog/replica_drift.py:72 | services are filtered each by itself, in order |
| `ReplicaDrift.TargetOfOne` | watchdog/replica_drift.py:72 | by the beginning of its name |
| `ReplicaDrift.AlertSays` | watchdog/replica_drift.py:129-163 | an alarm is for a service with fewer running tasks than it should have, a recovery for one that has them, and either says how many of how many |
| `ReplicaDrift.DriftWatch.Examine` | watchdog/replica_drift.py:127-172 | one service of the loop: its episode and its alert, nothing else |
| `ReplicaDrift.DriftWatch.CheckOnce` | watchdog/replica_drift.py:96-179 | the whole poll: table and alerts, and only names seen in it stay tracked; when a listing raises, the table up to there, no alerts and no clean-up |
| `ReplicaDrift.CheckProjects` | watchdog/replica_drift.py:96-179 | a poll of all services is, for each one, a poll of the single-service machine: gone forgets, having no replica count or not being reached suspends; alerts come back exactly when nothing raised |
| `ReplicaDrift.ServiceSaysWhatIsDue` | watchdog/replica_drift.py:96-179 | main theorem: over any history with any listings raising, a poll that looks at a listed service delivers exactly what is due on the polls that looked at it since it appeared, unless the poll raised, and then nothing |
| `ReplicaDrift.DueIsDeliveredIff` | watchdog/watchdog.py:319-334 | a due alert is delivered exactly when no later target of the same poll raised |
| `ReplicaDrift.DeliveredIsSaid` | watchdog/watchdog.py:319-334 | what is delivered is what is said on the service's own polls but for the lost ones, so the episode results about lost polls apply |
| `ReplicaDrift.AlarmLost` | watchdog/replica_drift.py:128-151 | a history in which a service is reported recovered and was never reported drifting |
| `Guardrails.PromptsFit` | app/services/safety/moderation.py:1-10 | the facts about the two prompts everything rests on: no newline in one, none doubled or at an end in the other, and the first not inside the second |
| `Guardrails.EraseSplits` | app/services/safety/moderation.py:17-18 | replacement cannot match across a character the pattern lacks |
| `Guardrails.EraseTail` | app/services/safety/moderation.py:13-18 | nor across the empty line before the rules |
| `Guardrails.StripIgnoresWrap` | app/services/safety/moderation.py:13-18 | main theorem, for every text: unwrapping what was wrapped is unwrapping the bare text |
| `Guardrails.RoundTripIff` | app/services/safety/moderation.py:13-18 | the round trip gives back the stripped text exactly when it contains neither prompt |
| `Guardrails.OneWrapping` | app/routes/influencers.py:440 | after any number of read-then-save cycles exactly one wrapping is stored |
| `Guardrails.WrappedEndsInPrompts` | app/services/safety/moderation.py:13-14 | what is stored begins with the instructions as they are and ends in a newline, the style prompt, a newline and the rules, for every text |
| `Strings.StripIsInside` | app/services/safety/moderation.py:18 | stripping takes the white space off both ends, all of it, and nothing else |
| `Guardrails.StoredOnceIff` | app/routes/influencers.py:440 | after any number of saves what is stored is the shown text with both prompts behind it, and holds each of them once, there, exactly when the shown text does not hold it |
| `Guardrails.CyclesSettle` | app/routes/influencers.py:43-45 | the cycles come to rest within as many saves as the text has characters, on a text with neither prompt |
| `Guardrails.SecondStripIdleIff` | app/services/safety/moderation.py:17-18 | unwrapping twice equals unwrapping once exactly when the first left neither prompt |
| `Guardrails.OnceIsEnough` | app/services/safety/moderation.py:17-18 | a condition on the text: when every style prompt begins or ends a line and every rules prompt stands beside an empty line or an end, unwrapping is idempotent |
| `Guardrails.OnceIsEnoughIff` | app/services/safety/moderation.py:17-18 | for a text with one style prompt and no rules, exactly when the prompt is not spliced around that one |
| `Guardrails.ManyStylesIff` | app/services/safety/moderation.py:17-18 | for any number of style prompts and no rules, exactly when none is spliced around the places of those taken out |
| `Guardrails.OnceIsEnoughForIff` | app/services/safety/moderation.py:17-18 | for every text: exactly when neither prompt stands in, or is spliced around, the pieces that taking out both leaves |
| `Guardrails.SplicedPromptSurvives` | app/services/safety/moderation.py:17-18 | a prompt spliced into itself comes back whole after one unwrapping |
| `Guardrails.StripNotIdempotent` | app/services/safety/moderation.py:17-18 | so unwrapping is not idempotent on every text: an input |
| `Dsn.SplitJoin` | app/database.py:33 | splitting at a separator inverts joining with it |
| `Dsn.IntOfDecimal` | app/database.py:35 | reading back a written port |
| `Dsn.IntOfSigned` | app/database.py:35 | a sign is read, and white space around a port does not matter |
| `Dsn.IntOfUnderscore` | app/database.py:35 | one underscore between digits is passed over, two are an error |
| `Dsn.HostList` | app/database.py:26-36 | the loop computes the specified list, or the error of the first bad port, or of a missing `://` |
| `Dsn.HostListFails` | app/database.py:30 | an index error exactly for a URL without `://`; an accepted URL names at least one host |
| `Dsn.HostOfWrittenIff` | app/database.py:34-35 | one entry comes back exactly when its name has no colon, which leaves out bracketed IPv6 literals (section 3.2.2 of RFC 3986) |
| `Dsn.HostListInvertsIff` | app/database.py:26-36 | main theorem: any hosts with optional ports, any user information without a slash, any path: the parser returns the hosts in order, with 5432 for missing ports, exactly when no host name holds a colon |
| `Dsn.SlashHidesHosts` | app/database.py:30 | why the slash must be escaped: behind one, the hosts are never looked at |
| `Dsn.QueryNeverParses` | app/database.py:30-35 | a query straight after the hosts, legal by section 3.2 of RFC 3986, never gives the hosts named |
| `Dsn.QueryRaisesIff` | app/database.py:30-35 | it raises exactly when the last host has a port or the query holds a colon with no number after it |
| `Dsn.AtInQueryHidesHosts` | app/database.py:31 | and with an `@` in it the hosts are never looked at |
| `Dsn.ConnectWithFailover` | app/database.py:39-68 | the hosts are tried one by one only after a start-up refusal; the first leader is taken, every earlier host was skippable, and otherwise all were tried |
| `Pool.Database.GetPool` | app/database.py:71-84 | up to the lock: a published pool is returned at once |
| `Pool.Database.GetPoolLocked` | app/database.py:86-105 | the second look inside the lock |
| `Pool.Database.PoolCreated` | app/database.py:99-112 | publish only once built, and leave the lock |
| `Pool.Database.CreationFailed` | app/database.py:99-109 | a failed creation publishes nothing |
| `Pool.Database.ClosePoolLocked` | app/database.py:115-118 | closing takes the lock and closes only a published pool |
| `Pool.Database.PoolClosed` | app/database.py:118-120 | the closed pool is no longer published |
| `Pool.Database.ClosePool` | app/database.py:115-117 | closing starts by waiting for the lock |
| `Pool.Database.ClosingFailed` | app/database.py:117-119 | a close that raises leaves the lock and the pool published |
| `Pool.Database.Cancel` | app/database.py:86 | a coroutine cancelled while it waits changes nothing |
| `Pool.Database.Handle` | app/database.py:71-121 | each event is handled by one of these methods |
| `Pool.Perform` | app/database.py:71-121 | the class run through any history of events ends in the state of the machine and has leaked nothing |
| `Pool.OnePoolNeverLeaked` | app/database.py:71-121 | main theorem: in every interleaving at await points of any callers, with failures and cancellations, at most one pool is open, it is the published one, and pools created = pools closed + open |
| `Pool.OneInTheLock` | app/database.py:86-120 | at most one coroutine is creating or closing |
| `Pool.SamePoolUntilClosed` | app/database.py:80-112 | every caller gets the published pool and no second one is created until a close completes |
| `Pool.CallerIsServed` | app/database.py:71-112 | after any history, failed creations too, a published pool is returned at once; with none published and the lock free, the caller creates, publishes and returns the only open one |
| `Pool.CloserIsServed` | app/database.py:115-121 | and one that closes leaves nothing open or published |
| `Pool.FailuresLetGo` | app/database.py:86-120 | what fails leaves the lock; a failed creation publishes nothing, a failed close leaves the pool published, a cancelled waiter changes nothing |
| `Pool.HandsOutOpenIff` | app/database.py:80-84 | a caller that finds a pool published gets an open one exactly when no close has failed and taken the pool down since the last creation |
| `Pool.DeadPoolHandedOut` | app/database.py:115-121 | such a run exists: after a close that fails and takes the pool down, the dead pool stays published |
| `Coach.CoachStore.AddMessage` | app/repositories/coach_repo.py:77-182 | the row is appended, pending exactly for a proposal, after the session's pending rows were superseded; empty blobs are stored as NULL |
| `Coach.CoachStore.SupersedeAndApply` | app/repositories/coach_repo.py:297-336 | the other pending rows of the session are superseded and the chosen one is applied; none is pending afterwards |
| `Coach.CoachStore.MarkDiscarded` | app/repositories/coach_repo.py:339-353 | only a pending row is discarded |
| `Coach.OnePendingPerSession` | app/repositories/coach_repo.py:110-181 | after any transactions, those of overlapping requests too, a session has at most one pending proposal and it is the newest |
| `Coach.PendingProposalIsUnique` | app/repositories/coach_repo.py:228-261 | the LIMIT 1 query finds a row exactly when it is the session's pending row and still shows a proposal |
| `Coach.PendingProposalIs` | app/repositories/coach_repo.py:228-261 | in any table the query finds the newest of the coach's pending messages of the session that propose something |
| `Coach.NewProposalFoundIff` | app/repositories/coach_repo.py:114-181 | a new proposal is found by that query exactly when it is not only empty blobs; otherwise it is pending and found by nothing |
| `Coach.LawfulIff` | app/repositories/coach_repo.py:328-336 | the applied update has no status guard: a transaction moves statuses lawfully exactly when it does not apply a superseded or discarded row |
| `Coach.CoachStore.PostApply` | app/routes/creator_coach.py:421-800 | the handler in the source's order, raising behind any of its four statements: a refusal changes nothing; otherwise the statements that took effect are done and no others |
| `Coach.CoachStore.PostDiscard` | app/routes/creator_coach.py:806-857 | refused unless pending or already discarded; true exactly when it was pending |
| `Coach.StatusesAreFinal` | app/routes/creator_coach.py:462-472 | main theorem for requests that do not overlap, wherever an apply raises: statuses only move from pending to applied, superseded or discarded and never leave those |
| `Coach.AuditedIff` | app/routes/creator_coach.py:599-620 | an applied proposal is named in the audit trail once, and another one not at all, exactly when no apply of it raised between its audit row and the statuses |
| `Coach.RetryAfterRaise` | app/routes/creator_coach.py:462-775 | a proposal whose apply raised after the bot was changed is still pending; its retry is refused in the text lane, refused as stale in the section lane exactly when it claims a hash and changed more than surrounding white space, and goes through otherwise |
| `Coach.RetryBeforeBot` | app/routes/creator_coach.py:462-775 | when the bot was not reached, the retry is the first apply again |
| `Coach.AppliedOnce` | app/routes/creator_coach.py:462-472 | an applied proposal is refused ever after, for apply and for discard, even if only its receipt is missing; older applied rows of the session stay applied |
| `Coach.SectionLane` | app/routes/creator_coach.py:489-595 | the search loop and the checks of the section lane, in order |
| `Coach.SectionLaneIff` | app/routes/creator_coach.py:524-595 | with id and new body worded and k the first section with the id: the proposal is carried out exactly when that section is not read-only, has text for a body and agrees with any claimed hash; refused as read-only or stale exactly otherwise; and only that body becomes the new one |
| `Coach.SectionLaneNeeds` | app/routes/creator_coach.py:506-545 | no other proposal is carried out, and which are refused for a missing section |
| `Coach.LiveBodyIs` | app/routes/creator_coach.py:571 | which values count as the text of a body |
| `Coach.LanesChange` | app/routes/creator_coach.py:475-771 | what a proposal of each lane does to the bot and when: its key and value or `set`, the instructions it says, or the sections of the section lane, and nothing else |
| `Coach.ProposalReachesBot` | app/routes/creator_coach.py:451-800 | sent and then applied, a proposal is found as it was drafted and changes the session's bot and no other, as its lane says |
| `Coach.ReadOnlySectionsStay` | app/routes/creator_coach.py:552-563 | through any requests, wherever an apply raises, no section with `editable: false` ever changes |
| `Coach.OtherSessionsStay` | app/repositories/coach_repo.py:297-353 | rows of sessions that no request is about stay as they are |
| `Coach.SectionApplyTouchesOneBody` | app/routes/creator_coach.py:590-595 | a section apply changes the body of the target and nothing else: length, order, ids and all other fields stay |
| `Coach.AppliesToWhatWasRead` | app/routes/creator_coach.py:566-588 | a proposal made against one body is applied only to that body, surrounding white space aside |
| `Coach.SecondOfTwoIsStaleIff` | app/routes/creator_coach.py:566-588 | of two proposals against the same body the second is stale exactly when the first changed more than surrounding white space |
| `Coach.EnsureSectionSnapshots` | app/routes/creator_coach.py:89-147 | the loop fills the two snapshot fields from the first live section with the id |
| `Coach.SnapshotsOnlyFill` | app/routes/creator_coach.py:110-117 | only missing fields are filled, and a second pass fills nothing |
| `Coach.SnapshotsShowLive` | app/routes/creator_coach.py:118-147 | what is filled in is the heading of the first live section with the id, if that is text, and whether it is editable, which it is unless it says otherwise |
| `Coach.SnapshotsDoNotSteerApply` | app/routes/creator_coach.py:104-109 | the snapshots never change what the later apply does |
| `RateLimit.Redis.Incr` | app/rate_limiter.py:226-230 | a counter past its expiry starts again at one; the expiry is renewed on every hit |
| `RateLimit.Redis.HitAndCheck` | app/rate_limiter.py:217-239 | both counters go up whatever the outcome, and the minute is judged before the hour |
| `RateLimit.CountersAreExact` | app/rate_limiter.py:223-231 | with clocks at most 30 s off, no counter is evicted inside its own bucket: each holds exactly the requests its bucket has seen, for any order of arrival |
| `RateLimit.JudgedIs` | app/rate_limiter.py:217-239 | the exact verdict while clocks agree: refused for the minute, then for the hour, exactly when with this request more of its user or address fell into the UTC minute or hour than that scope's limit, with count and limit |
| `RateLimit.BucketBound` | app/rate_limiter.py:232-239 | at most the limit is allowed per identity and UTC minute, and per UTC hour |
| `RateLimit.SpanBound` | app/rate_limiter.py:23-30 | at most twice the minute limit in any sixty seconds and twice the hour limit in any hour, both ends included |
| `RateLimit.BurstIsGranted` | app/rate_limiter.py:23-30 | the factor two is reached, within a microsecond |
| `RateLimit.MoreSkewForgets` | app/rate_limiter.py:226-230 | one microsecond more of clock difference and a counter is lost inside its minute |
| `RateLimit.StampInjective` | app/rate_limiter.py:209-210 | different UTC minutes, and different UTC hours, are formatted differently, by the Gregorian calendar to the year 9999 |
| `RateLimit.KeysNeverCollide` | app/rate_limiter.py:203-214 | no two buckets share a Redis key, whatever characters the identities hold |
| `Percentile.Sorted` | scripts/latency_comparison_phase_1_17.py:212 | a permutation of the sample |
| `Percentile.SortedOrdered` | scripts/latency_comparison_phase_1_17.py:212 | in order |
| `Percentile.OrderedUnique` | scripts/latency_comparison_phase_1_17.py:212 | an ordered sequence is determined by its elements |
| `Percentile.PercentileMonotone` | scripts/latency_comparison_phase_1_17.py:208-218 | a higher p never gives a lower percentile, across the joints of the interpolation too |
| `Percentile.PercentileHitsRanks` | scripts/latency_comparison_phase_1_17.py:213-218 | at 100 i / (n - 1) it is the i-th smallest value |
| `Percentile.PercentileOnLine` | scripts/latency_comparison_phase_1_17.py:213-218 | between two ranks it mixes one order statistic with the next in the share of the way |
| `Percentile.PercentileOfFew` | scripts/latency_comparison_phase_1_17.py:210-217 | a sample of one gives its value, an empty one zero |
| `Percentile.PercentileWithin` | scripts/latency_comparison_phase_1_17.py:208-218 | every percentile lies between minimum, at 0, and maximum, at 100, and both are sample values |
| `Percentile.PercentileOfAnyOrder` | scripts/latency_comparison_phase_1_17.py:212 | it does not depend on the order of the sample |
| `Percentile.Sample.Record` | scripts/latency_comparison_phase_1_17.py:195-200 | what one call adds to latencies, errors and statuses |
| `Percentile.RunEndpoint` | scripts/latency_comparison_phase_1_17.py:176-235 | successes + errors = calls, every status is counted, and min ≤ p50 ≤ p95 ≤ p99 ≤ max |
| `Percentile.SummaryOfAnyOrder` | scripts/latency_comparison_phase_1_17.py:192-235 | whatever order the concurrent calls complete in, the summary is the same |
| `SoulFile.MatchesIffSlug` | app/routes/soul_file.py:46-49 | the pattern accepts the documented slugs and, because `$` also stands before a final newline, those followed by one newline |
| `SoulFile.Validate` | app/routes/soul_file.py:92-195 | the loop with its set of seen ids: the normalised list, or the first error in the order of the checks |
| `SoulFile.ValidatedIsWellFormed` | app/routes/soul_file.py:92-195 | an accepted list keeps order and ids and has at most 8 sections, distinct matched ids, no blank body, exactly the four fields |
| `SoulFile.AcceptedIff` | app/routes/soul_file.py:92-195 | accepted exactly when a list of at most eight entries in shape with distinct ids; section by section the result has the entry's id, body, stripped heading or title, and editable unless the entry says otherwise, and no other field |
| `SoulFile.FirstErrorIs` | app/routes/soul_file.py:128-180 | what is refused is refused for its first entry out of shape or with a repeated id, and with that error |
| `SoulFile.FixedIffWellFormed` | app/routes/soul_file.py:92-195 | validation leaves a list as it is exactly when it is well formed |
| `SoulFile.ValidationIdempotent` | app/routes/soul_file.py:92-195 | validating a validated list changes nothing |
| `SoulFile.Page.GetSoulFile` | app/routes/soul_file.py:232-256 | what is shown and under which hash, with the fallback for a bot without sections |
| `SoulFile.ShownIs` | app/routes/soul_file.py:67-82 | what is shown for every state of the column: the objects of a stored list, or one editable section `core_personality` with the flat text |
| `SoulFile.Page.PutSoulFile` | app/routes/soul_file.py:263-347 | every refusal in its order and without a change; otherwise the list is replaced |
| `SoulFile.SavedIffUnchangedSince` | app/routes/soul_file.py:289-331 | a PUT with the hash of an earlier state is saved exactly when the bot shows the same now and the sections are in shape, whatever happened between; otherwise nothing changes |
| `SoulFile.OutdatedPutsChangeNothing` | app/routes/soul_file.py:303-325 | any number of PUTs with an outdated hash change nothing |
| `SoulFile.GetAfterPutIff` | app/routes/soul_file.py:244-256 | GET shows what a PUT saved, under the returned hash, exactly when the list is not empty |
| `SoulFile.ReturnedHashWorksIff` | app/routes/soul_file.py:338-347 | the returned hash works for the next PUT exactly when the list is not empty |
| `SoulFile.EchoSavedIff` | app/routes/soul_file.py:198-211 | sending back what GET shows is saved unchanged exactly when it is well formed |
| `SoulFile.FallbackWellFormedIff` | app/routes/soul_file.py:198-211 | the fallback is well formed exactly when the flat text is not blank |
| `Consolidation.Memories.FindWinner` | scripts/consolidate_identity_memories.py:56-69 | a most recently updated identity row of the pair, or none exactly when there is none |
| `Consolidation.Memories.UpsertAndDelete` | scripts/consolidate_identity_memories.py:71-109 | the upsert of the global row and the deletion of the pair's scattered rows |
| `Consolidation.Memories.Run` | scripts/consolidate_identity_memories.py:29-131 | main theorem: each pair with an influencer-scoped identity row ends with one global row holding a most recent fact, all such rows are gone, every other row is as before, every candidate is counted and the exit code is 0; a run that dies leaves each pair done or as it was |
| `Consolidation.Memories.ConsolidatePair` | scripts/consolidate_identity_memories.py:49-110 | one pair is done and no other is touched |
| `Consolidation.ResumedRunMigrates` | scripts/consolidate_identity_memories.py:12-17 | re-runnable: a run that died after any number of its transactions and another to the end do what one run does |
| `Consolidation.MigratedLeavesNone` | scripts/consolidate_identity_memories.py:115-131 | afterwards no identity row has an influencer |
| `Consolidation.SecondRunIdle` | scripts/consolidate_identity_memories.py:35-45 | a second run changes nothing |
| `Consolidation.OthersLeftAlone` | scripts/consolidate_identity_memories.py:101-109 | rows of other categories and of other pairs are untouched |
| `Consolidation.GlobalIsIdentityIff` | scripts/consolidate_identity_memories.py:78-99 | the global row of a consolidated pair is an identity row exactly when no row of another category stood in its place: such a row keeps its category and loses its value |
| `Consolidation.SafeMidTrafficIff` | scripts/consolidate_identity_memories.py:53-109 | exactly when the script is safe mid-traffic: whatever the application writes between the read of the winner and the transaction, to any rows, a most recent fact becomes global exactly when the last identity fact written for the pair is the one that was read |
| `Consolidation.SafeAfterOneWriteIff` | scripts/consolidate_identity_memories.py:53-109 | for one write to another row, with a stamp of any age: exactly when it leaves no identity row, is no newer, or has the same fact |
| `Consolidation.StaleWinnerLosesUpdate` | scripts/consolidate_identity_memories.py:53-109 | the input outside it: a newer identity fact, filed globally or under an influencer, is overwritten or deleted and no identity row holds it any more |

## Left out

- HTTP routing, authentication, logging, Sentry, websockets, push delivery, HTML and Markdown rendering, LLM, image and
  video generation, S3 and SpacetimeDB: only the order and the number of their effects is kept where a property needs it.
- Postgres anomalies between concurrent transactions: each statement or transaction is one step.
- Floating point: percentiles and durations are exact.
- Redis outages and limits edited while requests run: the limiter is modelled with Redis reachable and fixed limits.
- The kill switches, environment parsing, docker label matching, simple repositories, and word lists: true but easy.
- `build_workflow`, `submit`, `poll` and `upload_image` of `app/videogen/comfyui.py`: single requests or dict building
  around the modelled `_post`.
- The order and limit of `list_pending` and the loop of `tick`: a worker may pick any pending row at any time, which
  covers every order.
- NullCollapse.MergeKeepsIff: the clashes are of `type` or the open vocabulary, and the merged dict accepts something that
  tells; for clashes of other keywords the condition is that of `NullCollapse.MergeKeepsIffImplied`.
- NullCollapse.CollapsePreservesMeaning: covers `anyOf`, `allOf`, `items`, `properties`, `$ref`, `type`, `required` and
  annotations; any other keyword is an arbitrary assertion that must hold no rewritable node, so `additionalProperties`,
  `oneOf` or `not` over a null-anyOf are outside it. `$ref` is followed a bounded, arbitrary number of times.
- NullCollapse.MergeShrinks: a lone variant that is not an object always raises in the model; Python's `dict()` would
  accept an empty list or string there. The order of object members is not modelled.
- SkillStream.ParseAgreesIff: says nothing about the parsed JSON of the block, only about the cleaned text; what the lazy
  pattern matches is `SkillStream.BlockEndIs`.
- Autoheal.FromTheStart: bounds the attempts that were not rolled back; `Autoheal.LandedHealsBound` bounds the heals that
  landed. The clock that stamps the attempts of ordered runs never goes back. Stamps are whole seconds,
  so in `Autoheal.CapsHoldIff` the first unsafe window is one second longer than the last safe one.
- Videogen.DraftPostedOnce: needs every finish to end within its lease; without that only
  `Videogen.ClaimsAreLeasesApart` bounds the attempts.
- Username.SettleUnusedSlug: lower-casing is applied by the caller of the model, and the names taken do not change during
  the search.
- ReplicaDrift.ServiceSaysWhatIsDue: service names are unique within one poll, as the Swarm manager keeps them. Alerts a
  poll hands back count as delivered; what emitting them or healing on them does is left out.
- Dsn.HostList: `int()` is modelled on ASCII text; it also reads other decimal digits of Unicode.
- Pool.OnePoolNeverLeaked: the driver is assumed to leave nothing open when creating a pool raises.
- Coach.StatusesAreFinal: holds for requests that do not overlap; for overlapping ones `Coach.LawfulIff` says what can happen.
- Coach.CoachStore.PostApply: the texts of receipts and audit rows are left out, and of these the audit trail keeps the
  proposal's id.
- RateLimit.KeysNeverCollide: buckets from 1970 to the year 9999.
- SoulFile.Validate: Python's title-casing is a parameter; the owner check and the fields beside the sections are left out.
- Consolidation.SafeMidTrafficIff: the writes are upserts whose stamps grow; the deletion of near-duplicates by
  `app/services/engagement/memory_consolidation.py` is left out.
- Consolidation.Memories.Run: no other writer; of equally recent rows any may win, as in the query. The progress messages
  are left out, and the branch that skips a pair is proved not to be taken.
