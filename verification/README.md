# Verified models of the backend's state-changing protocols

This project models the parts of the backend that change stored state step by
step and must survive being stopped anywhere: the ledgered migration runner, its
single-flight claim and the instances that share them, the chain of role
migrations, the plan catalogue pipeline, the price history of the SMS providers,
the index swap, the private-media move, the tagging codemod, the translation
seeder, the attendance backfill, the scheduled poster and the canonical JSON
export.

Each component has one or two modules. Code that works by changing things step
by step is a class or a method with loops, proved equal to a specification
function or against its promise outright; the properties of that specification
are lemmas beside it. What the environment may do (throw, die, fail a write,
report failure on a write that landed, swallow a failure, let other writers or
instances in between) is a parameter, so the statements hold for every point of
failure. The `...Effects` modules then say what each operation does in the
system's own words: role names, scopes, prices, messages, markers and fields,
in terms of what was stored before.

| file | component |
|---|---|
| `Prelude.dfy`, `OrderedMap.dfy` | optional values, sequences; maps in insertion order |
| `MigrationRunner.dfy`, `RunnerEffects.dfy` | ledger, run loop, baselines, histories; one run written out |
| `SingleFlight.dfy`, `Fleet.dfy` | the claim; instances interleaving under it |
| `Permissions.dfy`, `GrantMerge.dfy` | the guard; the union-and-widen merges |
| `RoleMigrations.dfy`, `RoleChain.dfy`, `RoleStrips.dfy`, `RoleEffects.dfy`, `RoleUnits.dfy` | the role passes, their effect on decisions, convergence, who gets what, the passes under the runner |
| `PlanPipeline.dfy`, `PlanEffects.dfy`, `PlanUnits.dfy` | the ERP plan pipeline, what becomes of each plan and tier, and under the runner |
| `PriceHistory.dfy` | temporal price rows, the price before, during and after a reprice |
| `IndexSwap.dfy`, `IndexEffects.dfy` | online unique-index swap; indexes, report and refused writes |
| `PrivateMedia.dfy`, `MediaEffects.dfy` | two buckets and a database; which references, in what order, to what |
| `Splice.dfy`, `Codemod.dfy`, `CodemodEffects.dfy` | splicing at offsets; the controller tagger; what it counts and tags |
| `Flatten.dfy`, `TranslationSeed.dfy`, `TranslationEffects.dfy` | flattening, merging and seeding translations; what is kept for each pair |
| `AttendanceBackfill.dfy`, `AttendanceEffects.dfy` | batched events and projections; their fields |
| `Autopost.dfy`, `AutopostEffects.dfy` | inbox and cooldown rotation; one turn and one run |
| `CanonicalJson.dfy` | key-order normal form |

## What turned out not to hold

Some promises of the code or its comments fail; the code was modelled as it is,
with the exact condition or a family of inputs proved.

- A failed unit is not always called again: a unit reported as failed is skipped
  from then on when its `applied` record landed and the failure went unrecorded
  (`FailedYetSkipped`), and a swallowed failure record lets a withdrawn version
  count as applied (`WithdrawnVersionIsSkipped`). Exactly when it is called, over
  histories, is `FailedUnitIsCalledIff`.
- A run that outlives the lock lets a second instance call a pending unit again
  (`OverrunAdmitsSecond`, `OverrunCallsTwice`).
- The baseline reconcile promises to keep the wider scope of a grant; with a
  duplicate it can keep the narrower, or reach further than either side
  (`BaselineNarrowsIff`, `BaselineWidensIff`, `PathsMoveIff`, `DuplicateNarrows`).
- A role whose write fails inside a pass is only logged and the unit recorded as
  applied: stripped exactly when no role whose write failed held a retired grant,
  and never visited again (`RecordedMeansStrippedIff`, `SwallowedWriteSticks`).
- With source deletion a crash between delete and rewrite strands the reference
  for good (`CrashAfterDeleteStrands`, by a run: `DyingRunStrands`; which ones:
  `StrandableIff`), and a key referenced twice stops the run (`RunTwice`).
- A copy replaces a private object where a key in scope clashes: a reference keeps
  what it resolves to exactly when it is public or its key is not such a one
  (`ReferenceSafeIff`, `SafeWithoutDeletionIff`, `RunTwice`).
- A crash between closing and inserting a price row makes the next run restart
  the key at the base date, overlapping exactly when a row of the key reaches past
  it (`CrashOverlapsIff`); that unit is not crash-safe under the runner
  (`SeedUnitIsNotRetryable`). A key without an open row can also change past
  prices when it is seeded (`HistoryChangesPastIff`).
- The seeded plan `Starter` carries a legacy name, so a fresh database ends
  without a starter plan until the seed is applied again
  (`TierCoveredIff`, `FreshDatabaseLosesStarter`, `ReseedCoversAll`), and
  enterprise plans said never to be deleted are, when legacy-named and
  unsubscribed (`DeletedIff`).
- Flattening is invertible exactly on the files of `RoundTripIff`; besides dotted
  keys and empty objects an object under the empty key is lost (`NotReadable`).
- Two pairs share a joined identifier, and one swallows the other, exactly when
  the identifiers of the two sides are not injective (`PairsKeptIff`); that takes a
  colon in a namespace (`IdInjective`), and an instance is `IdsCollide`.
- The conflict report is empty however many keys differ (`NothingReported`).
- A run that dies, or is cut between its two file writes, posts its inbox items
  again: each is posted once exactly when no run posted from the inbox without
  draining it (`InboxOnceIff`).
- A topic of the last ten days can come again with others unused: exactly when
  the state file has forgotten one, because its run died or forty kept posts came
  later, and the run count points at it (`RepeatsEarlyIff`); a dead first run is
  enough (`DeadRunRepeats`).
- A death between event insert and projection update leaves rows no rerun
  repairs: exactly those that got their event and not their projection
  (`StrandedByDeathIff`), reached by a dying run (`DyingRunStrands`).

## Model

| member | source | states |
|---|---|---|
| MigrationRunner.Runner.ApplyPending | src/migrations/migration-runner.service.ts:96-134 | the run loop leaves exactly the ledger, database, summary and way of ending of the run specification, whatever befalls each unit (a ledger read that throws, a throw, a crash, a ledger write that fails or lands although it reported failure) |
| MigrationRunner.Runner.RunAll | src/migrations/migration-runner.service.ts:76-89 | with the claim it is one run; without it nothing changes and the summary is empty |
| MigrationRunner.Runner.MarkBaseline | src/migrations/migration-runner.service.ts:142-162 | stamps the names up to any point of death, never touches the database |
| MigrationRunner.Runner.BaselineAllOnce | src/migrations/migration-runner.service.ts:165-167 | the same for the names of all `once` units |
| MigrationRunner.FailClosed | src/migrations/migration-runner.service.ts:99-131 | a run has one stopping point: it calls exactly the pending units up to it in registry order, leaves everything before it up to date, and touches no record behind it |
| MigrationRunner.SummaryIsExact | src/migrations/migration-runner.service.ts:97-133 | applied lists what was called when the run finished or could not read a record, all but the last otherwise; failed names that last unit only when the run threw |
| MigrationRunner.SecondRunIsNoOp | src/migrations/migration-runner.service.ts:102-108 | a run right after a finished one calls nothing, changes nothing, skips every unit |
| MigrationRunner.FailedUnitIsCalledIff | src/migrations/migration-runner.service.ts:99-130 | over all histories: after any failed attempt (`run` threw, a record could not be written, the process died), and whatever happened since without that unit, the next deployment that comes to it calls it exactly when the failure was recorded or the record left standing does not satisfy the version now registered; the version that failed is called exactly unless its `applied` record landed and the failure went unrecorded |
| MigrationRunner.FailedYetSkipped | src/migrations/migration-runner.service.ts:112-129 | that exception for every pending unit: the run throws and reports it as failed, and the next one calls nothing |
| MigrationRunner.WithdrawnVersionIsSkipped | src/migrations/migration-runner.service.ts:102-105 | the exception is reachable: after a swallowed failure record the withdrawn predecessor counts as applied |
| MigrationRunner.OnceNeverRunsAgain | src/migrations/migration-runner.service.ts:99-108 | over any history of growing registries, checksum changes, crashes, failed ledger writes, baselines and lost claims, a `once` unit applied or baselined is never called again |
| MigrationRunner.BaselineSettles | src/migrations/migration-runner.service.ts:142-162 | a baselined unit is not pending, convergent ones at the registered checksum; every other unit is as pending as before |
| MigrationRunner.OnceNamesAre | src/migrations/migration-runner.service.ts:165-167 | the full baseline names exactly the `once` units |
| MigrationRunner.ExactlyOnceInOrder | src/migrations/migration-runner.service.ts:96-134 | crash/retry refinement: after any history of deployments cut short anywhere, the first finished run leaves the database as if each unit pending at the start had run once, in order, given units that absorb their partial runs |
| RunnerEffects.RunIs | src/migrations/migration-runner.service.ts:96-134 | one run written out: it stops at the first unit whose record cannot be read or whose attempt does not complete; the units with no record, a failed one or (convergent) another checksum are called and the others skipped, in order; applied, skipped and failed list them, failed with the message; each called unit has an applied record with checksum and time, the one at the stop what befell it (a failed one keeps its earlier time and carries the message), every other record stays; and the database went through each call once |
| RunnerEffects.BaselineIs | src/migrations/migration-runner.service.ts:142-162 | a baselined record is applied, now, without error, at the checksum of the first unit registered under the name; all others stay |
| RunnerEffects.OnceNamesInOrder | src/migrations/migration-runner.service.ts:165-167 | a full baseline names the `once` units in registry order |
| SingleFlight.AtMostOneInside | src/common/scheduler/single-flight.service.ts:52-90 | while every run ends within its time to live, at most one worker is inside, and it holds the lock |
| SingleFlight.OverrunAdmitsSecond | src/common/scheduler/single-flight.service.ts:58-62 | conversely an overrun lets a second worker in from every state |
| SingleFlight.WhoGetsIn | src/common/scheduler/single-flight.service.ts:52-90 | claim by claim: nobody else gets in while the key is there, after a lost release or a death not before it expires, and a late release takes the key from nobody |
| Fleet.Serializable | src/migrations/migration-runner.service.ts:76-89 | while no run outlives the lock, any interleaving of any number of instances, reads and calls apart, each stopped anywhere, leaves the ledger, database and calls of deployments one after the other |
| Fleet.Realizable | src/migrations/migration-runner.service.ts:76-89 | conversely every deployment, however it ends, is what some instance can do on its own |
| Fleet.FleetExactlyOnce | src/migrations/migration-runner.service.ts:71-89 | hence after any such interleaving the first finished run leaves every unit pending at the start run once, in order |
| Fleet.FleetNeverRunsAgain | src/migrations/migration-runner.service.ts:99-108 | and none of the instances calls a `once` unit that is applied |
| Fleet.OverrunCallsTwice | src/common/scheduler/single-flight.service.ts:58-62 | when the lock expires between the read and the call of the instance inside, a second instance calls the same pending unit, whose effect is there twice |
| Permissions.UniqueLast | src/modules/rbac/permission-matcher.ts:19-29 | with unique paths the guard's first grant is the one a Map keeps, and the widest |
| GrantMerge.MergeRowsInto | src/migrations/reconcile-system-role-baseline.ts:63-90 | the nested-Map merge computes the merged rows, rewriting only when something was missing or narrower |
| GrantMerge.MergePathsInto | src/migrations/reconcile-system-role-baseline.ts:93-110 | the same for path grants |
| GrantMerge.MergedRowsDecide | src/migrations/reconcile-system-role-baseline.ts:63-90 | what the guard decides on any flat requirement afterwards, duplicates included |
| GrantMerge.MergedPathsDecide | src/migrations/reconcile-system-role-baseline.ts:93-110 | what the guard decides on any path afterwards, duplicates included |
| GrantMerge.BaselineIsLub | src/migrations/reconcile-system-role-baseline.ts:61-90 | with unique pairs a requirement is satisfied afterwards exactly when role or default satisfied it |
| GrantMerge.MergedPathsAreLub | src/migrations/reconcile-system-role-baseline.ts:92-110 | the same for paths |
| GrantMerge.BaselineNarrowsIff | src/migrations/reconcile-system-role-baseline.ts:64-84 | a stored all-scope grant is lost exactly when the role is rewritten, its last duplicate is narrower, and no default has it at all scope |
| GrantMerge.BaselineWidensIff | src/migrations/reconcile-system-role-baseline.ts:64-84 | a requirement becomes satisfied at all scope without a default granting it so exactly when the role is rewritten and its last duplicate is wider than its first |
| GrantMerge.PathsMoveIff | src/migrations/reconcile-system-role-baseline.ts:93-110 | exactly when a path merge loses and when it grants an all-scope path, duplicates included |
| GrantMerge.OnlyAllNarrows | src/migrations/reconcile-system-role-baseline.ts:64-84 | no other requirement is ever lost |
| GrantMerge.DuplicateNarrows | src/migrations/reconcile-system-role-baseline.ts:66-68 | a concrete role that is narrowed |
| GrantMerge.BaselineRerun | src/migrations/reconcile-system-role-baseline.ts:112-115 | a rerun finds every default covered in both stores and writes nothing |
| RoleMigrations.RewriteRole | src/migrations/backfill-permission-scopes.ts:51-85 | the imperative form of every pass, loop by loop, and whether it writes |
| RoleMigrations.AppendGrantTo | src/migrations/backfill-salary-declare-tax-grant.ts:63-109 | append-or-create with padding: next rows and whether anything is written |
| RoleMigrations.StripRole | src/migrations/strip-attendance-mark-edit-self-scope.ts:79-112 | the kept-actions loop and path filter, writing exactly when a retired self grant is present in either store |
| RoleMigrations.RoleStore.Run | src/migrations/backfill-hr-salary-sensitive-view.ts:43-97 | a pass role by role: every role rewritten except where its write fails, counters equal to the writes that succeeded and failed |
| RoleChain.BackfillMakesExplicit | src/migrations/backfill-permission-scopes.ts:58-77 | every row has equal-length arrays afterwards; all scopes are explicit exactly when no full-length array held a null |
| RoleChain.BackfillDecides | src/migrations/backfill-permission-scopes.ts:54-77 | which requirements the backfill widens: those whose scope was missing in an uneven row, outside the Member role |
| RoleChain.LockstepChain | src/migrations/backfill-permission-scopes.ts:58-77 | after the backfill any sequence of later passes keeps all rows in lockstep with explicit scopes |
| RoleChain.AppendDecides | src/migrations/backfill-salary-declare-tax-grant.ts:84-108 | the exact effect of an append on every requirement, padding included |
| RoleChain.PaddingNeverWidens | src/migrations/backfill-worker-regularization-grant.ts:58-78 | with explicit scopes an append grants its own pair at its scope and nothing else changes |
| RoleChain.HrBackfillNeverWidens | src/migrations/backfill-hr-salary-sensitive-view.ts:65-79 | reached through the chain, the all-scope padding of the HR backfill changes no other decision |
| RoleStrips.StripDecides | src/migrations/strip-attendance-mark-edit-self-scope.ts:84-107 | mark and edit survive exactly where an entry grants them at all scope; every other flat requirement is decided as before |
| RoleStrips.StripDecidesUnique | src/migrations/strip-attendance-mark-edit-self-scope.ts:84-107 | with unique pairs: granted afterwards exactly to those who held them at all scope |
| RoleStrips.StripPathDecides | src/migrations/strip-attendance-mark-edit-self-scope.ts:109-119 | the same for the path store |
| RoleStrips.StripIsComplete | src/migrations/strip-attendance-mark-edit-self-scope.ts:84-121 | no retired self grant is left in either store, and a rerun writes nothing |
| RoleStrips.OverridesKept | src/migrations/strip-attendance-mark-edit-self-scope.ts:145-158 | the kept member overrides are exactly the others, in their order |
| RoleStrips.MemberStore.StripOverrides | src/migrations/strip-attendance-mark-edit-self-scope.ts:135-169 | every member's overrides are stripped except where the save fails; the counters are the saves that succeeded and failed |
| RoleStrips.PathMergeKeepsOthers | src/migrations/backfill-role-attendance-permission-paths.ts:74-99 | paths outside the new modules are decided as before |
| RoleStrips.ConverterGrants | src/modules/rbac/permission-path.converter.ts:121-137 | the converter grants a path exactly when some entry maps to it, at all scope when one such entry has it |
| RoleStrips.PathMergeReAddsNone | src/migrations/backfill-role-attendance-permission-paths.ts:74-99 | from a clean role the path merge derives no retired self grant, for presets without them |
| RoleStrips.StripConverges | src/migrations/strip-attendance-mark-edit-self-scope.ts:47-50 | after the strip, whatever passes follow and however often, nothing is left for it to do |
| RoleStrips.StripTaxDecides | src/migrations/strip-employee-declare-tax-grant.ts:45-64 | exactly the declare_tax requirements become unsatisfied |
| RoleStrips.BaselineRegrantsTaxIff | src/migrations/reconcile-system-role-baseline.ts:72-83 | a reconcile after the strip grants the action again exactly as far as the default does |
| RoleStrips.TaxStaysStripped | src/migrations/strip-employee-declare-tax-grant.ts:45-64 | with defaults lacking it the action stays gone through any later passes |
| RoleEffects.WorkerGetsRegularizations | src/migrations/backfill-worker-regularization-grant.ts:45-78 | a system Worker whose first attendance row lacks it gets attendance manage_regularizations at self scope; no other requirement and no other role moves, and every stored scope stays |
| RoleEffects.HrGetsSensitiveView | src/migrations/backfill-hr-salary-sensitive-view.ts:46-79 | a system HR gets salary sensitive_view at all scope, and salary actions without a stored scope are widened with it, none when scopes are explicit; no other role moves |
| RoleEffects.WhoDeclaresTax | src/migrations/backfill-salary-declare-tax-grant.ts:53-109 | the pass writes exactly a system Worker or HR that lacks the grant; Worker gets salary declare_tax at self scope and never at all, HR at all scope; no other role moves |
| RoleEffects.PathMergeDecides | src/migrations/backfill-role-attendance-permission-paths.ts:63-99 | a role with paths gains exactly the paths under attendance, leave and regularization that the first default of a system role's name, or else its converted flat rows, offer, at the wider scope; flat rows and roles without paths stay |
| RoleEffects.BaselineDecides | src/migrations/reconcile-system-role-baseline.ts:49-115 | a system role with a default of its name is granted afterwards what either grants, in both stores; every other role stays |
| RoleEffects.StripLeaves | src/migrations/strip-attendance-mark-edit-self-scope.ts:79-121 | attendance mark and edit, and their two paths, are granted afterwards exactly where an entry holds them at all scope; every other decision stays |
| RoleEffects.StripKeepsRest | src/migrations/strip-attendance-mark-edit-self-scope.ts:84-119 | what a stripped role keeps, entry by entry and in order, in both stores |
| RoleEffects.WhoLosesTax | src/migrations/strip-employee-declare-tax-grant.ts:36-64 | a system Employee or Accountant loses salary declare_tax and nothing else; no other role moves |
| RoleUnits.RewriteIdempotent | src/migrations/strip-employee-declare-tax-grant.ts:62-64 | every pass writes nothing on a role it has rewritten |
| RoleUnits.WritesIffChanges | src/migrations/reconcile-system-role-baseline.ts:112-115 | a pass reports a write exactly when it changes the role |
| RoleUnits.RegistryIs | src/migrations/migrations.module.ts:564-914 | which passes the registry lists, and in which order |
| RoleUnits.KindIs | src/migrations/migrations.module.ts:897-902 | each pass runs once, the reconcile again with every version of the defaults |
| RoleUnits.UnitIs | src/migrations/backfill-hr-salary-sensitive-view.ts:43-97 | role by role what a run does, and what one stopped after any role leaves |
| RoleUnits.UnitRetryable | src/migrations/migrations.module.ts:565-618 | every role pass, whichever role writes fail in it, absorbs a run of itself stopped after any role |
| RoleUnits.ChainSurvivesCrashes | src/migrations/migrations.module.ts:565-618 | role by role, after any history of deployments stopped anywhere, each with its own failing role writes, a role is the chain of exactly the passes some attempt wrote it in; none is pending any more, and they are all that were when no write of the role ever failed |
| RoleUnits.SameFailuresThroughout | src/migrations/migrations.module.ts:565-618 | the runner's refinement for the role chain: with the same failing writes throughout, crashes and retries change nothing |
| RoleUnits.ExplicitFromBackfillIff | src/migrations/backfill-permission-scopes.ts:58-77 | from the backfill on a role's scopes stay explicit exactly when it was written without full-length nulls, or not written and explicit already |
| RoleUnits.CleanFromStripIff | src/migrations/strip-attendance-mark-edit-self-scope.ts:79-131 | from the strip on a role stays without retired self grants exactly when the strip wrote it or found none |
| RoleUnits.UpgradedRolesAreSound | src/migrations/migrations.module.ts:896-913 | both conditions for what an upgrade ends with, through any crashes and failing role writes; and both hold for a null-free role on a fresh ledger whose writes never failed |
| RoleUnits.RecordedMeansStrippedIff | src/migrations/strip-attendance-mark-edit-self-scope.ts:124-131 | the strip is recorded as applied; no role has a retired grant left exactly when no role whose write failed had one |
| RoleUnits.SwallowedWriteSticks | src/migrations/strip-attendance-mark-edit-self-scope.ts:124-131 | and over any history of deployments, baselines and lost claims afterwards no run calls the unit again |
| PlanPipeline.Store.RunProToGrowth | src/migrations/migrate-pro-to-growth.ts:45-69 | the renamed catalogue, and exactly when the pro tier is renamed or deleted |
| PlanPipeline.Store.RunSeed | src/migrations/seed-default-tiers-and-plans.ts:184-306 | missing tiers and plans added, with exact counts and fresh identifiers |
| PlanPipeline.Store.RunRetire | src/migrations/retire-legacy-erp-plans.service.ts:87-153 | the three passes of the retirement with exact counts |
| PlanPipeline.Store.RunReconcile | src/migrations/reconcile-erp-plan-entitlements.service.ts:73-128 | caps and prices forced key by key; the two counters are the tiers and the plans that were not so before |
| PlanPipeline.CatalogueIsCanonical | src/migrations/reconcile-erp-plan-entitlements.service.ts:105-119 | at the end no ERP enterprise or custom plan is visible, legacy leftovers are inactive and subscribed to, and the tiers on offer carry the listed caps and prices |
| PlanPipeline.TiersAreCanonical | src/migrations/reconcile-erp-plan-entitlements.service.ts:82-93 | every tier on offer exists with its listed caps, pro is gone, enterprise inactive |
| PlanPipeline.SeedAdds | src/migrations/seed-default-tiers-and-plans.ts:226-303 | seeding adds one plan under a fresh identifier for each uncovered tier and changes nothing else |
| PlanPipeline.DeletedIff | src/migrations/retire-legacy-erp-plans.service.ts:122-141 | the pipeline deletes exactly the legacy-named ERP plans without subscription, of any tier |
| PlanPipeline.SubscriptionsResolve | src/migrations/retire-legacy-erp-plans.service.ts:132-152 | every subscription still points at an existing plan |
| PlanPipeline.OrdinaryPlanKept | src/migrations/reconcile-erp-plan-entitlements.service.ts:105-119 | an ordinary ERP plan ends as itself field by field, pro turned growth, at the listed caps and price if its tier is on offer |
| PlanPipeline.ConnectKept | src/migrations/retire-legacy-erp-plans.service.ts:82-84 | a Connect plan keeps every field but a pro label |
| PlanPipeline.TierCoveredIff | src/migrations/seed-default-tiers-and-plans.ts:226-241 | exactly which canonical tiers still have an ERP plan at the end |
| PlanPipeline.FreshDatabaseLosesStarter | src/migrations/retire-legacy-erp-plans.service.ts:57-62 | a database without plans ends without a starter plan |
| PlanPipeline.ReseedCoversAll | src/migrations/seed-default-tiers-and-plans.ts:222-306 | applying the seed again covers every tier |
| PlanEffects.RenameIs | src/migrations/migrate-pro-to-growth.ts:45-69 | every field of every plan and every tier after the rename: only pro labels change, and the pro tier becomes Growth unless growth exists |
| PlanEffects.SeedIs | src/migrations/seed-default-tiers-and-plans.ts:226-303 | every plan stays; each tier on offer that no ERP plan sells gets one plan, in list order under consecutive fresh identifiers: active, visible and not custom except the custom one, free the default, at list price and the capacity of its tier |
| PlanEffects.SeedTierIs | src/migrations/seed-default-tiers-and-plans.ts:188-219 | tiers found stay; a missing one on offer is created active, under its name, with its list capacity |
| PlanEffects.RetireIs | src/migrations/retire-legacy-erp-plans.service.ts:87-153 | which plans stay, in order, with which flags: obsolete ones without a subscription go, subscribed ones and enterprise go off sale, custom is hidden and flagged, nothing else changes; the enterprise tier goes inactive |
| PlanEffects.ReconcileIs | src/migrations/reconcile-erp-plan-entitlements.service.ts:73-119 | every field of every plan and tier: only capacity and price of ERP plans on offer, and capacity of tiers on offer, change, and those to the list |
| PlanEffects.PipelineIs | src/migrations/migrations.module.ts:858-876 | the finished catalogue exactly: which found and seeded plans are in it, and every field of each |
| PlanEffects.TierIs | src/migrations/migrations.module.ts:858-876 | which tiers there are at the end, and name, activity and capacity of each |
| PlanUnits.UnitRetryable | src/migrations/migrations.module.ts:635-640 | each of the four units absorbs a run of itself stopped after any single update |
| PlanUnits.HaltsSpan | src/migrations/migrations.module.ts:635-640 | the points a unit can be stopped at reach from nothing done to every plan done |
| PlanUnits.PipelineSurvivesCrashes | src/migrations/migrations.module.ts:858-876 | after any interrupted history the catalogue is the one the undisturbed pipeline makes |
| PriceHistory.CostTable.RunSeed | src/migrations/seed-msg91-costs.ts:89-126 | the table and counts of a run, and the table left by a death before or after any close; as many rows more as were inserted |
| PriceHistory.HistoryIsSound | src/migrations/seed-msg91-costs.ts:89-126 | over any crash-free history with a monotone clock: one open row per key, intervals never overlap |
| PriceHistory.PastChangesIff | src/migrations/seed-msg91-costs.ts:114-124 | exactly when a seed line changes the price the lookup finds at a past instant: no open row, and the base date reaches back to an instant without a row, or with one of another cost that took effect before the base date |
| PriceHistory.HistoryChangesPastIff | src/migrations/seed-msg91-costs.ts:89-126 | over any crash-free history: its first line for the key does so, and no later one can |
| PriceHistory.InForceIs | src/modules/sms/sms.service.ts:298-309 | the lookup finds a row exactly when one covers the instant, and then one that took effect last |
| PriceHistory.PastIsKept | src/modules/sms/sms.service.ts:298-309 | for a key with an open row no crash-free history changes a past price |
| PriceHistory.PriceMoved | src/migrations/seed-msg91-costs.ts:114-124 | a reprice at every instant: the old prices up to the close, none between close and insert, the new cost from the insert on |
| PriceHistory.PriceStarted | src/migrations/seed-msg91-costs.ts:107-124 | the first line for a key: its cost from the base date on, nothing before |
| PriceHistory.PriceAfterSeed | src/migrations/seed-msg91-costs.ts:89-124 | from a sound table, whatever it holds: from the insert on the price of the key is the cost of the line, and other keys keep theirs at every instant |
| PriceHistory.PriceAfterHistory | src/modules/sms/sms.service.ts:298-309 | after any crash-free history the lookup finds the cost of the last line for the key, and without a line what it found before |
| PriceHistory.SeedKeepsDisjointIff | src/migrations/seed-msg91-costs.ts:107-124 | seeding keeps a key's intervals apart exactly when it has an open row or nothing of it reaches past the base date |
| PriceHistory.CrashOverlapsIff | src/migrations/seed-msg91-costs.ts:107-121 | exactly when a run after a death between close and insert overlaps |
| PriceHistory.CrashOverlaps | src/migrations/seed-msg91-costs.ts:107-121 | it does when the closed row and the base date lie before the close |
| PriceHistory.SeedUnitIsNotRetryable | src/migrations/migrations.module.ts:647-650 | the unit misses the hypothesis of the runner's refinement |
| IndexSwap.Collection.Run | src/migrations/migrate-workspace-member-partial-index.ts:49-133 | exactly the atomic events of a run, in order, and its report, for each combination of failing calls, calls that landed although they failed, and writes of other clients before each |
| IndexSwap.StepGuardedIff | src/migrations/migrate-workspace-member-partial-index.ts:76-79 | of all atomic events exactly the drop without the partial index loses the guard |
| IndexSwap.GuardedThroughoutIff | src/migrations/migrate-workspace-member-partial-index.ts:49-133 | for any sequence of events from a guarded state: every state on the way has a guard exactly when each drop comes while the partial index is in place |
| IndexSwap.RunDropsLast | src/migrations/migrate-workspace-member-partial-index.ts:60-106 | the run, whichever calls fail and from any state, drops only while the partial index is in place |
| IndexSwap.NeverUnguarded | src/migrations/migrate-workspace-member-partial-index.ts:49-133 | hence over any number of runs no state on the way is unguarded or holds a duplicate |
| IndexSwap.LegacyGoneIff | src/migrations/migrate-workspace-member-partial-index.ts:60-116 | exactly when a run leaves no legacy index behind |
| IndexSwap.WriteKeepsGuarded | src/migrations/migrate-workspace-member-partial-index.ts:16-22 | no insert, update or delete of another client breaks a guard |
| IndexSwap.GuardedHasNoDuplicates | src/migrations/migrate-workspace-member-partial-index.ts:76-79 | a guarded state holds no two rows with the same workspace and user, and never blocks the new index |
| IndexSwap.NullAcceptedIff | src/migrations/migrate-workspace-member-partial-index.ts:17-22 | a further user-less row is accepted exactly without the legacy index or without another in the workspace |
| IndexSwap.SwapSafely | src/migrations/migrate-workspace-member-partial-index.ts:49-133 | runs one after the other on one collection have exactly these events and reports, are guarded and free of duplicates at every event, and after one clean run accept user-less rows |
| IndexEffects.IndexesAfter | src/migrations/migrate-workspace-member-partial-index.ts:60-131 | exactly which of the three indexes are there after a run, by the calls that took effect and the rows the build found |
| IndexEffects.ReportIs | src/migrations/migrate-workspace-member-partial-index.ts:50-133 | every flag and the error count of the report; no error exactly when both indexes are ensured and the legacy one is dropped or absent |
| IndexEffects.WriteIs | src/migrations/migrate-workspace-member-partial-index.ts:16-22 | what another client's write does to the rows, and exactly when it is refused, for missing, null and named users |
| PrivateMedia.Mover.MoveObject | scripts/migrate-private-media.ts:115-145 | copy, verify, delete: how it ends for every reply to its calls, and what the buckets are afterwards; nothing landed is ever unlanded |
| PrivateMedia.Mover.MigrateDecided | scripts/migrate-private-media.ts:98-149 | which counter each decision and outcome goes to |
| PrivateMedia.Mover.MigrateValue | scripts/migrate-private-media.ts:98-149 | a new reference only for an object that landed; the reference is counted once under its kind |
| PrivateMedia.Mover.MigrateSlots | scripts/migrate-private-media.ts:169-182 | the references of a document in order; without failures they complete exactly when their sources can be moved |
| PrivateMedia.Mover.Run | scripts/migrate-private-media.ts:151-216 | dry runs change nothing and predict the count; every reference in scope is counted once, under its kind; without failures exactly when it completes and what both buckets and the documents are then |
| PrivateMedia.MoveIsSafe | scripts/migrate-private-media.ts:122-148 | over all runs, crashes and restarts, from any world: no object leaves both buckets, what a key stands for stays the same, private objects change only under replaceable keys, references keep their key, and rewritten ones are backed by the private bucket |
| PrivateMedia.ReferenceSafeIff | scripts/migrate-private-media.ts:115-148 | exactly which references keep what they resolve to at every stop (or wait for it under their key in the private bucket): the public ones, and the private ones whose key has no different public object that a document in scope refers to |
| PrivateMedia.SafeWithoutDeletionIff | scripts/migrate-private-media.ts:122-148 | with the public bucket kept, exactly these resolve to the same content at every stop |
| PrivateMedia.StrandableIff | scripts/migrate-private-media.ts:142-148 | exactly which references some stop strands: the public ones whose key a document in scope refers to |
| PrivateMedia.CanMoveIff | scripts/migrate-private-media.ts:142-145 | a run can complete exactly when all sources exist and, with deletion, no key is referenced twice |
| PrivateMedia.CrashAfterDeleteStrands | scripts/migrate-private-media.ts:142-148 | a crash after a delete leaves the reference dangling and every rerun failing |
| PrivateMedia.DyingRunStrands | scripts/migrate-private-media.ts:142-148 | a run that dies in its first delete reaches that state: every reference to the key is stranded and no rerun completes |
| PrivateMedia.NewRefIsPrivate | src/modules/uploads/private-media.migration.ts:36-50 | a written reference is skipped from then on and stands for the same key |
| PrivateMedia.RewrittenIsDone | scripts/migrate-private-media.ts:166-216 | after a completed run nothing in scope is migratable |
| PrivateMedia.RunTwice | scripts/migrate-private-media.ts:151-216 | exact completion condition; both buckets afterwards key by key; private objects are kept exactly when no moved key clashes with one; a rerun does nothing |
| MediaEffects.DecideIs | src/modules/uploads/private-media.migration.ts:36-50 | the four decisions from the reference and the base alone: skipped when empty, when it starts with the private scheme, or when it is not the public URL (one trailing slash of the base ignored, query cut off) of a non-empty key |
| MediaEffects.RewrittenDocIs | scripts/migrate-private-media.ts:166-216 | field by field: media and audio of every message, voice note and resume of every application, and the file of an upload event of the three private categories take the private reference of the public key they name; nothing they hold is public afterwards; upload events of other categories stay |
| MediaEffects.CompletedRun | scripts/migrate-private-media.ts:151-216 | a run that completes leaves every document so |
| MediaEffects.DocKeysAre | scripts/migrate-private-media.ts:166-216 | the keys a run moves are those of the public references in scope, document by document and field by field, repeats included |
| MediaEffects.LookedAtIs | scripts/migrate-private-media.ts:169-210 | which references of a document are counted: all, unless its query leaves it out |
| Splice.SpliceAll | scripts/tag-legacy-unclassified.ts:217-221 | the descending splice loop yields the simultaneous insertion |
| Splice.SpliceIsSimultaneous | scripts/tag-legacy-unclassified.ts:217-221 | one-by-one splicing in stable descending order is insertion at the original offsets, ties in reverse list order |
| Splice.TakingOutInserts | scripts/tag-legacy-unclassified.ts:218-221 | removing the inserted spans gives the original back |
| Splice.SpliceAround | scripts/tag-legacy-unclassified.ts:206-221 | edits of two stretches and one insert between them, ties included, edit each stretch |
| Codemod.AnalyzeControllers | scripts/tag-legacy-unclassified.ts:94-131 | the analysis with offsets, counts and class markers |
| Codemod.NeedsTagIff | scripts/tag-legacy-unclassified.ts:193-195 | the filter selects exactly the controllers with a bare route |
| Codemod.TaggingIsComplete | scripts/tag-legacy-unclassified.ts:193-231 | no bare route is left and a second pass tags nothing |
| Codemod.TaggingTouchesNothingElse | scripts/tag-legacy-unclassified.ts:204-216 | all other statements are unchanged and in order |
| Codemod.SpliceIsTagging | scripts/tag-legacy-unclassified.ts:206-222 | the spliced text is the text of the tree with one decorator per tagged controller and at most one import after the last |
| Codemod.Run | scripts/tag-legacy-unclassified.ts:174-251 | what is written per file; an applying run passes its verification, a checking run exactly when no route is bare |
| CodemodEffects.BareIff | scripts/tag-legacy-unclassified.ts:42-66 | from the decorators alone: no bare route exactly when the class carries one of the four class markers or each method with an HTTP decorator one of the five handler markers |
| CodemodEffects.AnalysesAre | scripts/tag-legacy-unclassified.ts:94-131 | the analyses are those of the named controllers in order, with name, insert offset, number of handlers and of bare ones, and the two flags |
| CodemodEffects.TaggedCountIs | scripts/tag-legacy-unclassified.ts:193-202 | as many controllers are tagged as are unclassified |
| CodemodEffects.TaggedIs | scripts/tag-legacy-unclassified.ts:193-222 | the tree after a run statement by statement: exactly the unclassified controllers have the decorator in front, and the import stands after the last one exactly when something was tagged and no import of the decorator is there |
| CodemodEffects.WrittenIs | scripts/tag-legacy-unclassified.ts:193-222 | a file is written exactly when applying and one of its controllers is unclassified |
| CodemodEffects.BareReportedIff | scripts/tag-legacy-unclassified.ts:174-251 | bare routes are counted exactly when some controller is unclassified, so a classified one is neither counted nor tagged |
| Flatten.FlattenInner | src/seed-translations.ts:123-141 | the recursion into the shared array appends the flat form |
| Flatten.FlattenTranslations | src/seed-translations.ts:143-157 | the flat form of a file |
| Flatten.RoundTripIff | src/seed-translations.ts:123-157 | for every file whose neighbouring keys differ, as in any JSON object: it is recovered from its flat form exactly when it has no dotted keys, empty objects, bare top levels or objects under the empty key of a namespace |
| Flatten.NotReadable | src/seed-translations.ts:123-157 | witnesses for each clause: pairs of different files with one flat form |
| TranslationSeed.MergeTranslations | src/seed-translations.ts:159-193 | merged entries and collected conflicts of the two loops |
| TranslationSeed.MergeIsUnion | src/seed-translations.ts:167-192 | identifier by identifier the merge is the web-biased union with the right platforms |
| TranslationSeed.MergedList | src/seed-translations.ts:159-193 | with injective identifiers one entry for exactly the pairs of either side |
| TranslationSeed.PairsKeptIff | src/seed-translations.ts:159-193 | every pair of either side has an entry of its own exactly when the joined identifiers are injective |
| TranslationSeed.IdInjective | src/seed-translations.ts:168-173 | namespaces without a colon make identifiers injective |
| TranslationSeed.IdsCollide | src/seed-translations.ts:168-173 | a witness: two pairs merged into one entry |
| TranslationSeed.MergedDistinct | src/seed-translations.ts:192 | no pair occurs twice in the merged list |
| TranslationSeed.ConflictsAreDiffering | src/seed-translations.ts:175-182 | the collected list holds exactly the differing keys |
| TranslationSeed.SelectedIff | src/seed-translations.ts:599-607 | the report selects an entry exactly when the web lists the pair twice, differently, and the mobile side differs |
| TranslationSeed.NothingReported | src/seed-translations.ts:599-607 | with unique web keys it selects nothing |
| TranslationSeed.TranslationStore.SeedLanguage | src/seed-translations.ts:627-673 | rows and bundle version after a live run, nothing after a dry one, and the same counts for both |
| TranslationSeed.SeedOnlyAdds | src/seed-translations.ts:631-658 | without force every row stays and exactly the missing keys are added |
| TranslationSeed.SecondSeedChangesNothing | src/seed-translations.ts:631-658 | a second run inserts nothing and changes nothing |
| TranslationSeed.OrphansUnchanged | src/seed-translations.ts:705-727 | seeding neither makes nor removes orphans |
| TranslationEffects.MergedIs | src/seed-translations.ts:159-193 | for every joined identifier of either side the list has the pair of the mobile's last entry or else of the web's first, the web's last value or else the mobile's, and the platforms that have it |
| TranslationEffects.MergedFrom | src/seed-translations.ts:159-193 | and nothing else |
| TranslationEffects.ConflictsAre | src/seed-translations.ts:175-182 | a conflict is a web entry whose identifier the mobile side has, last with another value |
| TranslationEffects.SeededRowIs | src/seed-translations.ts:631-658 | every row after a live run: value and platforms of its merged entry where it was missing or the run forced, else as it was |
| AttendanceBackfill.Backfill.FlushBatch | scripts/migrate-attendance-events.ts:138-158 | whose events a flush inserts and which rows it projects; in a dying one any subset of the events, and projections only after all of them |
| AttendanceBackfill.Backfill.Run | scripts/migrate-attendance-events.ts:163-257 | for every batch size the same events, rows and counts, equal to the planned ones; dry runs write nothing and count the same; exactly when a run dies, in which batch, and what events and rows it leaves |
| AttendanceBackfill.OneEventEach | scripts/migrate-attendance-events.ts:180-188 | one migration event per row with a status |
| AttendanceBackfill.DeathThenRerun | scripts/migrate-attendance-events.ts:180-188 | still exactly one after a completed rerun over the rows and events a death left |
| AttendanceBackfill.RowAfter | scripts/migrate-attendance-events.ts:233-245 | planned rows are projected, all others stay |
| AttendanceBackfill.VersionNeverFalls | scripts/migrate-attendance-events.ts:241-242 | projection versions never decrease |
| AttendanceBackfill.StrandedByDeathIff | scripts/migrate-attendance-events.ts:138-158 | which planned rows a dying run strands, before and after a completed rerun: exactly those of the batch it dies in whose event was inserted, unless the whole batch was and their projection is among those written |
| AttendanceBackfill.DyingRunStrands | scripts/migrate-attendance-events.ts:138-158 | every planned row without a projection is stranded by some dying run |
| AttendanceBackfill.StrandedForGood | scripts/migrate-attendance-events.ts:182-188 | a completed run leaves exactly the rows stranded before stranded |
| AttendanceBackfill.SecondRunPlansNothing | scripts/migrate-attendance-events.ts:180-188 | a second live run plans nothing |
| AttendanceEffects.CompletedRun | scripts/migrate-attendance-events.ts:163-257 | a completed run for every batch size: which rows get an event, in order, every field of it and of the projected row, all other rows as they were, and the counts |
| Autopost.Poster.NextContent | scripts/connect-auto-post.ts:91-120 | inbox first, then the rotation with its fallback |
| Autopost.Poster.Run | scripts/connect-auto-post.ts:156-262 | posts and files of a live run, a dry run, a death after any post and a cut between the two file writes |
| Autopost.InboxDrained | scripts/connect-auto-post.ts:92-103 | every turn takes one inbox item; postable ones appear once each, in order |
| Autopost.InboxOnceIff | scripts/connect-auto-post.ts:92-103 | over all histories of runs, dying and cut ones included: the inbox file is what is left behind the items taken, and the inbox posts are the postable ones among those, each once and in order, exactly when no run posted from the inbox without draining it |
| Autopost.Remembers | scripts/connect-auto-post.ts:252-255 | over all histories the state file holds exactly the newest forty rotation posts of the runs that lived to write it |
| Autopost.KeptIsPosted | scripts/connect-auto-post.ts:252-255 | and every one of those was posted |
| Autopost.RepeatsEarlyIff | scripts/connect-auto-post.ts:104-110 | over all histories and mid-run, exactly when a turn posts a topic of the last ten days with others unused: for some run count, when it rotates, a topic is unused and one of the ten days is missing from the newest forty kept posts; for the run count at hand, when it points at such a topic in the pool |
| Autopost.DeadRunRepeats | scripts/connect-auto-post.ts:252-262 | a run that dies after its first rotation post, and the next one posting the same topic within ten days though another is unused |
| Autopost.RepeatsOnlyWhenExhausted | scripts/connect-auto-post.ts:104-110 | over all histories, with at most forty remembered rotation posts in ten days a topic used in them is picked exactly when all were |
| AutopostEffects.TurnIs | scripts/connect-auto-post.ts:91-120 | one turn from the files alone: a non-blank inbox item is posted trimmed; otherwise the topic the run count points at among those unused for ten days, or among all when none is, and the newest forty uses are kept; item and count move on either way |
| AutopostEffects.RunIs | scripts/connect-auto-post.ts:156-262 | one run: that many such turns; a dry run changes nothing, a dying one leaves both files, a cut one the inbox |
| CanonicalJson.SortDeeply | scripts/export-upload-policies.ts:34-44 | refilling objects by sorted keys computes the canonical form |
| CanonicalJson.SameFormIff | scripts/export-upload-policies.ts:34-44 | two values have the same form exactly when they differ only in key order |
| CanonicalJson.LookupsPreserved | scripts/export-upload-policies.ts:38-40 | every lookup and all array orders are preserved |
| CanonicalJson.Idempotent | scripts/export-upload-policies.ts:33-44 | the form is a fixed point |
| CanonicalJson.LessIff | scripts/export-upload-policies.ts:38 | the order of keys: a proper prefix first, else the first differing character decides |
| CanonicalJson.FormAscends | scripts/export-upload-policies.ts:34-44 | at every depth the keys of the form ascend |
| CanonicalJson.FormIsSame | scripts/export-upload-policies.ts:34-44 | the form is the value itself up to key order |

## Left out

- Database, object-store, Redis and Nest drivers: stores are maps and sequences, calls are steps that may fail; single-document updates and object copies are atomic.
- Ledger bookkeeping that decides nothing: durations, the runner tag, the length limit on error messages.
- `onApplicationBootstrap`: it only decides whether to call the run and swallows its error.
- The default roles and the legacy action-to-path table: parameters, with the hypotheses written at each lemma.
- Missing scopes on stored path grants: the schema requires them, so path grants always carry one.
- The order in which one pass visits roles (the declare_tax pass goes Worker first, then HR): roles are independent.
- The near-copies of the modelled grant backfills (leave, request-advance, request-loan, finance-payable, workspaces-view) and the override-to-path migration.
- Plan fields other than name, tier, product, flags, caps and prices.
- IndexSwap.Collection.Run: an index build is one step; the legacy index skips rows without the user field, as the source's comment says, while rows with a null user are entered.
- PriceHistory.HistoryIsSound: the lookup's tie between rows with the same start is resolved to the first; lookups in the gap between a close and its insert find no row.
- PrivateMedia.Mover.Run: the three cursor loops are one loop over the documents in the order the cursors deliver them; size verification compares whole objects because copies are atomic.
- Fleet.Serializable: one attempt at a unit, with the ledger write that ends it, is a step; `now` is read once per run, and baselines are not among the events.
- Codemod.SpliceIsTagging: the TypeScript parser is not modelled; a file is a syntax tree that keeps its text, and the edited text is read back as the edited tree. The directory walk and the relative import path are parameters.
- Flatten.RoundTripIff: string leaves only; other leaves are turned into strings by the source and cannot be recovered.
- Translation validation reports before seeding, and the language documents' other fields.
- AttendanceBackfill.Backfill.Run: one clock reading per run; the batch holds the planned rows their event and projection are made from; the fields of an event that are the same for all or copied unread (workspace, device, punch type, correction) are left out.
- Autopost.Poster.Run: each of the two file writes is atomic; `writeFileSync` is not, and a truncated file is read back as empty. Authors, media, comments and followers do not decide what is posted; trimming covers the four ASCII blanks.
- CanonicalJson.LessIff: characters are compared as code points; JavaScript compares UTF-16 code units, which order characters beyond the basic plane differently.
- CanonicalJson.SortDeeply: integer-like keys, which JavaScript enumerates first, and the key `__proto__`; the printed text is a function of the canonical value and is not modelled.
