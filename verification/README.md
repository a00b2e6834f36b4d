# Module distribution, modelled

A Dafny model of the engine that picks, orders, verifies and installs Flowdular modules, with
proofs of what it promises, and of the few scanner, printer and reporter cores that go with it.
`dafny verify dfyconfig.toml` checks everything.

## What is modelled

- **Versions, manifests, registry** (`Versions`, `Manifests`, `Registry`): ranges as alternatives
  of comparators, the platform gate, one provider per capability, the registry over a set of
  manifests.
- **Composition order** (`Ordering`, `OrderingTheorems`, `Composing`, `Enablement`,
  `OrderStability`): the depth-first walk over dependencies and capability providers as a function,
  an object that runs it with its mutable path and order, the enable and disable commands built on
  it, and when composing an order again gives the same order.
- **Resolver** (`Resolving`, `ResolvingTheorems`, `ResolverRun`, `Registration`): the backtracking
  search with its attempt counter, an object that fills the candidate and provider indexes and
  searches, the registry pass over the result, and when that pass takes what was found. Termination
  needs no attempt counter: every recursive call lowers the pair of catalog ids not selected yet
  and wants left.
- **Artifacts** (`FileTree`, `Artifact`): paths and files of an artifact, staging them into a tree,
  hashing and reading a tree back.
- **Installer** (`InstallPlan`, `InstallPlanning`, `InstallAdmission`, `InstallProtocol` and the
  other `Install…` theorem modules, `InstallerSteps`, `InstallerRun`): what an install decides before
  it touches anything, and exactly which plans it accepts; the journaled transaction as a machine of
  atomic steps taken by any number of processes, each of which may fail or die between any two
  steps; and the installer and recovery commands as an object that makes those steps one after the
  other.
- **Plans** (`Plans`, `PlanRuns`): the plan store, one command at a time and as a machine of
  concurrent writers and removers.
- **Smaller cores**: the attribute scanner and fixer (`DomProperties`, `DomPropertyTheorems`), JSON
  and literal printing (`Texts`, `Json`, `JsonTheorems`, `Literals`), the scaffold's undo log
  (`Scaffold`), the bounded search reporter (`WebSearch`).

Where the code changes an object or loops over a list, the model has a class or a loop, proved
against a function or a step of the machine; the theorems are about those.

## How it is read

- SHA-256 is an injective constructor; a lock digest equals another only for equal text, a plan id
  only for equal content.
- `localeCompare` is modelled as code-unit order.
- Directories, the lockfile and the transaction directory are values of the disk; each rename,
  each lock write, each recursive removal and the staging of one entry is one step.
- `maker` and `job` of a transaction name the install in progress for the theorems; no step reads
  them.
- The lockfile is read in one step and the directories are checked in another, later one. What was
  seen of the directories is given with that step; each may have been read at a different moment.
- A process is alive until it stops; recovery asks for the owner's liveness and is told the truth.
  Any number of recoveries may start, and each goes on from the journal it read, whatever becomes
  of the transaction directory. An installer whose transaction directory was taken away fails at
  its next step that needs it, and its error handler rolls back from the journal it holds.
- The invariant of the protocol is `InstallTheorems.Inv`; what users see is
  `InstallTheorems.Workspace`. The theorems about runs ask that each step be benign
  (`InstallRefinement.Benign`), which says something of three kinds of steps and nothing of the
  others. Nothing is asked of plans, and nothing of how steps interleave.
  - An installer that writes its journal does not find, in place of the lock it planned against,
    exactly the lock it would write. Without it `InstallProgress.OnePlanTwiceLosesTheLock`.
  - A recovery does not step on an unguarded entry: an update to the very files it replaces whose
    old directory an earlier recovery has put back. Without it
    `InstallRepeats.RecoveringTwiceLosesADirectory`. A recovery whose transaction was taken away
    only takes steps that leave the disk as it is; without it
    `InstallRepeats.RecoveringAtOnceLosesAModule`. Unless the transaction of another installer is
    there, both are exact: such a step keeps the invariant if and only if it is benign
    (`InstallStale.RecoveryStepIsBenignExactly`).
  - A recovery does not remove the transaction of another installer. Without it
    `InstallRepeats.CleaningAtOnceLosesADirectory`.
- Recoveries of one install may overlap as they like: unless the plan updates a module to the very
  files it has, all their steps are benign
  (`InstallRecoveries.RecoveriesOfOneInstallAreBenign`).
- A number is its sign, its shortest decimal digits and a power of ten; how these are found from
  the bits of a double is not part of this model.
- A model call of the search reporter ends before the next begins; two streams flushing at once
  would share the counter and could exceed the limit.

## What the code does not promise

- Recovery that is cut off and run again can lose a module whose update has the very same files.
  Rolling an interrupted install back restores everything exactly when no entry is unguarded
  (`InstallLimits.RecoveryIsReentrantExactly`), so always when no update has the same files, and
  always the first time. For every plan with such an update there is a run of an installer and two
  recoveries, one after the other, that ends with the module gone and all else as before
  (`InstallRepeats.RecoveringTwiceLosesADirectory`).
- Two recoveries at once are not kept apart. That alone does no harm: one that goes on after the
  other has ended leaves the disk as it is if and only if no update has the same files
  (`InstallStale.LateRecoveryIsIdleAtHome`); on any disk, if and only if it meets something that is
  neither new nor old before whatever it would take out or take back
  (`InstallStale.LateRecoveryIsIdleExactly`). When the same plan is applied meanwhile it finds the
  new files instead, and takes a module out of the finished install
  (`InstallRepeats.RecoveringAtOnceLosesAModule`), or it removes the transaction directory of the
  new install with the backups in it (`InstallRepeats.CleaningAtOnceLosesADirectory`).
- One plan applied by two processes at once can leave the new directories under the old lockfile:
  the loser finds the lock it would have written itself and writes the old one back
  (`InstallProgress.OnePlanTwiceLosesTheLock`, `InstallLimits.LoserKeepsLockExactly`).
- Composing an order again can change it (`Enablement.OrderOfOpenRootsIsNotStable`). It stays the
  same exactly when, for every id that is neither a root nor needed by an id that sorts before it,
  the order of the ids up to it is the beginning of the whole (`OrderStability.OrderStaysExactly`);
  so for closed roots, and whenever each id pulled in sorts after one that needs it. The exact
  condition speaks of orders of shorter lists; the last one (`OrderStability.CoveredOrderIsStable`)
  can be read off the manifests without composing anything. Composing a second time always settles
  the order (`OrderStability.ComposingTwiceIsStable`).
- The check a disable makes looks at dependencies only. A capability still in use is found when the
  remaining list is composed again, and the disable is refused then
  (`Enablement.DisableModule`, `Enablement.UsedCapabilityIsRefused`).
- The resolver does not look at clashes of capabilities: it can settle on a release the registry
  rejects although another one would be taken (`Registration.RejectedThoughAnotherRegisters`);
  `Registration.RejectedExactly` says when.
- A list with an undefined item does not read back; `[undefined]` reads back as the empty list
  (`JsonTheorems.FileRoundTrip`, `JsonTheorems.LoneUndefinedReadsEmpty`).
- A writer of plans that dies under the write lock turns every later writer away
  (`PlanRuns.DeadLockTurnsAway`, `PlanRuns.DeadLockExactly`).

## Model

| member | source | states |
|---|---|---|
| Versions.OlderLineIsExact | packages/kernel/src/module-compatibility.ts:61-82 | trying 0.0.0, the named versions and their next patches finds an older platform line exactly when the range admits any version before it |
| Manifests.CapabilityProviders | packages/kernel/src/module-registry.ts:20-37 | the map holds exactly who provides what; it fails exactly when two modules provide one capability, and names such a pair |
| Registry.IndexById | packages/kernel/src/module-registry.ts:114-125 | indexes the manifests exactly when each passes the platform gate and no id repeats |
| Registry.CreateRegistry | packages/kernel/src/module-registry.ts:111-152 | succeeds exactly when the set is admitted, without repeated ids or providers, complete and acyclic, and lists it with needs first |
| Registry.GraphIsUnique | packages/kernel/src/module-registry.ts:138-152 | a set of manifests has one dependency and capability graph |
| OrderingTheorems.OrderIsExact | packages/cli/src/module-sync.ts:258-336 | an order exists exactly when the closure of the roots is registered, in range, provided for, acyclic and (strictly) inside the roots; it lists that closure once each, needs first; an error is a true one about something a root reaches |
| OrderingTheorems.VisitWalks | packages/cli/src/module-sync.ts:273-328 | one visit keeps the order settled and places the module and all it needs, or gives a true error |
| OrderingTheorems.CycleIsTruthful | packages/cli/src/module-sync.ts:275-279 | a reported cycle is a loop of needs that the root reaches |
| OrderingTheorems.SettledIsComposable | packages/cli/src/module-sync.ts:325-335 | a settled order proves its closure acyclic and complete |
| OrderingTheorems.TruthfulIsNotComposable | packages/cli/src/module-sync.ts:275-324 | every error reported rules out any composition |
| Composing.Composer.Visit | packages/cli/src/module-sync.ts:273-328 | the walk with its mutable path, visited set and order does what the function says |
| Composing.Composer.VisitNeeds | packages/cli/src/module-sync.ts:291-324 | dependencies first, then capability providers, each sorted |
| Composing.Composer.FollowDependency | packages/cli/src/module-sync.ts:291-306 | a disabled dependency, then a range not met, is refused before it is visited |
| Composing.Composer.FollowRequirement | packages/cli/src/module-sync.ts:307-324 | optional and self-provided capabilities are passed over, others lead to their provider |
| Composing.ModuleOrder | packages/cli/src/module-sync.ts:258-336 | the loop over sorted distinct roots computes the order, exactly when the closure is composable |
| Enablement.OrderDependsOnSet | packages/cli/src/module-sync.ts:263-263 | the order of the roots and their repetition do not matter |
| Enablement.ClosedRootsAgree | packages/cli/src/module-sync.ts:294-298 | on closed roots the strict and the including mode agree |
| Enablement.OrderOfClosedRootsIsStable | packages/cli/src/module-sync.ts:478-482 | composing an order of closed roots again returns it |
| Enablement.OrderOfOpenRootsIsNotStable | packages/cli/src/module-sync.ts:330-335 | for any three ids in order there are manifests where composing an order again changes it; OrderStability.OrderStaysExactly says for which roots |
| OrderStability.OrderStaysExactly | packages/cli/src/module-sync.ts:263-336 | composing an order again gives the same order if and only if the ids up to each one that is no root, and that no earlier id needs, make up its beginning |
| OrderStability.CoveredOrderIsStable | packages/cli/src/module-sync.ts:330-335 | an order is its own order when every id pulled in sorts after one that needs it |
| OrderStability.ComposingTwiceIsStable | packages/cli/src/module-sync.ts:478-482 | for any roots that compose, the order composed again lists the same modules and from then on stays, in either mode |
| OrderStability.VisitFromMore | packages/cli/src/module-sync.ts:273-328 | a visit begun with more of its own result already placed ends in the same order |
| Enablement.ClosureComposesStrictly | packages/cli/src/module-sync.ts:478-479 | what enabling writes down composes in strict mode |
| Enablement.EnableModule | packages/cli/src/module-sync.ts:466-482 | the enabled list is the closure of the current list and the module; what is new and whether anything changed are exact |
| Enablement.DependentsOf | packages/cli/src/module-sync.ts:614-622 | one pass over a topological order finds exactly the modules that reach the given one through dependencies |
| Enablement.DisableModule | packages/cli/src/module-sync.ts:596-672 | succeeds exactly for a module that is unprotected, registered, depended on by no enabled one and without a capability in use, and then removes just this one; each refusal names its true reason |
| Enablement.RestErrorNamesUse | packages/cli/src/module-sync.ts:666-672 | when the remaining list does not compose, the error names a remaining module, a capability it requires and the disabled module as its provider |
| Enablement.UsedCapabilityIsRefused | packages/cli/src/module-sync.ts:612-672 | a module that nothing depends on but whose capability another requires passes the first check and is refused by the second |
| Enablement.StrictOrderLists | packages/cli/src/module-sync.ts:612-612 | a strict order lists exactly the enabled modules |
| Enablement.DisabledListKeepsDependencies | packages/cli/src/module-sync.ts:629-631 | the list after disabling is still topological and closed under dependencies |
| Enablement.DisabledListComposesExactly | packages/cli/src/module-sync.ts:629-672 | once nothing depends on the disabled module, the list composes strictly if and only if no remaining module uses a capability of it |
| Resolving.CandidateMembers | packages/cli/src/module-catalog.ts:183-192 | the candidates of an id are its releases, newest first |
| Resolving.ProviderMembers | packages/cli/src/module-catalog.ts:193-202 | the provider list of a capability holds exactly the releases that provide it |
| ResolvingTheorems.SearchIsSound | packages/cli/src/module-catalog.ts:218-268 | whatever a search finds extends what was selected, is admitted, meets every pending want and is closed |
| ResolvingTheorems.ExhaustedMeansNone | packages/cli/src/module-catalog.ts:218-268 | a search that gives up without the limit leaves no selection that would do |
| ResolvingTheorems.TryKeepsFirst | packages/cli/src/module-catalog.ts:235-247 | trying in order keeps the first candidate that can be completed; every one before it cannot |
| ResolvingTheorems.ResolverIsExact | packages/cli/src/module-catalog.ts:217-274 | unless the limit is hit, a selection is found if and only if one exists that has one release per id, none installed, all admitted, every range met and every capability provided |
| ResolvingTheorems.TargetIsNewest | packages/cli/src/module-catalog.ts:189-192 | no release of the target newer than the selected one has any valid closure |
| ResolverRun.GroupReleases | packages/cli/src/module-catalog.ts:183-188 | the loop groups the catalog by id in catalog order |
| ResolverRun.SortCandidates | packages/cli/src/module-catalog.ts:189-192 | each group ends up newest first |
| ResolverRun.IndexProviders | packages/cli/src/module-catalog.ts:193-202 | the three nested loops index every provider of every capability, in order |
| ResolverRun.Resolution.Search | packages/cli/src/module-catalog.ts:217-268 | the object with its counter and indexes computes the search |
| ResolverRun.OrderSelection | packages/cli/src/module-catalog.ts:275-283 | the selected releases come out in registry order, or the set is not registrable |
| ResolverRun.ResolveModuleReleases | packages/cli/src/module-catalog.ts:167-284 | every outcome: limit, proved to have no closure, not registrable, or a valid closure in install order |
| Registration.SelectionRegistersExactly | packages/cli/src/module-catalog.ts:275-279 | the registry takes a selection that was found if and only if the installed modules are admitted, distinct and have their needs met, and over all together no capability has two providers and nothing needs itself |
| Registration.RejectedExactly | packages/cli/src/module-catalog.ts:275-279 | beside installed modules that register, it rejects the selection if and only if that gives a capability a second provider or closes a circle |
| Registration.ComposableIsMet | packages/kernel/src/module-registry.ts:138-152 | a graph composes if and only if every dependency is registered and in range, every required capability provided, and there is no loop |
| Registration.RejectedThoughAnotherRegisters | packages/cli/src/module-catalog.ts:189-279 | for any two modules there is a catalog where the newest release is chosen and rejected although the older one answers and registers |
| FileTree.JoinSplit | packages/cli/src/module-artifact.ts:46-48 | splitting a path at slashes and joining it gives the path back |
| FileTree.WriteAddsOne | packages/cli/src/module-install.ts:485-491 | writing a file adds exactly that file to the tree |
| FileTree.RefusedWriteClashes | packages/cli/src/module-install.ts:487-490 | a write is refused only over the same path, a file above it or files below it |
| Artifact.ValidateFiles | packages/cli/src/module-artifact.ts:138-182 | accepts exactly the lists of safe paths with true digests, within size, without collisions in any letter case |
| Artifact.CheckParents | packages/cli/src/module-artifact.ts:168-182 | finds a file that is also a directory of another, exactly when there is one |
| Artifact.AcceptedFilesStage | packages/cli/src/module-install.ts:482-491 | an accepted list can always be written out, and nothing else is in the tree |
| Artifact.StageFiles | packages/cli/src/module-install.ts:482-491 | the staging loop writes the tree; for an accepted list it hashes as recorded and reads back as listed |
| Artifact.PlainTreeIsRead | packages/cli/src/module-artifact.ts:72-124 | a tree without skipped or refused names is read completely |
| Artifact.PlainTreeIsHashed | packages/cli/src/module-install.ts:116-149 | a tree without skipped names is hashed completely |
| Artifact.StagedIsHashedAsRecorded | packages/cli/src/module-install.ts:423-425 | the hashes of a staged directory are those recorded from the artifact |
| Artifact.DigestIgnoresOrder | packages/cli/src/module-artifact.ts:63-71 | the source digest of lists with the same files is the same |
| Artifact.RoundTrip | packages/cli/src/module-artifact.ts:46-182 | an accepted artifact staged and read back gives the same files, the same digest and the recorded hashes |
| InstallPlan.PlannedJobIsGood | packages/cli/src/module-install.ts:303-464 | a plan that passes every check leads to a valid next lock, entries that fit the lock they replace, kept migrations and no downgrade |
| InstallPlan.PlannedEntriesAreVerified | packages/cli/src/module-install.ts:374-447 | one entry per release, in order, with the identity and files of an artifact whose digest and manifest are the release's, within the size limit; only the target of an update replaces a module |
| InstallPlan.NextMembers | packages/cli/src/module-install.ts:449-457 | the next lock holds the entries and every module they do not replace |
| InstallPlan.OneReleasePerId | packages/cli/src/module-install.ts:359-364 | releases that register together are found by their id |
| InstallPlanning.ValidateLock | packages/cli/src/module-install.ts:59-105 | accepts exactly lists of at most 256 modules directly in a module root, with distinct ids and directories and safe file paths |
| InstallPlanning.TargetPassesExactly | packages/cli/src/module-install.ts:329-358 | a target passes if and only if it is not in the workspace unmanaged or, when updated, it is managed, unmodified and offered in a version that is not older; a refusal says what is true of it |
| InstallPlanning.PlanRelease | packages/cli/src/module-install.ts:376-447 | the checks on one release in the order of the code; what passes is exact in InstallAdmission |
| InstallPlanning.PlanReleases | packages/cli/src/module-install.ts:374-448 | the loop over the releases with its running size |
| InstallPlanning.PlanModules | packages/cli/src/module-install.ts:318-458 | everything decided before the transaction: the plan's job against exactly the lock it expects, or the first refusal |
| InstallAdmission.PlanIsAcceptedExactly | packages/cli/src/module-install.ts:303-464 | a plan is accepted if and only if the lockfile is valid and the one expected, the target may be changed, the releases register, each has an artifact that is what it pins and either a free directory or, as the target of an update, unmodified files and kept migrations, and the sizes, the number of modules and the places of the new ones are within bounds |
| InstallAdmission.ReleasePassesExactly | packages/cli/src/module-install.ts:376-447 | one release passes its checks if and only if it is admitted and still fits the size limit |
| InstallAdmission.NextIsValidExactly | packages/cli/src/module-install.ts:449-458 | the next lock is valid if and only if every new module goes directly into a module root, apart from every other module in any letter case, and no more than 256 are listed |
| InstallTheorems.StepFromPhase | packages/cli/src/module-install.ts:211-237 | wherever an entry stands, unless unguarded, a rollback step is not refused and brings it home |
| InstallTheorems.UndoNextIsStepOn | packages/cli/src/module-install.ts:211-237 | a rollback step changes one entry's destination and backup and nothing else |
| InstallTheorems.UndoKeepsTrack | packages/cli/src/module-install.ts:204-254 | every rollback step that is not on an unguarded entry keeps the invariant; the end restores lock and directories; only a lock changed by another conflicts |
| InstallTheorems.GoodJobIsApart | packages/cli/src/module-install.ts:86-95 | the entries of an install have distinct directories |
| InstallRefinement.StepRefines | packages/cli/src/module-install.ts:293-538 | every benign step of every process in every reachable world keeps the invariant and is invisible, except the last of an install, which is the planned change as a whole |
| InstallRefinement.StartRecoveryStep | packages/cli/src/module-install.ts:255-290 | a recovery of a dead owner's transaction takes over safely, whoever else recovers it |
| InstallRefinement.NothingUndoneIsFresh | packages/cli/src/module-install.ts:211-224 | an install that has undone nothing has no unguarded entry, so its first rollback is safe whatever its updates |
| InstallRefinement.GoodJobIsSound | packages/cli/src/module-install.ts:423-447 | what an install stages hashes as it records |
| InstallRuns.RunIsSeen | packages/cli/src/module-install.ts:293-538 | every run of any number of installers and recoveries whose steps are benign, failing and dying anywhere, is seen as whole installs one after the other |
| InstallRuns.CrashesLeaveNoTrace | packages/cli/src/module-install.ts:204-292 | between two moments without a transaction and without a finished install, lockfile and directories are the same |
| InstallRuns.FinishedInstallIsWhole | packages/cli/src/module-install.ts:465-538 | with one finished install in between they differ by exactly its plan, made against the lock it replaced |
| InstallRuns.NoLostUpdate | packages/cli/src/module-install.ts:313-324 | the lock changes only when an install finishes, and then from the lock its plan expects |
| InstallRuns.CommitKeepsAgreement | packages/cli/src/module-install.ts:423-458 | an install keeps every lock entry equal to its directory, and untouched entries unchanged |
| InstallRuns.LockAndDiskAgree | packages/cli/src/module-install.ts:59-171 | over every run the recorded hashes are those of the directories whenever no transaction is left |
| InstallRuns.HistoryIsAppendOnly | packages/cli/src/module-install.ts:349-433 | over every run no module leaves the lock or goes back in version, and no recorded migration changes |
| InstallLimits.RollbackRestores | packages/cli/src/module-install.ts:204-254 | a rollback from any point with nothing unguarded before it restores every directory, and the lock unless another installer changed it |
| InstallLimits.RecoveryIsReentrantExactly | packages/cli/src/module-install.ts:211-254 | on every disk an interrupted install or recovery leaves, rolling back restores lock and directories if and only if no entry is unguarded; always, when no update has the same files |
| InstallLimits.OnlyOwnFilesAreRemoved | packages/cli/src/module-install.ts:218-231 | whatever disk and journal, and wherever a rollback is cut off, a directory that is gone or changed then held exactly what an entry without a stage had placed in it |
| InstallLimits.RollbackRemovesOwnFiles | packages/cli/src/module-install.ts:211-253 | and so of a rollback run to its end |
| InstallLimits.UndoManyEnds | packages/cli/src/module-install.ts:204-254 | rollback steps in a row end where a rollback run to its end does |
| InstallLimits.LoserKeepsLockExactly | packages/cli/src/module-install.ts:247-253 | an installer that lost the race leaves the lock alone if and only if it is not the one it would have written |
| InstallProgress.UndisturbedInstallFinishes | packages/cli/src/module-install.ts:465-538 | a planned install that nothing stands in the way of can finish, and leaves exactly its plan |
| InstallProgress.OnePlanTwiceLosesTheLock | packages/cli/src/module-install.ts:505-534 | for every plan that passes there is a run of two processes that ends with its directories in place and the old lock |
| InstallRepeats.RecoveringTwiceLosesADirectory | packages/cli/src/module-install.ts:211-290 | for every plan with an update to the same files there is a run, an install and two recoveries one after the other, that ends with that directory gone and all else as before |
| InstallRepeats.RecoveringAtOnceLosesAModule | packages/cli/src/module-install.ts:255-290 | for every plan that passes there is a run, with a recovery that goes on after another has ended and the plan was applied again, that ends with its lock in place and a module of it missing |
| InstallRepeats.CleaningAtOnceLosesADirectory | packages/cli/src/module-install.ts:279-290 | for every plan with an update there is a run where a recovery removes the transaction of another install, which ends with the old lock and the old directory gone |
| InstallStale.LateRecoveryIsIdleExactly | packages/cli/src/module-install.ts:204-290 | a recovery whose transaction is gone leaves the disk as it is if and only if it meets something neither new nor old before anything it would take out and before a lock it would take back |
| InstallStale.IdleStepByStep | packages/cli/src/module-install.ts:204-290 | such a recovery leaves the disk as it is if and only if each of its steps does |
| InstallStale.LateRecoveryIsIdleAtHome | packages/cli/src/module-install.ts:204-290 | where another recovery of the same install has ended, it leaves the disk as it is if and only if no entry has the same files as what it replaces |
| InstallStale.RecoveryStepIsBenignExactly | packages/cli/src/module-install.ts:211-253 | a step of a recovery keeps what is seen if and only if it is not on an unguarded entry or, with its transaction gone, leaves the disk as it is |
| InstallStale.LateStepIsBenignExactly | packages/cli/src/module-install.ts:211-253 | where another recovery has ended, a step is benign if and only if it is not on an update to the same files |
| InstallRecoveries.RecoveriesOfOneInstallAreBenign | packages/cli/src/module-install.ts:255-292 | every run of one install and any number of overlapping recoveries of it, dying anywhere, takes benign steps only, unless an update has the same files |
| InstallRepeats.RollbackElsewhere | packages/cli/src/module-install.ts:211-253 | a rollback of earlier entries neither sees nor touches the directory of a later one |
| InstallProgress.PlannedIsInstallable | packages/cli/src/module-install.ts:400-421 | after planning, new destinations are free and updated ones unmodified |
| InstallProgress.NextIsNew | packages/cli/src/module-install.ts:449-458 | an install that changes what is recorded of some module changes the lockfile |
| InstallerSteps.Advances | packages/cli/src/module-install.ts:465-538 | a benign step that does not finish keeps what is seen |
| InstallerSteps.UndoManyAdvances | packages/cli/src/module-install.ts:204-254 | any number of rollback steps in a row are steps of the protocol and keep what is seen |
| InstallerSteps.JournalIsValid | packages/cli/src/module-install.ts:206-210 | the check a rollback starts with never refuses the journal of a planned install |
| InstallerSteps.OnlyTheLockConflicts | packages/cli/src/module-install.ts:241-251 | a rollback is refused only over a lockfile that is neither the old nor the new one |
| InstallerRun.Installer.LookAround | packages/cli/src/module-install.ts:311-317 | busy exactly when a transaction directory is there |
| InstallerRun.Installer.ReadLockfile | packages/cli/src/module-install.ts:318-318 | reads the lock and keeps it, whatever others do to it later |
| InstallerRun.Installer.PlanAgainst | packages/cli/src/module-install.ts:319-458 | plans against the lock read before and the directories as they are now |
| InstallerRun.Installer.MakeTransaction | packages/cli/src/module-install.ts:465-465 | the exclusive mkdir is the protocol's step |
| InstallerRun.Installer.StageEntry | packages/cli/src/module-install.ts:482-491 | staging one entry never fails on its files and is the protocol's step |
| InstallerRun.Installer.PlaceJournal | packages/cli/src/module-install.ts:499-504 | the journal appears at once |
| InstallerRun.Installer.ConfirmLock | packages/cli/src/module-install.ts:505-509 | goes on only if the lock is still the one planned against |
| InstallerRun.Installer.BackUp | packages/cli/src/module-install.ts:516-518 | an unmodified directory moves to its backup; a changed one gives the install up |
| InstallerRun.Installer.PlaceStage | packages/cli/src/module-install.ts:519-526 | a staged directory moves to a free destination |
| InstallerRun.Installer.ReplaceLock | packages/cli/src/module-install.ts:528-532 | the next lock replaces the old one |
| InstallerRun.Installer.CleanUp | packages/cli/src/module-install.ts:538-538 | removing the transaction makes the planned change visible |
| InstallerRun.Installer.Rollback | packages/cli/src/module-install.ts:211-253 | the loop from the last entry to the first, cut off anywhere, is rollback steps in a row; uncut it ends as the rollback does |
| InstallerRun.Installer.RollBackAll | packages/cli/src/module-install.ts:204-254 | a rollback of an own or recovered journal keeps what is seen and conflicts only over a foreign lock |
| InstallerRun.Installer.Handle | packages/cli/src/module-install.ts:533-536 | the error handler leaves the workspace as it was |
| InstallerRun.Installer.Install | packages/cli/src/module-install.ts:303-545 | busy, refused with nothing changed, installed exactly as planned, undone completely, or cut off with the old workspace recoverable; without failures never the last two |
| InstallerRun.Installer.Recover | packages/cli/src/module-install.ts:255-292 | whoever else recovers: after a recovery that ends the workspace is as before the interrupted install, unless an entry was unguarded; refused only for a live owner, an unreadable directory or a lock changed by another |
| Plans.InspectReleases | packages/cli/src/module-plans.ts:179-233 | succeeds exactly when every release passes its checks within the total size, and gives each one's change |
| Plans.CollectionBytes | packages/cli/src/module-plans.ts:59-74 | the total, exactly when every plan is a bounded regular file |
| Plans.AddingKeepsBounds | packages/cli/src/module-plans.ts:303-314 | a plan that fits keeps the store within 32 plans and 8 MiB |
| Plans.PlanStore.Read | packages/cli/src/module-plans.ts:326-375 | a plan that is read hashes to its id and its changes match its 1 to 256 releases |
| Plans.PlanStore.Save | packages/cli/src/module-plans.ts:274-324 | succeeds exactly when there is room or the same plan is stored; gives the stored plan then; leaves the write lock as it was and the store within bounds |
| Plans.PlanStore.Place | packages/cli/src/module-plans.ts:295-320 | the part under the write lock |
| Plans.PlanStore.Create | packages/cli/src/module-plans.ts:235-324 | a plan records the digest of the lock and the impact of exactly the inspected releases; refused when there is no release or one fails its checks; a saved plan reads back |
| Plans.PlanStore.Remove | packages/cli/src/module-plans.ts:400-408 | removes exactly a plan that can be read |
| Plans.PlanStore.PrepareToApply | packages/cli/src/module-plans.ts:410-443 | a plan reaches the installer if and only if it can be read, is for this workspace, and its releases still pass with the impact it recorded; it does with its expected lock |
| Plans.PlanFitsItsLock | packages/cli/src/module-install.ts:319-324 | a plan applies only while the lockfile is the one it was made against |
| Plans.CommittedPlanIsStale | packages/cli/src/module-install.ts:319-324 | once an install from a plan has committed, the same plan is refused as stale if and only if the install changed the lockfile |
| PlanRuns.StepKeepsConsistent | packages/cli/src/module-plans.ts:282-323 | every step of every concurrent writer or remover keeps the store consistent |
| PlanRuns.StoreStaysBounded | packages/cli/src/module-plans.ts:38-42 | over every run the store keeps its bounds and every plan in it can be read |
| PlanRuns.SavedPlanStays | packages/cli/src/module-plans.ts:326-408 | over every run a plan that can be read stays readable until it is removed by its id, which takes it away; whatever is read under that id says the same |
| PlanRuns.OneWriterAtATime | packages/cli/src/module-plans.ts:282-294 | at most one writer is under the write lock |
| PlanRuns.DeadLockTurnsAway | packages/cli/src/module-plans.ts:282-294 | after a writer died under the write lock, over any run, nobody gets under it, every writer that asks is turned away and no plan is added |
| PlanRuns.DeadLockExactly | packages/cli/src/module-plans.ts:282-322 | the lock is left taken by a writer that is gone if and only if that writer died under it |
| DomProperties.TagText | packages/cli/src/dom-properties.ts:71-101 | the character loop computes the blanked text of a tag |
| DomProperties.HostTagAttributes | packages/cli/src/dom-properties.ts:68-105 | every host tag in the source, with its text |
| DomProperties.DomPropertyMisspellings | packages/cli/src/dom-properties.ts:108-129 | the misspelled attributes with their lines, in source order |
| DomPropertyTheorems.FoundExactly | packages/cli/src/dom-properties.ts:111-128 | found is exactly what is misspelled in some host tag |
| DomPropertyTheorems.SortSorts | packages/cli/src/dom-properties.ts:128-128 | what is found comes in source order |
| DomPropertyTheorems.TextKeepsShape | packages/cli/src/dom-properties.ts:71-101 | letter case steers neither braces nor quotes nor the end of a tag |
| DomPropertyTheorems.TagStartsKept | packages/cli/src/dom-properties.ts:70-71 | recasing attribute names moves no tag |
| DomPropertyTheorems.AttributeIsIsland | packages/cli/src/dom-properties.ts:112-114 | an attribute found in the blanked text stands so in the source, behind a gap and before an equals sign |
| DomPropertyTheorems.FixOnlyRecases | packages/cli/src/dom-properties.ts:132-141 | fixing writes the expected spelling over each misspelled attribute found and keeps every other character; so it keeps the length and changes letter case at most, inside attribute names |
| DomPropertyTheorems.FixedIsClean | packages/cli/src/dom-properties.ts:131-141 | nothing is left to fix |
| DomPropertyTheorems.FixIsIdempotent | packages/cli/src/dom-properties.ts:131-141 | fixing twice is fixing once |
| DomPropertyTheorems.FixDomPropertyMisspellings | packages/cli/src/dom-properties.ts:132-141 | the loop from the last misspelling to the first computes the fixed source, with those properties |
| JsonTheorems.PrintIsRead | packages/cli/src/module-templates.ts:145-176 | for every value without undefined list items, every depth and prefix width, reading what was printed by RFC 8259, sections 2, 6 and 7, gives the value without undefined members and stops where it ended |
| JsonTheorems.FileRoundTrip | packages/cli/src/module-templates.ts:178-180 | a printed file reads back if and only if the value is not undefined and no list in it has an undefined item |
| JsonTheorems.LoneUndefinedReadsEmpty | packages/cli/src/module-templates.ts:153-157 | a list of one undefined item is printed as the empty list |
| JsonTheorems.NumberIsRead | packages/cli/src/module-templates.ts:175-175 | every number, in each of the forms of section 6.1.6.1.20 of ECMA-262, reads back; zero without its sign, infinities and NaN as null |
| JsonTheorems.MagnitudeIsRead | packages/cli/src/module-templates.ts:175-175 | digits and power of ten are read back from whole, pointed and exponent forms |
| Texts.QuotingRoundTrip | packages/cli/src/module-templates.ts:134-134 | reading a quoted string by RFC 8259, section 7, gives it back, control characters and lone surrogates included |
| Literals.Requoted | packages/cli/src/module-templates.ts:136-136 | the two replacements over the quoted text re-quote every unit on its own |
| Literals.StringLiteralMeansItsInput | packages/cli/src/module-templates.ts:133-137 | a string literal is one ECMAScript token that means its input, whatever follows |
| Literals.SqlLiteralMeansItsInput | packages/cli/src/module-templates.ts:838-840 | a SQL literal is one token that means its input |
| Scaffold.Directory.MakeDirectories | packages/cli/src/module-scaffold.ts:165-166 | makes the whole chain and names the first directory it made |
| Scaffold.Directory.Place | packages/cli/src/module-scaffold.ts:155-169 | one file: over a merged bundle, skipped where present, else anew; the logs stay true |
| Scaffold.Directory.Undo | packages/cli/src/module-scaffold.ts:174-178 | replaying the logs restores the directory |
| Scaffold.Directory.WriteScaffold | packages/cli/src/module-scaffold.ts:146-182 | a failure anywhere leaves the directory as it was found; success is exactly the planned files |
| Scaffold.OldIsNotUnderNew | packages/cli/src/module-scaffold.ts:176-178 | nothing that was there lies under a created directory |
| Scaffold.WrittenAsPlanned | packages/cli/src/module-scaffold.ts:155-169 | a finished scaffold holds each file as planned unless the author's stays |
| Scaffold.OthersAreKept | packages/cli/src/module-scaffold.ts:163-163 | every other file is as it was |
| Scaffold.MergeAuthorBundles | packages/cli/src/module-scaffold.ts:122-142 | exactly the present translation bundles that are objects on both sides are merged |
| Scaffold.AuthorWins | packages/cli/src/module-scaffold.ts:119-121 | the author's wording wins on shared keys, the skeleton's other keys are added |
| WebSearch.KeptIsWhole | packages/ai-provider/src/web-search.ts:276-286 | joining the overflow keeps every hit in order and as many searches as there is room for |
| WebSearch.FlushIsWhole | packages/ai-provider/src/web-search.ts:262-304 | a flush with a report left makes min(searches, remaining) reports that together hold every hit in order, after citations fill an empty last search |
| WebSearch.CallReportsUpToLimit | packages/ai-provider/src/web-search.ts:262-326 | a call ends with as many reports as there were searches, up to the limit, wherever it is flushed |
| WebSearch.Reporter.Begin | packages/ai-provider/src/web-search.ts:241-253 | a refused tool is reported once and left out from then on |
| WebSearch.Reporter.Flush | packages/ai-provider/src/web-search.ts:262-304 | the reports of the pending searches, cut off where the sink fails; nothing stays pending |
| WebSearch.Reporter.Observe | packages/ai-provider/src/web-search.ts:305-326 | each part of a stream does to calls, searches and citations what it should |
| WebSearch.Reporter.Stream | packages/ai-provider/src/web-search.ts:305-343 | a whole call, with the exact number of reports |
| WebSearch.RunCalls | packages/ai-provider/src/web-search.ts:217-348 | over every run the reports never exceed maxReports and a refusal is told at most once |

## Left out

- InstallRuns.RunIsSeen: asks for benign steps, because the code is not safe without, as the runs of `InstallRepeats` and `InstallProgress` show; renames, removals and lock writes are atomic, and a removal that stops halfway is not covered.
- InstallerRun.Installer.Recover: what it restores is promised while no entry is unguarded, because the code loses one otherwise (`InstallLimits.RecoveryIsReentrantExactly`).
- InstallRecoveries.RecoveriesOfOneInstallAreBenign: the one installer checks the directories as they are in one moment; nobody else writes to them.
- InstallerRun.Installer.Install: the dry run (`apply` false) is planning alone and has no method of its own.
- InstallProgress.UndisturbedInstallFinishes: progress is claimed for an undisturbed install only; a lost race and a crash before the owner is recorded leave a transaction directory behind, with modules and lock intact.
- InstallPlanning.PlanModules: schema checks, the layout lint of the staged directory and the reading of `module.json` files are not modelled; the lockfile is parsed text.
- ResolverRun.ResolveModuleReleases: the target string is parsed already; where two installed manifests shared an id, or several registry errors apply, which one is reported first is not claimed.
- Versions.OlderLineIsExact: version and range strings are parsed already.
- Artifact.RoundTrip: on a case-sensitive file system; elsewhere `src/A/x` and `src/a/y` would share a directory.
- Artifact.ValidateFiles: the manifest, specification, package and review checks on an artifact's contents are not modelled.
- JsonTheorems.PrintIsRead: the shortest digits of a double are given; functions, symbols and `toJSON` are not modelled.
- DomProperties.HostTagAttributes: positions count characters; a source with characters outside the basic plane has other offsets in UTF-16.
- Scaffold.Directory.WriteScaffold: undo steps do not fail, a failed step changes nothing, and directories above the module directory are not restored.
- Scaffold.MergeAuthorBundles: bundles are key and value lists, without the reordering of integer-like keys.
- WebSearch.RunCalls: model calls do not overlap; the parsing of provider answers into hits is given.
- Plans.PlanStore.Save: the byte length of the serialized plan is an input; links and special files count as not regular.
- Symbolic link checks, downloads, git sources, base64 and JSON parsing of files: input and output.
- `takeSnapshots` and `restoreSnapshots` around generated files, `pnpm install`, and generated TypeScript and SQL: no deep property.
- `validateInstalledModules`, `listModulePlans`, registry navigation, release search and the capability lists of a plan: they would add only easy members.
