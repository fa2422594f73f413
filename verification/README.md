# k3sm: verified models of its allocation, registry, teardown and restart protocols

This project models the parts of k3sm where several processes, crashes, clocks or schedules meet, and
proves what the source promises about them for every run. Protocols that run concurrently are transition
systems (`State`, `Action`, `Enabled`, `Do`, `Run`) with theorems over every sequence of actions; code that
updates objects or loops is classes and methods, proved against specification functions.

| area | files | main results |
|---|---|---|
| Mesh range allocation | `MeshAddressing`, `MeshProtocol`, `MeshFences`, `MeshSafety`, `MeshHazards`, `MeshEnroller` | two rows never share a range while one server at a time handles a name, and two runs that break this without it; every row change and every claim given back is lawful and a later enroll is never undone, with no such discipline; what each operation leaves when it runs alone; a join and its undo restore every index |
| Image migration | `Ordering`, `ImageMigration`, `MigrationRecovery` | an honest journal, a second run that changes nothing, and any crashes followed by a completed run coming out as one clean run: each if and only if no push displaces an earlier image's record; the misnamed image that breaks it |
| Registry prune | `PrunePlan`, `RegistryPrune`, `PruneFates`, `RegistryPruner`, `PruneRace` | the keep fixpoint is reachability; with any other clients at work nothing needed is deleted, and each planned manifest is reported exactly where its re-check or the registry's answer at that instant puts it; an undisturbed prune clears its plan, and reports no failure, if and only if no planned manifest is named by an index planned after it; the one push a conditional delete misses |
| Registry listing | `RegistryListing`, `ListingSafety`, `ListingRuns`, `ImageReport`, `ImageStream` | bounded requests, the first fault reported and final, termination, no deadlock, conservation of images, one report whatever the schedule, the stream line by line |
| Shutdown | `ExitOverlap`, `SharedStage` | one stop, in turn; bounded waits; exactly when a waiting finish can hear the stop's result |
| Worker restart | `PeerResume`, `JoinRetry` | which peers are programmed over any restarts; timed loops with late timers |
| Crash breaker | `CrashRecord`, `CrashBreaker`, `AgentFailure` | the race is a serial history; no failure lost to the timer, and exactly which are lost to a failed read; what the pruned record holds whatever the clock does, and exactly when it decides as the whole history; one record per failed start |
| Image export | `ExportStream` | success exactly on complete streams, otherwise the first problem; the target is whole or untouched |

## Assumptions

- An API write that reports an error changed nothing. A MeshPeer's object name is its node name. Enroll ids
  are fresh.
- Manifests are content-addressed and digests do not collide; the repository state a conditional DELETE names
  (section 13.1.1 of RFC 9110) identifies the index rows, in order.
- During a migration nobody else writes the registry, and the node store and the upstream answers are fixed.
- A mutex section is atomic where the source holds the mutex throughout; clocks do not go back unless a lemma
  says so. How late a timer may be is a parameter (`slack`, `late`).
- `precede` is called before anything begins, as it asks of its caller (cmd/k3sm/exitoverlap.go:137-140).
- Other clients of the registry, the network, answers, durations and failures are arbitrary functions or
  arbitrary actions: every theorem holds for all of them.

## Where code and documentation differ

- `serverPeerFromSeed` explains its uniqueness by index 0 being pinned to the control plane
  (cmd/k3sm/agent.go:1375-1380). Servers can be given other indices; uniqueness holds because rows are on
  distinct ranges (`PeerResume.ServerPeerIsUnique`).
- `controlPlaneStopper` is described as safe to call any number of times (cmd/k3sm/exitoverlap.go:88-92). The
  stop is indeed called once, but `done` carries one value: a second `finish`, or a `finish` after an inline
  one, waits out its whole bound and reports a timeout (`ExitOverlap.CanBeTold`).
- The re-check and the conditional DELETE are said to keep a manifest pushed again in between
  (pkg/registrysvc/prune.go:328-343). A re-push of a manifest whose untagged row exists moves only its time,
  which the state does not cover (`PruneRace.RepushIsMissed`).
- The delete list is ordered so that the registry does not refuse a manifest an index still names
  (pkg/registrysvc/prune.go:99-101). Indexes are put first but not ordered among themselves, so a nested index
  listed before its parent is refused (`RegistryPrune.UndisturbedPruneClears`).
- A resumed migration is said to go on where the last run stopped (cmd/k3sm/imagemigrate.go:395-398). An image
  whose own tag ends in another image's migration suffix can be displaced by that image, and a resumed run then
  adds a third tag (`MigrationRecovery.MisnamedImageBreaksResume`; exactly when:
  `MigrationRecovery.ResumeIffNeverDisplaced`).
- Prune keeps failures dated in the future so that a loop cannot escape the count by way of a bad clock
  (pkg/executor/crashloop.go:223-225). A clock that steps forward and then back still hides one, because the
  forward step prunes (`CrashRecord.ClockSetBackHidesALoop`; exactly when: `CrashRecord.DecidesAlikeIff`).
- The breaker's mutex is there so that no crash is lost (cmd/k3sm/crashloop.go:40-42). A record that cannot be
  read is taken for an empty one and then overwritten (`CrashBreaker.UnreadableReadForgets`; exactly when a
  failure is lost: `CrashBreaker.NoFailureIsLost`).
- `awaitJoin` says an attempt is not started when its wait runs past the grace (cmd/k3sm/agent.go:701-705). A
  late timer can still start one past it (`JoinRetry.RetryIsLateIffTimerWas`).

## Model

| member | source | states |
|---|---|---|
| `MeshAddressing.NodeIndexOfCarve` | cmd/k3sm/enroll.go:590-608 | the 32-bit shift arithmetic inverts the /24 carve for every index of every cluster CIDR |
| `MeshAddressing.NodeIndexOfExact` | cmd/k3sm/enroll.go:590-608 | an index it finds is one of the cluster's slots, and the podCIDR names exactly the range carved there |
| `MeshAddressing.IndexIdentifiesRange` | cmd/k3sm/enroll.go:587-608 | podCIDRs name one range if and only if they have one index |
| `MeshAddressing.LowestFreeNodeIndex` | cmd/k3sm/enroll.go:569-585 | returns the least unused index from 1 on, or fails exactly when every one is used |
| `MeshAddressing.UsedIndicesBelowSlots` | cmd/k3sm/enroll.go:569-585 | every used index is one of the cluster's slots |
| `MeshProtocol.MergeMissing` | cmd/k3sm/enroll.go:734-744 | a replaced row keeps every key the writer does not set, and the writer's values win |
| `MeshProtocol.HeldClaims` | cmd/k3sm/meshclaim.go:200-213 | a deregistration releases exactly the claims its name holds |
| `MeshFences.RunConsistent` | cmd/k3sm/enroll.go:128-225 | in every run what each operation read still bounds the datastore: versions, fences and indices stay consistent |
| `MeshFences.StepFence` | cmd/k3sm/enroll.go:702-731 | one step changes at most its own name's row, and lawfully |
| `MeshFences.EveryRowChangeIsLawful` | cmd/k3sm/enroll.go:442-467 | over every run: a row is deleted only by its own deregistration, an exact sweep, or a release whose id it carries; an enroll writes its own key, endpoint, range and id; no worker write replaces a server row or sits at index 0, no server write replaces a worker row; a refresh changes only the endpoint |
| `MeshFences.LaterEnrollIsNeverUndone` | cmd/k3sm/enroll.go:266-319 | a release holding a superseded id never changes the row again, byte-identical or not |
| `MeshFences.RunIds` | cmd/k3sm/enroll.go:345-359 | over every run enroll ids are used once: no two enrolls share one, and one still to write has not written |
| `MeshFences.ReplacedIsSuperseded` | cmd/k3sm/enroll.go:702-731 | a step after which a row no longer carries its id leaves that id superseded |
| `MeshFences.ReplacedWriteIsNeverUndone` | cmd/k3sm/enroll.go:266-319 | end to end: once an enroll has replaced a write, no release holding its id changes the row, whatever runs in between |
| `MeshFences.EveryGiveBackIsLawful` | cmd/k3sm/enroll.go:266-333 | in every state a claim is given back only by a release that sees no row of its name, or by a server whose row was not written and that made the claim itself |
| `MeshFences.VanishingClaimIsRetried` | cmd/k3sm/meshclaim.go:109-148 | a claim that is taken at each create and gone at each read is tried as often as there are tries, and then not again |
| `MeshFences.EveryIndexHasThreeTries` | cmd/k3sm/meshclaim.go:109-148 | an operation has three tries for every index it turns to |
| `MeshSafety.WonRangeIsVacant` | cmd/k3sm/meshclaim.go:219-250 | winning a claim outside the listing finds the range at no other row |
| `MeshSafety.NothingNewlyExposed` | cmd/k3sm/meshclaim.go:162-188 | no step takes away a claim another name's row still relies on |
| `MeshSafety.StepSafe` | cmd/k3sm/meshclaim.go:109-148 | the allocation invariant survives every step of every server |
| `MeshSafety.RangesStayDistinct` | cmd/k3sm/enroll.go:128-225 | over every interleaving with one server per name, two rows of different names never hold one range |
| `MeshSafety.WrittenRangeIsClaimed` | cmd/k3sm/enroll.go:128-225 | every row an enroll writes has its range claimed by its own name at that instant |
| `MeshHazards.DeregisterUnderAJoinDuplicates` | cmd/k3sm/enroll.go:533-556 | with two servers on one name a deregistration between claim and write leads to two rows on one range |
| `MeshHazards.SweepUnderARejoinDuplicates` | cmd/k3sm/meshclaimsweep.go:193-234 | a sweep across a rejoin of the claim's holder does too |
| `MeshEnroller.MeshEnroller.ClaimRange` | cmd/k3sm/meshclaim.go:109-148 | create-if-absent with the role it was asked for: the holder on return, and the claims unchanged but for a new one |
| `MeshEnroller.MeshEnroller.WritePeer` | cmd/k3sm/enroll.go:702-731 | creates the row or replaces one of its own role, with the job's key, endpoint and id, and refuses the other role's |
| `MeshEnroller.MeshEnroller.ClaimLowestFreeIndex` | cmd/k3sm/meshclaim.go:219-250 | gets the least index that is free, its claim held, or fails when none is; it is a run of the protocol |
| `MeshEnroller.MeshEnroller.Enroll` | cmd/k3sm/enroll.go:128-225 | exactly when a join is refused, an unparsable range of its own included, that a refusal writes nothing, and the range, key, endpoint and id a success leaves; it is a run of the protocol |
| `MeshEnroller.MeshEnroller.Carve` | cmd/k3sm/enroll.go:165-225 | a name with no row gets the least free range, claimed and written with its key and endpoint |
| `MeshEnroller.MeshEnroller.Rejoin` | cmd/k3sm/enroll.go:140-225 | a name with a row keeps its range under its new key and endpoint, or is refused over a server's row, an unparsable range or another's claim |
| `MeshEnroller.MeshEnroller.ReleaseAllocation` | cmd/k3sm/enroll.go:266-333 | deletes the row and its claim if the row still carries the id, otherwise nothing |
| `MeshEnroller.MeshEnroller.FailedJoin` | cmd/k3sm/enroll.go:266-333 | an enroll and its release restore the rows and leave the same indices free |
| `MeshEnroller.MeshEnroller.EnrollSelf` | cmd/k3sm/meshclaim.go:300-374 | exactly when a server's own enroll is refused, and the claim and row a success leaves; it is a run of the protocol |
| `MeshEnroller.FailedServerWriteGivesBack` | cmd/k3sm/meshclaim.go:300-374 | a server whose row was not written gives back the claim it made and no other; a worker gives back none |
| `MeshEnroller.MeshEnroller.RefreshEndpoint` | cmd/k3sm/enroll.go:442-467 | the row gets the new endpoint and keeps all else, and a missing row is not created; it is a run of the protocol |
| `MeshEnroller.MeshEnroller.ReleaseClaimsHeldBy` | cmd/k3sm/meshclaim.go:200-213 | every claim of the name goes and no other |
| `MeshEnroller.MeshEnroller.Deregister` | cmd/k3sm/enroll.go:533-556 | the row and every claim of the name go and nothing else does; it is a run of the protocol |
| `MeshEnroller.MeshEnroller.SweepClaim` | cmd/k3sm/meshclaimsweep.go:193-234 | a judged claim goes if no row of its holder is on its range, with the row if it is a server's, and stays otherwise; it is a run of the protocol |
| `ImageMigration.Renamed` | cmd/k3sm/imagemigrate.go:695-701 | the renamed tag is the longest start of the tag that leaves room for the digest's suffix, and then the suffix |
| `ImageMigration.GroupStoreImages` | cmd/k3sm/imagemigrate.go:508-525 | one group per reference, in order, with exactly its entries in platform order |
| `ImageMigration.SourcesIdentify` | cmd/k3sm/imagemigrate.go:529-536 | a group's sources are the digests of all its entries, in order, so two groups have the same sources if and only if they hold the same digests equally often |
| `ImageMigration.OtherDigestsSettleNothing` | cmd/k3sm/imagemigrate.go:546-563 | a record written for other digests never settles a reference |
| `ImageMigration.ImageMigrator.PutRecord` | cmd/k3sm/imagemigrate.go:235-244 | replaces the reference's record or inserts it; the journal stays sorted without duplicates |
| `ImageMigration.ImageMigrator.MigrateOne` | cmd/k3sm/imagemigrate.go:539-628 | the record and the push the decision function gives, or an error and nothing pushed |
| `ImageMigration.ImageMigrator.Run` | cmd/k3sm/imagemigrate.go:399-452 | complete exactly when nothing goes wrong, with every group journalled; otherwise stopped at the first fault in the state a crash there leaves |
| `ImageMigration.LookupPut` | cmd/k3sm/imagemigrate.go:225-244 | a put is read back under its reference and changes no other |
| `ImageMigration.PutIncreasing` | cmd/k3sm/imagemigrate.go:235-244 | a put keeps the journal sorted and duplicate-free |
| `ImageMigration.PushNeverRepointsAnOrdinaryTag` | cmd/k3sm/imagemigrate.go:595-627 | no push re-points an existing tag without the migration suffix |
| `MigrationRecovery.RerunAligned` | cmd/k3sm/imagemigrate.go:399-452 | a re-run from any crashed state of a run that displaces no record stays aligned with the clean run |
| `MigrationRecovery.HonestIffNeverDisplaced` | cmd/k3sm/imagemigrate.go:546-563 | the records are honest at the end, and after every prefix, if and only if no push displaces an earlier record |
| `MigrationRecovery.ResumeEqualsCleanRun` | cmd/k3sm/imagemigrate.go:399-452 | any sequence of crashes, between push and journal write too, then a completed run, leaves the clean run's registry in a state a further run leaves alone, if no push of the clean run displaces a record |
| `MigrationRecovery.ResumeIffNeverDisplaced` | cmd/k3sm/imagemigrate.go:399-452 | that holds for every sequence of crashes if and only if no push of the clean run displaces a record |
| `MigrationRecovery.LostOwnTagBreaksResume` | cmd/k3sm/imagemigrate.go:595-627 | where the first false record is at its own tag and its tag aside is free, a resumed run leaves another registry |
| `MigrationRecovery.IdentifiedNamesNeverOverwrite` | cmd/k3sm/imagemigrate.go:546-627 | suffixed names that identify their digests, checked before the run, rule out every re-pointing |
| `MigrationRecovery.NeverOverwritesNeverDisplaces` | cmd/k3sm/imagemigrate.go:595-627 | a run that re-points nothing displaces nothing |
| `MigrationRecovery.CompletedRunIsHonest` | cmd/k3sm/imagemigrate.go:437-451 | every reference has one record with its current sources; each in-registry record is held at its target at the end if and only if no push displaced an earlier record |
| `MigrationRecovery.ImageAccountedFor` | cmd/k3sm/imagemigrate.go:539-628 | an image the journal does not settle is a cache entry, stays behind or is in the registry, each exactly when its name, its export and what upstream serves say so, at its own tag or aside; nothing else in the registry changes |
| `MigrationRecovery.CompletedRunCopiesEveryImage` | cmd/k3sm/imagemigrate.go:399-452 | after a completed run that displaces nothing the registry holds every image that had to be copied |
| `MigrationRecovery.SecondRunChangesNothing` | cmd/k3sm/imagemigrate.go:546-563 | a second run over the same store pushes nothing and leaves journal and registry as they are if and only if no push of the first displaced a record |
| `MigrationRecovery.MisnamedImageBreaksResume` | cmd/k3sm/imagemigrate.go:595-627 | an image whose tag carries another digest's suffix makes a resumed run differ from the clean one |
| `PrunePlan.NeededIsLeast` | pkg/registrysvc/prune.go:258-282 | what walks from tagged or young manifests reach is the least set closed under keeping |
| `PrunePlan.KeepRoots` | pkg/registrysvc/prune.go:243-257 | tagged manifests and those younger than the grace are kept first, with their reasons |
| `PrunePlan.Pass` | pkg/registrysvc/prune.go:260-281 | one pass keeps only what is needed, and a pass without a change has settled everything |
| `PrunePlan.Propagate` | pkg/registrysvc/prune.go:258-282 | the loop ends with exactly the needed manifests kept |
| `PrunePlan.PlanRepository` | pkg/registrysvc/prune.go:176-304 | deletes exactly the unneeded manifests, indexes first, each in row order; keeps the other untagged ones each with a true reason; a repository not fully read keeps all |
| `PrunePlan.DeleteListIsDoomed` | pkg/registrysvc/prune.go:284-303 | the delete list holds each unneeded manifest once and nothing else |
| `PrunePlan.PlanIsDisjoint` | pkg/registrysvc/prune.go:284-303 | no manifest is planned twice, or both deleted and kept |
| `RegistryPrune.Served` | pkg/ociregistry/api/manifests.go:521-568 | a conditional DELETE touches no other repository, drops no tagged row and no row of another manifest |
| `RegistryPrune.ClearedIsSafe` | pkg/ociregistry/api/manifests.go:529-559 | a request a re-check cleared deletes only what nothing kept needs and no readable index names, whatever happened before it arrived |
| `RegistryPrune.SafeAtEveryInstant` | cmd/k3sm/imageprune.go:220-276 | every deletion of a run was safe in the registry of its own instant |
| `RegistryPrune.SafeDeleteKeepsImages` | cmd/k3sm/imageprune.go:207-219 | every image a tag or a young manifest holds together is as whole after a deletion as before, and no tagged row goes |
| `RegistryPrune.NeededShrinks` | pkg/registrysvc/prune.go:322-343 | removing rows never makes another manifest needed |
| `RegistryPrune.NextIsReady` | cmd/k3sm/imageprune.go:235-267 | undisturbed, each planned manifest passes its re-check when its turn comes |
| `RegistryPrune.ReadyServes` | pkg/ociregistry/api/manifests.go:529-559 | a planned manifest of an undisturbed repository is refused if an index names it and deleted otherwise |
| `RegistryPrune.NoneRefused` | pkg/registrysvc/prune.go:98-102 | no request of an undisturbed prune is refused if and only if no planned manifest is named by an index planned after it |
| `RegistryPrune.UndisturbedPruneClears` | pkg/registrysvc/prune.go:98-102 | an undisturbed prune deletes its whole plan if and only if no planned manifest is named by an index planned after it |
| `RegistryPrune.NestedIndexIsRefused` | pkg/registrysvc/prune.go:284-303 | a repository whose nested index comes before its parent keeps it: planned first, refused, left behind |
| `RegistryPruner.RegistryPruner.Read` | pkg/registrysvc/prune.go:176-257 | the index is read at one instant and then each manifest, with others writing in between; undisturbed it is the repository |
| `RegistryPruner.RegistryPruner.Recheck` | pkg/registrysvc/prune.go:345-373 | reads the registry of its instant, lets a manifest go only if the fresh plan deletes it, and otherwise gives that plan's reason |
| `RegistryPruner.RegistryPruner.Request` | pkg/registrysvc/prunedelete.go:55-69 | one more request, answered by the registry as it stands when it arrives; the caller learns that answer if it was delivered and an error otherwise |
| `RegistryPruner.RegistryPruner.PruneManifest` | cmd/k3sm/imageprune.go:238-267 | the report says of one more planned manifest what became of it; a dry run changes nothing; undisturbed it fails exactly if an index names the manifest |
| `RegistryPruner.RegistryPruner.RecheckAndDelete` | cmd/k3sm/imageprune.go:242-266 | a re-check's reason puts the manifest under kept with that reason; otherwise the answer puts it under deleted, kept as changed since the plan, or failed |
| `RegistryPruner.RegistryPruner.PruneRepository` | cmd/k3sm/imageprune.go:235-268 | plan and deletions of one repository, with the failures counted; undisturbed, it ends as its plan says with one failure for each refusal |
| `RegistryPruner.RegistryPruner.PruneRegistry` | cmd/k3sm/imageprune.go:220-276 | for any other clients and network: only safe deletions, what is planned and kept is what the plans say, each planned manifest under the list its re-check or answer puts it, failures counted, exactly the unreadable repositories listed, once; undisturbed, every repository ends as its plan says and the failures are the refusals |
| `RegistryPruner.CleanPruneIffParentsFirst` | cmd/k3sm/imageprune.go:220-276 | an undisturbed forced prune reports no failure if and only if no repository plans a manifest before an index that names it |
| `PruneFates.RequestsAre` | cmd/k3sm/imageprune.go:252-266 | the requests of a run are its DELETEs, each with the registry's answer at its own instant |
| `PruneFates.FailedExactly` | cmd/k3sm/imageprune.go:252-266 | a manifest is reported as failed if and only if its request was not sent, its answer was lost, or the registry refused it as it stood then |
| `PruneFates.SparedFate` | cmd/k3sm/imageprune.go:242-251 | a manifest a re-check spares is kept with that reason and no other, and neither deleted nor failed |
| `PruneFates.AskedFate` | cmd/k3sm/imageprune.go:252-266 | one that is let go is asked for on the view of its re-check and ends where the answer puts it: failed, kept as changed since the plan, or deleted |
| `PruneFates.BooksBalance` | cmd/k3sm/imageprune.go:233-268 | the planned manifests are the deleted, the kept after all and the failed ones, none lost and none twice |
| `PruneFates.ReportIsTruthful` | cmd/k3sm/imageprune.go:252-266 | what is reported as deleted was deleted, and what was deleted is reported as deleted or, its answer lost, as failed |
| `PruneRace.PutTagged` | pkg/ociregistry/store/rows.go:68-90 | after a tagged push the tag is on the manifest |
| `PruneRace.PutTaggedLosesNothing` | pkg/ociregistry/store/rows.go:68-90 | a tagged push loses no manifest and no other tag |
| `PruneRace.PutUntagged` | pkg/ociregistry/store/rows.go:93-98 | a push by digest appends at most the manifest's own row and changes no other |
| `PruneRace.RowRulesKeepTidy` | pkg/ociregistry/store/rows.go:35-98 | pushes and deletes keep every tag on one row and an untagged row its manifest's only one |
| `PruneRace.PushStopsTheDelete` | pkg/ociregistry/api/manifests.go:529-559 | a push that moved a tag or added a manifest just before the DELETE stops it: answered as changed if the repository holds the manifest, as not there otherwise |
| `PruneRace.OnlyRepushesAreMissed` | pkg/ociregistry/store/rows.go:160-169 | a safe delete takes something needed at its instant if and only if a manifest that became young since the re-check leads to it |
| `PruneRace.RepushIsMissed` | pkg/ociregistry/store/rows.go:93-98 | re-pushing a planned manifest no index names, after the re-check, does not stop its DELETE |
| `PruneRace.LoneManifestRepushed` | pkg/ociregistry/store/rows.go:93-98 | the same for one concrete repository |
| `RegistryListing.SumSpawn` | cmd/k3sm/imagels.go:501-507 | the goroutines a tag list spawns owe exactly what the repository's own goroutine owed |
| `ListingSafety.StepInv` | cmd/k3sm/imagels.go:424-521 | every step keeps slots, counters and the conservation of images, and uses up a step |
| `ListingSafety.TagsStep` | cmd/k3sm/imagels.go:480-513 | a tag list's critical section keeps the books |
| `ListingSafety.TagStep` | cmd/k3sm/imagels.go:446-479 | a describe's critical section keeps the books |
| `ListingRuns.ReadsAreBounded` | cmd/k3sm/imagels.go:430-487 | at most 16 goroutines are in a request, and no counter exceeds its total |
| `ListingRuns.FirstErrorIsFinal` | cmd/k3sm/imagels.go:439-445 | after the first error no hook runs, nothing is counted or appended, and the error stays |
| `ListingRuns.ErrorsAreFaults` | cmd/k3sm/imagels.go:439-479 | a listing fails only with the error of a request or hook that failed |
| `ListingRuns.FirstFaultIsReported` | cmd/k3sm/imagels.go:439-513 | in every schedule the listing's error is the first one a goroutine commits, its request's or else its hook's, told from the actions alone |
| `ListingRuns.EveryScheduleEnds` | cmd/k3sm/imagels.go:515-520 | no schedule is longer than three steps per repository and valid tag |
| `ListingRuns.NeverStuck` | cmd/k3sm/imagels.go:424-521 | while a goroutine is left some goroutine can move |
| `ListingRuns.SuccessIsComplete` | cmd/k3sm/imagels.go:515-520 | a successful schedule has read and counted everything, appended exactly the registry's images and shown each to the hooks |
| `ImageReport.BuildImageList` | cmd/k3sm/imagels.go:663-681 | the report is the images' rows, each once, by repository and tag |
| `ImageReport.ArrangedIsUnique` | cmd/k3sm/imagels.go:673-679 | the order of the report is determined by its rows |
| `ImageReport.ReportIgnoresTheSchedule` | cmd/k3sm/imagels.go:424-521 | any two successful schedules over one registry give the same report |
| `ImageStream.ImageStream.OnHook` | cmd/k3sm/imagels.go:602-622 | a hook writes its image line and then its progress line if one is due, until a write fails; the count and the last progress are kept in step |
| `ImageStream.ImageStream.Stream` | cmd/k3sm/imagels.go:581-633 | with writes that succeed, line by line what the listing means, from the start line to the end line or the error; it succeeds exactly if the registry was unreachable or the listing completed; a failed write cuts the lines short, perhaps with an error line, and leaves no end line |
| `ImageStream.MeantLines` | cmd/k3sm/imagels.go:581-633 | a completed stream opens with the start line and the first count, shows the images in order, ends in their number, and its last progress line is the final count |
| `ImageStream.StreamMatchesTheListing` | cmd/k3sm/imagels.go:581-633 | for a successful listing the image lines are the registry's images and the last progress line is complete |
| `ExitOverlap.StepInv` | cmd/k3sm/exitoverlap.go:163-215 | every call, timer and return keeps one lane, one stop and one result |
| `ExitOverlap.RunTells` | cmd/k3sm/exitoverlap.go:150-215 | over every run the clock, the registered stage, the stop's result and whether it ran inline are what the actions say |
| `ExitOverlap.RunTimes` | cmd/k3sm/exitoverlap.go:163-215 | the recorded instants of the stage, the stop and each finish are the clock's when they happened |
| `ExitOverlap.StopOnceInTurn` | cmd/k3sm/exitoverlap.go:163-215 | however often begin and finish are called, the stop is called at most once, and never before the stage registered last returned or its own bound passed |
| `ExitOverlap.PrecededStopWaits` | cmd/k3sm/exitoverlap.go:150-157 | a stage registered before anything began runs, under its bound, before any stop |
| `ExitOverlap.NothingBlocks` | cmd/k3sm/exitoverlap.go:176-179 | the lane's send never blocks and a due timer can always be served |
| `ExitOverlap.FinishIsBounded` | cmd/k3sm/exitoverlap.go:190-215 | a waiting finish returns within waitBound plus the bound of the stage registered last, with the result the stop returned or a timeout after the whole bound; at most one gets the result, and only a begin's |
| `ExitOverlap.DeafFinishTimesOut` | cmd/k3sm/exitoverlap.go:201-214 | after an inline finish, or once the result is taken, every finish waits out its whole bound and times out |
| `ExitOverlap.CanBeTold` | cmd/k3sm/exitoverlap.go:190-215 | a waiting finish can get the result if and only if neither is the case |
| `ExitOverlap.SecondFinishWaitsInVain` | cmd/k3sm/exitoverlap.go:190-215 | the second of two finishes waits out its bound though the stop has returned |
| `SharedStage.BodyRunsOnce` | cmd/k3sm/exitoverlap.go:241-271 | the body is called once, by the first caller |
| `SharedStage.CallsReturnInTime` | cmd/k3sm/exitoverlap.go:241-271 | every other call returns only when the body is over or the bound has passed since it began, and none waits longer |
| `SharedStage.RunTells` | cmd/k3sm/exitoverlap.go:241-271 | over every run each call has returned exactly when, and with the body over or not, as the actions say |
| `SharedStage.NobodyStuck` | cmd/k3sm/exitoverlap.go:241-271 | every call can move as soon as one of the two holds |
| `PeerResume.ServerPeerFromSeed` | cmd/k3sm/agent.go:1384-1405 | the first peer whose ranges hold the apiserver's address, or none |
| `PeerResume.RowCoversItsRange` | cmd/k3sm/agent.go:1384-1405 | a peer read off the datastore holds exactly the addresses of its row's range |
| `PeerResume.ServerPeerIsUnique` | cmd/k3sm/agent.go:1365-1383 | in a list read at any point of any disciplined run of the allocation protocol that starts on /24 rows, at most one peer holds an address |
| `PeerResume.RunNodeRanges` | cmd/k3sm/enroll.go:128-225 | the allocation writes /24 ranges only |
| `PeerResume.WiderRowSharesAddresses` | cmd/k3sm/agent.go:1384-1405 | a wider row written by hand shares addresses with a /24 without being the same range |
| `PeerResume.PollMeshPeers` | cmd/k3sm/agent.go:1326-1354 | the loop computes the poll; without a lister it fails at once |
| `PeerResume.PollBringsFirstList` | cmd/k3sm/agent.go:1326-1354 | the first list any attempt brings, and failure only when cancelled or past the bound |
| `PeerResume.PunctualPollTriesEverySecond` | cmd/k3sm/agent.go:1326-1354 | attempts that fail at once and punctual timers make one attempt a second until the bound |
| `PeerResume.PollEndsInBound` | cmd/k3sm/agent.go:1312-1363 | attempts and timers late by at most slack end the poll within the bound plus two slacks |
| `PeerResume.SeedIsLatestStored` | cmd/k3sm/nodecred.go:165-201 | after any restarts the seed is the latest live list stored |
| `PeerResume.ResumingWorker.ProgramServer` | cmd/k3sm/agent.go:1270-1277 | only the seed's server peer, or nothing, is programmed before the live list is known |
| `PeerResume.ResumingWorker.Resume` | cmd/k3sm/agent.go:1269-1310 | then exactly the live list or the whole seed, and the seed advances only to a stored live list |
| `JoinRetry.AwaitJoin` | cmd/k3sm/agent.go:706-757 | the loop computes the start's trace under a grace of 30 seconds, and terminates |
| `JoinRetry.WaitsFitTheGrace` | cmd/k3sm/agent.go:706-757 | whatever Retry-After values arrive (section 10.2.3 of RFC 9110) the waits sum to at most the grace |
| `JoinRetry.FirstVerdictWins` | cmd/k3sm/agent.go:709-726 | the first answer that is neither limited nor unavailable is returned unchanged |
| `JoinRetry.EndingsPinned` | cmd/k3sm/agent.go:706-757 | each ending exactly: settled with the last answer, stopped when the stop was asked, given up after the last answer whose wait does not fit the time left |
| `JoinRetry.RetriesPinned` | cmd/k3sm/agent.go:727-756 | each retry waits what its own answer asks, or five seconds, and starts that long after it |
| `JoinRetry.PatientStartSettles` | cmd/k3sm/agent.go:706-757 | asked each time to wait a second, with instant attempts and punctual timers, a start reaches the verdict that comes within the grace, after exactly that many retries |
| `JoinRetry.RetryIsLateIffTimerWas` | cmd/k3sm/agent.go:733-756 | a retry starts after the deadline if and only if its timer was later than the time its wait left |
| `JoinRetry.PunctualRetriesFit` | cmd/k3sm/agent.go:733-756 | with punctual timers none does |
| `JoinRetry.LateTimerOverruns` | cmd/k3sm/agent.go:733-756 | a timer one nanosecond late makes one start past the deadline |
| `JoinRetry.StartEnds` | cmd/k3sm/agent.go:706-757 | with punctual timers a start ends by the deadline plus its last attempt |
| `CrashRecord.Prune` | pkg/executor/crashloop.go:226-235 | the loop keeps exactly the window's failures, in order |
| `CrashRecord.CountLoop` | pkg/executor/crashloop.go:298-307 | the loop counts the window's failures of a kind |
| `CrashRecord.RecordFailure` | pkg/executor/crashloop.go:242-280 | append, prune, count and trip give the specified record, and report a trip exactly when this failure made it |
| `CrashRecord.RecordHoldsTheStayed` | pkg/executor/crashloop.go:226-269 | whatever the clock does the record holds exactly the failures inside the window at every load and update since their own |
| `CrashRecord.RecordIsTheWindowIff` | pkg/executor/crashloop.go:226-269 | it is the last window of the whole history if and only if every failure of that window has stayed |
| `CrashRecord.NeverTripsEarly` | pkg/executor/crashloop.go:265-280 | the record never trips before the whole history would |
| `CrashRecord.TripsWithHistoryIff` | pkg/executor/crashloop.go:265-280 | where the history first holds enough the record trips too if and only if enough has stayed or the failure is permanent |
| `CrashRecord.DecidesAlikeIff` | pkg/executor/crashloop.go:265-280 | over a whole history it decides alike at every point if and only if enough has stayed when the history trips |
| `CrashRecord.CountOfPruned` | pkg/executor/crashloop.go:226-307 | pruning does not change what the window counts |
| `CrashRecord.PrunedRecordDecides` | pkg/executor/crashloop.go:226-280 | with a clock that never goes back it does: it holds the last window of the whole history and trips at the event it would |
| `CrashRecord.LoopTripsAtTheFifth` | pkg/executor/crashloop.go:265-280 | failures of one window, none permanent, trip the record at the fifth, or at the tenth if they are lease losses, and not before |
| `CrashRecord.PermanentTripsAlone` | pkg/executor/crashloop.go:250-280 | a permanent failure that is no lease loss trips a record by itself |
| `CrashRecord.ClockSetBackHidesALoop` | pkg/executor/crashloop.go:223-235 | with a clock set back the record can stay shut where the whole history would trip |
| `CrashBreaker.StepExclusive` | cmd/k3sm/crashloop.go:119-129 | one goroutine inside the mutex; the flag is set while a recorder is and clear while the timer is |
| `CrashBreaker.RaceIsSerial` | cmd/k3sm/crashloop.go:119-129 | in every interleaving the file is what its stores and removals make of it one after another, each store adding the failure its own call was made with |
| `CrashBreaker.SerialFromTheStart` | cmd/k3sm/crashloop.go:119-129 | the same from the start of a process, over whatever record it finds |
| `CrashBreaker.RecorderStores` | cmd/k3sm/crashloop.go:119-129 | a recorder that finds the mutex free sets the flag and stores its failure on the record as it stands |
| `CrashBreaker.HealthyTimerClears` | cmd/k3sm/crashloop.go:348-359 | a timer that finds the flag clear and the mutex free removes the record |
| `CrashBreaker.TimerNeverClearsAfterACrash` | cmd/k3sm/crashloop.go:348-359 | once the flag is set no schedule lets the timer remove the record |
| `CrashBreaker.NoFailureIsLost` | cmd/k3sm/crashloop.go:119-129 | a failure in the record, whoever stored it, is still there while the window covers it if and only if the timer has not removed the record and no recorder stored after a failed read (and it was not itself stored again); once the flag is set the timer is no such way |
| `CrashBreaker.FromTheStart` | cmd/k3sm/crashloop.go:119-129 | the same of a failure this process has stored, from any record it found at its start and after any run |
| `CrashBreaker.InheritedFromTheStart` | cmd/k3sm/crashloop.go:59-67 | the same of a failure an earlier process left in the record |
| `CrashBreaker.UnreadableReadForgets` | cmd/k3sm/crashloop.go:59-67 | a read that fails drops every earlier failure at the next store |
| `CrashBreaker.OpenStaysOpen` | cmd/k3sm/crashloop.go:119-129 | an open breaker stays open since the same failure unless the timer removes the record or a recorder stores after a failed read |
| `AgentFailure.AgentProcess.Note` | cmd/k3sm/crashloop.go:330-343 | nothing for a start the daemon's own stop cancelled, otherwise one record |
| `AgentFailure.AgentProcess.RunAgent` | cmd/k3sm/agent.go:163-253 | a failed start is recorded exactly once, or not at all if its own stop cancelled it, and is on disk if and only if that write succeeds |
| `ExportStream.CutIsNotComplete` | cmd/k3sm/imagesave.go:278-294 | a complete stream cut anywhere is not complete |
| `ExportStream.LostChunkIsNotComplete` | cmd/k3sm/imagesave.go:283-290 | a complete stream that lost a chunk is not complete |
| `ExportStream.Archive.Drain` | cmd/k3sm/imagesave.go:229-296 | succeeds exactly on chunks and one terminal frame with the right count and a digest, all written; the staged file is then the chunks; otherwise the failure is that of the first frame with a problem, or of the end |
| `ExportStream.Archive.Save` | cmd/k3sm/imagesave.go:195-225 | the target becomes the whole archive or is left as it was, and the failure names the step that failed |

## Left out

- MigrationRecovery.ResumeIffNeverDisplaced: coming out as the clean run means its registry and a state a further
  run leaves alone. A run that displaces a record never ends in such a state; it may still end in the clean
  registry, for one when the displaced image's tag aside holds it already, and of the registry alone only
  `LostOwnTagBreaksResume` is stated.
- PeerResume.ServerPeerIsUnique: rows start on /24 ranges; with a wider row written by hand it fails
  (`WiderRowSharesAddresses`).
- MeshEnroller.MeshEnroller.Rejoin: an own range that is not IPv4 is refused as unparsable; the address
  derivation and the peer's own validation live in other modules and are left to an operation stopping short.
- AgentFailure.AgentProcess.RunAgent: start errors returned before the breaker exists (flags, work dir, ports, a
  server-role Mac; cmd/k3sm/agent.go:196-236) are recorded nowhere and are not modelled.
- ImageStream.ImageStream.Stream: hooks are given as the list the listing would call and are served up to the
  first failing write; that the listing then calls no further hook is `ListingRuns.FirstErrorIsFinal`.
- Pruning: the blob sweep after a forced prune, the node cache half, tag deletion and a registry that ignores
  If-Match.
- Listing: opening the registry, the description cache, the join against nodes and Pods (an arbitrary function
  of the image), and `image df`.
- Migration: parsing a reference into its flat target, export and push transport, and the failure report.
- Shutdown: the stop's own context budget and the node drain that precedes begin
  (cmd/k3sm/exitoverlap.go:340-371).
- Restart: the credential choice, staleSeedPeers (a log value) and the MeshPeer watcher that follows.
- Crash breaker: which bring-up errors are permanent, parking, and the operator's own removal of the record.
- Mesh: device programming, endpoint-change events, the sweep's judgement of a claim's age, a node's readiness
  and the etcd members (any claim may be judged abandoned), IPv6.
- Transport, TLS, Kubernetes clients, flags, rendering and error wording throughout.
