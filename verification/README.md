# Verification models of the vending platform's tools and start-up code

A Dafny 4.11 project that models five parts of the repository whose behaviour spans several calls, and proves what
they keep, give back or decide. `dafny verify dfyconfig.toml` checks everything.

- **The production governance window** (`Governance*.dfy`). `enable`, `restore` and `status` act on GitHub's rulesets
  and deployment rules, on snapshot files and on an active-window marker. Each remote call is a step that an oracle lets
  succeed, refuses, or loses. Proved: write-ahead at every point where `enable` can stop, the exact effect of `restore`,
  safety over whole runs with the exact condition on each restore, what no run loses even when commands abort, exactly
  when `enable` refuses or completes, exactly when `restore` runs to its end, what it then reports, and what it leaves
  where it stops. `GovernanceWindow.Tool` holds the three stores and runs the commands as loops.
- **The resumable catalog import** (`Catalog*.dfy`, `TaxonomyImport.dfy`). Runs import a manifest into a database with a
  checkpoint per SKU; any call may fail. Proved: validation is exact and guarantees the lookups, the taxonomy import is
  idempotent and links parents, every reachable state of resumed runs backs its checkpoint, at most one image per SKU is
  inserted, runs that end well converge to what the manifest describes, exactly when a run returns an error, and that
  dry runs write nothing and every option binds. `CatalogRunner.Runner` runs it with loops.
- **The OpenAPI scrub, its reference checker and the release gate** (`OpenApi*.dfy`, `JsonTree.dfy`, `Text.dfy`). Key
  removal, parameter removal and string rewriting on JSON trees, with real substring replacement and splitting. Proved:
  pointers round-trip (sections 3 and 4 of RFC 6901), the reference report is exact, each pass is complete and
  idempotent, changes nothing else at any node and raises exactly where its guard says, scrubbing twice is scrubbing
  once, exactly when the references of a scrubbed document resolve, what enrichment changes and what it leaves, that
  enriched documents pass the gate's example checks after scrubbing, and exactly which operation ids are reported.
- **Gate decisions** (`Migration*.dfy`, `RulesetVerdict.dfy`). Accumulating checks with declarative verdicts, among them
  exactly which digits make the order of file names the order of versions.
- **Resource ownership at start-up** (`ResourceLedger.dfy`). Builders acquire clients one by one and chain cleanup
  closures; a ledger says what is open, what has been released and in which order.

Where the code works in steps, a method with loops is proved equal to a function, and the properties are lemmas about
that function.

## What the proofs brought out

- `restore` treats a ruleset it cannot read as done: the actor stays on it, yet the marker is removed
  (`GovernanceWitness.UnreadRulesetKeepsActor`; the exact condition is `GovernanceRoundTrip.RestoreIsExactIff`).
- An `enable` that stops halfway leaves a snapshot without an actor, so a later `restore` takes the actor off no ruleset
  (`GovernanceWitness.AbortedEnableLeavesActor`; the exact condition is `GovernanceRoundTrip.AbortedEnableIsUndoneIff`).
  An actor id of zero is never removed (`GovernanceWitness.ZeroActorStays`, in general
  `GovernanceRoundTrip.ZeroActorIsNeverRemoved`).
- `restore` takes a rule list it cannot read for an empty one, so restoring once more can demand every reviewer twice
  (`GovernanceWitness.SecondRestoreDoublesReviewers`; the exact condition is `GovernanceRuns.RestoreFindsNothingIff`).
- A restore torn between two reviewer rules is never finished: the next one finds the first rule live, recreates nothing
  and removes the marker (`GovernanceWitness.RetryLosesSecondDemand`, in general `GovernanceStops.RetryLeavesPartial`).
- The final check of `restore` takes a ruleset list it cannot read for no objection, and an unread rule list for a gap
  (`GovernanceVerdict.RestoreReportsIff`).
- A transient error while looking up a product uploads an image for it even if it is stored
  (`CatalogCheckpoint.ImageUploadedIff`).
- A transient error while looking up the default price book makes a resumed run create a newer one; products already
  finished are skipped and have no price in it (`CatalogStranded.FinishedProductLosesItsPrice`). Imported prices are the
  effective ones exactly when no run meets that guard (`CatalogConvergence.EffectivePricesIff`).
- Manifest validation ignores letter case, the id maps do not: a manifest without issues can be imported and still lose
  its category (`CatalogResume.ValidationAloneIsNotEnough`). A product keeps its category, brand and tags exactly when
  each is spelled as in the taxonomy (`CatalogResume.NothingDroppedIff`).
- `\d` and `int` also accept non-ASCII decimal digits, for which version order can be reported on a unique version
  (`MigrationNames.ForeignDigitsAreNotReliable`; the exact condition is `MigrationNames.ReliableIff`).
- `BuildReconcilerDeps` can return an error together with an open Redis client, and its cleanup releases oldest first
  (`ResourceLedger.OpenOnErrorIff`); closing a `Runtime` twice releases everything twice (`ResourceLedger.CloseTwice`).
- A list or an object inside a `required` list, or as the name of a parameter, makes the scrub raise, and nothing else
  in a document does (`OpenApiRaise.ScrubRaisesExactly`).

## Model

| member | source | states |
|---|---|---|
| GovernanceModel.AddThenRemove | tools/production_e2e_governance_window.py:322-381 | filtering the actor out after adding it gives the original bypass list minus the actor, and the original list if it was not there |
| GovernanceModel.PresentMeansListed | tools/production_e2e_governance_window.py:313-319 | the presence scan agrees with membership as long as no unreadable id is met |
| GovernanceModel.WithoutRemovesAll | tools/production_e2e_governance_window.py:366-371 | the removal filter drops exactly the entries with the actor's id and type |
| GovernanceModel.EntryAdded | tools/production_e2e_governance_window.py:322-350 | opening appends one entry for the actor, in mode always, unless one of its kind and id is listed, and changes nothing else |
| GovernanceModel.PatternMatchesIff | tools/production_e2e_governance_window.py:176-189 | a pattern matches main or develop if and only if, trimmed, it is one of the branch's names |
| GovernanceModel.CoversBranchIff | tools/production_e2e_governance_window.py:192-210 | a ruleset guards a branch if and only if it is active, aims at branches, names the branch among its includes and not among its excludes |
| GovernanceModel.IsReviewerRuleIff | tools/production_e2e_governance_window.py:396-397 | which spellings of a rule type count as required reviewers |
| GovernanceWriteAhead.SnapshotIsFaithful | tools/production_e2e_governance_window.py:252-278 | a snapshot never misstates a ruleset body, and misses nothing when every read succeeds |
| GovernanceWriteAhead.OpensPrefix | tools/production_e2e_governance_window.py:322-350 | wherever the loop stops, live rulesets are the base ones with the actor on a prefix of the listed ones |
| GovernanceWriteAhead.DeletesPrefix | tools/production_e2e_governance_window.py:384-411 | wherever the loop stops, exactly a prefix of the reviewer rules is gone and the other rules stand |
| GovernanceWriteAhead.EnableWritesAhead | tools/production_e2e_governance_window.py:488-573 | at every point where enable can stop, remote state is unchanged or a snapshot of the exact earlier state is on disk and live state is that snapshot partly opened; a completed run opened all of it, recorded the actor and set the marker |
| GovernanceWriteAhead.EveryChangeIsRecorded | tools/production_e2e_governance_window.py:503-543 | every ruleset changed and every rule deleted by a run of enable can be read back unaltered from the file it wrote |
| GovernanceWriteAhead.FullSnapshotWhenReadsSucceed | tools/production_e2e_governance_window.py:252-278 | with no failing read the file holds every listed ruleset and every deployment rule |
| GovernanceRoundTrip.EnableOpensWindow | tools/production_e2e_governance_window.py:488-573 | a completed enable leaves an open window over the state before it |
| GovernanceRoundTrip.RemovalFilters | tools/production_e2e_governance_window.py:353-381 | a successful removal leaves the body without the actor, an absent actor leaves the ruleset alone |
| GovernanceRoundTrip.RestoresReviewers | tools/production_e2e_governance_window.py:414-448 | restored reviewer rules demand the recorded reviewers in fresh rules and other rules are untouched; live demands that can be read are left alone, and unread ones are followed by the recorded ones |
| GovernanceRoundTrip.RestoreUndoesWindow | tools/production_e2e_governance_window.py:611-657 | a restore that runs to its end removes the marker, gives every ruleset its original list minus the configured actor (or as it was, where unreadable or untouched), and brings back reviewers and other rules |
| GovernanceRoundTrip.RestoreIsExactIff | tools/production_e2e_governance_window.py:353-381 | rulesets are exactly as before if and only if every one it closed could be read and none had listed the actor |
| GovernanceRoundTrip.ActorRemainsIff | tools/production_e2e_governance_window.py:353-381 | when precisely the actor is still listed after a restore |
| GovernanceRoundTrip.ZeroActorIsNeverRemoved | tools/production_e2e_governance_window.py:616-628 | a recorded id of zero, or an empty actor type, switches the removal off |
| GovernanceRoundTrip.AbortedEnableKeepsActor | tools/production_e2e_governance_window.py:546-553 | the actor is recorded only by a completed enable, so a restore after an aborted one leaves every ruleset as it is |
| GovernanceRoundTrip.AbortedEnableIsUndoneIff | tools/production_e2e_governance_window.py:505-536 | such a restore gives the rulesets back if and only if the first PUT was refused or there was nothing to open before an unreadable entry |
| GovernanceRoundTrip.RestoreRunsToItsEnd | tools/production_e2e_governance_window.py:611-657 | with every call answered and well-formed entries a restore runs to its end |
| GovernanceEnds.RemovalSucceedsIff | tools/production_e2e_governance_window.py:353-381 | one removal succeeds if and only if every id of the list can be read and, where the actor is listed, the ruleset is there and its update answered |
| GovernanceEnds.RestoreEndsIff | tools/production_e2e_governance_window.py:611-657 | with every call answered, from any file and any live state, a restore runs to its end if and only if there is a file, every guarded ruleset it records can be closed, and a reviewer rule is live or every recorded one demands somebody |
| GovernanceStops.RestoreMarks | tools/production_e2e_governance_window.py:611-657 | a restore removes the marker if and only if it does not abort, and never touches a file |
| GovernanceStops.AbortedRestoreIsPartial | tools/production_e2e_governance_window.py:611-657 | where a restore of an open window aborts, a prefix of the rulesets is closed and then the demands of a prefix of the recorded rules follow the live ones, and the marker still points to the file |
| GovernanceStops.RetryLeavesPartial | tools/production_e2e_governance_window.py:414-448 | after that, the next restore that reads the rules brings all demands back if the first had recreated none, and otherwise leaves it at those |
| GovernanceStops.NothingToRestore | tools/production_e2e_governance_window.py:288-302 | without a file, or with a named one that is missing, restore changes nothing |
| GovernanceStops.UnnamedRestore | tools/production_e2e_governance_window.py:288-302 | unless a file is named, it restores the one the marker points to, and the newest if there is none such |
| GovernanceStops.NamedRestore | tools/production_e2e_governance_window.py:288-302 | with a named file it looks at no other file and not at the marker |
| GovernanceStops.EnableRecords | tools/production_e2e_governance_window.py:524-570 | a completed enable records the actor, the guarded rulesets of the snapshot, each once, and the ids of its reviewer rules in order |
| GovernanceStops.EnvironmentIsMade | tools/production_e2e_governance_window.py:451-477 | with every call answered a completed enable leaves the automation environment in place |
| GovernanceVerdict.VerificationIsExact | tools/production_e2e_governance_window.py:576-608 | the final check passes if and only if the rulesets that could be read are none or guard both main and develop, and its last call finds a rule that demands a reviewer |
| GovernanceVerdict.RestoreReportsIff | tools/production_e2e_governance_window.py:642-657 | for any replies, a restore that does not abort reports success if and only if that holds of what it leaves: an unread list raises no objection, unread rules do |
| GovernanceVerdict.AnsweredRestoreReportsIff | tools/production_e2e_governance_window.py:642-657 | with every call answered, if and only if no ruleset is listed or main and develop are each covered by a listed one, and some live reviewer rule has a reviewer |
| GovernanceVerdict.StatusReportsIff | tools/production_e2e_governance_window.py:690-701 | status finds no gap exactly when there is none, as far as it could read |
| GovernanceRuns.EnableKeepsSafe | tools/production_e2e_governance_window.py:488-573 | a completed enable keeps the run invariant |
| GovernanceRuns.RestoreClosesWindowIff | tools/production_e2e_governance_window.py:611-657 | with a window open, restore gives the baseline's protection if and only if every ruleset it closes can be read, whatever happens to the rule list |
| GovernanceRuns.RestoreFindsNothingIff | tools/production_e2e_governance_window.py:241-249 | with no window open, if and only if the rule list can be read, or no reviewer is demanded live, or none in the file |
| GovernanceRuns.RestoreKeepsSafeIff | tools/production_e2e_governance_window.py:611-657 | a restore that runs to its end keeps the run invariant, and gives the baseline's protection, if and only if it is undisturbed |
| GovernanceRuns.StatusKeepsSafe | tools/production_e2e_governance_window.py:660-701 | status keeps the run invariant |
| GovernanceRuns.RunsKeepSafe | tools/production_e2e_governance_window.py:488-701 | any sequence of commands that complete, each restore undisturbed, keeps the run invariant |
| GovernanceRuns.RunSafety | tools/production_e2e_governance_window.py:488-701 | after any such sequence: no marker means the baseline's protection, a marker points to a snapshot holding the baseline while live state is the baseline opened |
| GovernanceAnyRun.EnableLosesNothing | tools/production_e2e_governance_window.py:488-573 | whatever fails, enable keeps: every ruleset, live and on file, is its baseline body plus some of the actors, each at most once; other rules stand; the live rules or one file demand every reviewer as often as the baseline |
| GovernanceAnyRun.RestoreLosesNothing | tools/production_e2e_governance_window.py:611-657 | so does restore, from any file, wherever it stops |
| GovernanceAnyRun.NothingIsLost | tools/production_e2e_governance_window.py:488-701 | so does any sequence of commands for any of the actors, completed or aborted, forced or not, if no protected ruleset of the baseline lists one of them |
| GovernanceWitness.UnreadRulesetKeepsActor | tools/production_e2e_governance_window.py:353-381 | a concrete enable and restore with one refused read: the restore runs to its end, the marker is gone, the actor is still listed |
| GovernanceWitness.AbortedEnableLeavesActor | tools/production_e2e_governance_window.py:546-553 | a concrete enable stopped by one refused deletion: a restore in which every call is answered leaves the actor listed |
| GovernanceWitness.ZeroActorStays | tools/production_e2e_governance_window.py:621-640 | a concrete enable and restore for actor id zero, every call answered: the actor stays |
| GovernanceWitness.SecondRestoreDoublesReviewers | tools/production_e2e_governance_window.py:414-448 | a concrete enable, restore, restore with one refused read of the rules: every reviewer is demanded twice |
| GovernanceWitness.RetryLosesSecondDemand | tools/production_e2e_governance_window.py:414-448 | a concrete restore torn between two reviewer rules: the next one, every call answered, runs to its end and the second reviewer is demanded no more |
| GovernanceCycle.EnableRefuses | tools/production_e2e_governance_window.py:480-501 | unconfirmed, outside the time bounds, or beside an active window without --force, enable makes no call and changes nothing, whatever the replies |
| GovernanceCycle.EnableCompletesIff | tools/production_e2e_governance_window.py:488-573 | with every call answered, for all times, confirmations and flags, enable completes if and only if it is confirmed, the minutes are zero or from 15 to 480, no window is active or --force is given, and some listed ruleset guards a protected branch, none of those with an unreadable entry in the way |
| GovernanceCycle.FaultFreeCycle | tools/production_e2e_governance_window.py:488-657 | then restore runs to its end and the protection is what it was before enable |
| GovernanceWindow.Tool.FetchRulesets | tools/production_e2e_governance_window.py:154-173 | the reading loop collects what the specification's reads yield |
| GovernanceWindow.Tool.TakeSnapshot | tools/production_e2e_governance_window.py:252-278 | the command's snapshot is the specified one and changes no store |
| GovernanceWindow.Tool.EnableRulesetBypasses | tools/production_e2e_governance_window.py:322-350 | the in-place loop opens rulesets as specified |
| GovernanceWindow.Tool.DeleteProductionRequiredReviewers | tools/production_e2e_governance_window.py:384-411 | the in-place loop deletes reviewer rules as specified |
| GovernanceWindow.Tool.ApplyWindow | tools/production_e2e_governance_window.py:524-553 | everything enable changes after writing the snapshot, as specified for every outcome of every call |
| GovernanceWindow.Tool.RemoveRulesetBypass | tools/production_e2e_governance_window.py:353-381 | one removal on the live store |
| GovernanceWindow.Tool.RestoreProductionRequiredReviewers | tools/production_e2e_governance_window.py:414-448 | the in-place loop recreates reviewer rules as specified |
| GovernanceWindow.Tool.CmdEnable | tools/production_e2e_governance_window.py:488-573 | enable on the three stores, as specified for every outcome of every call |
| GovernanceWindow.Tool.CmdRestore | tools/production_e2e_governance_window.py:611-657 | restore on the three stores, likewise |
| GovernanceWindow.Tool.CmdStatus | tools/production_e2e_governance_window.py:660-701 | status changes none of the three stores and reports whether it found a gap, as specified |
| CatalogManifest.LoadFinalManifest | internal/catalogbootstrap/manifest.go:140-181 | each raw product becomes one product in order, every field from its own raw one; the price is the unit price unless that is zero, then the source price, and category, brand and public id fall back likewise |
| CatalogManifest.LoadEnrichedManifest | internal/catalogbootstrap/manifest.go:183-210 | likewise for the enriched format: only a blank public id falls back, and images are pending |
| CatalogManifest.ValidateManifest | internal/catalogbootstrap/manifest.go:212-266 | the accumulating loops produce the specified list of issues |
| CatalogManifest.ValidationIsExact | internal/catalogbootstrap/manifest.go:212-266 | there are no issues if and only if SKUs and public ids are unique and every product has known category, brand and tags, a URL, an acceptable status and a positive price |
| CatalogManifest.IssuesAre | internal/catalogbootstrap/manifest.go:212-266 | each kind of issue is reported exactly when it is due of some product |
| CatalogDatabase.CreateKeepsValid | internal/catalogbootstrap/taxonomy.go:35-50 | what callers rely on: a create on an existing slug reports a duplicate and writes nothing, one that succeeds adds a fresh row |
| TaxonomyImport.EnsureKeepsSound | internal/catalogbootstrap/taxonomy.go:35-51 | create-or-look-up records the id of the row under the slug, and leaves a taken slug alone |
| TaxonomyImport.RootsImported | internal/catalogbootstrap/taxonomy.go:22-52 | the roots pass adds only parentless rows for roots of the list and records each |
| TaxonomyImport.ChildrenImported | internal/catalogbootstrap/taxonomy.go:53-91 | the children pass links every row it adds to the row of its parent slug |
| TaxonomyImport.FlatImported | internal/catalogbootstrap/taxonomy.go:93-147 | the brand and tag passes add and record exactly their slugs |
| TaxonomyImport.TaxonomyImported | internal/catalogbootstrap/taxonomy.go:13-149 | success or not, rows are only added and new children linked; on success the maps agree with the database on exactly the named slugs; every new row carries the slug and the name of an entry of its list |
| TaxonomyImport.SecondImportCreatesNothing | internal/catalogbootstrap/taxonomy.go:13-149 | importing again after a success creates nothing, whichever calls fail |
| TaxonomyImport.DryRunWritesNothing | internal/catalogbootstrap/taxonomy.go:31-34 | a dry run succeeds, makes no call and writes nothing |
| TaxonomyImport.ImportSucceedsIff | internal/catalogbootstrap/taxonomy.go:13-149 | without failing calls it succeeds if and only if entries are named and each child's parent is stored, a root, or an earlier child |
| CatalogResume.ValidatedLookupsSucceed | internal/catalogbootstrap/runner.go:247-260 | in a normalized manifest without issues every category, brand and tag lookup finds an id, so no tag is dropped |
| CatalogResume.TaxonIdsObtained | internal/catalogbootstrap/runner.go:85-118 | imported or looked up, the run goes on with ids that cover the taxonomy, or stops |
| CatalogResume.CategoryFoundIff | internal/catalogbootstrap/runner.go:247-250 | after an import a category is found if and only if some imported entry's trimmed slug equals it letter for letter |
| CatalogResume.BrandFoundIff | internal/catalogbootstrap/runner.go:251-254 | a brand is found if and only if it is named and some trimmed slug equals it, trimmed, letter for letter |
| CatalogResume.TagFoundIff | internal/catalogbootstrap/runner.go:255-260 | a tag is found if and only if some trimmed slug equals it letter for letter |
| CatalogResume.LookedUpFoundIff | internal/catalogbootstrap/runner.go:97-118 | after looking ids up instead, a name is found if and only if some slug equals it untrimmed |
| CatalogResume.NothingDroppedIff | internal/catalogbootstrap/runner.go:85-118 | either way a product keeps its category, brand and every tag if and only if each is spelled as in the taxonomy |
| CatalogResume.ValidationAloneIsNotEnough | internal/catalogbootstrap/manifest.go:234-241 | a manifest without issues whose import succeeds and whose product still loses its category |
| CatalogRuns.ImportOneEffect | internal/catalogbootstrap/runner.go:182-299 | error or not, one product changes only its own row, image and price; success means the row says what the manifest says and the price is set |
| CatalogRuns.TurnMoves | internal/catalogbootstrap/runner.go:130-151 | one turn of the loop leaves finished products and their prices alone and finishes only what is stored and priced |
| CatalogRuns.AllMove | internal/catalogbootstrap/runner.go:130-151 | the whole loop does so, saves the checkpoint it holds, and gets through only with every product finished |
| CatalogConvergence.RunKeepsInvariant | internal/catalogbootstrap/runner.go:55-162 | every resumed run, error or not, keeps: finished products are stored and priced, stored ones are as described, nothing else is added or changed |
| CatalogConvergence.RunsKeepInvariant | internal/catalogbootstrap/runner.go:55-162 | so in every reachable state; a stored product is never replaced, so each is created at most once |
| CatalogConvergence.SuccessImportsManifest | internal/catalogbootstrap/runner.go:55-162 | after any failing runs, one that returns no error leaves the original catalog plus exactly the manifest's products, each entry as planned |
| CatalogConvergence.ResumeConverges | internal/catalogbootstrap/runner.go:55-299 | two histories that each end with a run without error agree on every product's entry, have it priced as the manifest says in some book, and agree on effective prices if neither met the guard; one may be a single uninterrupted run |
| CatalogConvergence.StrandsIff | internal/catalogbootstrap/runner.go:164-180 | a run creates a book while a product is already finished if and only if it starts with one finished, gets to the book, its lookup errs or finds none, and the creation does not fail |
| CatalogConvergence.EffectivePricesIff | internal/catalogbootstrap/runner.go:164-180 | imported prices are those of the newest default book if and only if no run met that guard |
| CatalogConvergence.UninterruptedRunSetsPrices | internal/catalogbootstrap/runner.go:55-180 | one uninterrupted run sets the effective prices |
| CatalogStranded.FinishedProductLosesItsPrice | internal/catalogbootstrap/runner.go:164-180 | a concrete history of two successful runs after which a product has no effective price |
| CatalogProgress.ImportOneSucceedsIff | internal/catalogbootstrap/runner.go:182-299 | without failing calls one product succeeds if and only if it is stored already, or named while uploads are on |
| CatalogProgress.FaultFreeRunSucceedsIff | internal/catalogbootstrap/runner.go:55-162 | without failing calls, from any reachable state, a resumed run returns no error if and only if its taxonomy can be obtained and every product is finished, stored, or can be |
| CatalogOptions.DryRunChangesNothing | internal/catalogbootstrap/runner.go:63-76 | a dry run writes neither to the database nor to the checkpoint, and returns no error if and only if the manifest has integrity and its report can be written |
| CatalogOptions.DryRunsChangeNothing | internal/catalogbootstrap/runner.go:63-76 | so does any number of dry runs, with any manifests and replies |
| CatalogOptions.OptionsBind | internal/catalogbootstrap/runner.go:85-161 | without taxonomy import no category, brand or tag is written; without product import no product, image, price or checkpoint; without prices no price; without uploads no image and no product |
| CatalogOptions.FreshRunIgnoresCheckpoint | internal/catalogbootstrap/runner.go:77-84 | a run that does not resume does the same whatever the checkpoint file holds |
| CatalogCheckpoint.CheckpointIsTrue | internal/catalogbootstrap/runner.go:129-151 | over any runs from an empty checkpoint on, every checkpointed product id is the stored row's, every checkpointed image was inserted for its SKU, and finished products are stored |
| CatalogCheckpoint.SkippedIff | internal/catalogbootstrap/runner.go:131-134 | a product is passed over without a call if and only if its item is verified or priced |
| CatalogCheckpoint.LoopStopsAtFailure | internal/catalogbootstrap/runner.go:129-151 | the loop finishes every product or stops at the first that fails, which it records as failed, and touches no other item |
| CatalogCheckpoint.RowInsertedIff | internal/catalogbootstrap/runner.go:267-285 | a product row is inserted if and only if the call goes through, SKU and name are not blank, the SKU is new and an active product has an image, and carries what was given |
| CatalogCheckpoint.PriceSetIff | internal/catalogbootstrap/runner.go:291-297 | a price is set if and only if the call goes through, book and product are there and it is not negative |
| CatalogCheckpoint.RunSucceedsIff | internal/catalogbootstrap/runner.go:55-162 | for any failing calls a run returns no error if and only if the manifest has integrity, its first write, the taxonomy and the book succeed, every product is finished afterwards and its last call goes through |
| CatalogCheckpoint.ImageUploadedIff | internal/catalogbootstrap/runner.go:182-242 | one product inserts an image if and only if its lookup errs or finds nothing, uploads are on, no image is checkpointed or known, and the upload gets through |
| CatalogCheckpoint.KnownImageIsShown | internal/catalogbootstrap/runner.go:208-284 | an image known under the planned public id is shown and none inserted |
| CatalogMedia.AtMostOneImage | internal/catalogbootstrap/runner.go:208-242 | over any resumed runs, with any manifests and options, at most one image is inserted per SKU, and the checkpoint keeps it |
| CatalogMedia.ProductsShowOwnImages | internal/catalogbootstrap/runner.go:208-284 | over any runs of the same products, resumed or not, every product stored by them shows an image inserted for its SKU or one with its planned public id |
| CatalogRunner.Runner.ImportTaxonomy | internal/catalogbootstrap/taxonomy.go:13-149 | the four loops over the live database are the specified import |
| CatalogRunner.Runner.ImportCategories | internal/catalogbootstrap/taxonomy.go:22-91 | the two category loops |
| CatalogRunner.Runner.ImportFlat | internal/catalogbootstrap/taxonomy.go:93-147 | the brand and the tag loop |
| CatalogRunner.Runner.LookupAll | internal/catalogbootstrap/runner.go:97-118 | the lookup loops of a run that imports no taxonomy |
| CatalogRunner.Runner.EnsurePriceBook | internal/catalogbootstrap/runner.go:164-180 | any error of the lookup leads to a new default book |
| CatalogRunner.Runner.ImportOne | internal/catalogbootstrap/runner.go:182-299 | one product against the live database, its checkpoint item updated as steps succeed |
| CatalogRunner.Runner.ImportAll | internal/catalogbootstrap/runner.go:129-151 | the product loop, saving the checkpoint after each product |
| CatalogRunner.Runner.Run | internal/catalogbootstrap/runner.go:55-162 | a whole run on the live database and checkpoint file |
| OpenApiRefs.ResolveLocalJsonPointer | tools/openapi_refs.py:15-25 | the descending loop finds a pointer exactly when its chain of object keys exists |
| OpenApiRefs.DecodeEscape | tools/openapi_refs.py:20-21 | the two replacements undo escaping for every key |
| OpenApiRefs.PointerRoundTrip | tools/openapi_refs.py:15-25 | escaping, joining and prefixing any non-empty chain of keys gives a pointer that resolves exactly when the chain exists |
| OpenApiRefs.RefWalker.Walk | tools/openapi_refs.py:28-44 | the recursive walk appends the specified misses in order |
| OpenApiRefs.CollectUnresolvedLocalRefs | tools/openapi_refs.py:28-44 | the checker's list is the specified one |
| OpenApiRefs.ReportIsExact | tools/openapi_refs.py:28-44 | it reports exactly the dangling local references, each at its own place and once |
| OpenApiStrip.StripPreservesLookup | tools/build_openapi.py:6758-6772 | a pointer resolves after stripping if and only if it did and names no legacy key |
| OpenApiStrip.StripIsCompleteAndIdempotent | tools/build_openapi.py:6758-6772 | no object at any depth has or requires a legacy key, and stripping again changes nothing |
| OpenApiStrip.ParameterListsFiltered | tools/build_openapi.py:6775-6797 | the second pass gives every parameter list filtered and every node that holds none exactly as it was |
| OpenApiStrip.KeptInOrder | tools/build_openapi.py:6784-6797 | filtering keeps the order, keeps each current parameter as often as it occurs and no legacy one |
| OpenApiNodes.StrippingIsLocal | tools/build_openapi.py:6758-6772 | a path through a legacy key leads nowhere after dropping keys; every other node, in lists too, is as before without its legacy keys, and lists under required lose exactly the legacy names |
| OpenApiNodes.NamesInOrder | tools/build_openapi.py:6764-6769 | the names kept under required stay in order and as often as listed |
| OpenApiNodes.RedactionIsLocal | tools/build_openapi.py:6821-6825 | rewriting changes nothing but strings, each in its place |
| OpenApiWording.WordingOf | tools/build_openapi.py:6802-6815 | the nine legacy keys become company, and the role and the two adjectives their own wordings |
| OpenApiWording.FirstOccurrence | tools/build_openapi.py:6816-6820 | one replacement replaces the first occurrence and goes on behind it |
| OpenApiWording.OneAfterTheOther | tools/build_openapi.py:6816-6820 | a list of replacements is done one part after the other |
| OpenApiWording.SingleReplacement | tools/build_openapi.py:6816-6820 | and a list of one is that replacement |
| OpenApiWording.RewrittenWordByWord | tools/build_openapi.py:6816-6820 | a character that no token holds cuts a text into parts that are rewritten each by itself |
| OpenApiRedaction.ReplaceInOrder | tools/build_openapi.py:6816-6820 | the loop applies the twelve replacements in order |
| OpenApiRedaction.RedactionIsCompleteAndIdempotent | tools/build_openapi.py:6800-6825 | no token is left in any text, a second round changes nothing, a clear text stays |
| OpenApiRedaction.ReplacementsDoNotOverlap | tools/build_openapi.py:6802-6815 | no replacement text can form a token with what surrounds it |
| OpenApiRedaction.RedactedTreeIsClear | tools/build_openapi.py:6821-6825 | so for every string value of a tree |
| OpenApiRedaction.RedactionKeepsChains | tools/build_openapi.py:6821-6825 | rewriting keeps every chain of keys |
| OpenApiScrub.ClearPointerAvoidsLegacyKeys | tools/build_openapi.py:6743-6755 | a pointer free of tokens names no legacy key, even escaped |
| OpenApiScrub.ScrubKeepsClosure | tools/build_openapi.py:6758-6833 | if every reference resolves and none holds a token, every reference of the scrubbed document resolves |
| OpenApiFixpoint.ScrubbedOnceIsScrubbed | tools/build_openapi.py:6828-6833 | the scrubbed document has no legacy key, required name or wording left at any depth, and scrubbing it again succeeds and gives it back |
| OpenApiClosure.ScrubbedLookup | tools/build_openapi.py:6828-6833 | a pointer resolves in the scrubbed document if and only if it did before and names no legacy key |
| OpenApiClosure.SurvivingRefResolvesIff | tools/build_openapi.py:6828-6833 | a reference that has been rewritten resolves after the scrub if and only if that text resolved before |
| OpenApiClosure.ScrubClosureIff | tools/build_openapi.py:6828-6833 | the scrubbed document has no unresolved reference if and only if every surviving reference, once rewritten, resolved in the original |
| OpenApiRaise.StripRaisesExactly | tools/build_openapi.py:6758-6772 | with set membership as a step that can raise, dropping keys raises exactly for a list or object in a kept required list, and otherwise gives the specified tree |
| OpenApiRaise.ParametersRaiseExactly | tools/build_openapi.py:6775-6797 | the second pass raises exactly for a listed parameter whose name is a list or an object |
| OpenApiRaise.ScrubRaisesExactly | tools/build_openapi.py:6828-6833 | so the passes in order give what the scrub gives, errors included |
| OpenApiScrub.GeneratedSpec.StripLegacyScopeParameters | tools/build_openapi.py:6775-6797 | the in-place loops filter the document's parameter lists |
| OpenApiScrub.GeneratedSpec.ScrubOpenApiSpec | tools/build_openapi.py:6828-6833 | the three passes in order, including where one raises |
| OpenApiExamples.ExampleFits | tools/build_openapi.py:6334-6361 | for every OpenAPI 3.0 schema the placeholder has the schema's type and format, an item for a list and a member for every property, and these fit their schemas |
| OpenApiExamples.GetPut | tools/build_openapi.py:6372-6387 | assigning to a key changes that key and no other |
| OpenApiExamples.TruthyIff | tools/build_openapi.py:6371-6375 | which values count as missing examples |
| OpenApiEnrich.OperationHasEffect | tools/build_openapi.py:6364-6387 | by lookups: a JSON request block or block of a successful response gets the placeholder of its schema if its example is missing or null, and is the same otherwise; every other lookup in the operation gives what it gave |
| OpenApiEnrich.PathsHaveEffect | tools/build_openapi.py:6364-6387 | so for every operation of the paths, each in its place |
| OpenApiEnrich.EnrichmentIsIdempotent | tools/build_openapi.py:6364-6387 | enriching an enriched document changes nothing |
| OpenApiEnrich.SuccessMeans | tools/build_openapi.py:6378-6379 | a code is successful if and only if it is digits that end in 2xx, with only zeros before |
| OpenApiGate.ConstructorsQualify | tools/build_openapi.py:136-147 | both response constructors give responses of the shape from which the example lemmas start |
| OpenApiGate.OperationEnriched | tools/build_openapi.py:6364-6387 | after enrichment a JSON request block has an example and every successful response an example that lasts |
| OpenApiGate.OperationMeetsGate | tools/openapi_verify_release.py:293-340 | one operation, enriched and scrubbed, has no missing request example, and a 2xx example if it has a 2xx response |
| OpenApiGate.GeneratorMeetsGate | tools/openapi_verify_release.py:277-340 | so for every operation of every document whose paths were built and enriched and which was then scrubbed |
| OpenApiRelease.GeneratedPaths.EnrichSuccessAndRequestExamples | tools/build_openapi.py:6364-6387 | the nested in-place loops are the specified enrichment |
| OpenApiRelease.CheckResponses | tools/openapi_verify_release.py:310-335 | the response loop's flags mean that a successful response, or an exemplified one, exists |
| OpenApiRelease.CheckExamples | tools/openapi_verify_release.py:277-340 | the gate's two lists are the specified ones and together name exactly the operations lacking a request example, responses, a successful response or its example |
| OpenApiRelease.ReportedOnce | tools/openapi_verify_release.py:277-340 | each problem of an operation is in its list exactly once, and nothing else is |
| OpenApiRelease.ReportsInOrder | tools/openapi_verify_release.py:277-278 | the lists follow the order of the document |
| OpenApiRelease.GateMeansNoReport | tools/openapi_verify_release.py:293-340 | passing means that no example is reported missing |
| OpenApiRelease.DueMeans | tools/openapi_verify_release.py:277-340 | what is due, read off the keys of an operation, is what the gate asks |
| OpenApiRelease.IdCheck.Visit | tools/openapi_refs.py:85-90 | the map of ids seen stays the map of first declarations |
| OpenApiRelease.DuplicateOperationIds | tools/openapi_refs.py:66-91 | the loops report each later operation with the first that has its id |
| OpenApiRelease.DuplicateCheckIsExact | tools/openapi_refs.py:66-91 | nothing is reported if and only if the declared ids are pairwise different |
| OpenApiIds.ReportedIff | tools/openapi_refs.py:66-91 | something is reported if and only if two different places of the document, an object item's i-th path and j-th method each, not an extension, declare operationIds whose trims are equal and not empty |
| OpenApiIds.ReportedCollisions | tools/openapi_refs.py:66-91 | each report names a later place and the first one with that id, and every such pair is reported |
| MigrationNames.NameOrderIsVersionOrder | tools/verify_migrations.py:109-142 | with digits that ascend with their values the order of names is the order of versions |
| MigrationNames.WellNamedIff | tools/verify_migrations.py:19 | a name is well formed if and only if it is five digits, an underscore, a description without line feeds and the suffix, put together |
| MigrationNames.VersionIsRead | tools/verify_migrations.py:127 | the version is the decimal reading of the five digits |
| MigrationNames.OrderedListing | tools/verify_migrations.py:127-142 | then a sorted listing has its version-order failures exactly where it has duplicates |
| MigrationNames.ReliableIff | tools/verify_migrations.py:109-142 | for all sorted listings over a set of digits that holds if and only if the digits ascend with their values or all have one value |
| MigrationNames.AsciiIsReliable | tools/verify_migrations.py:19 | so for ASCII digits |
| MigrationNames.ForeignDigitsAreNotReliable | tools/verify_migrations.py:19 | but not for every digit that the file-name pattern matches |
| MigrationSections.SplitSections | tools/verify_migrations.py:81-97 | the loop gives the specified sections |
| MigrationSections.SectionsAreExact | tools/verify_migrations.py:86-96 | each section is, in order and once each, exactly the lines whose nearest directive above opens it |
| MigrationSections.BodyIffVisibleLine | tools/verify_migrations.py:81-97 | a section body is not empty if and only if some line of the section shows anything |
| MigrationDirectives.IsDirectiveIff | tools/verify_migrations.py:87-88 | a line opens a section if and only if, but for space around, it is two dashes, the goose mark and the word, in any letter case |
| MigrationDirectives.DirectiveAtIff | tools/verify_migrations.py:150-155 | the layout check finds a directive at a place of the text if and only if it is spelled there, the word in its exact case, up to the end of a line |
| MigrationDirectives.LinesComeBack | tools/verify_migrations.py:83 | splitting a text into lines gives back lines ended by line feeds or by carriage return and line feed |
| MigrationGate.SortingSorts | tools/verify_migrations.py:109 | the listing is put in name order and loses no file |
| MigrationGate.Report.ValidateLayout | tools/verify_migrations.py:100-160 | the loop over the sorted files appends the specified findings and sets the exit code when there is one |
| MigrationGate.LayoutCheckIsExact | tools/verify_migrations.py:100-160 | there is no finding if and only if there are files, each is sound, and versions strictly increase |
| MigrationGate.FindingsAre | tools/verify_migrations.py:100-160 | each finding is reported exactly when it is due of some file, or there is no directory or no file |
| MigrationGate.OrderCheckIsRedundant | tools/verify_migrations.py:128-141 | for sorted names in ascending digits, strictly increasing means no repeated version |
| MigrationGate.Report.ApplyPolicy | tools/verify_migrations.py:231-261 | destructive statements block unless staging or production allows them |
| MigrationGate.Verify | tools/verify_migrations.py:312-348 | exit code 0 if and only if the layout is sound and there is nothing destructive or the target allows it; blocked exactly otherwise |
| RulesetVerdict.CoversRef | tools/verify_github_governance.py:350-371 | the scanning loops decide coverage: an active branch ruleset, some include and no exclude matching |
| RulesetVerdict.PatternMatchesIff | tools/verify_github_governance.py:331-347 | which patterns match: all, the default branch, a name of the branch, or a glob of either name |
| RulesetVerdict.CoversIff | tools/verify_github_governance.py:350-371 | only an active branch ruleset covers anything, one matching exclude leaves the branch out, and without one some include has to match |
| RulesetVerdict.WindowMatchesAreMatches | tools/production_e2e_governance_window.py:176-189 | every pattern that matches for the window tool matches for the verifier |
| RulesetVerdict.PolicyMeansNoError | tools/verify_github_governance.py:411-505 | the declarative policy holds if and only if no error is due |
| RulesetVerdict.VerifyMergedRules | tools/verify_github_governance.py:385-505 | exactly the due errors and warnings are appended, and the result is true if and only if the policy holds |
| RulesetVerdict.VerifyPullRequests | tools/verify_github_governance.py:411-461 | approvals, stale reviews and last push |
| RulesetVerdict.VerifyStatusChecks | tools/verify_github_governance.py:463-498 | required checks up to aliases, strictness when enforced |
| RulesetVerdict.MergeRules | tools/verify_github_governance.py:374-382 | rules of covering rulesets, in order |
| RulesetVerdict.CheckBranch | tools/verify_github_governance.py:705-742 | rulesets decide when one covers the branch, classic protection only otherwise |
| RulesetVerdict.VerdictIgnoresOrder | tools/verify_github_governance.py:374-505 | the verdict is the same for any order of rulesets and of rules within them |
| RulesetVerdict.MainImpliesDevelop | tools/verify_github_governance.py:488-489 | rules that pass for main pass for develop |
| RulesetVerdict.MainNeedsOneMoreCheck | tools/verify_github_governance.py:40-59 | and the two verdicts differ only by main's last check |
| ResourceLedger.EachOnce | internal/bootstrap/runtime.go:100-140 | either order of release covers each handle of a stretch exactly once and no other |
| ResourceLedger.Ledger.Run | internal/bootstrap/runtime.go:115-121 | running a chained cleanup performs the releases it owes, in order |
| ResourceLedger.BuildWorkflowOrchestration | internal/bootstrap/temporal.go:14-34 | nothing stays open on an error, otherwise the cleanup owes the client |
| ResourceLedger.OpenStores | internal/bootstrap/runtime.go:87-107 | pool and Redis client, released newest first on failure |
| ResourceLedger.OpenNats | internal/bootstrap/runtime.go:123-140 | a failing stream set-up drains the client and then everything before it |
| ResourceLedger.OpenTemporal | internal/bootstrap/runtime.go:109-121 | a failing workflow client releases everything before it |
| ResourceLedger.RuntimeOpens | internal/bootstrap/runtime.go:82-157 | which clients building opens |
| ResourceLedger.RuntimeOpensInOrder | internal/bootstrap/runtime.go:82-157 | in which order, each at most once |
| ResourceLedger.BuildRuntime | internal/bootstrap/runtime.go:82-157 | succeeds exactly when no needed step fails; on an error everything opened has been released newest first, on success the runtime owes exactly that |
| ResourceLedger.Runtime.Close | internal/bootstrap/runtime.go:192-200 | the MQTT hook first, then the chain |
| ResourceLedger.RunOnce | internal/bootstrap/runtime.go:82-200 | build, register the hook, close once: everything is released exactly in reverse order of acquisition |
| ResourceLedger.CloseTwice | internal/bootstrap/runtime.go:192-200 | a second close releases everything again |
| ResourceLedger.BuildReconcilerDeps | internal/bootstrap/reconciler.go:23-131 | in every outcome what is open is exactly what the returned cleanup owes, oldest first; only a failing sink releases it first |
| ResourceLedger.OpenOnErrorIff | internal/bootstrap/reconciler.go:83-101 | when precisely an error comes back with an open resource |
| ResourceLedger.ReconcilerOpens | internal/bootstrap/reconciler.go:23-131 | which clients the reconciler's builder opens, and in which order |
| ResourceLedger.BuildTemporalWorkerActivityDeps | internal/bootstrap/temporal_worker.go:21-64 | nothing stays open on an error, otherwise the cleanup owes the client |

## Left out

Everywhere:

- White space and letter case are ASCII in the catalog, OpenAPI and gate models: other white space in `strip` and `TrimSpace`, and letters that fold to ASCII ones, are not.

Governance window:

- HTTP, the `gh` CLI and its exit codes: a call is done, refused or lost. Refused and lost reads are treated alike where the code does.
- Time stamps, TTL texts and messages. The TTL bounds are modelled; file names are successive numbers, that is, time stamps strictly increase.
- `--force` and `--snapshot` are excluded from `GovernanceRuns.RunSafety`, and so are aborted commands; `GovernanceAnyRun.NothingIsLost` covers all three. Concurrent edits by others are in neither.
- GovernanceWriteAhead.SnapshotIsFaithful: covers rulesets and deployment rules; the classic protection and environment reads are counted as calls and their content, which no command reads back, is not kept.
- GovernanceWindow.Tool.TakeSnapshot: likewise.
- Rulesets listed without an id.

Catalog import:

- CatalogConvergence.ResumeConverges: assumes a normalized manifest (slugs trimmed, non-empty and lower-case) and the same manifest and options in every run, because validation ignores case and a run without price import also marks products verified.
- CatalogMedia.AtMostOneImage: assumes that checkpoint saves succeed and runs return rather than get killed, because the code ignores save errors.
- CatalogProgress.FaultFreeRunSucceedsIff: assumes that the image provider gives every upload an unused public id, because what it returns is outside the code.
- CatalogManifest.LoadFinalManifest: image hash and MIME fields are dropped, because the import does not decide anything by them.
- Company id, image attributes, download and Cloudinary details, evidence files other than the checkpoint, and the database audit's figures.
- Price books that take effect in the future: the newest default book is the one created last.
- A manifest that is nil, and nil taxonomy or runner: `ValidateManifest` models the nil manifest only.

OpenAPI:

- OpenApiRelease.CheckExamples: the bearer, secret and 4xx checks of the same loop are not modelled.
- The large schema and example tables, Postman output, and the gate's path checks.
- OpenApiGate.GeneratorMeetsGate: enrichment is followed directly by the scrub; the pass in between that marks deprecated routes adds a flag that no example check reads.
- Response codes are read as ASCII digits; signs, spaces, underscores and other digits that `int` takes are not.
- Operations or successful responses that are not objects make the enrichment raise; `OperationBuilt` excludes them.
- Object identity: a dictionary shared between two places of the document is updated in both by the code, in one by the model.

Gates:

- MigrationGate.Verify: takes the findings of the regular expressions for destructive SQL as input; the list of files exempt from them is empty in the code.
- RulesetVerdict.CheckBranch: takes the verdict on classic branch protection as input.
- Files that cannot be read, and directories named like migrations.
- File names sort by code point, as on POSIX systems.
- `fnmatch` is any function of text and pattern, so the results hold whatever it matches.
- Rule types that are not strings.

Start-up:

- What clients do, health probes and the API wiring; a client is open from its constructor's success until its release.
- Limits, ticks and the other fields of the returned structures.
- Nil configuration, pool and receiver, for which the builders return an error before acquiring anything.
