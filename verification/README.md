# Shortlist: what the engine keeps

Shortlist gives every Plex account private rows and hides each row from everyone else by editing share filters:
strings of conditions such as `contentRating!=R|label!=a%2Cb`, joined by `|` and `&`. This project models the parts
of the engine where a mistake shows somebody else's row, wastes a slot or never ends, and proves what they keep.
`dafny verify dfyconfig.toml` checks all of it.

## How it is built

* **Share filters.** `FilterText` and `ShareFilter` read and print a filter character by character.
  `FilterSemantics` gives a filter two meanings, the only two Plex's recorded behaviour allows: strictly left to right
  (`LeftToRight`), or with `|` binding tighter than `&` (`PipeFirst`). Transformations of filters are proved against
  both, except for the allow list, which the code itself reads with `|` tighter. `FilterMerge`, `FilterRemove`,
  `FilterAllow` and `SharePlan` hold the transformations, each as a function and as the loop that computes it
  (`AllowMethods` for the allow list). What they promise is in `MergeTheorems` and `MergeStability`, `HouseStyle`,
  `RemoveUndo`, `AllowTheorems`, `AllowRestore` and `AdmitIdle`.
* **Whole plans.** `PlanSteps` moves a plan from text to conditions. `PlanPasses` counts the passes of any plan, from
  what a merge can uncover (`AdmitOutcome`, `FilterKin`, `PassShape`, `FirstGroup`); `PlanPromises`, `PlanVerdicts`
  and `DamagedFilters` say where a plan does what it is for.
* **The sync of an account.** `SyncPrune` decides which labels an account must not see and which excludes may come
  back out; `AccountSync` plans both fields, `PruneEffects` says what pruning costs and what it achieves,
  `ExcludesKept` what no sync loses, and `RowAdmission` what becomes of the account's allow lists.
* **A run.** `RunProtocol` is a state machine over sweep, delivery, enumeration, roster, filter writes, read-back,
  promotion and convergence, in which any step may fail and deliveries, early merges and the owner's own edits
  interleave as they like. `FilterReadBack` is the check on what was written. `RunSafety` proves what every run keeps,
  and `RunReplay` that no more can be promised; `RunBlockers` says what stops a run from promoting, and nothing else
  does: `RunCompletion` continues any run nothing has stopped, and `RunWitness` starts one. `RunFreedom` says what the
  machine leaves open, `RunEvidence` what its syncs go by.
* **Where the code falls short.** `Counterexamples`, `HiddenRows`, `SpellingLosses` and `Leftovers` hold concrete
  filters, with labels read by `TextCodec`.
* **The shelf.** `ShelfOrder` walks chains of "place me next to that row", cycles included; `ShelfBuild` inserts.
* **Requests.** `RequestAlloc` says what a division of request slots must be, `SlotAllocator` is the allocator.
  `RequestLedger` folds reads of several sources; `RequesterTags` traces tags to people.
* **Fair selection.** `FairCut` (a share per source), `SeedSpread` (a share per seed), `Interleaving`,
  `SeedBudget` and `SeedOrder` (a share per media type, and a cycling lead).
* **Identity.** `TitleMarker` is the invisible account code in titles.

How label text is decoded, lower-cased and case-folded is left to a `Naming` or `Codec`, and theorems ask of it only
what those functions have in common on Shortlist's own labels, which are slugs over `[a-z0-9_]`
(`SyncPrune.Faithful`, `MergeTheorems.SaneNaming`): a text that lower-cases to such a label folds to what it folds to,
and the shared rows' prefix stays in sight. `TextCodec` is a codec close to the program's own, decoding escapes of
ASCII characters, lower-casing ASCII, and folding a long `ſ` to `s` besides, and meets those conditions
(`ShortlistIsFaithful`). Spellings such as `ſhortlist_x`, which folding takes for a label of ours and lower-casing does
not, are therefore inside the model. A label that is written must be one Shortlist makes: our prefix, and no character
that separates anything in a filter. Labels to write arrive as a sequence, standing for the source's sorted set. Tags of
an item are normalised and, where a theorem says so, never blank. A row's ranking is an arbitrary total preorder, and a
seed's weight an arbitrary number that falls with age.

## What the code does not do

* A plan is not always settled in one write, as `shortlist/engine/privacy.py:626-628` promises. The first merge takes
  our movable clauses out of the places Plex ignores, and what it uncovers is let in at once by the second pass. Each
  pass after that takes a single clause of ours off the front of the filter, while one leads it with a `|` somewhere
  behind, and letting the row into the group they uncovered costs one pass more (`PassesCounted`). Four passes settle
  a filter if and only if this count is at most four (`PlanSettlesExactly`), and only then does the next sync leave it
  alone (`PlanAgain`, `SecondSyncIsQuiet`). A filter with one clause of ours at most, wherever it stands, is settled
  in one write, and its account sees its own row (`OneClauseSettles`). The filters the tests damage
  (`tests/unit/test_privacy_own_row.py:200-233`) are of that kind, and what is planned for them shows everything but
  rows as their owner's filter did (`RepairedInOneWrite`). With more clauses of ours, three things go wrong:
  * `FivePassesNeeded` takes `label!=shortlist_a&…&label!=shortlist_e|contentRating!=R`: what is planned for it lets
    through items the owner's `contentRating!=R` rules out, which one more pass would not.
  * `OwnRowStaysHidden` takes `label!=shortlist_a&…&label!=shortlist_d|contentRating=G`: what is planned for it hides
    the account's own row, which one more pass would let in. A plan hides the own row exactly when that is so
    (`PlanLetsOwnRowPass`).
  * `UncoveredCountsAfresh` takes `label!=shortlist_a&…&label!=shortlist_e&contentRating=G|label!=shortlist_b`, which
    nothing of ours leads once it is lifted: the second pass lets the row in behind a `|`, which puts the clauses
    before it out of force, and they are counted from there.
* Pruning a shared row's exclude compares raw lower-cased text, while removal compares decoded text
  (`shortlist/engine/privacy.py:903-915` beside 433-452). So a disguised spelling of a shared label that is still
  wanted, such as a percent-encoded one, is pruned, and its removal takes the plain spelling with it, from both fields.
  `SyncedAccountHidesExactly` says exactly when a wanted label is lost, and `DisguiseUncovers` gives the sync of
  `label!=shortlist__shared_%61`: it leaves both filters empty. Labels of per-person rows are not affected
  (`PruneSparesPrivateRows`).
* The read-back looks for the excludes it recognises as ours, by lower-casing, while the merge takes a label for
  present by case-folding (`shortlist/engine/privacy.py:226-233`, 662). So where a filter spells a label only as
  `ſhortlist_x`, the merge adds nothing, and a read-back that has lost the exclude passes (`LossGoesUnnoticed`).
  A promotion establishes that a row is hidden exactly where the text written spells its label recognisably
  (`HiddenExactlyWhenConfirmable`), which it does unless the filter the run found spelt it otherwise
  (`KnownBySightIsConfirmable`).
* A run writes its filters, reads them back, and stops if an exclude it wrote is not enforced
  (`shortlist/engine/pipeline.py:1351-1386`). It may stop though plex.tv kept every write exactly: a pruned label stays
  in a clause that cannot go without regrouping the owner's conditions, and there it is not enforced.
  `WrittenKeepsItself` says exactly which texts fail their own check, and `LeftoverFailsItsCheck` gives the sync of
  `contentRating!=R&label!=shortlist_x|contentRating!=R` with that label to prune and another to add.
* Un-admitting hands back the owner's filter byte for byte (`shortlist/engine/privacy.py:528-529`) only if each of its
  groups is one that comes back: an empty `label=` clause, for one, does not (`HideUndoesShow`).
* Removing labels also tidies away a `label!=` clause that named nothing before, and does not undo what a merge moved
  (`RemoveUndoesMerge`).
* `shortlist/engine/models.py:1303-1305` says that a row anchor wins over a landmark title and that "top" overrides
  both. The code follows the row anchor for order, but takes the title for the position marker, and reads neither
  flag for "top" (`shortlist/engine/pipeline.py:2223-2230`, 2288-2318). The model follows the code.

## Model

| member | source | states |
|---|---|---|
| ShareFilter.ParseRoundTrip | shortlist/engine/privacy.py:121-194 | Whatever parses prints back as the exact characters it came from, mixed separators and encoded commas included, and what was read is well formed. |
| ShareFilter.SerializeRoundTrip | shortlist/engine/privacy.py:121-194 | A well-formed list of conditions reads back from its text as itself. |
| ShareFilter.ParseIsBijective | shortlist/engine/privacy.py:121-194 | Reading is a one-to-one correspondence between the filters that parse and the well-formed lists. |
| FilterSemantics.EnforcedPositions | shortlist/engine/privacy.py:210-223 | The backward loop marks exactly the conditions no pipe joins to, or has behind them. |
| FilterSemantics.EnforcedIsExact | shortlist/engine/privacy.py:210-223 | A position is enforced if and only if a false condition there vetoes the whole filter under both groupings, whatever the others say. |
| FilterSemantics.EnforcedVetoes | shortlist/engine/privacy.py:19-24 | An exclude in an enforced position that an item meets hides the item under either grouping. |
| FilterSemantics.TightenNeverShowsMore | shortlist/engine/privacy.py:322-356 | Dropping true conditions where they can go without regrouping, and weakening none, never lets more through under either grouping. |
| FilterEdits.EnforcedSurvives | shortlist/engine/privacy.py:322-356 | Taking clauses out never moves another one out of an enforced position. |
| FilterEdits.ParseOfPrinted | shortlist/engine/privacy.py:192-194 | An edited list prints to text that reads back as the list. |
| FilterEdits.SurvivorPlaces | shortlist/engine/privacy.py:308-319 | Taking values out of a clause leaves the others in order, each behind the separator that was in front of it. |
| FilterGroups.AllowGroups | shortlist/engine/privacy.py:455-468 | The loop finds the runs of conditions between ampersands. |
| FilterGroups.ShowsByGroups | shortlist/engine/privacy.py:455-461 | With the pipe binding tighter, an item is shown exactly when every group has an alternative that holds. |
| FilterMerge.LiftUnenforcedLabels | shortlist/engine/privacy.py:322-356 | The loop computes the list with our labels taken out of the clauses Plex ignores, and those labels in order. |
| FilterMerge.MineConcat | shortlist/engine/privacy.py:340-347 | Labels of ours are carried in the order they stand in. |
| FilterMerge.MissingConcat | shortlist/engine/privacy.py:412-422 | What is missing is added in the order it is wanted in. |
| FilterMerge.ConditionList.PlaceExcludes | shortlist/engine/privacy.py:359-376 | In place: the missing labels join the first enforced exclude, or a new one at the end. |
| FilterMerge.MergeLabelExcludes | shortlist/engine/privacy.py:379-430 | The merge as written computes the merge specified, errors included. |
| MergeTheorems.MergeNeverFailsItsCheck | shortlist/engine/privacy.py:379-430 | A merge is refused exactly when the filter does not parse or holds a literal ampersand; its closing self-check never fails. |
| MergeTheorems.MergeReadsBack | shortlist/engine/privacy.py:379-430 | The merged text reads back as its conditions, holds no literal ampersand, and enforces every wanted label and every one it found. |
| MergeTheorems.MergeEnforces | shortlist/engine/privacy.py:379-430 | Each wanted label is enforced by the merged filter. |
| MergeTheorems.MergeHides | shortlist/engine/privacy.py:379-430 | No item carrying a wanted label passes the merged filter, under either grouping. |
| MergeTheorems.MergeNeverShowsMore | shortlist/engine/privacy.py:322-430 | For an item with none of the labels added or moved, passing the merged filter implies passing the original; they agree when nothing had to be moved. |
| MergeTheorems.MergeMeansAndNotLabelled | shortlist/engine/privacy.py:379-430 | With no label of ours out of force, the merged filter means the original one and "carries none of these labels". |
| MergeStability.MergeKeepsOwnersConditions | shortlist/engine/privacy.py:322-430 | Every condition the owner wrote survives, in order, with its values and their separators. |
| MergeStability.MergeIsIdempotent | shortlist/engine/privacy.py:379-430 | Merging again gives the same text if and only if the lifted filter does not lead with a clause of ours that Plex ignores. |
| Counterexamples.MergeNeedsASecondPass | shortlist/engine/privacy.py:322-356 | Merging once a filter that two clauses of ours lead, joined by an ampersand with a pipe behind them, leaves one that a second merge changes. |
| HouseStyle.IsHouseSep | shortlist/engine/privacy.py:197-207 | The separator taken from a filter is its first encoded comma in reading order, and a plain comma only where it has none. |
| HouseStyle.MergeJoinsInStyle | shortlist/engine/privacy.py:359-430 | In the merged text, every gap in front of an added label holds its clause's own last separator, or that of the filter as it was read where the clause had none. |
| HouseStyle.AdmitJoinsInStyle | shortlist/engine/privacy.py:586-602 | In the text that shows the own row, each `label=` clause is one that was read, one given the own label behind a separator of that kind, or the own label alone. |
| FilterRemove.RemoveLabelExcludes | shortlist/engine/privacy.py:433-452 | The removal as written computes the removal specified. |
| FilterRemove.RemoveNeverShowsMore | shortlist/engine/privacy.py:433-452 | Removing labels lets through no item that carries none of them, under either grouping. |
| FilterRemove.RemoveKeepsEnforced | shortlist/engine/privacy.py:433-452 | A label that is not removed stays enforced. |
| FilterRemove.RemoveTakesLabelsOut | shortlist/engine/privacy.py:433-452 | A removed label can stay only in a clause that could not go without regrouping its neighbours. |
| RemoveUndo.RemoveUndoesMerge | shortlist/engine/privacy.py:379-452 | For a filter that holds none of the labels, removing what was just merged restores the original characters if and only if it had no empty exclude clause, and no label of ours where Plex ignores it that the merge had to move or enforce. |
| AllowTheorems.AdmitsIsHolds | shortlist/engine/privacy.py:487-492 | What the code takes a condition to say of a row is what the condition means on it. |
| AllowTheorems.AdmitLetsOwnRowPass | shortlist/engine/privacy.py:506-605 | After admitting, the own row satisfies every group that holds an allow condition of the owner's, and the text reads back. |
| AllowTheorems.AdmitChangesNoOtherVerdict | shortlist/engine/privacy.py:506-605 | Admitting hides nothing from anyone, and changes no verdict on an item without the own label unless a group allowed that label alone. |
| AllowRestore.HideUndoesShow | shortlist/engine/privacy.py:506-605 | Admitting and then un-admitting restores the exact characters if and only if every group comes back: each of its label allow clauses names only others or is held back by an exclude of ours, and the clause that lets the row in is neither empty nor held back. |
| AllowRestore.EmptyAllowIsNotGivenBack | shortlist/engine/privacy.py:525-529 | The filter `label=` is not given back. |
| AllowMethods.DropOwnClauses | shortlist/engine/privacy.py:574-585 | The backward loop that drops clauses allowing only the own row computes the groups specified. |
| AllowMethods.AdmitIntoGroups | shortlist/engine/privacy.py:586-602 | The loop that adds the own row to each group that would hide it computes the groups specified. |
| AllowMethods.TakeOwnOut | shortlist/engine/privacy.py:560-573 | The loop that takes the own label out, index by index, computes the groups specified. |
| AllowMethods.AdmitOwnRows | shortlist/engine/privacy.py:506-605 | Admitting and un-admitting as written compute the function the theorems are about. |
| SharePlan.PlanShareFilter | shortlist/engine/privacy.py:613-652 | The bounded loop of admit-then-merge passes computes the plan. |
| SharePlan.PlanEnforcesWanted | shortlist/engine/privacy.py:613-652 | Whatever is planned enforces every wanted label, so nothing carrying one is shown under either grouping. |
| PlanPasses.PlanInClosedForm | shortlist/engine/privacy.py:608-652 | The plan of any number of passes over any filter Plex can read, without merging again: clauses of ours leave the front one a pass, and what they uncover is admitted. |
| PlanPasses.PlanSettlesExactly | shortlist/engine/privacy.py:626-652 | So many passes settle the plan of a filter if and only if its count of passes is no higher; the planner allows four. |
| PlanPasses.PassesCounted | shortlist/engine/privacy.py:608-652 | The count: the clauses of ours that lead the filter the first pass merges or, where that pass uncovered something to admit, the second does; one pass or two besides; and what admitting behind those clauses takes. |
| PlanPasses.PlanLetsOwnRowPass | shortlist/engine/privacy.py:608-652 | After two passes or more, the plan hides the account's own row if and only if it is one pass short and the missing one would admit the row. |
| PlanPasses.PlanLeavesAlone | shortlist/engine/privacy.py:640-652 | A plan gives a filter back as it is if and only if nothing is to be admitted, every exclude of ours and every wanted one is enforced, and no ignored clause of ours leads; it never goes round. |
| PlanPasses.FixedExactly | shortlist/engine/privacy.py:640-652 | One pass leaves exactly those filters alone. |
| PlanPromises.OneClauseSettles | shortlist/engine/privacy.py:608-652 | A filter with at most one clause of ours, wherever it stands, is settled in one write, and every group of the owner's then admits the account's own row. |
| PlanVerdicts.PlanNeverShowsMore | shortlist/engine/privacy.py:513-529 | Where a clause naming only the own row shares its group with one that stays, a plan shows no item that is not a row unless the filter showed it, and exactly those where there was nothing to lift. |
| DamagedFilters.RepairedInOneWrite | shortlist/engine/privacy.py:606-652 | A filter of the owner's with an exclude of ours joined to it by a pipe, behind or before, is repaired in one write: everything that is not a row is shown exactly as the owner's own filter showed it, the own row passes, and planning again changes nothing. |
| DamagedFilters.LonePassesShowSame | shortlist/engine/privacy.py:606-652 | Where our excludes are groups of their own, no number of passes changes what is shown of anything but rows. |
| PlanPasses.QuietPasses | shortlist/engine/privacy.py:608-652 | For an account without a row label, or a filter of excludes alone, the count is one more than the clauses of ours that lead the filter once the movable ones are out. |
| AdmitIdle.IdleText | shortlist/engine/privacy.py:506-605 | Letting the row in, or taking it out, leaves the text alone where every group has nothing to do. |
| PlanPasses.PlanAgain | shortlist/engine/privacy.py:608-652 | Planning again from what was planned changes nothing if and only if the plan took at most four passes. |
| Counterexamples.FivePassesNeeded | shortlist/engine/privacy.py:626-652 | A filter that needs five passes: the plan shows, under both groupings, an item the owner rules out, and one more pass does not. |
| HiddenRows.OwnRowStaysHidden | shortlist/engine/privacy.py:608-652 | A filter that needs five passes, the fifth to let the account's own row into the owner's allow list: the plan hides the row. |
| HiddenRows.UncoveredCountsAfresh | shortlist/engine/privacy.py:608-652 | A filter nothing of ours leads, once lifted, that four passes do not settle. |
| SharePlan.SettledPlanLetsOwnRowPass | shortlist/engine/privacy.py:613-652 | Once a pass changes nothing, neither of its halves does, and the own row satisfies every group with an allow condition of the owner's. |
| SyncPrune.OursExactly | shortlist/engine/privacy.py:230-233 | A label is ours if and only if its decoded text, lower-cased, goes on from our prefix and an underscore. |
| SyncPrune.DesiredExcludes | shortlist/engine/privacy.py:686-744 | Exactly the stored labels that are neither blank, nor the account's own, nor a configured shared row it may see. |
| SyncPrune.Prunable | shortlist/engine/privacy.py:876-963 | The loops collect exactly our excludes, in either field, that one of the four reasons lets go. |
| SyncPrune.PrunedExactly | shortlist/engine/privacy.py:895-963 | An exclude may come out if and only if it is the account's own or, on a server wholly read and not empty, a configured shared row's the account may see or that is not there, a shared row's neither configured nor there, or a person's row gone by label, marker and departure. |
| SyncPrune.PruneSparesWanted | shortlist/engine/privacy.py:876-963 | A prunable label is no wanted one, if and only if there is no trusted enumeration or the label is not a disguised spelling of a wanted shared one. |
| SpellingLosses.DisguiseUncovers | shortlist/engine/privacy.py:903-984 | The sync of `label!=shortlist__shared_%61` with that label wanted empties both fields, and the next one puts it back. |
| SyncPrune.PruneSparesPrivateRows | shortlist/engine/privacy.py:876-963 | A wanted label of a per-person row is never pruned, in any spelling. |
| SyncPrune.PrivatePruneNeedsThreeGuards | shortlist/engine/privacy.py:943-954 | Another account's private exclude goes only when no stored label matches it, no marker names its owner and its owner is known to have left. |
| AccountSync.AdmitKeepsReadable | shortlist/engine/privacy.py:506-605 | Admitting or un-admitting fails exactly on a filter Plex cannot read or that does not parse, and leaves a readable one. |
| AccountSync.PlanRefusesOnlyUnreadable | shortlist/engine/privacy.py:613-652 | A plan is refused exactly when the filter it starts from is, and no later pass ever fails. |
| AccountSync.SyncUserRestrictions | shortlist/engine/privacy.py:786-984 | The sync as written computes the outcome specified, from lists of exactly the wanted and the prunable labels, and raises on an unreadable field only for a caller that collects none. |
| ExcludesKept.PlanKeepsOurs | shortlist/engine/privacy.py:322-328 | A plan enforces every label of ours that the filter excluded anywhere, where it is spelt so that the code recognises it. |
| ExcludesKept.BadReadKeepsExcludes | shortlist/engine/privacy.py:873-882 | After an enumeration that failed or found nothing, a synced field enforces every label of ours it excluded before but the account's own. |
| RowAdmission.OwnRowGoesIn | shortlist/engine/privacy.py:964-984 | An account that has a row: where the plan settles, every group of either synced field with an allow condition of the owner's lets the row through, after pruning too. |
| RowAdmission.OwnRowGoesInExactly | shortlist/engine/privacy.py:964-984 | Where nothing is pruned it is let through if and only if the plan is not one pass short with the missing pass the one that admits it. |
| RowAdmission.GoneRowComesOut | shortlist/engine/privacy.py:964-984 | An account whose row a complete enumeration did not find: where the plan settles, each `label=` clause names only others, or only the row and is held back by an exclude of ours. |
| RowAdmission.AllowListsStay | shortlist/engine/privacy.py:964-984 | With no label to let in, or an incomplete enumeration and no row, a synced field keeps every condition but its label excludes, in order and with their values. |
| SyncPrune.SlugIs | shortlist/engine/privacy.py:943-944 | The slug compared with markers and departures is what follows the prefix of the decoded label. |
| PruneEffects.UnwantedComesOut | shortlist/engine/privacy.py:895-984 | A label that may come out and is not wanted, as the account's own never is, is in no exclude of a synced field but a clause of pruned labels that could not go without regrouping its neighbours. |
| PruneEffects.SpellingPrunedExactly | shortlist/engine/privacy.py:876-963 | A spelling of a wanted label is pruned if and only if it is a disguise of it and the enumeration is trusted. |
| PruneEffects.RemovedStaysHidden | shortlist/engine/privacy.py:433-452 | A removed label stays enforced if and only if a clause of it was kept so as not to regroup its neighbours, and every pipe behind that clause then went. |
| PruneEffects.SyncedFieldHidesExactly | shortlist/engine/privacy.py:971-984 | A synced field hides a wanted label if and only if no spelling of it was pruned, or a clause of it was left standing. |
| PruneEffects.SyncedAccountHidesExactly | shortlist/engine/privacy.py:876-984 | After a sync a readable field hides a wanted label if and only if neither of the account's filters excluded it in disguise, or a clause of it was left standing. |
| PruneEffects.TidyAccountHidesExactly | shortlist/engine/privacy.py:876-984 | In a filter whose excludes name something, and spell recognisably what is pruned, the disguises alone decide. |
| SpellingLosses.PrunedButStanding | shortlist/engine/privacy.py:433-452 | A filter that goes on hiding a label whose spelling was pruned, because a clause of it could not go and a pipe behind it then went. |
| PruneEffects.SecondSyncIsQuiet | shortlist/engine/privacy.py:759-785 | A second sync with the same evidence and nothing left to prune leaves a field alone if and only if it is a filter a plan leaves alone; where the first pruned nothing, if and only if its plan took at most four passes. |
| AccountSync.SyncRaisesOnlyUnparseable | shortlist/engine/privacy.py:971-990 | A field Plex cannot read is skipped alone; the sync raises if and only if a field does not parse, or for a caller that collects no unreadable fields, if and only if one is unreadable. |
| RunSafety.StepKeepsInv | shortlist/engine/pipeline.py:1098-1394 | Every step of a run, failing ones included, keeps the invariant that nothing is promoted before every filter is confirmed. |
| RunSafety.PromotedRowIsHidden | shortlist/engine/pipeline.py:92-246 | In every reachable state a person's row the run put on Home is enforced as hidden in each field where the check would notice its loss, for every audience account but its own, the owner, those left alone, refused or off the share, and a field Plex cannot read. |
| RunSafety.KnownBySightIsConfirmable | shortlist/engine/pipeline.py:1351-1386 | The check would notice wherever the filter the run found did not spell the label unrecognisably. |
| RunReplay.HiddenExactlyWhenConfirmable | shortlist/engine/pipeline.py:1351-1386 | A run that puts a row on Home hides it in every run that ends alike, whatever plex.tv kept of the field, if and only if the check would notice the label's loss there. |
| RunSafety.PromotedRowIsUnseen | shortlist/engine/pipeline.py:92-246 | So, of the filters that did not spell it unrecognisably, none shows anything carrying the row's label, under either grouping. |
| RunSafety.FailedRunPromotesNothing | shortlist/engine/pipeline.py:1520-1567 | A run in which anything stood against promotion, or which has not read its filters back, has promoted nothing. |
| RunSafety.RefusedOnlyWithProfile | shortlist/engine/pipeline.py:1277-1328 | A refused write is passed over only for an account with a parental profile, or restricted with its profile unknown. |
| RunBlockers.StepFails | shortlist/engine/pipeline.py:1098-1394 | A step stands against promotion if and only if it is a failed enumeration or one without markers, the sync of a managed account with a field that does not parse, a write to one that was lost or refused without a profile, or a read-back that failed or lost an exclude; a field Plex cannot read is none of these. |
| RunBlockers.FailedExactly | shortlist/engine/pipeline.py:1098-1394 | At any point of a run something stands against promotion if and only if an event so far was such a step. |
| RunBlockers.PromotesExactly | shortlist/engine/pipeline.py:1520-1567 | A run gets to promoting if and only if it reads its filters back with no such step until then. |
| RunCompletion.WrittenKeepsItself | shortlist/engine/pipeline.py:1351-1386 | A write stored exactly passes the read-back if and only if it enforces every pruned label it still names. |
| RunCompletion.UnblockedRunsPromote | shortlist/engine/pipeline.py:92-246 | From any roster, unreadable fields included, a run nothing stands against can go on to put every row on Home, if plex.tv stores each write as given, the fields of the accounts still to sync parse, and their writes pass their own check. |
| Leftovers.LeftoverFailsItsCheck | shortlist/engine/privacy.py:433-452 | A sync whose write, stored exactly, fails its own read-back. |
| RunFreedom.AnyServer | shortlist/engine/pipeline.py:92-246 | Whatever was on the server, deliveries may leave any rows of ours there, and the owner any filters. |
| RunFreedom.EarlySteps | shortlist/engine/pipeline.py:92-246 | A sweep may take any row and ends, and a delivery may file any label under its slug. |
| RunFreedom.EditStep | shortlist/engine/pipeline.py:1098-1165 | Filters change freely until the roster is read, and not after. |
| RunFreedom.AnyAnswer | shortlist/engine/pipeline.py:1228-1349 | The sync of any account still to do may be answered in any way, but that a stored write leaves the field it did not name alone. |
| RunFreedom.ReadsMayFail | shortlist/engine/pipeline.py:1098-1394 | Sweep, enumeration and roster may fail whenever they are read, and the read-back exactly where something was written. |
| RunFreedom.ConvergesFreely | shortlist/engine/pipeline.py:1520-1567 | After promotion, whatever the run did not put on Home may be taken off it or deleted, and nothing else. |
| RunEvidence.WantedInRun | shortlist/engine/pipeline.py:1228-1251 | In a run, an account must not see a label on file unless it is its own row's or a configured shared row's it may see, which an account the owner opted out never may. |
| RunEvidence.PrunedInRun | shortlist/engine/pipeline.py:1185-1251 | A run takes an exclude of ours out, but the account's own, only after reading a server with labels on it; a person's only where no label on file matches it, no marker read is of an account with its slug, and its owner is among those who left. |
| RunEvidence.UnreadRunKeepsExcludes | shortlist/engine/pipeline.py:1098-1152 | A run that could not enumerate goes on excluding, enforced, whatever of ours a field excluded, but the account's own label. |
| RunEvidence.RowInRun | shortlist/engine/pipeline.py:1228-1240 | An allow list is opened for the label on file under the account's slug, and the slug's own label is taken out exactly where a complete enumeration has none on file. |
| RunEvidence.RunLetsRowThrough | shortlist/engine/pipeline.py:1228-1251 | In a run, each field of an account whose row's label is on file lets the row through where the plan settles. |
| FilterReadBack.ReadBackIsExact | shortlist/engine/pipeline.py:1351-1386 | Whatever the check accepts hides a label if and only if the text written spells it recognisably. |
| FilterReadBack.SyncSpellsAsOurs | shortlist/engine/privacy.py:971-984 | A field that excluded a label only recognisably, or not at all, is written with a recognisable exclude wherever it hides the label. |
| SpellingLosses.LossGoesUnnoticed | shortlist/engine/pipeline.py:1351-1386 | From `label!=ſhortlist_x` a sync writes a text that hides `shortlist_x`, and the check accepts one that does not. |
| TextCodec.ShortlistIsFaithful | shortlist/engine/privacy.py:226-233 | Decoding, lower-casing and a folding that equates more meet what the theorems ask of the three. |
| TextCodec.DecodesAtFront | shortlist/engine/privacy.py:226-233 | A text decodes at its front if and only if that is the escape of an ASCII character, its digits in either case. |
| TextCodec.LowersCapitals | shortlist/engine/privacy.py:230-233 | Lower-casing changes the 26 capitals alone, each to its small letter. |
| RunWitness.SomeRunPromotes | shortlist/engine/pipeline.py:92-246 | From a server with one other account whose fields are blank, or for television one Plex cannot read, a run that meets no failure promotes the row it delivered, every blank field hiding it by then. |
| RunWitness.SomeFieldIsUnreadable | shortlist/engine/privacy.py:246-254 | There are fields that parse and that Plex cannot read. |
| RunWitness.SimpleServer | shortlist/engine/pipeline.py:1098-1394 | Such a server exists, with labels decoded and folded, and the row that of a person known by slug. |
| ShelfOrder.FollowsChain | shortlist/engine/pipeline.py:2206-2221 | On any graph of placements the walk ends, and answers whether a row is somewhere down another's chain. |
| ShelfOrder.MarkerFor | shortlist/engine/pipeline.py:2288-2318 | A block goes below a landmark if and only if the nearest row up its chain that names one names it to go below, above it if and only if that row says above, and to the top exactly when the chain names none. |
| ShelfBuild.FindSpot | shortlist/engine/pipeline.py:2256-2262 | The scan stops at the first place below the target's followers. |
| ShelfBuild.InsertKeepsBlocks | shortlist/engine/pipeline.py:2243-2263 | With only "after" placements an insertion keeps every row's followers one block directly below it. |
| ShelfBuild.InsertKeepsSided | shortlist/engine/pipeline.py:2243-2263 | An insertion keeps every row on its named side of its target. |
| ShelfBuild.BuildOrder | shortlist/engine/pipeline.py:2232-2286 | The build ends; lists every row once; reports, in declared order, exactly the rows whose chain never ends; keeps rows without a target in declared order; puts the rest on their named side, siblings in the order their sweeps reach them; and with only "after" placements makes followers contiguous blocks. |
| ShelfBuild.SiblingsFlip | shortlist/engine/pipeline.py:2229-2263 | Of two rows on one side of the same target, the one declared earlier stands lower if and only if it is declared ahead of the target and the other behind it. |
| RequestAlloc.KeyTells | shortlist/engine/request_alloc.py:140-141 | Two titles are one exactly when both id and media type agree. |
| RequestAlloc.AtLeastHalfOfAny | shortlist/engine/request_alloc.py:22-83 | An allocation at the ceiling or with nothing left to claim holds at least half as many titles as any feasible one. |
| RequestAlloc.HalfIsTight | shortlist/engine/request_alloc.py:22-83 | That bound is reached by everything the allocator may return for two rows that want one title. |
| SlotAllocator.OwnerIsEarliest | shortlist/engine/request_alloc.py:144-161 | The owner of a contested title is the earliest row offering it that has room, if any has. |
| SlotAllocator.Slots.Drain | shortlist/engine/request_alloc.py:101-137 | Claims for one row alone, no more than allowed, at least one if the row can take any, and stops short only when the row is full or everything it offers is claimed or held by an earlier row with room. |
| SlotAllocator.Slots.Round | shortlist/engine/request_alloc.py:67-83 | Every round claims a title; each live row gains its share, and one more where it is among the first to be served, unless it came to a point where it could take nothing; no other row gains; and all that was left of the budget is claimed unless a live row ran out. |
| SlotAllocator.Slots.NoneLiveIsMaximal | shortlist/engine/request_alloc.py:86-98 | With no row live, every title offered by a row with room is claimed. |
| SlotAllocator.Allocate | shortlist/engine/request_alloc.py:22-83 | Terminates with distinct titles from each row's own list within both caps; a later row has a title only if the earlier ones offering it were full by then; a row passes over a better title only if it was claimed or an earlier row with room offered it; no slot is left idle that a row could use; each row has an even share of the ceiling unless it is full or came to a point where it could take nothing; of two rows the earlier has no fewer unless it was so spent; and the claims fall into rounds, each dividing what the ones before it left so evenly that no row gains more than one over a row that is not spent, nor any over an earlier one. |
| FairCut.SortedIsSorted | shortlist/engine/ranking.py:250-254 | Sorting by rank orders the candidates and loses none. |
| FairCut.SortedKeepsTies | shortlist/engine/ranking.py:250-254 | Candidates of equal rank stay in the order they came in. |
| FairCut.PreRank | shortlist/engine/ranking.py:235-288 | Everything, best first, if it fits; otherwise exactly as many distinct titles as may be kept, and any title left out has, for each of its sources, an equal share of kept candidates of that source ranked no worse. |
| SeedSpread.DiversifyBySeed | shortlist/engine/ranking.py:291-329 | The best candidate first, exactly the number asked for, and at every point of the row a best-first prefix of each seed's candidates, two seeds' counts apart by more than one only where the smaller has no more, and no seed ahead of one whose best candidate ranks before its own unless that one has no more. |
| Interleaving.Interleave | shortlist/engine/candidates.py:801-819 | Every result of every list once, rank by rank. |
| Interleaving.EveryListHasItsShare | shortlist/engine/candidates.py:801-819 | Under any cap on the merged list, each of n lists keeps its first cap / n results, or all of them if it has fewer. |
| Interleaving.ListsKeepOrder | shortlist/engine/candidates.py:801-819 | Each list keeps its own order. |
| SeedBudget.CycleIsPermutation | shortlist/engine/history.py:285-312 | Cycling loses and invents no seed. |
| SeedBudget.CycleKeepsOrder | shortlist/engine/history.py:304-312 | Any two seeds but the lead stand in the order they came in. |
| SeedBudget.EachLeadsOnce | shortlist/engine/history.py:285-312 | Over as many consecutive offsets as the window is wide, each of the newest watches leads exactly once. |
| SeedBudget.EachTypeKeepsItsShare | shortlist/engine/history.py:532-547 | With a budget of two or more, each media type present keeps a third of it, and at least one seed, or all it has. |
| SeedBudget.ChooseSeeds | shortlist/engine/history.py:509-547 | The chosen seeds are distinct, within the budget and as many as it allows, each type with its share, led by the heavier of the two seeds the cycle chose. |
| SeedOrder.LeadIsNextById | shortlist/engine/history.py:285-312 | The lead is the one of the newest watches with as many smaller ids among them as the offset leaves over. |
| SeedOrder.LeadsHeavierFirst | shortlist/engine/history.py:524-531 | Of the two seeds the cycle chose, the heavier leads, the movie on a tie. |
| SeedOrder.LedByRank | shortlist/engine/history.py:524-531 | The chosen seeds go first, and every other one follows as it stood. |
| SeedOrder.KindKeepsOrder | shortlist/engine/history.py:515-522 | The seeds of one media type stand among themselves as they did among all. |
| SeedOrder.BalancedByRank | shortlist/engine/history.py:532-547 | Seeds in the first third of the budget of their type, and the first of each, go before all others, each group stands as it did, and the budget cuts off whatever comes last. |
| TitleMarker.MarkerBits | shortlist/engine/delivery.py:306-329 | The marker is 64 characters, from the lowest bit, a zero-width non-joiner for each one and a zero-width space for each nought. |
| TitleMarker.StripUndoesMark | shortlist/engine/delivery.py:332-342 | Stripping a marked title gives back the display title, even one that ends invisibly. |
| TitleMarker.AccountOfMarked | shortlist/engine/delivery.py:310-357 | A marked title decodes to its account id if and only if the id fits in 64 bits. |
| TitleMarker.MarkedTitlesDiffer | shortlist/engine/delivery.py:310-329 | Two marked titles are equal if and only if both account and display title are. |
| TitleMarker.MarkedTitleRebuilds | shortlist/engine/delivery.py:332-357 | Any title recognised as marked is its stripped title marked again for its decoded account. |
| RequestLedger.MergedTitle | shortlist/engine/requests_row.py:295-304 | Of two copies of a title, the merged one holds wherever either did, counts as requested if either did, and is otherwise the Overseerr copy, else the earlier if it holds for every row, else the later: with its dates, its name unless it has none, and its sources first. |
| RequestLedger.SeenOnce | shortlist/engine/requests_row.py:167-180 | A row sees a title at most once. |
| RequestLedger.Ledger.Add | shortlist/engine/requests_row.py:171-180 | Adding a read leaves every other title alone and keeps one copy for all rows or copies under distinct patterns; rows see what they saw and what the read proves; and the copy added is the read merged with the one that was there, whose order is open only where several are taken in at once. |
| RequestLedger.Collect | shortlist/engine/requests_row.py:167-180 | After any fold, a row sees a title if and only if some read proves it for that row, and the first Overseerr copy's dates survive every later one. |
| RequesterTags.ResolveTag | shortlist/engine/requests_row.py:388-429 | A tag has a person if and only if it names that person alone; a tag that could be two people's has none. |
| RequesterTags.TraceTags | shortlist/engine/requests_row.py:382-429 | Every tag of the table is traced, each to the person it names alone. |
| RequesterTags.AddTagged | shortlist/engine/requests_row.py:376-468 | Exactly the titles that some tag of some item shows: the tag names the person alone, the row's pattern renders to it, and on an item we added ourselves it is a requester's. |

## Left out

- RunSafety.PromotedRowIsHidden: assumes that a successful enumeration reads the label of every row on the server, that plex.tv answers a read with what it stores and a write keeps the field it does not name, and that nobody else edits filters between the roster read and the end of the run; dry runs, which promote nothing, are not modelled.
- PruneEffects.SecondSyncIsQuiet: a second sync that still finds something to prune, which only a clause kept so as not to regroup its neighbours leaves behind.
- PlanVerdicts.PlanNeverShowsMore: with the own row shown, and under the grouping that the allow list is read by; where something was lifted, what is planned can show less.
- ShelfBuild.SiblingsFlip: below the target, only while no row asks to be above another; a row above a sibling stops the scan that places the next one.
- AccountSync.SyncUserRestrictions: gives the texts to write; the snapshot before a first write, the write and the dry run (privacy.py:986-1012) are not modelled.
- RowAdmission.OwnRowGoesIn: where something is pruned, for fields whose label excludes each name something, in spellings the code recognises; removal takes out an exclude that names nothing, or a spelling only folding recognises, whichever group it was an alternative of.
- A row is on Home or not; which of Plex's three surfaces a placement, season or schedule asks for is not modelled.
- TextCodec.ShortlistIsFaithful: decodes escapes of ASCII characters and lower-cases ASCII; the full Unicode tables are not part of this model.
- SyncPrune.DesiredExcludes: the values of the stored map are taken in arbitrary order, as the result is a set.
- SlotAllocator.Allocate: names a row by its place in run order instead of by its slug, which is unique.
- FairCut.PreRank: takes turns between sources in an arbitrary fixed order, not the alphabetical one; the bound holds for any.
- SeedBudget.ChooseSeeds: starts from weighted seeds; grouping the watch history by title, resolving ids and the blocked and disliked lists come before it.
- RequestLedger.Collect: the order in which copies for several patterns are absorbed is arbitrary, so what it says of where a title was found and of its name does not depend on it; replacing tag-only dates from Seerr's media table is not modelled.
- RequesterTags.ResolveTag: rendering a pattern for a person and normalising a tag are functions it is given; counts per tag and the owner's problem list are not modelled.
- Clearing our excludes from an account left alone, restoring snapshots, detecting a voided restriction, and summaries of filter changes: further callers of the filter primitives proved here.
- Filters with a literal ampersand in a value have no modelled meaning: the code refuses to write them.
- The shelf's calls to Plex, and anchors refused because a collection is missing.
- `cut_for_recency`, scoring, `_fair_share` of web searches, idle holds, limits and request configuration: single expressions or short loops.
- Plex, plex.tv, TMDB, Trakt, Exa, Seerr and Arr clients, retries, caches, events, logs and reports: reads are arbitrary inputs, and writes are state changes that may fail.
