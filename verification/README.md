# PhotoPurge, modelled in Dafny

PhotoPurge lets a user review the photos and videos of one month at a time. The user marks each
asset keep or delete, and the app then deletes the selected ones from the photo library in one
batch. This project models that bookkeeping once the Photos, StoreKit and calendar answers are
turned into plain inputs. It covers:

- **The review session** (`VM/PhotoDeleteVM.swift`). This is a class with a cursor
  `currentAssetIndex`, a decision log `pastAction`, the selection `assetsToDelete`, the
  "i of n" `subtitle` and the undo-button flag. It is proved step by step against the pure
  state machine in module `ReviewSession`. On that machine the trace lemmas prove:
  - after k decisions the cursor is k (n − 1 after the last one);
  - the selection is the assets at the delete-tagged positions;
  - undo restores the earlier state away from the last asset.
- **The earlier review session** (`PhotoDeleteVM.swift`), which has no log and no undo. Its
  cursor is proved to stay in [−1, n − 1].
- **The deletion step** both sessions run when nothing is left to show (`DeletionStep`).
- **The asset service** (`Service/AssetService.swift`):
  - the access-status mapping;
  - the month grouping loop;
  - the guard and the photo/video counts of a deletion;
  - the byte total of the size lookups.
- **The month pickers** (`VM/MonthPickerVM.swift` and the earlier `MonthPickerVM.swift`):
  - the year→month grouping;
  - the earlier images-only month grouping.

  Both groupings are proved to be the reference partition of the fetch:
  - every dated asset lands in exactly one bucket, with its multiplicity;
  - buckets keep fetch order;
  - no bucket is empty;
  - the sizes add up to the number of dated assets.
- **The navigation stacks** (`VM/NavigationPathVM.swift`, `NavigationPathVM.swift`).
- **The ad-free entitlement** (`Service/PurchaseService.swift`):
  - `checkVerified`;
  - the `updateEntitlements` loop, proved to mean "some verified record is for the remove-ads
    product";
  - `buyRemoveAds`, `restorePurchases` and the handling of one transaction update.

How the model represents the outside world:

- Dates are integers.
- The calendar is a pair of functions: `startOfMonth` and `yearOf`.
- A fetch result is the sequence it enumerates.
- Every library answer is a parameter: the authorization status, the success or error of a
  change request, each size lookup, and each StoreKit result.
- Main-queue hops and the `DispatchGroup` fan-out run sequentially. For the size total,
  `AssetServiceModel.ObtainedSizePermutation` shows that the order in which lookups finish
  does not change the sum.

Behaviours of the code a reader might not expect:

- Undo on an empty log traps (`removeLast`), so `UndoLatestAction` requires a non-empty log.
- Keep and delete are not rejected after the last asset. They log the decision again and
  re-run the deletion step.
- There is no ad throttle, no prefetch window beyond the single next image, and no
  re-entrancy guard around deletion.
- Undo of the final decision does not restore the previous state (see Findings).

`Model/DeleteResult.swift:8-16` declares two fields. `Service/AssetService.swift:104-108`
builds a three-field result, and that three-field version is what is modelled
(`AssetServiceModel.DeleteResult`).

## Model

| member | source | states |
|---|---|---|
| Media.CountOfType | PhotoPurge/Service/AssetService.swift:104-105 | the count is at most the list length, and is zero exactly when no asset has the media type |
| Media.ImagesAndVideosWithinList | PhotoPurge/Service/AssetService.swift:104-105 | photos deleted + videos deleted ≤ the number of assets, with equality exactly when every asset is an image or a video |
| Text.IntToString | PhotoPurge/VM/PhotoDeleteVM.swift:144 | the decimal rendering of string interpolation: non-empty, digits only for non-negative values, a leading '-' then digits for negative ones |
| Text.ParseNatToString | PhotoPurge/VM/PhotoDeleteVM.swift:144 | reading the rendered digits back gives the number |
| Text.IntToStringInjective | PhotoPurge/VM/PhotoDeleteVM.swift:144 | different integers render differently |
| ReviewSession.SubtitleInjective | PhotoPurge/VM/PhotoDeleteVM.swift:141-145 | the "i of n" label determines both the position and the count |
| ReviewSession.DecideTracks | PhotoPurge/VM/PhotoDeleteVM.swift:66-87 | one more keep or delete is always allowed before the last asset (no trap) and keeps cursor, log, selection, label and undo flag in step with the decisions |
| ReviewSession.KeepTracks | PhotoPurge/VM/PhotoDeleteVM.swift:66-87 | a keep before the last asset is allowed; it logs the keep, leaves the selection alone and moves cursor and label to the next asset |
| ReviewSession.DeleteTracks | PhotoPurge/VM/PhotoDeleteVM.swift:71-87 | a delete before the last asset is allowed (no out-of-range read); it logs the delete, appends the shown asset to the selection and moves cursor and label on |
| ReviewSession.AfterDecisions | PhotoPurge/VM/PhotoDeleteVM.swift:24-87 | after the initial advance and k ≤ n decisions: the log is the decisions, the selection is the delete-tagged assets in order, the cursor is k (n − 1 once all n are decided), the label is "cursor+1 of n", undo shows once something was decided |
| ReviewSession.DeletionStepOnLastDecisionOnly | PhotoPurge/VM/PhotoDeleteVM.swift:78-87 | the deletion step runs on the decision for the last asset and on no earlier one |
| ReviewSession.SelectedIsDeleteTagged | PhotoPurge/VM/PhotoDeleteVM.swift:71-76 | the selection has one asset per delete decision, and an asset is in it exactly when a delete decision was made at a position holding it |
| ReviewSession.UndoRestoresBeforeLastAsset | PhotoPurge/VM/PhotoDeleteVM.swift:189-208 | away from the last asset, a decision followed by undo gives back exactly the session before it (a delete's asset leaves the selection; a keep leaves the selection alone) |
| ReviewSession.UndoTracks | PhotoPurge/VM/PhotoDeleteVM.swift:189-208 | away from the last asset, undo of a session tracking one more decision is allowed (no trap) and gives a session tracking the decisions before it: log popped, a delete's asset removed from the selection, cursor and label one back |
| ReviewSession.TracksDetermines | PhotoPurge/VM/PhotoDeleteVM.swift:21-28 | the asset list and the decisions fix every modelled field of the session (cursor, asset list, selection, log, label, undo flag), so two sessions tracking the same decisions are equal |
| ReviewSession.UndoOfFinalDecisionMisplacesCursor | PhotoPurge/VM/PhotoDeleteVM.swift:200-208 | as written, undoing the final decision leaves the cursor one before the undone position, so the session differs from the one before that decision |
| ReviewSession.UndoOfFinalKeepShowsFirstAsset | PhotoPurge/VM/PhotoDeleteVM.swift:89-93 | as written, with two assets, delete, keep, undo leaves the cursor on asset 0 with its delete still logged and selected, instead of on asset 1 |
| ReviewSession.UndoOfFinalDecisionRedecidesEarlierAsset | PhotoPurge/VM/PhotoDeleteVM.swift:71-93 | as written, with two assets, delete, keep, undo puts the cursor back on asset 0; a further delete then logs two deletes for asset 0, selects it twice and moves on to asset 1 |
| ReviewSession.UndoOfOnlyDecisionReadsIndexMinusOne | PhotoPurge/VM/PhotoDeleteVM.swift:113-117 | as written, with one asset, undoing its decision steps to index −1, where the asset read is out of bounds |
| ReviewSession.UndoCorrectedRestores | PhotoPurge/VM/PhotoDeleteVM.swift:200-208 | the corrected undo restores the session before every decision, the final one included |
| ReviewSession.UndoCorrectedAgreesBeforeLastAsset | PhotoPurge/VM/PhotoDeleteVM.swift:200-208 | while the cursor sits on the next undecided position, the corrected undo is the written one |
| DeletionStep.RunDeletion | PhotoPurge/VM/PhotoDeleteVM.swift:210-242 | an empty selection makes no library call; otherwise the library is asked only with full access, and assets are deleted, with the selection's size as the count, only when the change request succeeds |
| DeletionStep.ResultScreen | PhotoPurge/VM/PhotoDeleteVM.swift:210-227 | the result screen is shown with 0 for an empty selection and with the count after a successful deletion, and is not shown otherwise |
| PhotoDeleteViewModel.PhotoDeleteVM.constructor | PhotoPurge/VM/PhotoDeleteVM.swift:39-56 | a new session: cursor −1, empty log and selection, the given label and undo flag |
| PhotoDeleteViewModel.PhotoDeleteVM.KeepPhoto | PhotoPurge/VM/PhotoDeleteVM.swift:66-69 | appends exactly one keep, leaves the selection alone, then advances (running the deletion step when nothing is left) |
| PhotoDeleteViewModel.PhotoDeleteVM.DeletePhoto | PhotoPurge/VM/PhotoDeleteVM.swift:71-76 | appends a delete; with assets, also appends exactly the shown asset (the index must be in range) and advances; without assets nothing else changes |
| PhotoDeleteViewModel.PhotoDeleteVM.FetchNewPhotos | PhotoPurge/VM/PhotoDeleteVM.swift:78-87 | the cursor moves up by exactly one, relabelling, if and only if there is a next asset; otherwise it stays and the deletion step runs |
| PhotoDeleteViewModel.PhotoDeleteVM.FetchPreviousPhotos | PhotoPurge/VM/PhotoDeleteVM.swift:89-93 | the cursor moves down by exactly one, whatever it was, and the label follows |
| PhotoDeleteViewModel.PhotoDeleteVM.FetchAssetAtIndex | PhotoPurge/VM/PhotoDeleteVM.swift:113-139 | only the label changes, and only when there are assets; a negative index that passes the `index < count` guard is excluded because the asset read traps |
| PhotoDeleteViewModel.PhotoDeleteVM.UndoLatestAction | PhotoPurge/VM/PhotoDeleteVM.swift:200-208 | needs a non-empty log; removes exactly the last decision, moves the cursor down by exactly one for either kind, pops the selection for a delete, and shows undo exactly while the log is non-empty |
| PhotoDeleteViewModel.PhotoDeleteVM.UndoDeletePhoto | PhotoPurge/VM/PhotoDeleteVM.swift:189-194 | steps back and drops the last selected asset when there is one |
| PhotoDeleteViewModel.PhotoDeleteVM.Backtrack | PhotoPurge/VM/PhotoDeleteVM.swift:196-198 | exactly one step back |
| PhotoDeleteViewModel.PhotoDeleteVM.DeletePhotoFromDevice | PhotoPurge/VM/PhotoDeleteVM.swift:210-242 | an empty selection shows the result screen with 0 and never reaches the library; a successful deletion shows the selection's size; any other answer shows nothing |
| LegacyReviewSession.PhotoDeleteVM.constructor | PhotoPurge/PhotoDeleteVM.swift:23-30 | cursor −1, empty selection and label; the cursor invariant holds |
| LegacyReviewSession.PhotoDeleteVM.FetchPhotoInMonth | PhotoPurge/PhotoDeleteVM.swift:39-43 | does nothing without assets; otherwise makes the first advance: up by one with the label "index+1 of n" when there is an asset, else the deletion step runs with cursor and label in place; the cursor stays in [−1, n − 1] |
| LegacyReviewSession.PhotoDeleteVM.FetchNewPhotos | PhotoPurge/PhotoDeleteVM.swift:45-78 | does nothing without assets; moves up by exactly one with the label "index+1 of n" if and only if there is a next asset, otherwise runs the deletion step in place; the cursor stays in [−1, n − 1] |
| LegacyReviewSession.PhotoDeleteVM.FetchPhotosAtIndex | PhotoPurge/PhotoDeleteVM.swift:82-114 | no asset without a list or at or beyond its end, otherwise the asset at that index (a negative index inside the list traps) |
| LegacyReviewSession.PhotoDeleteVM.KeepPhoto | PhotoPurge/PhotoDeleteVM.swift:123-125 | only advances: up by one with the label "index+1 of n" exactly when there is a next asset; otherwise cursor and label stay and the deletion step runs on the selection, whose outcome is returned; the selection is unchanged |
| LegacyReviewSession.PhotoDeleteVM.DeletePhoto | PhotoPurge/PhotoDeleteVM.swift:127-131 | does nothing without assets; otherwise appends exactly the shown asset, so the selection only grows, in decision order, then advances (up by one with the label "index+1 of n" when there is a next asset, else the deletion step runs on the grown selection) |
| LegacyReviewSession.PhotoDeleteVM.DeletePhotoFromDevice | PhotoPurge/PhotoDeleteVM.swift:133-160 | an empty selection goes to the result screen without a library call; a non-empty one goes there only after a successful deletion |
| MonthGrouping.GroupByMonthIsPartition | PhotoPurge/Service/AssetService.swift:42-47 | a month key is present exactly when some dated asset falls in it (so no bucket is empty), and its bucket is exactly those assets in fetch order |
| MonthGrouping.InMonthMultiplicity | PhotoPurge/Service/AssetService.swift:42-47 | each dated asset occurs in its own month's bucket as often as in the fetch and in no other bucket; undated assets occur nowhere |
| MonthGrouping.InMonthElements | PhotoPurge/Service/AssetService.swift:42-47 | every bucket member is a dated asset of the fetch whose start of month is the key |
| MonthGrouping.InMonthSorted | PhotoPurge/Service/AssetService.swift:37-47 | a fetch sorted by creation date gives buckets sorted by creation date |
| MonthGrouping.GroupByMonthTotal | PhotoPurge/Service/AssetService.swift:40-47 | the bucket sizes add up to the number of dated assets |
| MonthGrouping.GroupByYearIsPartition | PhotoPurge/VM/MonthPickerVM.swift:39-50 | no year map is empty; a (year, month) pair is present exactly when some dated asset falls in it, and its bucket is exactly those assets in fetch order |
| MonthGrouping.InYearMonthSorted | PhotoPurge/VM/MonthPickerVM.swift:34-48 | a fetch in ascending creation-date order gives year→month buckets in ascending creation-date order, holding only assets of the fetch |
| MonthGrouping.InYearMonthMultiplicity | PhotoPurge/VM/MonthPickerVM.swift:39-50 | each dated asset occurs exactly under its own year and month, as often as in the fetch |
| MonthGrouping.GroupByYearTotal | PhotoPurge/VM/MonthPickerVM.swift:39-50 | summed over all years and months, the buckets hold as many assets as were dated |
| AssetServiceModel.RequestAccess | PhotoPurge/Service/AssetService.swift:19-30 | denied gives failure, authorized gives success, and every other status gives no callback, each as an if-and-only-if |
| AssetServiceModel.ObtainedSizeAppend | PhotoPurge/Service/AssetService.swift:122-161 | the byte total of two lists is the sum of their totals |
| AssetServiceModel.ObtainedSizePermutation | PhotoPurge/Service/AssetService.swift:118-166 | the byte total does not depend on the order of the assets, so the order in which concurrent lookups finish is irrelevant |
| AssetServiceModel.FailedLookupCountsAsZero | PhotoPurge/Service/AssetService.swift:128-157 | a lookup that fails contributes exactly what a lookup answering 0 bytes would |
| AssetServiceModel.AssetService.constructor | PhotoPurge/Service/AssetService.swift:13-15 | nothing loaded, grouped or deleted yet |
| AssetServiceModel.AssetService.FetchAssets | PhotoPurge/Service/AssetService.swift:32-51 | the grouping is replaced wholesale by the month partition of the fetch, and loading ends false |
| AssetServiceModel.AssetService.DeleteAssets | PhotoPurge/Service/AssetService.swift:91-116 | an empty list fails at once without a library call or a result; on success the result holds the image count, the video count and the obtained bytes, and the callback reports success; on failure the result is untouched and the callback carries the error, or does not come at all when there is no error |
| AssetServiceModel.AssetService.CountMediaType | PhotoPurge/Service/AssetService.swift:104-105 | the loop counts exactly the assets of the media type |
| AssetServiceModel.AssetService.CalculateTotalAssetSize | PhotoPurge/Service/AssetService.swift:118-166 | the loop's total is the sum of the answered sizes of the images and videos; failed lookups and other media types add nothing |
| MonthPicker.MonthPickerVM.constructor | PhotoPurge/VM/MonthPickerVM.swift:15-21 | stores the given loading flag and grouping |
| MonthPicker.MonthPickerVM.GetPhotosByMonth | PhotoPurge/VM/MonthPickerVM.swift:23-57 | without full access only loading is switched off and the grouping is untouched; with it the grouping is replaced wholesale by the year→month partition of the fetch; loading ends false |
| MonthPicker.YearBucketIsMonthBucket | PhotoPurge/VM/MonthPickerVM.swift:40-48 | when a month's start lies in the same year, the year→month bucket is the month bucket under its own year and absent under any other year |
| LegacyMonthPicker.Images | PhotoPurge/MonthPickerVM.swift:29 | the image-only fetch: only images, each image of the library exactly as often as in the library, none of anything else |
| LegacyMonthPicker.ImagesKeepFetchOrder | PhotoPurge/MonthPickerVM.swift:28-29 | the image-only fetch keeps the ascending creation-date order of the library |
| LegacyMonthPicker.GroupsKeepFetchOrder | PhotoPurge/MonthPickerVM.swift:28-37 | with the fetch in ascending creation-date order, every bucket is in ascending creation-date order |
| LegacyMonthPicker.MonthPickerVM.constructor | PhotoPurge/MonthPickerVM.swift:12-13 | no groups and not loading |
| LegacyMonthPicker.MonthPickerVM.GetPhotosByMonth | PhotoPurge/MonthPickerVM.swift:15-46 | without full access only loading is switched off; with it the groups are replaced wholesale by the month partition of the library's images; loading ends false |
| LegacyMonthPicker.GroupsHoldOnlyImages | PhotoPurge/MonthPickerVM.swift:29-39 | every grouped asset is a dated image of the library in its bucket's month |
| LegacyMonthPicker.GroupsCountDatedImages | PhotoPurge/MonthPickerVM.swift:34-39 | the groups hold exactly as many assets as there are dated images, at most the image count |
| Navigation.NavigationPathVM.constructor | PhotoPurge/VM/NavigationPathVM.swift:17 | the path starts empty |
| Navigation.NavigationPathVM.NavigateTo | PhotoPurge/VM/NavigationPathVM.swift:25-29 | exactly one destination is appended at the end and the earlier entries are unchanged, so n pushes from empty give the n destinations in call order |
| Navigation.NavigationPathVM.PopToRoot | PhotoPurge/VM/NavigationPathVM.swift:31-35 | the path is empty afterwards from any path, so popping twice is the same as once |
| LegacyNavigation.NavigationPathVM.constructor | PhotoPurge/NavigationPathVM.swift:17 | the path starts empty |
| LegacyNavigation.NavigationPathVM.NavigateTo | PhotoPurge/NavigationPathVM.swift:23-27 | exactly one destination is appended at the end and the earlier entries are unchanged |
| LegacyNavigation.NavigationPathVM.PopToRoot | PhotoPurge/NavigationPathVM.swift:29-33 | the path is empty afterwards from any path, so popping is idempotent |
| PurchaseService.CheckVerified | PhotoPurge/Service/PurchaseService.swift:82-90 | nothing for an unverified result, the payload for a verified one |
| PurchaseService.AdFreeIffGrantingRecord | PhotoPurge/Service/PurchaseService.swift:94-104 | the loop's flag is true exactly when some verified entitlement is for the remove-ads product |
| PurchaseService.UnverifiedNeverGrants | PhotoPurge/Service/PurchaseService.swift:96-104 | an empty list, or one of unverified records only, yields false |
| PurchaseService.AdFreeIgnoresOrderAndDuplicates | PhotoPurge/Service/PurchaseService.swift:98-104 | two entitlement lists with the same records, in any order and with any repetitions, give the same flag |
| PurchaseService.PurchaseService.constructor | PhotoPurge/Service/PurchaseService.swift:11-12 | the flag starts from the persisted value and no product is loaded |
| PurchaseService.PurchaseService.LoadProducts | PhotoPurge/Service/PurchaseService.swift:29-36 | the product is the first one found (none if none), and a lookup that threw leaves it as it was |
| PurchaseService.PurchaseService.UpdateEntitlements | PhotoPurge/Service/PurchaseService.swift:94-110 | the flag and its persisted copy become the verdict over the current entitlements |
| PurchaseService.PurchaseService.BuyRemoveAds | PhotoPurge/Service/PurchaseService.swift:55-80 | nothing happens without a loaded product; only a verified successful purchase re-checks the entitlements and yields the transaction to finish; cancellation, pending, unverified or thrown outcomes change nothing |
| PurchaseService.PurchaseService.RestorePurchases | PhotoPurge/Service/PurchaseService.swift:114-117 | exactly the effect of an entitlement check |
| PurchaseService.PurchaseService.HandleTransactionUpdate | PhotoPurge/Service/PurchaseService.swift:38-51 | a verified update re-checks the entitlements and is finished; an unverified one is ignored |

## Left out

- Fetching and showing media is left out. This covers `fetchPhotoForAsset`, `fetchVideoForAsset`,
  `fetchNextAsset`'s image request, `currentDisplayingAsset`, `nextImage` and the legacy
  `currentPhoto`/`nextPhoto`. These are library calls that do not touch the session state. Only
  their index arithmetic is kept: the bounds the array reads need.
- Asynchrony and its races are left out: `DispatchQueue.main.async` hops, `[weak self]`
  receivers that may have gone, the `DispatchGroup` fan-out and the unsynchronised
  `totalSize +=`. Every effect happens in program order, as if on one queue.
- `shouldShowUndoButton` is set in the same step as `pastAction` changes. The source sets it
  one main-queue hop later, from the `didSet` observer.
- AssetServiceModel.CalculateTotalAssetSize: sizes are unbounded naturals, so it does not model
  64-bit overflow of the `Int64` total.
- The calendar is abstract. `Util.startOfMonth` and `Calendar.component(.year, …)` are function
  parameters, not verified calendar arithmetic.
- The deletion step's navigation is modelled as a returned `DeletionOutcome`, not as a push of
  `.result(…)` onto the navigation stack. `VM/PhotoDeleteVM.swift:213` passes an integer where
  `VM/NavigationPathVM.swift:13` expects a `DeleteResult`.
- StoreKit plumbing is reduced to its answers: `Product.products`, `product.purchase()`,
  `Transaction.currentEntitlements`, `Transaction.updates`, `transaction.finish()`, and the
  task that listens for updates. UserDefaults is the field `storedAdFree`.
- Ads, the SwiftUI views, onboarding, the other view models (`RemoveAdsVM`, `WelcomeVM`,
  `ResultVM`, `RedeemVM`, the interstitial model), `Util.swift` formatting and the app wiring are
  not part of this model.
- Navigation.NavigationPathVM.NavigateTo: the claim that n pushes give the n destinations in
  call order follows from its one-call contract. No separate member states it, because the
  source has no loop of pushes.

## Findings

| source | as written | input that shows it | evidently intended | confidence | as-written member | corrected member |
|---|---|---|---|---|---|---|
| PhotoPurge/VM/PhotoDeleteVM.swift:200-208 | `undoLatestAction` always moves the cursor back one, but the decision on the last asset never moved it forward (`fetchNewPhotos` runs the deletion step instead) | two assets: advance, delete, keep, undo shows asset 0, whose delete is still logged, instead of asset 1, whose keep was undone; deleting again then logs a second decision for asset 0 and selects it twice (selection [asset 0, asset 0]); one asset: advance, keep, undo moves the cursor to −1, which passes `index < count` in `fetchAssetAtIndex` and reads `assets[-1]` | undo returns to the position of the undone decision, restoring the state before it | not executed | ReviewSession.UndoOfFinalDecisionRedecidesEarlierAsset | ReviewSession.UndoCorrectedRestores |
