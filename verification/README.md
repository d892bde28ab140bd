# ArcInventoryManager item economy, in Dafny

ArcInventoryManager is an inventory helper for the game ARC Raiders. For every item it answers one question: keep it, sell it or recycle it. This project models the code behind that answer and proves properties of the model.

The snapshot job (`api/update.js`) prices each item's recycling yield against the component price table. It computes an integer return-on-investment percentage and a verdict. It also turns the raw item, quest and hideout records into the published database shape.

The client side covers several parts:

- The recommendation resolver (`getRecommendation`) applies a first-match-wins chain: core component, needed for a quest, needed for an uncompleted workshop upgrade, donor, explicit verdict, and finally the sign of recycle value minus sell price.
- Name search and the sorted list of all upgrades.
- The completed-upgrade store, a set of `station-level` keys kept in local storage.
- The offline snapshot cache, with its bounded retrying download.
- The localized-text fallback and the language and category tables.
- Two fragments of component logic: grouping upgrades by station in the tracker, and moving the keyboard selection in the result list.

The code is organised in one module per source file, plus `JsText`:

- `JsText` (`js_text.dfy`) holds the JavaScript operations the code relies on. These are `undefined`-able fields, localized texts, ASCII case mapping, `trim`, `includes`, `split`/`join`, integer printing and string order.
- `ComponentPrices` models `src/data/componentPrices.js` and the copy of the price table in `api/update.js`.
- `Roi` models `calculateRoi` and the identifier-to-label transform.
- `SnapshotBuilder` models the item, quest and hideout transforms of the `api/update.js` handler.
- `DataService` models `src/services/dataService.js`.
- `UserProgress` models `src/services/userProgressService.js`.
- `Storage` models `src/services/storageService.js`.
- `Localization` models `src/utils/localization.js`.
- `CategoryConfig` models `src/data/categoryConfig.js`.
- `UpgradeTracker` models the grouping initializer and the completion key of `src/components/UpgradeTracker.jsx`.
- `SearchResults` models the selection state, the reset and `processedResults` of `src/components/SearchResults.jsx`.

Code that changes state step by step keeps that form:

- `calculateRoi` is the loop in method `Roi.CalculateRoi`.
- The hideout walk is a loop in `SnapshotBuilder.BuildLevels` and `SnapshotBuilder.BuildUpgrades`.
- `getAllUpgrades` is a loop in `DataService.GetAllUpgrades`.
- The tracker's `reduce` and per-group sort are loops in `UpgradeTracker.CollectByStation` and `UpgradeTracker.SortGroups`.
- The progress store, the snapshot cache and the result-list selection are classes whose methods update their fields.

Each loop is proved against a function that specifies it, and the properties are proved about those functions.

Where the behaviour described for the system and the code differ, the model follows the code:

- **Recommendation inputs.** `getRecommendation` takes only the completed upgrades. The completed quests that callers pass are ignored. The quest tier is one `needed` flag with one `details` and `amount`; it is not a list filtered by completion. There is no category-based tier.
- **Refresh.** `updateData` writes the three cache entries with three separate `setItem` calls; it is not one atomic replacement. On exhaustion it reports `Failed after 3 attempts: <cause>` rather than the bare last error.
- **Retry waits.** With three attempts there are only two waits, 1 s and 2 s. A source comment also mentions a 4 s wait, which never happens.
- **Failed progress write.** `toggleUpgrade` swallows a failed write. It still returns the updated set, while the stored record stays as it was (`UserProgress.ProgressStore.ToggleUpgrade`, `writeSucceeds == false`).
- **Empty cache entries.** `hasData` treats an empty stored string as absent, as `!!` does.

## Model

| member | source | states |
|---|---|---|
| ComponentPrices.PriceOrZero | api/update.js:29 | the price the job uses is always between 0 and 1750 |
| ComponentPrices.PriceOrZeroSpec | api/update.js:29 | a listed component costs its table price (at least 1); an unlisted one counts as 0 |
| ComponentPrices.TableSize | src/data/componentPrices.js:2-33 | the table prices exactly the 21 listed components, each listed once |
| ComponentPrices.NamesDistinct | src/data/componentPrices.js:2-33 | no component is listed twice |
| ComponentPrices.TablesAgree | api/update.js:4-10 | the job's inlined copy has the same components at the same prices as the client table |
| ComponentPrices.PricesInRange | src/data/componentPrices.js:2-33 | every price lies in 1..1750; scrap is at 1, both advanced components at 1750 |
| ComponentPrices.ExtremesAreUnique | src/data/componentPrices.js:27-31 | scrap is the only component at 1; the two advanced components are the only ones at 1750 |
| Roi.RecycleValueAppend | api/update.js:28-30 | the recycle value of concatenated entry runs is the sum of their values, so visiting order does not change the total |
| Roi.KnownEntries | api/update.js:29 | an entry is kept exactly when its component is in the price table |
| Roi.UnknownComponentsAddNothing | api/update.js:29-30 | dropping components missing from the table leaves the recycle value unchanged |
| Roi.RecycleValueBounds | api/update.js:28-30 | with non-negative quantities the value lies between 0 and 1750 times the total quantity |
| Roi.UnknownPartExample | api/update.js:29-30 | two wires plus five unknown parts are worth exactly 400 |
| Roi.RoiPct | api/update.js:35-38 | the percentage is 0 when the sell price is not positive |
| Roi.RoiPctRoundsHalfUp | api/update.js:37 | for a positive sell price the result is within half a unit of 100·(rv−sp)/sp, with halves rounded up |
| Roi.RoiPctIsTheOnlyRounding | api/update.js:37 | any integer within that half-unit window equals the computed percentage, so it is the unique round-half-up value |
| Roi.RoiPctSign | api/update.js:36-42 | a positive percentage implies recycle value > sell price, and a negative one implies recycle value < sell price |
| Roi.Capitalize | api/update.js:31 | capitalising a word keeps its length |
| Roi.CapitalizeAll | api/update.js:31 | one capitalised word per piece |
| Roi.LabelIsPointwise | api/update.js:31 | the split/capitalise/join label rewrites the id character by character: '_' becomes ' ', segment starts are upper-cased, the length is kept |
| Roi.YieldPart | api/update.js:32 | every yields entry text is non-empty |
| Roi.YieldParts | api/update.js:28-33 | the yields list has one entry per recycling entry |
| Roi.PrefixStep | api/update.js:28-33 | one more loop iteration adds price × quantity to the value and that entry's text to the yields list |
| Roi.CalculateRoi | api/update.js:22-46 | the loop computes exactly the value, percentage, yields text and verdict of `RoiOf` |
| Roi.NoPriceNoRoi | api/update.js:35-38 | an item without a positive sell price has percentage 0 |
| Roi.VerdictAgreesWithValues | api/update.js:40-43 | RECYCLE PRIORITY holds exactly for Rare items worth more recycled; RECYCLE implies a profit; SELL implies a loss; NEUTRAL implies 0% |
| Roi.RarePriorityExample | api/update.js:43 | a Rare item selling for 100 and recycling into 150 gets RECYCLE PRIORITY, while a non-Rare one gets RECYCLE at 50% |
| Roi.YieldsEmptyIffNoEntries | api/update.js:45 | the yields text is empty exactly when the item recycles into nothing |
| SnapshotBuilder.ToRequirement | api/update.js:111-115 | the id is copied; the name is the id's label, or '' without an id; the amount is the quantity, or 1 when the quantity is missing or 0, never 0 |
| SnapshotBuilder.Requirements | api/update.js:111-115 | a missing list gives []; otherwise each raw requirement is converted in place |
| SnapshotBuilder.NonEmptyOrUndefined | api/update.js:120-121 | the result is undefined exactly for an empty list |
| SnapshotBuilder.ProcessItem | api/update.js:81-97 | name falls back from `name.en` to id; category from `type` to "Unknown"; description from `description.en` to ""; the ROI fields come from `calculateRoi` |
| SnapshotBuilder.NonEmptyTexts | api/update.js:103 | the filter keeps exactly the non-empty texts |
| SnapshotBuilder.Steps | api/update.js:101-103 | the steps are non-empty, and every objective with non-empty text is among them |
| SnapshotBuilder.NonEmptyTextsAppend | api/update.js:103 | the filter distributes over concatenation and keeps a single text exactly when it is non-empty, so order and repeats are kept |
| SnapshotBuilder.StepsAppend | api/update.js:101-103 | the steps of two runs of objectives are the first run's steps then the second's; one objective gives its text when non-empty, else nothing |
| SnapshotBuilder.QuestName | api/update.js:118 | the quest name is `name.en`, else the id, else "Unknown Quest", so it is never empty |
| SnapshotBuilder.ProcessQuest | api/update.js:100-125 | the quest record is built from the name chain, the steps and both requirement lists, with description falling back to "" |
| SnapshotBuilder.QuestRequirementsShape | api/update.js:111-121 | requirements and rewards are undefined exactly when their raw list is missing or empty, and every amount is non-zero |
| SnapshotBuilder.LevelKey | api/update.js:135 | every level key starts with "level_" |
| SnapshotBuilder.BuildLevels | api/update.js:133-143 | the loop builds exactly the levels object `LevelsOf` |
| SnapshotBuilder.BuildUpgrades | api/update.js:128-150 | the loop builds exactly the station and expedition maps `UpgradesOf` |
| SnapshotBuilder.BuildDatabase | api/update.js:81-158 | items and quests are mapped one to one, the upgrades come from the hideout walk, and the timestamp is carried over |
| SnapshotBuilder.LevelKeyPresent | api/update.js:134-141 | every level gets a key in its station's object |
| SnapshotBuilder.LevelKeyOrigin | api/update.js:134-141 | every key in a levels object comes from some level and starts with "level_" |
| SnapshotBuilder.LevelsLastWins | api/update.js:141 | when two levels share a key, the later one's requirements are kept |
| SnapshotBuilder.NoExpeditionNoRequirements | api/update.js:128-146 | without an expedition station, the expedition requirements stay empty |
| SnapshotBuilder.LastExpeditionWins | api/update.js:145-146 | the last expedition station's levels replace any earlier ones |
| SnapshotBuilder.StationKeyPresent | api/update.js:147-148 | every non-expedition station gets an entry under its id |
| SnapshotBuilder.StationKeyOrigin | api/update.js:147-148 | every station entry comes from a non-expedition station with that id |
| SnapshotBuilder.LastStationWins | api/update.js:148 | when two stations share an id, the later one's levels are kept |
| DataService.MatchingItems | src/services/dataService.js:11-13 | exactly the items whose lowercased name contains the needle are kept |
| DataService.FindItem | src/services/dataService.js:8-14 | a missing or blank query gives []; otherwise exactly the items whose lowercased name contains the trimmed, lowercased query |
| DataService.MatchingItemsAppend | src/services/dataService.js:11-13 | filtering distributes over concatenation |
| DataService.FindItemKeepsOrder | src/services/dataService.js:11-13 | matches keep database order: searching a + b gives the matches of a followed by those of b |
| DataService.RefsOf | src/services/dataService.js:31-33 | each usage entry contributes its (station, level) pair, in order |
| DataService.RefLessTransitive | src/services/dataService.js:39-42 | the sort order is transitive |
| DataService.RefLessTotal | src/services/dataService.js:39-42 | any two distinct pairs are ordered |
| DataService.RefLessIrreflexive | src/services/dataService.js:39-42 | no pair precedes itself |
| DataService.Insert | src/services/dataService.js:39-42 | insertion adds exactly one element (as a multiset) |
| DataService.InsertSorted | src/services/dataService.js:39-42 | inserting a new pair into a sorted list keeps it sorted |
| DataService.SortRefs | src/services/dataService.js:39-42 | sorting is a permutation |
| DataService.SortRefsSorted | src/services/dataService.js:39-42 | sorting a duplicate-free list gives a strictly increasing one |
| DataService.GetAllUpgrades | src/services/dataService.js:26-43 | the result holds each pair used by any item exactly once (strictly sorted, so no repeats), ordered by station then level |
| DataService.ActiveUpgrades | src/services/dataService.js:88-90 | the active list is never longer than the item's upgrade list |
| DataService.ActiveUpgradesMembers | src/services/dataService.js:88-90 | exactly the upgrade entries whose `station-level` key is not completed remain |
| DataService.ActiveUpgradesAppend | src/services/dataService.js:88-90 | the filter distributes over concatenation, so the active list keeps the input's order and repeats |
| DataService.ActiveUpgradesSingle | src/services/dataService.js:88-90 | a single use stays active exactly when its key is not completed |
| DataService.TotalAmountAppend | src/services/dataService.js:96-97 | the summed amount of a concatenation is the sum of the two totals |
| DataService.StationLabels | src/services/dataService.js:93-95 | one label per active upgrade |
| DataService.Abs | src/services/dataService.js:128 | the absolute difference is the difference or its negation |
| DataService.CoreAlwaysCritical | src/services/dataService.js:61-71 | a core item is always CRITICAL "CORE COMPONENT", whatever its usage, verdict or completed upgrades |
| DataService.QuestTier | src/services/dataService.js:74-84 | a needed quest gives CRITICAL "DO NOT SELL" with the quest's details and amount, independent of completed upgrades |
| DataService.UpgradeTier | src/services/dataService.js:88-108 | below the quest tier, the result is IMPORTANT exactly when some upgrade use is not completed, and then the subtext sums the active amounts |
| DataService.NothingCompletedAllActive | src/services/dataService.js:88-90 | with nothing completed every upgrade use is active |
| DataService.NoneActiveWhenAllCompleted | src/services/dataService.js:88-92 | completing every used upgrade leaves none active |
| DataService.AllCompletedFallsThrough | src/services/dataService.js:88-208 | once all of an item's upgrades are completed it is never IMPORTANT; it falls to the donor or value tier |
| DataService.ValueKinds | src/services/dataService.js:131-207 | explicit RECYCLE/SELL/EITHER verdicts give PROFIT/LIQUIDATE/NEUTRAL; otherwise the sign of recycle value minus sell price decides |
| DataService.LaterTiers | src/services/dataService.js:111-207 | with no active upgrade the result is STRATEGIC exactly for donors ("RECYCLE ONLY"), otherwise the value recommendation |
| DataService.LabelMatchesType | src/services/dataService.js:59-208 | CRITICAL exactly for core or quest-needed items, and each type carries its label |
| DataService.ValueLabels | src/services/dataService.js:131-207 | PROFIT, LIQUIDATE and NEUTRAL carry the labels RECYCLE, SELL and NEUTRAL |
| UserProgress.UpgradeKey | src/services/userProgressService.js:28 | the key is the station, a '-', then the level |
| UserProgress.Dedup | src/services/userProgressService.js:13 | `new Set(list)` has no duplicates, the same members, and is no longer than the list |
| UserProgress.Added | src/services/userProgressService.js:32 | `add` yields the old members plus the key, still duplicate-free |
| UserProgress.Removed | src/services/userProgressService.js:34 | `delete` yields the old members minus the key, still duplicate-free |
| UserProgress.ProgressStore.GetCompletedUpgrades | src/services/userProgressService.js:8-18 | the set holds exactly the stored list's keys; it is empty for a missing, malformed or list-less record |
| UserProgress.ProgressStore.ToggleUpgrade | src/services/userProgressService.js:27-46 | the key is added or removed and every other key is kept; a successful write stores exactly the returned set, a failed one changes nothing stored |
| UserProgress.ProgressStore.IsUpgradeComplete | src/services/userProgressService.js:54-57 | true exactly when the stored list holds the upgrade's key |
| UserProgress.DedupOfDistinct | src/services/userProgressService.js:13-39 | reading back a written set gives it unchanged |
| UserProgress.ReadBackAfterWrite | src/services/userProgressService.js:38-40 | after a successful toggle the next read returns exactly the returned set |
| UserProgress.RemovedAbsent | src/services/userProgressService.js:34 | deleting an absent key changes nothing |
| UserProgress.ToggleOnThenOffRestores | src/services/userProgressService.js:31-35 | toggling an absent key on then off restores the set, order included |
| UserProgress.ToggleOnIdempotent | src/services/userProgressService.js:32 | toggling on twice equals toggling on once |
| UserProgress.ToggleOffIdempotent | src/services/userProgressService.js:34 | toggling off twice equals toggling off once |
| UserProgress.AfterLastDash | src/services/userProgressService.js:28 | the text after a key's last '-' holds no '-' |
| UserProgress.AfterLastDashOfKey | src/services/userProgressService.js:28 | the text after the last '-' of a key is its level digits |
| UserProgress.SplitAtLastDash | src/services/userProgressService.js:28 | a station, '-', and a dash-free suffix can be recovered from their concatenation |
| UserProgress.UpgradeKeyInjective | src/services/userProgressService.js:28 | for non-negative levels, equal keys mean the same station and level |
| UserProgress.NegativeLevelKeysCollide | src/services/userProgressService.js:28 | with negative levels keys can collide: ("a-", 1) and ("a", −1) share "a--1" |
| Storage.FetchWithRetry | src/services/storageService.js:21-39 | 1 to 3 fetches; one wait and one message per retry; success exactly when the last fetch succeeded, which is then returned; failure only at the last attempt |
| Storage.RetriesFollowFailures | src/services/storageService.js:23-29 | every fetch before the last one failed, so the first success is returned at once |
| Storage.RetrySchedule | src/services/storageService.js:33-34 | the k-th wait is 1000·2^(attempt+k−1) ms, announced as "Retry n/3 in Ns..." |
| Storage.FailureMessage | src/services/storageService.js:29-31 | the final error names the attempt count and the last fetch's error |
| Storage.AtMostThreeFetches | src/services/storageService.js:13-31 | at most three fetches, and a first success ends the run with no wait |
| Storage.ExhaustedSchedule | src/services/storageService.js:29-36 | three failures wait 1000 then 2000 ms and end with "Failed after 3 attempts: <last cause>" |
| Storage.NotOkIsLikeThrown | src/services/storageService.js:24-26 | a non-ok response behaves exactly like a thrown error "HTTP <status>: Failed to load database" |
| Storage.SnapshotCache.ItemsText | src/services/storageService.js:50 | the stored items text, or "[]" when absent or empty |
| Storage.SnapshotCache.QuestsText | src/services/storageService.js:51 | the stored quests text, or "[]" when absent or empty |
| Storage.SnapshotCache.UpgradesText | src/services/storageService.js:52 | the stored upgrades text, or "{}" when absent or empty |
| Storage.Stored | src/services/storageService.js:68-70 | the stored text is never empty; it is the section's JSON text, or "undefined" exactly when the section is missing |
| Storage.SnapshotCache.UpdateData | src/services/storageService.js:55-78 | the three texts are written only when fetch and body both succeed, and then the cache has data; a missing section is stored as "undefined"; a failed fetch or body is rethrown with its own error and nothing written; progress starts "Downloading database..." and "Ready!" comes last exactly on success |
| Localization.GetLocalizedValue | src/utils/localization.js:34-44 | nothing gives ''; a string is returned as is; for an object the result is one of its values or '', and a truthy requested-language entry wins |
| Localization.EnglishFallback | src/utils/localization.js:43 | without a truthy requested entry, a truthy `en` entry is used |
| Localization.FirstValueFallback | src/utils/localization.js:43 | without either, the first value is used even when empty, and '' when there is none |
| Localization.EnglishNeverEmpty | src/utils/localization.js:43 | a text with a non-empty `en` entry never shows empty, and in English shows exactly that entry |
| Localization.LanguageCodesDistinct | src/utils/localization.js:5-26 | the 20 language codes are distinct |
| Localization.EnglishFirst | src/utils/localization.js:5-6 | there are 20 languages, and English comes first |
| CategoryConfig.GetCategoryConfig | src/data/categoryConfig.js:53-55 | a config is returned exactly for the five ids, and it is that id's table entry; any other id gives null |
| CategoryConfig.FiveCategories | src/data/categoryConfig.js:5-46 | there are exactly five categories with distinct ids |
| CategoryConfig.PrioritiesInOrder | src/data/categoryConfig.js:5-46 | the priorities run 1 to 5 in the order base, core, high priority, donor, safe to sell |
| CategoryConfig.ConfigOfEachId | src/data/categoryConfig.js:53-55 | each of the five ids gets its own row |
| UpgradeTracker.StationsOf | src/components/UpgradeTracker.jsx:10-14 | the group keys are listed once each, in first-seen order |
| UpgradeTracker.StationsOfMembers | src/components/UpgradeTracker.jsx:11 | a station has a group exactly when some upgrade names it |
| UpgradeTracker.OfStationMembers | src/components/UpgradeTracker.jsx:12 | a group holds exactly its station's upgrades |
| UpgradeTracker.OfUnlistedStation | src/components/UpgradeTracker.jsx:11 | a station no upgrade names has no entries |
| UpgradeTracker.InsertByLevel | src/components/UpgradeTracker.jsx:18 | insertion adds exactly one element (as a multiset) |
| UpgradeTracker.SortByLevel | src/components/UpgradeTracker.jsx:18 | sorting a group is a permutation of it |
| UpgradeTracker.InsertKeepsSorted | src/components/UpgradeTracker.jsx:18 | inserting keeps a group sorted by level |
| UpgradeTracker.SortByLevelSorted | src/components/UpgradeTracker.jsx:18 | every sorted group is in ascending level order |
| UpgradeTracker.CollectByStation | src/components/UpgradeTracker.jsx:10-14 | the `reduce` yields one group per station, holding exactly that station's upgrades in input order |
| UpgradeTracker.SortGroups | src/components/UpgradeTracker.jsx:17-19 | every group is replaced by its level-sorted version, and no keys are added or lost |
| UpgradeTracker.GroupByStation | src/components/UpgradeTracker.jsx:7-21 | the groups are keyed by exactly the stations used, and each is its station's upgrades sorted by level |
| UpgradeTracker.GroupShape | src/components/UpgradeTracker.jsx:10-19 | every upgrade lands in its own station's group; every group is sorted and non-empty |
| UpgradeTracker.GroupStep | src/components/UpgradeTracker.jsx:11-13 | one more upgrade opens its station's group if new, and is appended to that group only |
| UpgradeTracker.CollectStep | src/components/UpgradeTracker.jsx:11-13 | one `reduce` step appends the upgrade to its station's list, creating it on first sight, and keeps every list equal to its station's upgrades so far |
| UpgradeTracker.TotalStep | src/components/UpgradeTracker.jsx:12 | one more upgrade adds one to its station's count |
| UpgradeTracker.TotalIsLength | src/components/UpgradeTracker.jsx:10-14 | the groups hold as many entries as the input |
| UpgradeTracker.GroupTotalIsLength | src/components/UpgradeTracker.jsx:17-19 | sorting the groups keeps their sizes |
| UpgradeTracker.GroupsCountInput | src/components/UpgradeTracker.jsx:7-21 | for the built groups, the sizes add up to the number of upgrades: none is lost or duplicated |
| UpgradeTracker.IsDone | src/components/UpgradeTracker.jsx:71 | a level is shown done exactly when its `station-level` key is in the completed set |
| UpgradeTracker.TickAndUntick | src/components/UpgradeTracker.jsx:71 | after ticking, a level shows done and an item's use of it is no longer active for the resolver; after unticking, the reverse |
| SearchResults.ProcessedResults | src/components/SearchResults.jsx:19-24 | one processed result per result: its recommendation is `getRecommendation` of the result, stored over the item's own verdict field; core items are always CRITICAL |
| SearchResults.ProcessedCopyWithoutVerdict | src/components/SearchResults.jsx:20-23 | for an item without one of the five tested verdicts, the processed copy gets the same recommendation as the item |
| SearchResults.ClickedDonorLosesVerdict | src/components/SearchResults.jsx:99 | a clicked donor row showing STRATEGIC hands over a copy that recomputes to PROFIT, while Enter keeps STRATEGIC |
| SearchResults.QuestsIgnored | src/components/SearchResults.jsx:22 | the completed quests make no difference to the processed list |
| SearchResults.NextIndex | src/components/SearchResults.jsx:31-51 | down moves on but stops at the last result, up stops at 0 (and goes from −1 to 0), Escape gives −1, other keys keep the index; a valid index stays in [−1, len−1] |
| SearchResults.EnterChoice | src/components/SearchResults.jsx:43-47 | Enter picks the selected result, else the only result when there is exactly one, else nothing |
| SearchResults.SearchSelection.SetResults | src/components/SearchResults.jsx:14-16 | new results reset the index to −1 |
| SearchResults.SearchSelection.Click | src/components/SearchResults.jsx:43-46 | a click hands over the result itself, as Enter does, so its recommendation is exactly the one the row shows |
| SearchResults.SearchSelection.HandleKeyDown | src/components/SearchResults.jsx:27-56 | an empty list changes and selects nothing; otherwise the index follows `NextIndex`, Enter returns the chosen result, and −1 ≤ i ≤ len−1 is preserved |
| SearchResults.FirstKeyPressSelectsFirst | src/components/SearchResults.jsx:33-39 | from no selection, both down and up select the first result |
| SearchResults.DownThenUp | src/components/SearchResults.jsx:33-39 | down then up returns to any selection except the last |
| SearchResults.RepeatedDown | src/components/SearchResults.jsx:33-35 | n presses of down select min(i + n, len − 1) |
| JsText.Lookup | src/utils/localization.js:43 | a key is found exactly when an entry has it, and the value found is stored under it |
| JsText.English | api/update.js:85 | `t?.en` is present exactly for a localized text with a non-empty `en` entry, and is that entry |
| JsText.LowerCase | src/services/dataService.js:9-12 | lowercasing keeps the length and maps each character on its own |
| JsText.Split | api/update.js:31 | a split has at least one piece, and no piece contains the separator |
| JsText.Trim | src/services/dataService.js:9-10 | trimming gives "" exactly for all-whitespace text, otherwise no whitespace at either end |
| JsText.TrimStartCutsSpace | src/services/dataService.js:9-10 | `trimStart` cuts only whitespace from the front |
| JsText.TrimEndCutsSpace | src/services/dataService.js:9-10 | `trimEnd` cuts only whitespace from the back |
| JsText.TrimCutsOnlySpace | src/services/dataService.js:9-10 | the trimmed text is a middle part of the input, with only whitespace cut at either end |
| JsText.IncludesIffOccurs | src/services/dataService.js:12 | `includes` holds exactly when the needle occurs at some position |
| JsText.JoinSplit | api/update.js:31 | joining the pieces of a split with its separator gives the string back |
| JsText.NatToStringRoundTrip | src/services/userProgressService.js:28 | a printed level reads back as the same number |
| JsText.StrLessTransitive | src/services/dataService.js:40 | the station order is transitive |
| JsText.StrLessTotal | src/services/dataService.js:40 | any two distinct station names are ordered |

## Findings

| source | as written | input that shows it | evidently intended | confidence | as-written member | corrected member |
|---|---|---|---|---|---|---|
| src/components/SearchResults.jsx:99 | a click hands `onSelect` the processed copy, whose `recommendation` field now holds the recommendation object instead of the verdict string; the item card recomputes from it (src/components/ItemCard.jsx:9) and no longer sees the verdict | a donor item marked "RECYCLE PRIORITY", not core, used by no quest or upgrade, recycle 150 against sell 100: the row shows STRATEGIC "RECYCLE ONLY", the card after a click shows PROFIT "RECYCLE", after Enter STRATEGIC | hand over the result itself, as Enter does (SearchResults.jsx:43-46) | high, not executed | SearchResults.ClickedDonorLosesVerdict | SearchResults.SearchSelection.Click |

## Left out

- Network and blob I/O are not modelled: `fetchFolder`, `fetch`, the `put` upload, the bearer-token check and the HTTP replies of the handler. The download outcomes are given to `Storage.FetchWithRetry` as a sequence, and the raw records are given to `SnapshotBuilder.BuildDatabase` as parameters.
- The timers behind the retry waits, the `Date` timestamps and `Date.now()` cache-busting are not modelled. The waits are recorded as durations; the timestamp is a parameter.
- JSON is not modelled. `JSON.parse` and `JSON.stringify` are treated as exact inverses. Stored values are texts or parsed records, with an explicit malformed case for the progress record. A downloaded section is its JSON text or missing. Only the text "undefined" is modelled for a missing section, not the error `getItems` then raises when it parses that text.
- A hideout level without a `level` field is not modelled. The source writes it under the key `level_undefined`; the model's level is always a number.
- A database item with neither an English name nor an id is not modelled. The source gives it `name: undefined`, and `findItem` then throws on `toLowerCase`; the model's item name is always a string.
- `localStorage.setItem` failing in `updateData` (for example, storage quota) is not modelled. Each of the three writes is assumed to succeed.
- Floating point is not modelled. `Roi.RoiPct` rounds the exact rational value half up. At an exact .5 boundary binary64 division could land on the other side.
- Locale-sensitive operations are simplified:
  - `localeCompare` becomes code-point lexicographic order (`JsText.StrLess`).
  - `toLowerCase`/`toUpperCase` affect ASCII letters only.
  - `trim` strips ASCII whitespace.
  - `toLocaleString` prints digits without grouping separators.
- `null` and `undefined` are one `None`. A non-array `completedUpgrades` field in the stored progress record, which `new Set` would spread character by character, is treated as malformed.
- Object keys that collide with `Object.prototype` members are not modelled. This affects `getCategoryConfig("toString")` and a station called `constructor` in the tracker's `reduce`. `Object.keys` ordering of integer-like keys is not modelled either; groups and levels are listed in insertion order.
- `DataService.GetAllUpgrades` compares pairs directly. It does not model the `JSON.stringify` round trip, which is injective on (station, level).
- `Localization.GetLocalizedValue`: object values are taken to be strings; non-string values are not modelled.
- `UpgradeTracker.SortByLevel`: the order among equal levels is not stated. Only ascending levels and the same members are proved. Groups built from `getAllUpgrades` have distinct levels anyway.
- `UpgradeTracker.SortGroups`: the in-place `sort` of each array is modelled by replacing the group value in the map. Aliasing of the arrays is not captured.
- Presentation-only fields are carried as constants with no properties proved about them: icons, colours, background colours and the language labels.
- React rendering and hooks are not part of this model: effects, memoisation, `document` listeners, the search debounce and the context providers. `onSelect` is modelled as the value `HandleKeyDown` returns.
- Functions that the shown files call but do not define are not part of this model: `getAllQuests`, `toggleQuest` and the other quest-tracking operations.
