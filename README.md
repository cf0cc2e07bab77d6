# MMA training log: local-first session store, sync and page aggregations

This project models the core of a training-log web app for mixed martial
arts. The app stores training sessions on the device first and writes them
through to a remote table when a user is signed in. Each session has a date,
an optional start time, a type (striking, wrestling, grappling, tactics), a
duration in minutes, up to three tags and an optional memo. The pages compute
several views of the stored sessions: a month calendar, sessions grouped by
date, duration totals per type and month, and tag rankings. The model covers:

- **Input validation** (`Schema`): the `zSessionQuick` schema. `Parse`
  returns the parsed session or the keys that fail, in schema order.
- **Local store** (`LocalDatastore`): a class whose `sessions` field is the
  one persisted slot. Every operation reads the whole list and writes a new
  one:
  - add (validate, then append a pending record);
  - list, with an inclusive date range;
  - update (merge a patch, force the state to pending);
  - delete;
  - mark synced;
  - pending records.

  Each method's new state is given by a function of the old list, and the
  lemmas state the properties of those functions.
- **Row mapping** (`RowMapping`): `toRow` and `fromRow` between the
  camelCase record and the snake_case row, with both round trips.
- **Sync coordinator** (`SyncCoordinator`): a class holding the local store,
  whether a remote client is configured, and the cached user id. The remote
  is an oracle: each auth lookup, upsert, delete and select answer is a
  parameter.
  - The cached user id follows `ensureSupabaseUserId` and the auth listener.
  - Add, update and delete write locally first, then to the remote.
  - The list read merges remote rows into the local list.
  - The retry sweep makes one upsert attempt per pending record.
- **Pages**:
  - `TagInput`: tag tokenising, the frequency count and ranking,
    suggestions, and completion on select.
  - `TagAnalysis`: sessions filtered by type, tag entries grouped and
    ranked, and the query filter.
  - `LogPage`: total duration and the per-type summary (totals, monthly
    cells, type order, months newest first).
  - `HomePage`: the 42-day calendar grid, sessions grouped by date, the
    month's totals per type, and the type order.
  - `QuickLog`: the body the quick form submits, and the save through the
    local store.
- **Helpers**: `Wrappers` holds `Option` and `Result`. `Seqs` holds filter,
  sums, an insertion sort, first-appearance order and partition sums.
  `Text` holds JavaScript's `trim`, `split`, `join`, ASCII `toLowerCase`,
  `includes` and code-point string order. `SessionViews` holds the
  projections and folds the pages share.

Four behaviours of the code are easy to misread. The model follows the
code:

- `pendingSessions` keeps the records whose state is exactly pending
  (`src/lib/datastore/local.ts:88`). It does not keep every record that is
  not synced.
- `updateSession` does not validate its patch (`src/lib/datastore/local.ts:58-66`).
- The merge of `listSessions` keeps every local record that is not synced
  (`src/lib/datastore/supabase.ts:149`). Records in state error are kept
  there, yet the retry sweep never attempts them
  (`SyncCoordinator.ErrorRecordNeverRetried`).
- No code path ever assigns the state error
  (`LocalDatastore.NoOperationAssignsError`, `SyncCoordinator.MergeKeepsNoError`).

## Model

| member | source | states |
|---|---|---|
| Schema.Parse | src/lib/schema/zod.ts:3-15 | success exactly when every key satisfies its rule. On failure, the reported keys are exactly the failing ones, none missing. On success: the date is non-empty, the type is one of the four, the duration is a positive integer equal to the input, at most 3 tags (`[]` when absent), and optional start time and memo |
| Schema.StringsOf | src/lib/schema/zod.ts:13 | the strings of an all-string array, one per item, in order |
| LocalDatastore.LocalStore.AddSession | src/lib/datastore/local.ts:28-42 | fails exactly on invalid input, with its issues and no write; otherwise appends exactly the new record at the end and returns it |
| LocalDatastore.AddedRecordShape | src/lib/datastore/local.ts:31-37 | the new record is pending, has the given id and creation time and the input's values, tags default to `[]`, and there are at most 3 tags |
| LocalDatastore.AddThenGet | src/lib/datastore/local.ts:28-42 | after adding a record with a fresh id, looking the id up returns that record |
| LocalDatastore.LocalStore.ListSessions | src/lib/datastore/local.ts:44-56 | returns the range filter of the stored list, and every record returned is stored and in range |
| LocalDatastore.ListedIsRangeFilter | src/lib/datastore/local.ts:44-56 | without params, the stored list as is. With params, exactly the in-range records, in stored order (filtering distributes over concatenation) |
| LocalDatastore.NoBoundsListsAll | src/lib/datastore/local.ts:48-49 | missing or empty bounds filter nothing |
| LocalDatastore.FindIndex | src/lib/datastore/local.ts:61 | `findIndex`: none exactly when no record has the id; otherwise the first index with that id |
| LocalDatastore.LocalStore.UpdateSession | src/lib/datastore/local.ts:58-66 | new list and result as the update function gives them; an unknown id means no write; the result is pending |
| LocalDatastore.UpdateUnknownId | src/lib/datastore/local.ts:61-62 | an unknown id returns null and leaves the list unchanged |
| LocalDatastore.UpdateKnownId | src/lib/datastore/local.ts:61-65 | only the first match is replaced, by the merged record, which is pending whatever the patch says; for each of the eight other keys, a key the patch gives holds the patch's value and a key it omits keeps its old value; all other records are unchanged |
| LocalDatastore.PatchIdempotent | src/lib/datastore/local.ts:63 | applying a patch twice equals applying it once |
| LocalDatastore.LocalStore.DeleteSession | src/lib/datastore/local.ts:68-73 | the new list is the old one without the id |
| LocalDatastore.DeleteProperties | src/lib/datastore/local.ts:68-73 | no record with the id is left, every other record is kept, it distributes over concatenation, and deleting twice equals deleting once |
| LocalDatastore.LocalStore.MarkSynced | src/lib/datastore/local.ts:75-83 | the new list is the old one with the first match marked synced |
| LocalDatastore.MarkSyncedChangesOnlyFirstMatch | src/lib/datastore/local.ts:75-83 | same length; only the sync state can change, and only on the first record with the id, which becomes synced; an absent id leaves the list unchanged |
| LocalDatastore.LocalStore.PendingSessions | src/lib/datastore/local.ts:85-89 | the stored records whose state is pending |
| LocalDatastore.PendingExactlyPending | src/lib/datastore/local.ts:88 | every pending record is returned, only pending records are returned, and records in state error are excluded |
| LocalDatastore.NoOperationAssignsError | src/lib/datastore/local.ts:28-89 | add, update, delete and mark-synced never introduce state error |
| LocalDatastore.FreshAddKeepsIdsUnique | src/lib/datastore/local.ts:31-39 | adding a record with a fresh id keeps the ids unique |
| LocalDatastore.LocalStore.GetSession | src/lib/datastore/supabase.ts:167-169 | the first stored record with the id, or none (assumed meaning of the local `getSession`) |
| LocalDatastore.LocalStore.ReplaceAllSessions | src/lib/datastore/supabase.ts:159 | the slot becomes the given list (assumed meaning of the local `replaceAllSessions`) |
| RowMapping.ToRow | src/lib/datastore/supabase.ts:36-47 | tags are always sent; `user_id` is present exactly for a non-empty user id, and then it is that id |
| RowMapping.FromRow | src/lib/datastore/supabase.ts:118-130 | always synced; the id is the row's; the creation time is the base record's, or `now` without one; null tags become `[]` |
| RowMapping.RecordRoundTrip | src/lib/datastore/supabase.ts:36-130 | `fromRow(toRow(r, u), r)` is `r` with state synced |
| RowMapping.RowRoundTrip | src/lib/datastore/supabase.ts:36-130 | `toRow(fromRow(row))` is the row, with null tags as `[]` and the given `user_id` |
| RowMapping.SyncStateNotSent | src/lib/datastore/supabase.ts:36-47 | the sync state never reaches the row |
| SyncCoordinator.LookedUp | src/lib/datastore/supabase.ts:55-71 | a looked-up id is always non-empty; a throw or a missing session gives none |
| SyncCoordinator.Resolved | src/lib/datastore/supabase.ts:49-83 | no client gives no id, a cached non-empty id is returned as is, and any id returned is non-empty |
| SyncCoordinator.SyncStore.EnsureUserId | src/lib/datastore/supabase.ts:49-83 | returns the resolved id; the cache is kept when it hits, overwritten by a successful lookup, cleared by a failed one |
| SyncCoordinator.SyncStore.OnAuthStateChange | src/lib/datastore/supabase.ts:240-244 | the cache becomes the session's user id |
| SyncCoordinator.SyncStore.AddSession | src/lib/datastore/supabase.ts:85-106 | the local add decides the result, and a validation failure writes nothing and sends nothing. Otherwise the row goes out exactly when a user id resolves, and the record is marked synced only when that upsert succeeded |
| SyncCoordinator.SyncStore.UpdateSession | src/lib/datastore/supabase.ts:171-192 | the local update decides the result; an unknown id sends nothing and leaves the cache alone; otherwise the updated row is sent when a user id resolves, and marked synced only on success |
| SyncCoordinator.SyncStore.DeleteSession | src/lib/datastore/supabase.ts:194-212 | the local delete stands whatever the remote answers; a remote delete is issued exactly when a user id resolves |
| SyncCoordinator.SyncStore.GetSession | src/lib/datastore/supabase.ts:167-169 | the local lookup |
| SyncCoordinator.SyncStore.ListSessions | src/lib/datastore/supabase.ts:132-165 | with a user id and fetched data, the local list becomes the merge and the result is read from it. With no client, no user, an error, null data or a throw: the plain local result and no write |
| SyncCoordinator.MergeRemote | src/lib/datastore/supabase.ts:147-157 | the loop builds exactly the merge: the unsynced local records, then one record per remote row not locally unsynced |
| SyncCoordinator.LastWithId | src/lib/datastore/supabase.ts:148-155 | `new Map(...).get(id)`: a local record with the id (the last one), none exactly when the id is absent |
| SyncCoordinator.MergeProperties | src/lib/datastore/supabase.ts:147-159 | every unsynced local record survives unchanged; a merged record with a locally unsynced id is the local one; every other remote row comes back synced; a synced local record the remote lacks is dropped; no record enters state error |
| SyncCoordinator.MergeKeepsUnsynced | src/lib/datastore/supabase.ts:149-152 | no unsynced local record is lost |
| SyncCoordinator.MergeUnsyncedIdsAreLocal | src/lib/datastore/supabase.ts:150-154 | remote rows with a locally unsynced id are skipped |
| SyncCoordinator.MergeKeepsNoError | src/lib/datastore/supabase.ts:149-157 | the merge introduces no state error |
| SyncCoordinator.RemoteRecordsShape | src/lib/datastore/supabase.ts:153-157 | the pushed records are synced, come from remote rows and carry no locally unsynced id, and each eligible row is pushed |
| SyncCoordinator.RemoteRecordFrom | src/lib/datastore/supabase.ts:153-157 | a pushed record is synced and comes from a remote row whose id is not locally unsynced |
| SyncCoordinator.RemoteRecordOf | src/lib/datastore/supabase.ts:153-157 | every remote row whose id is not locally unsynced is pushed |
| SyncCoordinator.SyncStore.RetrySyncAll | src/lib/datastore/supabase.ts:214-238 | with no client or no user, nothing is sent or written. Otherwise there is one attempt per pending record, in order, none skipped after a failure, and the list is the sweep of those outcomes |
| SyncCoordinator.SweepMarksExactlySucceeded | src/lib/datastore/supabase.ts:223-237 | with unique ids, a record is marked synced exactly when it was pending and its own attempt succeeded; all else is unchanged |
| SyncCoordinator.SweptShape | src/lib/datastore/supabase.ts:224-237 | the sweep keeps the length and changes sync states only |
| SyncCoordinator.SweptLast | src/lib/datastore/supabase.ts:223-237 | with one record more, the sweep treats the old part as before and the new record by the next attempt |
| SyncCoordinator.SweptAppend | src/lib/datastore/supabase.ts:233 | sweeping ids of the old part leaves an appended record alone |
| SyncCoordinator.MarkedSyncedAppend | src/lib/datastore/local.ts:78-82 | `markSynced` finds the first match in the old part before an appended record |
| SyncCoordinator.FindIndexSameIds | src/lib/datastore/local.ts:78 | `findIndex` by id depends on the ids only |
| SyncCoordinator.ErrorRecordNeverRetried | src/lib/datastore/supabase.ts:149-159 | a record in state error is kept by every merge but never attempted by the sweep, whose pending list keeps state pending only (`src/lib/datastore/local.ts` line 88) |
| TagInput.NormalizeTag | src/components/log/tag-input-with-suggestions.tsx:9-11 | empty exactly for a blank tag; trimming again changes nothing |
| TagInput.MoreFrequentFirstIsPreorder | src/components/log/tag-input-with-suggestions.tsx:50-53 | the frequency comparator is a total preorder |
| TagInput.CountMapCounts | src/components/log/tag-input-with-suggestions.tsx:40-47 | the count map has a key per occurring tag and no other, valued with its number of occurrences |
| TagInput.CountOne | src/components/log/tag-input-with-suggestions.tsx:45 | one `map.set`: the key order and the counts after one occurrence more |
| TagInput.CountTag | src/components/log/tag-input-with-suggestions.tsx:42-46 | one tag: normalized and counted unless blank |
| TagInput.CountSessionTags | src/components/log/tag-input-with-suggestions.tsx:42-46 | one session's tags: the counts over the seen occurrences plus its non-blank trimmed tags |
| TagInput.CountAll | src/components/log/tag-input-with-suggestions.tsx:40-47 | the map and key order over every non-blank trimmed tag occurrence |
| TagInput.FrequencyEntries | src/components/log/tag-input-with-suggestions.tsx:48-49 | one entry per key with its counted value |
| TagInput.CountTagFrequencies | src/components/log/tag-input-with-suggestions.tsx:40-53 | the effect computes the frequency list |
| TagInput.FrequenciesProperties | src/components/log/tag-input-with-suggestions.tsx:40-53 | ranked by count descending, then tag; one entry per distinct non-blank trimmed tag, with its number of occurrences; every occurring tag is listed |
| TagInput.FrequencyTagsDistinct | src/components/log/tag-input-with-suggestions.tsx:40-49 | no tag is listed twice |
| TagInput.FrequencyOfTag | src/components/log/tag-input-with-suggestions.tsx:40-53 | every occurring tag has an entry |
| TagInput.FrequencyIsCounted | src/components/log/tag-input-with-suggestions.tsx:48-53 | each ranked entry is one of the counted entries |
| TagInput.ParsedTokensSplitAtActive | src/components/log/tag-input-with-suggestions.tsx:64-76 | the parsed tokens are the completed tokens followed by the active token when it is not empty |
| TagInput.TrailingCommaLeavesNoActiveToken | src/components/log/tag-input-with-suggestions.tsx:71-92 | a value ending in a comma has no active token, and its parsed tokens are the completed ones |
| TagInput.HandleSelectTokens | src/components/log/tag-input-with-suggestions.tsx:88-99 | the new value reads back as the completed tokens followed by the chosen tag; a partial last segment is discarded |
| TagInput.Suggestions | src/components/log/tag-input-with-suggestions.tsx:78-86 | at most `maxSuggestions`, none for an empty active token; each contains the active token and matches no parsed token, case aside |
| TagInput.SuggestionsComplete | src/components/log/tag-input-with-suggestions.tsx:82-84 | the number is the smaller of the limit and the number of matches, and every match is offered when they fit |
| TagInput.SuggestionsInFrequencyOrder | src/components/log/tag-input-with-suggestions.tsx:82-85 | suggestions are tags of frequency entries, in the ranked order |
| TagInput.SuggestionsAreTopMatches | src/components/log/tag-input-with-suggestions.tsx:81-85 | with distinct tags, the cut keeps the best-ranked matches: when a matching entry is suggested, every matching entry ranked before it is suggested too |
| TagAnalysis.FilteredSessions | src/app/log/tag-analysis/page.tsx:60-65 | all sessions for `"all"`; otherwise exactly the sessions of that type, with their multiplicities |
| TagAnalysis.FilteredSessionsInOrder | src/app/log/tag-analysis/page.tsx:60-65 | the type filter keeps stored order: it distributes over concatenation, and a single session is kept exactly when its type is selected or all types are shown |
| TagAnalysis.PushedTags | src/app/log/tag-analysis/page.tsx:69-77 | the tags pushed are the non-blank trimmed tag occurrences, in order |
| TagAnalysis.PushesMembers | src/app/log/tag-analysis/page.tsx:69-77 | a session is pushed under a tag exactly when it carries that tag after trimming |
| TagAnalysis.GroupContents | src/app/log/tag-analysis/page.tsx:73-76 | a tag's list has one session per push under it, and only those sessions |
| TagAnalysis.GroupMapGroups | src/app/log/tag-analysis/page.tsx:68-78 | the map has a key per pushed tag and no other, each holding its list |
| TagAnalysis.PushOne | src/app/log/tag-analysis/page.tsx:73-76 | one push: the list for the tag is created if missing, then extended |
| TagAnalysis.PushTag | src/app/log/tag-analysis/page.tsx:70-77 | one tag: trimmed and pushed unless blank |
| TagAnalysis.PushSessionTags | src/app/log/tag-analysis/page.tsx:70-77 | one session pushed under each of its non-blank trimmed tags |
| TagAnalysis.GroupSessions | src/app/log/tag-analysis/page.tsx:68-78 | the map and key order over every push |
| TagAnalysis.BuildEntries | src/app/log/tag-analysis/page.tsx:80-89 | one entry per key: its list latest first and its total duration |
| TagAnalysis.ComputeTagEntries | src/app/log/tag-analysis/page.tsx:67-99 | the computed entries are the ranked tag entries |
| TagAnalysis.EntryOrderIsPreorder | src/app/log/tag-analysis/page.tsx:90-98 | the ranking comparator is a total preorder |
| TagAnalysis.EntryAt | src/app/log/tag-analysis/page.tsx:80-98 | each ranked entry is the entry of its own tag, which occurs |
| TagAnalysis.TagEntriesTags | src/app/log/tag-analysis/page.tsx:71-72 | entry tags are trimmed, non-blank, occurring tags |
| TagAnalysis.TagEntriesDistinct | src/app/log/tag-analysis/page.tsx:73-75 | no two entries share a tag |
| TagAnalysis.TagEntriesCover | src/app/log/tag-analysis/page.tsx:69-78 | every non-blank tag occurrence has an entry |
| TagAnalysis.TagEntriesContents | src/app/log/tag-analysis/page.tsx:67-99 | the entries are ranked. Each lists, latest first, exactly the sessions carrying its tag, once per occurrence, and its total is the sum of their durations |
| TagAnalysis.TagEntriesCount | src/app/log/tag-analysis/page.tsx:69-77 | the sessions across entries number the non-blank tag occurrences |
| TagAnalysis.FilteredEntries | src/app/log/tag-analysis/page.tsx:101-107 | all entries for a blank query; otherwise exactly the entries whose lower-cased tag contains it, with their multiplicities |
| TagAnalysis.FilteredEntriesStaySorted | src/app/log/tag-analysis/page.tsx:101-107 | the query filter keeps the ranking |
| LogPage.SortedSessions | src/app/log/page.tsx:54-60 | a permutation of the sessions |
| LogPage.SortedSessionsAreSorted | src/app/log/page.tsx:54-60 | latest first |
| LogPage.Accumulate | src/app/log/page.tsx:71-80 | the loop computes the month set, the totals and the monthly dictionary |
| LogPage.AddMonth | src/app/log/page.tsx:72-73 | one `monthSet.add` |
| LogPage.AddTotal | src/app/log/page.tsx:74-75 | one totals update |
| LogPage.AddMonthly | src/app/log/page.tsx:76-79 | one monthly update, creating the type's dictionary first |
| LogPage.FillDefaults | src/app/log/page.tsx:85-88 | a zero total and an empty dictionary for each type without one |
| LogPage.ComputeTypeSummary | src/app/log/page.tsx:66-95 | the computed summary is the type summary of the sessions |
| LogPage.MonthlyMapSums | src/app/log/page.tsx:76-79 | a key per occurring type, each cell the sum of that type's durations in that month |
| LogPage.FillTotalsKeeps | src/app/log/page.tsx:86 | filling adds the missing keys and changes no value |
| LogPage.FillMonthlyKeeps | src/app/log/page.tsx:87 | filling adds the missing dictionaries and changes no cell |
| LogPage.TypeOrderCovers | src/app/log/page.tsx:82-84 | the four base types first, then the other types that occur; no duplicates; nothing else |
| LogPage.TypeOrderShape | src/app/log/page.tsx:82-84 | as `TypeOrderCovers`, and the types after the base four are not base types and come in the order their first session appears |
| LogPage.TotalsAreTypeSums | src/app/log/page.tsx:75-88 | the totals hold exactly the types of the order, each the sum of its durations, 0 when none |
| LogPage.TotalsAddUp | src/app/log/page.tsx:62-88 | the totals over the type order add up to `totalDuration` |
| LogPage.MonthsShape | src/app/log/page.tsx:72-92 | the distinct months of the sessions, newest first, all of them and nothing else |
| LogPage.MonthlyCells | src/app/log/page.tsx:76-87 | each ordered type has a dictionary, whose cells are the sums per month |
| LogPage.MonthlyAddsUpToTotal | src/app/log/page.tsx:72-88 | per type, the monthly cells over the months add up to the type's total |
| LogPage.NewerMonthFirstIsPreorder | src/app/log/page.tsx:90-92 | the month comparator is a total preorder |
| HomePage.CalendarDays | src/app/page.tsx:16-21 | 42 consecutive days starting on the Sunday on or before the first of the month |
| HomePage.WeekStart | src/app/page.tsx:18-19 | subtracting a day's weekday lands on a Sunday at most six days earlier |
| HomePage.MonthInsideGrid | src/app/page.tsx:16-21 | every day of the month is in the grid, at the position set by the first's weekday |
| HomePage.SortSessions | src/app/page.tsx:23-29 | a permutation of the sessions |
| HomePage.SortSessionsSorted | src/app/page.tsx:23-29 | earliest first by date and start time, a missing start time counting as `00:00` |
| HomePage.DateMapGroups | src/app/page.tsx:64-69 | a key per occurring date and no other, each holding that date's sessions in order |
| HomePage.AddToDate | src/app/page.tsx:66-68 | one push into the list of the session's date |
| HomePage.GroupByDate | src/app/page.tsx:64-69 | the loop builds the date map and its key order |
| HomePage.SortGroups | src/app/page.tsx:70-72 | each list is replaced by its sorted version, and the keys are unchanged |
| HomePage.SessionsByDate | src/app/page.tsx:63-74 | a group per occurring date and no other, each that date's sessions earliest first |
| HomePage.DateGroupContents | src/app/page.tsx:63-74 | a date's group holds exactly its sessions, with multiplicity, and is sorted |
| HomePage.GroupSizesAddUp | src/app/page.tsx:63-74 | the group sizes add up to the number of sessions |
| HomePage.AddMonthKey | src/app/page.tsx:84-86 | a type gets its key the first time a session of the month has it |
| HomePage.AddMonthTotal | src/app/page.tsx:84-86 | a session of the month adds its duration to its type, and others change nothing |
| HomePage.MonthlyTotals | src/app/page.tsx:81-89 | the loop computes the month's totals and their key order |
| HomePage.MonthTotalsSums | src/app/page.tsx:81-89 | a key exactly for each type with a session this month, holding the sum of those durations, so types without one are absent |
| HomePage.OrderedTypesShape | src/app/page.tsx:90-94 | the base types first, no duplicates, every type with a total, and nothing else; the other types follow in the totals' key order, which is the order of their first session in the month |
| QuickLog.QuickTags | src/app/log/quick/page.tsx:36-40 | the first up to 3 trimmed non-empty comma tokens, in input order |
| QuickLog.QuickTagsOfJoined | src/app/log/quick/page.tsx:36-40 | tokens typed comma-separated come back (none from an empty field); beyond three, the first three |
| QuickLog.QuickMemo | src/app/log/quick/page.tsx:41 | an empty memo is absent; otherwise the memo |
| QuickLog.QuickTagsValid | src/app/log/quick/page.tsx:36-40 | the body's tags always pass the validator's 3-tag cap (`src/lib/schema/zod.ts` line 13) |
| QuickLog.QuickBodyIssues | src/app/log/quick/page.tsx:14-42 | with a type from the list, the validator can reject only an empty date and a non-positive duration |
| QuickLog.QuickBodyParses | src/app/log/quick/page.tsx:31-42 | a passing body parses to the form's values with the capped tags and the defaulted memo |
| QuickLog.Submit | src/app/log/quick/page.tsx:28-43 | saved exactly when the date is set and the duration positive, appending the form's pending record; otherwise nothing is written |
| SessionViews.SessionOrdersArePreorders | src/app/page.tsx:24-28 | both session comparators are total preorders |
| SessionViews.BaseTypesFirst | src/app/page.tsx:90-94 | the four base types first; every given type is kept; nothing else; no duplicates added; the types after the base four are not base types and keep the order of the given list |
| SessionViews.TotalsMapSums | src/app/log/page.tsx:74-75 | a key per occurring type, each the sum of its durations |
| Seqs.Sort | src/app/page.tsx:24 | a permutation |
| Seqs.SortSorted | src/app/page.tsx:24 | sorted under any total preorder |
| Text.Split | src/components/log/tag-input-with-suggestions.tsx:66 | at least one part, none containing the separator, and joining the parts gives the input |
| Text.SplitJoin | src/components/log/tag-input-with-suggestions.tsx:66-98 | splitting separator-free parts joined back gives the parts |
| Text.TrimShape | src/components/log/tag-input-with-suggestions.tsx:10 | `trim` keeps the middle between two runs of white space, and the result neither starts nor ends with white space |
| Text.TrimEmptyIffBlank | src/components/log/tag-input-with-suggestions.tsx:43-44 | a string trims to empty exactly when it is all white space |
| Text.CommaTokensOfJoined | src/components/log/tag-input-with-suggestions.tsx:64-98 | tokens joined by `", "` parse back to the same tokens, the empty list included |
| Text.ContainsIffOccurs | src/app/log/tag-analysis/page.tsx:106 | `includes` finds a query exactly when it occurs at some index |

## Left out

- The persistence layer (`idb-keyval`), the remote client, the network and
  the auth service are oracles or fields. Their failures appear only as the
  outcomes the code distinguishes.
- `uuid()`, `new Date()` and `dayjs()` are parameters (`id`, `createdAt`,
  `now`, the shown month, the form's date and time). Ids are assumed unique
  where a lemma needs it (`UniqueIds`), not proved.
- The in-flight promise `fetchingUserId` and the races between overlapping
  async calls on the whole-list slot are left out. `EnsureUserId` is one call
  at a time. Its branch that sets the cache after the lookup cannot change
  anything, because the lookup has already set it.
- `SyncCoordinator.SyncStore.RetrySyncAll`: a thrown upsert and an upsert
  with an error are both a failed attempt. The thrown `markSynced` after a
  successful upsert is not modelled.
- `SyncCoordinator.MergeRemote`: `fromRow` reads `new Date()` once per row;
  the model passes one `now`, so the rows without a local record share one
  creation time.
- The `"online"` listener that triggers `retrySyncAll` is left out, as are
  `assertClient`, console logging, the `PGRST205` hint, `router.push` and
  `alert`.
- `getSession` and `replaceAllSessions` are called but not defined in
  `local.ts`. They are modelled as "first record with this id" and "replace
  the slot".
- Dates and times are ISO strings:
  - A month is the first seven characters of a date.
  - Date order is code-point string order.
  - The calendar counts days from 1970-01-01 with the proleptic Gregorian
    formula.
  - Malformed dates, time zones and dayjs parsing are not modelled.
- `localeCompare` is code-point order. `toLowerCase` folds ASCII letters only.
  `trim` uses ECMAScript's white-space set. No Unicode normalisation is
  modelled.
- `Array.prototype.sort` is modelled as a stable insertion sort.
  ECMAScript 2019 requires `sort` to be stable, and every comparator here is
  a total preorder, so elements that compare equal keep their input order in
  the source as in the model. The model proves that its sort gives a sorted
  permutation; it does not state stability as a lemma.
- `Object.keys` is modelled as insertion order. JavaScript lists keys that
  look like integers first. That does not matter for type names, and the
  model does not capture it.
- The quick page's duration is an integer. An empty field becomes 0 through
  `parseInt(value || "0", 10)`, which the validator rejects
  (`QuickLog.QuickBodyIssues`); `parseInt`'s reading of other text is not
  modelled.
- `maxSuggestions` is a natural number. A negative value, which `slice`
  would count from the end, is not modelled.
- `QuickLog.Submit` saves through the local store only. Through the
  sync layer it would behave as `SyncCoordinator.SyncStore.AddSession` with
  this body.
- A patch key given explicitly as `undefined` for a required field is not
  modelled. Optional fields can be cleared that way (`Put(None)`).
- React state, rendering, effects and their cancellation flags are left out;
  each page computation is a function of the session list it reads.
- `src/lib/datastore/index.ts` (the choice between the local and the synced
  datastore) is not part of this model.
