# FRC scouting client — a verified model of its core

This project models the core of an offline-first scouting client for FIRST Robotics Competition
events.

- **Scouting entries.** Scouters sign in, pick a qualification match and count the game pieces
  their assigned robot scores on the four reef levels (L1–L4). They record the robot's climb and
  write notes, then submit the entry.
- **Local storage and sync.** Entries are kept in browser-local storage and pushed to a
  spreadsheet endpoint when the device is online.
- **Admin tools.** An admin account manages the scouter roster and imports qualification
  schedules and team ranks from The Blue Alliance. It also analyses the collected entries team by
  team.

The model is written per source file:

| module | source | form |
|---|---|---|
| `Storage` | `src/utils/storage.ts` | class `Store` with one field per storage key |
| `Application` | `src/App.tsx` | class `App` holding the application state; sync and submit as methods; pure lookups as functions |
| `Login` | `src/components/Login.tsx` | sign-in decision as a function; class `LoginForm` for the form state |
| `MatchList` | `src/components/MatchList.tsx` | functions |
| `ScoutingForm` | `src/components/ScoutingForm.tsx` | class `Form` with the four counters, climb and notes |
| `Header` | `src/components/Header.tsx` | functions |
| `ScouterManagement` | `src/components/admin/ScouterManagement.tsx` | roster edits as functions; class `RosterEditor` for the editor state |
| `DataAnalysis` | `src/components/admin/DataAnalysis.tsx` | the grouping loop as a method over a map; table, sort and filter as functions; class `AnalysisView` |
| `BlueAlliance` | `src/utils/blueAlliance.ts` | conversions of already-fetched records, as functions |
| `Types` | `src/types/index.ts` | datatypes |
| `Text`, `Seqs`, `Sorting`, `Wrappers` | — | string, filter, stable-sort and option helpers these need |

Browser and outside-world dependencies are modelled as follows:

- The browser's storage is a `Store` object with one `Option` field per key. A JSON round trip is
  taken to be the identity.
- `navigator.onLine` and `Date.now()` are parameters.
- The spreadsheet push (`sheets.syncData`) and the per-team rank lookup are function parameters.
- The 3-second "back to idle" timer is a counter of pending resets, with a method that fires one.

## Model

| member | source | states |
|---|---|---|
| `Storage.KeyNamesDistinct` | src/utils/storage.ts:3-9 | the five storage keys are pairwise distinct, so a write to one slot never reaches another |
| `Storage.Store.GetUser` | src/utils/storage.ts:16-19 | an absent user slot reads as null |
| `Storage.Store.GetMatches` | src/utils/storage.ts:25-28 | an absent match slot reads as the empty list |
| `Storage.Store.GetScoutingData` | src/utils/storage.ts:34-37 | an absent entry slot reads as the empty list |
| `Storage.Store.GetAdminScouters` | src/utils/storage.ts:43-46 | an absent roster slot reads as the empty list |
| `Storage.Store.GetSelectedEvent` | src/utils/storage.ts:52-54 | an absent event slot reads as null |
| `Storage.Store.SaveUser` | src/utils/storage.ts:12-14 | the user slot then reads back the saved user; no other slot changes |
| `Storage.Store.SaveMatches` | src/utils/storage.ts:21-23 | the match slot reads back the saved list; no other slot changes |
| `Storage.Store.SaveScoutingData` | src/utils/storage.ts:30-32 | the entry slot reads back the saved list; no other slot changes |
| `Storage.Store.SaveAdminScouters` | src/utils/storage.ts:39-41 | the roster slot reads back the saved roster; no other slot changes |
| `Storage.Store.SaveSelectedEvent` | src/utils/storage.ts:48-50 | the event slot reads back the saved key; no other slot changes |
| `Storage.Store.AddScoutingEntry` | src/utils/storage.ts:56-61 | the stored and returned list is the old list with the entry appended, without deduplication; other slots are unchanged |
| `Storage.MergeLaws` | src/utils/storage.ts:66 | the spread merge: an empty patch is the identity, and merging a patch twice is merging it once |
| `Storage.UpdateEntries` | src/utils/storage.ts:63-70 | same length and order; exactly the entries with the given id receive the patch, all others are untouched |
| `Storage.UpdateUnknownIdIsNoop` | src/utils/storage.ts:63-70 | updating an id no entry carries leaves the list as it was |
| `Storage.UpdateIdempotent` | src/utils/storage.ts:63-70 | repeating an update (one that does not rename the id) changes nothing more |
| `Storage.Store.UpdateScoutingEntry` | src/utils/storage.ts:63-70 | the stored and returned list is `UpdateEntries` of the old one; other slots are unchanged |
| `Storage.Unsynced` | src/utils/storage.ts:72-74 | exactly the unsynced entries, each as many times as it is stored, as an order-preserving subsequence |
| `Storage.UnsyncedAppend` | src/utils/storage.ts:72-74 | appending an entry extends the unsynced list by it exactly when it is unsynced |
| `Storage.Store.GetUnsyncedData` | src/utils/storage.ts:72-74 | the stored entries that are not synced, each as many times as it is stored, in stored order |
| `Storage.Store.RemoveItem` | src/utils/storage.ts:78 | the named slot becomes absent; the other four are unchanged |
| `Storage.Store.ClearAll` | src/utils/storage.ts:76-80 | after removing the keys one by one, every slot is absent and every getter returns its default |
| `Application.EntryIdInjective` | src/App.tsx:159 | two `match-team-time` identities are equal only for equal match, team and time (non-negative numbers) |
| `Application.NewEntry` | src/App.tsx:157-163 | a new entry's id is match-team-clock and its timestamp the clock; every submitted field is copied; it is unsynced and carries the selected event unless none or "" is selected |
| `Application.UnsyncedCountAfterAdd` | src/App.tsx:192 | a submitted entry raises the unsynced count by exactly one |
| `Application.ScoutedMatches` | src/App.tsx:193 | one match number per entry; a number is listed iff some entry has it |
| `Application.FindByName` | src/App.tsx:180 | the first roster row whose name equals the user name, ignoring case, or none when no row does |
| `Application.UserAssignment` | src/App.tsx:179-190 | null iff no roster name matches; otherwise the first matching row's alliance and position, with team 0 |
| `Application.MarkAllSynced` | src/App.tsx:132-134 | same length, every entry with its synced flag set and nothing else changed |
| `Application.MarkAllSyncedLeavesNothingUnsynced` | src/App.tsx:130-141 | after the success path's write, nothing in the written list is unsynced |
| `Application.MarkSent` | src/App.tsx:130-141 | corrected write: exactly the entries whose identity was pushed become synced, all others are untouched |
| `Application.StaleSnapshotDropsNewEntry` | src/App.tsx:132-135 | the source's write of the pre-submit list leaves the store one entry shorter, and the new entry's identity is gone |
| `Application.MarkSentKeepsEntries` | src/App.tsx:130-141 | the corrected write keeps every entry and only ever sets synced flags |
| `Application.MarkSentOfUnsyncedIsMarkAll` | src/App.tsx:130-141 | when nothing changed during the push, the corrected write equals the source's write |
| `Application.ReconcileAfterSubmit` | src/App.tsx:156-176 | after a submission and a corrected sync, the store is every entry, the new one last, each marked synced and otherwise unchanged; none is unsynced |
| `Application.ReconcileSparesLateEntry` | src/App.tsx:113-154 | an entry added while the push is in flight stays unsynced after the corrected write |
| `Application.App.constructor` | src/App.tsx:12-22 | initial state: no user, empty lists, idle, not admin, online as the browser says |
| `Application.App.Mount` | src/App.tsx:38-58 | loads every slot; an empty stored match list is replaced by the three mock matches, which are saved |
| `Application.App.HandleLogin` | src/App.tsx:74-78 | user saved and set; admin iff the name is exactly "admin6560"; nothing else changes |
| `Application.App.HandleLogout` | src/App.tsx:80-93 | storage cleared; state reset with the mock matches; pending idle timers are not cancelled |
| `Application.App.HandleUpdateScouters` | src/App.tsx:95-98 | roster saved and mirrored in memory; nothing else changes |
| `Application.App.HandleEventSelect` | src/App.tsx:100-103 | event saved and mirrored in memory; nothing else changes |
| `Application.App.HandleSelectMatch` | src/App.tsx:105-111 | only the current match changes (null when going back) |
| `Application.App.SyncData` | src/App.tsx:113-154 | offline: no change. Nothing unsynced: success, no push, no timer. Otherwise the stored unsynced entries are pushed once. Success writes the captured list marked synced; failure gives error and changes no entry; either way one idle reset is scheduled |
| `Application.App.SyncDataReconciled` | src/App.tsx:113-154 | as `SyncData`, except that success marks synced, in the list stored at that moment, exactly the entries whose identities were pushed |
| `Application.App.IdleResetFires` | src/App.tsx:150-153 | a pending 3-second timer sets the status back to idle, whatever it is now |
| `Application.App.HandleScoutingSubmit` | src/App.tsx:156-176 | the new entry is appended to the store and memory; the form is closed; an auto-sync is scheduled iff online |
| `Application.App.SubmitThenAutoSyncAsWritten` | src/App.tsx:113-176 | online with a successful push, the store ends as the old entries marked synced: the submitted entry is lost |
| `Application.App.SubmitThenAutoSync` | src/App.tsx:113-176 | corrected: the store always gains exactly one entry; after a successful push it holds the old entries and the new one, in order, all marked synced, and nothing is unsynced |
| `Login.LoginDecision` | src/components/Login.tsx:17-48 | blank name: no login. Otherwise the trimmed name signs in: admin as team 0, red 1; a roster name with its roster placement; any other name with the form's team, alliance and position |
| `Login.AdminFlagIffAdminName` | src/components/Login.tsx:22-31 | the signed-in name is the admin name iff the trimmed input is |
| `Login.LoginIgnoresSurroundingWhitespace` | src/components/Login.tsx:17-48 | leading and trailing whitespace never changes who signs in |
| `Login.LoginForm.constructor` | src/components/Login.tsx:11-15 | empty name, team 1, red, position 1, not assigned |
| `Login.LoginForm.ChangeUsername` | src/components/Login.tsx:51-58 | the name is stored as typed; a roster match (untrimmed) copies its placement and sets the assigned flag, otherwise the placement is kept |
| `Login.LoginForm.ChoosePlacement` | src/components/Login.tsx:100-121 | the manual controls set alliance and position only |
| `Login.LoginForm.HandleSubmit` | src/components/Login.tsx:17-48 | the user handed on is `LoginDecision` of the form's state |
| `MatchList.TeamForUser` | src/components/MatchList.tsx:18-21 | the team scouted is one of the user's alliance's three teams (that it is the one at the user's position is stated by `MatchList.HighlightedChipIsTeamForUser`) |
| `MatchList.HighlightedChipIsTeamForUser` | src/components/MatchList.tsx:80 | at most one chip is highlighted, and it shows the scouted team; one chip always is |
| `MatchList.MatchCards` | src/components/MatchList.tsx:36-38 | one card per match in order, with the scouted team, completed iff the number was scouted |
| `MatchList.CardCompletedIffScouted` | src/components/MatchList.tsx:38 | with the application's list, a card is completed iff some stored entry has its match number |
| `ScoutingForm.SubmittedNotes` | src/components/ScoutingForm.tsx:42 | blank notes are dropped; otherwise the trimmed, non-empty text without outer whitespace |
| `ScoutingForm.Form.constructor` | src/components/ScoutingForm.tsx:18-23 | counters at zero, no climb, empty notes |
| `ScoutingForm.Form.Increment` | src/components/ScoutingForm.tsx:106-125 | one counter goes up by one; no other field changes |
| `ScoutingForm.Form.Decrement` | src/components/ScoutingForm.tsx:106-125 | one counter goes down by one but never below zero; a disabled button changes nothing |
| `ScoutingForm.Form.SetClimbStatus` | src/components/ScoutingForm.tsx:136-140 | only the climb choice changes |
| `ScoutingForm.Form.SetNotes` | src/components/ScoutingForm.tsx:159-160 | only the notes change |
| `ScoutingForm.Form.HandleSubmit` | src/components/ScoutingForm.tsx:25-44 | the submission: this match, the team at the user's position, the counters, the climb and the trimmed notes |
| `ScoutingForm.Max0` | src/components/ScoutingForm.tsx:107 | `Math.max(0, x)`: non-negative, at least x, and either 0 or x |
| `Header.SyncStatusText` | src/components/Header.tsx:31-38 | syncing: "Syncing..."; success: "Synced"; error: "Sync Error"; idle: "N unsynced" for N > 0, else "All synced" |
| `Header.SyncStatusColor` | src/components/Header.tsx:22-29 | yellow while syncing, green on success, red on error, gray when idle |
| `Header.SyncStatusTextInjective` | src/components/Header.tsx:31-38 | the label identifies the status and, when idle, the unsynced count |
| `Header.DisabledIffSyncingLabel` | src/components/Header.tsx:75 | the sync button is disabled iff the label reads "Syncing..." |
| `Header.SyncStatusColorInjective` | src/components/Header.tsx:22-29 | each status has its own colour; gray iff idle |
| `ScouterManagement.StatusLabelRemote` | src/components/admin/ScouterManagement.tsx:170 | the status "remote" is shown as "Remote" |
| `ScouterManagement.StatusLabelInPerson` | src/components/admin/ScouterManagement.tsx:170 | the status "in-person" is shown as "In Person" |
| `ScouterManagement.StatusLabelNotScouting` | src/components/admin/ScouterManagement.tsx:170 | the status "not-scouting" is shown as "Not Scouting" |
| `ScouterManagement.AssignmentTextShape` | src/components/admin/ScouterManagement.tsx:59-61 | the label is "Red " or "Blue " followed by the position |
| `ScouterManagement.AssignmentTextInjective` | src/components/admin/ScouterManagement.tsx:59-61 | different placements give different labels |
| `ScouterManagement.StatusColor` | src/components/admin/ScouterManagement.tsx:63-69 | green for in-person, blue for remote, gray for not-scouting scouters |
| `ScouterManagement.MergeScouter` | src/components/admin/ScouterManagement.tsx:47 | identity and name are kept; each patched field overrides, the others are kept |
| `ScouterManagement.UpdateScouters` | src/components/admin/ScouterManagement.tsx:45-51 | same length and order; exactly the rows with the id are patched |
| `ScouterManagement.UpdateScoutersUnknownId` | src/components/admin/ScouterManagement.tsx:45-51 | editing an id not on the roster changes nothing |
| `ScouterManagement.UpdateScoutersIdempotent` | src/components/admin/ScouterManagement.tsx:45-51 | applying the same edit twice is applying it once |
| `ScouterManagement.DeleteScouter` | src/components/admin/ScouterManagement.tsx:53-57 | exactly the rows without the id, each as often as before, in order |
| `ScouterManagement.DeleteScouterUnknownId` | src/components/admin/ScouterManagement.tsx:53-57 | deleting an id not on the roster changes nothing |
| `ScouterManagement.DeleteScouterIdempotent` | src/components/admin/ScouterManagement.tsx:53-57 | deleting twice is deleting once |
| `ScouterManagement.NewScouter` | src/components/admin/ScouterManagement.tsx:27-33 | the new row's id is the clock reading, its name is trimmed, and it takes the form's alliance, position and status |
| `ScouterManagement.RosterEditor.constructor` | src/components/admin/ScouterManagement.tsx:14-22 | nothing edited or confirmed, add form hidden with its defaults |
| `ScouterManagement.RosterEditor.HandleAddScouter` | src/components/admin/ScouterManagement.tsx:24-43 | a blank name changes nothing; otherwise the new row is appended and saved, and the add form is reset and hidden; nothing but the roster changes in the app and its store |
| `ScouterManagement.RosterEditor.AppendAndReset` | src/components/admin/ScouterManagement.tsx:35-42 | the row is appended and saved, and the form is reset and hidden; nothing but the roster changes in the app and its store |
| `ScouterManagement.RosterEditor.HandleUpdateScouter` | src/components/admin/ScouterManagement.tsx:45-51 | the patched roster is saved and editing ends; the add form and everything but the roster in the app and its store are unchanged |
| `ScouterManagement.RosterEditor.HandleDeleteScouter` | src/components/admin/ScouterManagement.tsx:53-57 | the filtered roster is saved and the confirmation closes; the add form and everything but the roster in the app and its store are unchanged |
| `BlueAlliance.KeptEvents` | src/utils/blueAlliance.ts:18-22 | exactly the events whose name or code contains the term, ignoring case, each as often as fetched, in order |
| `BlueAlliance.SearchEvents` | src/utils/blueAlliance.ts:11-35 | a failed fetch gives []; otherwise the kept events converted one to one |
| `BlueAlliance.SearchIgnoresTermCase` | src/utils/blueAlliance.ts:18-22 | the result does not depend on the case of the term |
| `BlueAlliance.SearchEmptyTermKeepsAll` | src/utils/blueAlliance.ts:18-22 | an empty term keeps every event |
| `BlueAlliance.TeamKeyRoundTrip` | src/utils/blueAlliance.ts:49-50 | "frc" followed by a number parses back to that number |
| `BlueAlliance.ToMatch` | src/utils/blueAlliance.ts:47-54 | number, team numbers, event key and match key are carried over; completed iff there is a winner |
| `BlueAlliance.QualMatches` | src/utils/blueAlliance.ts:45 | exactly the fetched qualification matches, each as often as fetched |
| `BlueAlliance.SortedQuals` | src/utils/blueAlliance.ts:45-46 | a permutation of the qualification matches in ascending match-number order |
| `BlueAlliance.SortedQualsFromRaw` | src/utils/blueAlliance.ts:45-46 | the sorted list holds every fetched qualification match and nothing else |
| `BlueAlliance.EventMatches` | src/utils/blueAlliance.ts:37-59 | a failed fetch gives []; otherwise one match per qualification match, in ascending number, tagged with the event |
| `BlueAlliance.EventMatchesFromQuals` | src/utils/blueAlliance.ts:44-54 | every converted match comes from a fetched qualification match, and every one is converted |
| `BlueAlliance.OrNull` | src/utils/blueAlliance.ts:68 | `x \|\| null`: null iff missing or 0, otherwise unchanged |
| `BlueAlliance.TeamEventStatsOf` | src/utils/blueAlliance.ts:61-75 | null iff the fetch failed; otherwise the rank with 0 as null, and the record |
| `DataAnalysis.FilterByEvent` | src/components/admin/DataAnalysis.tsx:42-44 | no event selected: every entry; otherwise exactly the event's entries, each as often as stored, in order |
| `DataAnalysis.Teams` | src/components/admin/DataAnalysis.tsx:52-59 | the grouping map's keys: distinct teams, each present iff some entry has it |
| `DataAnalysis.EntriesOf` | src/components/admin/DataAnalysis.tsx:52-59 | a team's group holds only that team's entries |
| `DataAnalysis.EntriesOfTeamNonEmpty` | src/components/admin/DataAnalysis.tsx:52-59 | every team in the map has at least one entry |
| `DataAnalysis.ClimbCountsSum` | src/components/admin/DataAnalysis.tsx:70-74 | the three climb counts add up to the number of entries |
| `DataAnalysis.RankOf` | src/components/admin/DataAnalysis.tsx:77-85 | no event: no rank; with an event, the rank shown is exactly the team's non-zero status rank, and none otherwise |
| `DataAnalysis.StatsRow` | src/components/admin/DataAnalysis.tsx:64-97 | match count, per-level totals and climb histogram of the team's entries; the histogram sums to the match count |
| `DataAnalysis.GroupByTeam` | src/components/admin/DataAnalysis.tsx:52-59 | the map built entry by entry has exactly the teams, in first-appearance order, each mapped to its entries |
| `DataAnalysis.CalculateTeamStats` | src/components/admin/DataAnalysis.tsx:51-101 | the rows pushed equal `TeamStatsOf`: one row per team, in map order |
| `DataAnalysis.TeamStatsOf` | src/components/admin/DataAnalysis.tsx:51-101 | one row per team, each the `StatsRow` of that team's entries |
| `DataAnalysis.TeamsPartition` | src/components/admin/DataAnalysis.tsx:52-59 | grouping partitions the entries: summing any measure over the groups gives its total |
| `DataAnalysis.TeamStatsPartition` | src/components/admin/DataAnalysis.tsx:51-101 | the match counts add up to the number of entries analysed, and each level's totals to that level's total |
| `DataAnalysis.TeamStatsRows` | src/components/admin/DataAnalysis.tsx:51-101 | every row counts at least one match; the rows' teams are distinct and are exactly the entries' teams |
| `DataAnalysis.NextSort` | src/components/admin/DataAnalysis.tsx:103-110 | the same column flips its order; another column starts descending |
| `DataAnalysis.NextSortInvolution` | src/components/admin/DataAnalysis.tsx:103-110 | clicking the current column twice restores the order |
| `DataAnalysis.FieldValue` | src/components/admin/DataAnalysis.tsx:119-120 | only the rank column can be null |
| `DataAnalysis.Compare` | src/components/admin/DataAnalysis.tsx:118-128 | nulls after every value in both orders; values ascending, or descending for desc |
| `DataAnalysis.RowOrderIsTotalPreorder` | src/components/admin/DataAnalysis.tsx:118-128 | the comparator is a total preorder, so the sorted table is well defined |
| `DataAnalysis.FilterClimb` | src/components/admin/DataAnalysis.tsx:112-117 | "all" keeps every row; otherwise exactly the rows with a positive count for that outcome, each as often as before, in order |
| `DataAnalysis.Displayed` | src/components/admin/DataAnalysis.tsx:112-128 | the table shown is a permutation of the filtered rows |
| `DataAnalysis.DisplayedOrdered` | src/components/admin/DataAnalysis.tsx:112-128 | the shown table has nulls last and values in the chosen order |
| `DataAnalysis.MaxMatchCount` | src/components/admin/DataAnalysis.tsx:285 | the largest match count, reached by some row |
| `DataAnalysis.FirstWithCount` | src/components/admin/DataAnalysis.tsx:288 | the first row with the given match count |
| `DataAnalysis.MostMatches` | src/components/admin/DataAnalysis.tsx:264-288 | for a non-empty table: the largest count and the first shown team that reaches it |
| `DataAnalysis.AnalysisView.constructor` | src/components/admin/DataAnalysis.tsx:28-33 | sorted by total score, descending, all teams, nothing loaded |
| `DataAnalysis.AnalysisView.LoadData` | src/components/admin/DataAnalysis.tsx:39-49 | the selected event's stored entries, and the table computed from them |
| `DataAnalysis.AnalysisView.HandleSort` | src/components/admin/DataAnalysis.tsx:103-110 | the sort state becomes `NextSort` of the old one; nothing else changes |
| `DataAnalysis.AnalysisView.SetClimbFilter` | src/components/admin/DataAnalysis.tsx:32 | only the climb filter changes |

## Left out

- Rendering and styling, except the labels, colours and disabled states that carry logic.
- Asynchronous interleaving. React's batched state updates are modelled as immediate field
  updates, and timers as explicit method calls (`IdleResetFires`, and the auto-sync call in
  `SubmitThenAutoSync*`).
- The network.
  - The spreadsheet POST and its success status are a function parameter `push`.
  - The Blue Alliance fetches are modelled on already-fetched records. A failed, non-OK or
    throwing request is `None`.
  - `getEventRankings` and `sheets.testConnection` are not modelled; the core does not use their
    results.
- JSON serialisation. A stored value reads back as itself. A corrupt stored string, which makes
  `JSON.parse` throw in the source, is not modelled.
- The service-worker registration and the online/offline listeners. Online state is the
  `isOnline` field and a parameter.
- The admin dashboard's tab switching and the match-assignment and event-import screens. They
  only wire the modelled operations together.
- UI-only state openers: `setEditingId`, `setDeleteConfirm` and `setShowAddForm` when opening,
  and the loading spinner.
- Floating point. Averages are exact rationals, and `toFixed` display rounding is not modelled.
- `Text.LowerChar` and `Text.UpperChar`: case mapping covers ASCII letters only, where JavaScript
  maps all of Unicode.
- `BlueAlliance.TeamNumberOfKey`: `parseInt` is modelled in base 10 (leading whitespace, an
  optional sign, the leading digits), with `None` for `NaN`. A `0x` prefix is not modelled.
- `BlueAlliance.EventMatches`: requires every qualification match to carry three parseable team
  keys per alliance. A malformed key would give `NaN` team numbers in the source; the model does
  not represent `NaN`.
- `Application.EntryIdInjective`: stated for non-negative match, team and clock values. The
  identity string of a negative number is not proved injective.
- `ScouterManagement.ScouterPatch`: models the partial updates the edit controls send (alliance,
  position, status). The source's `Partial<AdminScouter>` type also admits id and name changes,
  which no control produces.
- `Sorting.SortBy`: the insertion sort is stable like `Array.prototype.sort`, but stability is not
  proved. Only sortedness and permutation are.
- `Storage.EntryPatch`: `updateScoutingEntry` has no caller in the core. It is modelled and its
  laws are proved, but no handler uses it.

## Findings

| source | as written | input that shows it | evidently intended | confidence | as-written member | corrected member |
|---|---|---|---|---|---|---|
| src/App.tsx:132-135 with 173-174 | the auto-sync scheduled by `handleScoutingSubmit` runs the `syncData` closure of the render before the submission; on success it saves that render's `scoutingData` list (without the new entry) marked synced, overwriting the store | online, store holds `[]`, submit entry E, push succeeds: store ends as `[]` and E is lost | mark synced, in the current stored list, the entries that were pushed; keep every entry | not executed | `Application.App.SubmitThenAutoSyncAsWritten` (with `Application.StaleSnapshotDropsNewEntry`) | `Application.App.SubmitThenAutoSync` (via `Application.App.SyncDataReconciled`, with `Application.ReconcileAfterSubmit`) |
