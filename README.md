# raybet core, modelled in Dafny

raybet is a hockey prediction game. Players join a room, predict match
scores and are ranked on a leaderboard. This project models the parts of it
that make decisions:

- **The match synchronisation job** (`functions/syncMatches/main.js`),
  module `SyncMatches`. The job fetches a league's past-events and
  next-events feeds and merges them into one list with one event per
  `idEvent`. It derives a canonical record from each raw event: the date
  text, the status (`scheduled` / `in_progress` / `completed`), nullable
  scores and the badges. It then upserts every record into the match store
  keyed by `externalId`. An absent record is created. A present one is
  updated only when a tracked field changed, and skipped otherwise. The job
  counts created, updated and skipped records and answers 200 with the
  counters, or 500 with the error message. The store is a class
  `MatchStore` holding a `map<string, MatchDoc>`. The job's loop methods
  (`FillMap` and `MergeFeeds` for the merge, `MatchStore.Pass` and
  `MatchStore.Run` for the store) are proved against the pure specification
  functions `Merged`, `Synced`, `PassSpec` and `RunSpec`.
- **A missing badge is never stored.** The documents travel as JSON, which
  drops a property whose value is `undefined`. A created document therefore
  reads that badge back as null (`Stored`), and an update keeps the badge the
  document had (`Patched`). The next run then compares the stored value with
  `undefined` again, sees a change and rewrites the document. A rerun on
  unchanged feeds is quiet only when every event carries both badges
  (`RerunIsQuiet`); otherwise it counts at least one update
  (`RerunRewritesBadgeless`).
- **The merge follows the code, not its comment.** The comment on line 43
  says past events win a shared id. The code puts past events and then next
  events into a `Map`, so the next event's value wins, at the position where
  the id was first inserted (`NextEventWins`, `PastOrderKept`).
- **The prediction lock rule** (`src/lib/matchUtils.ts`), module
  `MatchUtils`. It also covers the guard the prediction service runs before
  each write. The rule is a predicate over the status, the start instant
  and the current instant, all in milliseconds.
- **The match list** (`src/components/features/matches/MatchList.tsx`),
  module `MatchList`. It covers the prediction index by `matchId`, the
  sorted list of distinct match days, the default day selection (today is a
  parameter), and the matches shown for a day in start order.
- **The leaderboard** (`src/routes/leaderboard.tsx`), module `Leaderboard`.
  It covers the in-place sort by points (on an `array`), the viewer's rank,
  the rank badges and medal labels, and the pinned "you" bar.
- **The match card** (`src/components/features/matches/MatchCard.tsx`),
  module `MatchCard`. It covers the flag URL lookup, the card's own lock
  rule, the offered control, and what "Save Tip" does.
- **The status vocabularies** are kept as the literal strings each file
  uses, and module `StatusVocabulary` states how they meet. The sync job
  writes `scheduled`, `in_progress` and `completed`. The lock rule checks
  `in_progress`, `completed` and `canceled`. The card checks `live` and
  `finished`. As a result, a card showing a synced match never locks.

Supporting modules:

- `Wrappers` holds `Option`.
- `JsValues` holds JavaScript's `undefined`/`null`/string properties,
  truthiness, string order, and decimal parsing and printing.
- `AppTypes` holds the `Match`, `Prediction` and `Profile` records.
- `Sequences` holds two prefix lemmas.

## Model

| member | source | states |
|---|---|---|
| SyncMatches.ResolveLeagueId | functions/syncMatches/main.js:22 | A missing or empty league setting falls back to "4380"; a non-empty one is used as is; the result is never empty |
| SyncMatches.DistinctIds | functions/syncMatches/main.js:45-47 | The Map's key order: every identifier of the events exactly once, no duplicates, no other identifiers |
| SyncMatches.Merged | functions/syncMatches/main.js:40-47 | The merged list has pairwise distinct ids, exactly the ids of the input, and each entry is the last input event with its id |
| SyncMatches.NextEventWins | functions/syncMatches/main.js:46 | For an id carried by the next-events feed, the merged entry is the last next event with it, whatever the past feed holds |
| SyncMatches.PastOrderKept | functions/syncMatches/main.js:46-47 | The key order of the past feed alone is a prefix of the merged key order (first insertion fixes the position) |
| SyncMatches.MapValuesAreMerged | functions/syncMatches/main.js:47 | Reading the filled Map's values in key order gives exactly the reference merge `Merged` |
| SyncMatches.FillMap | functions/syncMatches/main.js:45-46 | After setting every event in order, the keys are the distinct ids in first-insertion order and each entry is the last event with its id |
| SyncMatches.MergeFeeds | functions/syncMatches/main.js:40-47 | Absent `events` count as empty, and the result equals `Merged` of past events followed by next events |
| SyncMatches.EventDate | functions/syncMatches/main.js:61 | The date text is longer than the feed's date text |
| SyncMatches.EventDateParts | functions/syncMatches/main.js:61 | The date text is the feed date, a `T`, then the feed time when it is non-empty, else `00:00:00` |
| SyncMatches.MapStatus | functions/syncMatches/main.js:64-69 | `Match Finished`/`FT` iff `completed`; `Live`/`In Progress` iff `in_progress`; every other value, absent included, iff `scheduled` |
| SyncMatches.ParseScore | functions/syncMatches/main.js:71-72 | The score is null iff the field is missing, null or empty; a parsed score is non-negative |
| SyncMatches.ScoreRoundTrip | functions/syncMatches/main.js:71-72 | A score written as a number's decimal form reads back as that number, so `"0"` gives 0, not null |
| SyncMatches.Derive | functions/syncMatches/main.js:57-75 | The record keeps the id, team names and badges of the event; its status is one of the three sync statuses; its scores are non-negative when present |
| SyncMatches.TrackedChanged | functions/syncMatches/main.js:88-92 | A change is seen iff copying the record's status, scores and badges onto the document would alter it |
| SyncMatches.Stored | functions/syncMatches/main.js:118-129 | A property written on create is never read back as `undefined`; a defined value is stored as it is |
| SyncMatches.Patched | functions/syncMatches/main.js:98-106 | An `undefined` property in an update keeps the document's value; a defined one replaces it |
| SyncMatches.Upserted | functions/syncMatches/main.js:84-132 | Created iff the id is absent; Updated iff present and a tracked field differs; Skipped iff present and none differs; a skip leaves the store as it was; afterwards the document holds the record's status and scores and each badge the record sends, and agrees on every tracked field when the record sends both badges |
| SyncMatches.UpsertFrame | functions/syncMatches/main.js:84-132 | An upsert adds only the record's id, leaves every other document unchanged, keeps documents filed under their own `externalId`, and never leaves an `undefined` team name or badge in a store that had none |
| SyncMatches.UpsertWrites | functions/syncMatches/main.js:94-130 | A create writes every field with the configured league, an `undefined` team name or badge becoming null; an update writes status, scores, date and league, replaces each badge the record sends and keeps the others, and keeps `externalId` and the team names |
| SyncMatches.BadgelessRecordIsRewritten | functions/syncMatches/main.js:88-92 | A record without both badges meets its stored document as a change, so it is always an update |
| SyncMatches.UntrackedChangeSkipped | functions/syncMatches/main.js:88-92 | A record differing from its document only in date or team names is skipped and writes nothing |
| SyncMatches.Tally | functions/syncMatches/main.js:108-131 | Exactly one counter goes up by one, and it is the one of the outcome |
| SyncMatches.Synced | functions/syncMatches/main.js:56-133 | After a pass the three counters sum to the number of events processed |
| SyncMatches.SyncedKeepsKeying | functions/syncMatches/main.js:56-133 | A pass keeps every document filed under its own `externalId`, and leaves no `undefined` team name or badge in a store that had none |
| SyncMatches.SyncedKeys | functions/syncMatches/main.js:56-133 | After a pass the store holds the old documents' ids plus the ids of all processed events, and no others |
| SyncMatches.UpsertAgreement | functions/syncMatches/main.js:84-132 | After an upsert the store agrees with that event, and still agrees with every event of another id it agreed with before |
| SyncMatches.AgreeingUpsertSkips | functions/syncMatches/main.js:88-111 | Upserting an event that carries both badges and that the store already agrees with is a skip that writes nothing |
| SyncMatches.SyncBringsInSync | functions/syncMatches/main.js:56-133 | After a pass over events with distinct ids, every event's document holds its status, its scores and each badge it sends |
| SyncMatches.SyncInSyncIsNoop | functions/syncMatches/main.js:84-111 | A pass over events that carry both badges and that the store agrees with leaves the store unchanged and counts every event as skipped |
| SyncMatches.BadgelessEventUpdates | functions/syncMatches/main.js:56-133 | A pass in which an event without both badges meets an existing document counts at least one update |
| SyncMatches.RunSpec | functions/syncMatches/main.js:35-147 | A failed feed request writes nothing and answers 500; status 500 iff a failure body; status 200 iff a success body, whose counters sum to the size of the merged list |
| SyncMatches.PassSpec | functions/syncMatches/main.js:56-147 | Status 500 iff a failure body; status 200 iff a success body, whose counters sum to the number of merged events |
| SyncMatches.RerunIsQuiet | functions/syncMatches/main.js:51-140 | When every merged event carries both badges, re-running on unchanged feeds against the store the first run left changes nothing and answers created 0, updated 0, skipped = every merged event |
| SyncMatches.RerunRewritesBadgeless | functions/syncMatches/main.js:51-140 | When some merged event lacks a badge, re-running on unchanged feeds against the store the first run left answers with at least one update |
| SyncMatches.MatchStore.Upsert | functions/syncMatches/main.js:77-132 | The new store and the outcome are those of `Upserted`; documents stay keyed by `externalId` and free of `undefined` team names and badges |
| SyncMatches.MatchStore.Count | functions/syncMatches/main.js:108-131 | The counters after one outcome are those of `Tally` |
| SyncMatches.MatchStore.Pass | functions/syncMatches/main.js:56-147 | The loop leaves the store and answers as `PassSpec` says: every write before a failing store call is kept |
| SyncMatches.MatchStore.Run | functions/syncMatches/main.js:9-149 | One invocation leaves the store and answers exactly as `RunSpec` says for the resolved league |
| MatchUtils.IsMatchLocked | src/lib/matchUtils.ts:3-18 | The statuses `in_progress`, `completed` and `canceled` lock; any other status locks iff the start is less than 120000 ms from now |
| MatchUtils.OpenAtExactlyTwoMinutes | src/lib/matchUtils.ts:17 | A match starting exactly two minutes from now with a non-locking status is open, because the comparison is strict |
| MatchUtils.LockedOnceStarted | src/lib/matchUtils.ts:14-17 | A match whose start is at or before now is locked |
| MatchUtils.LockIsMonotonic | src/lib/matchUtils.ts:14-17 | A locked match stays locked at every later instant |
| MatchUtils.CheckPredictionWrite | src/lib/appwrite/services/predictionService.ts:15-17 | A write is allowed iff the status does not lock and the start is at least two minutes away; a rejection carries the service's message |
| MatchList.LastIndexFor | src/components/features/matches/MatchList.tsx:30-31 | -1 iff no prediction has the match id, else the last position holding it |
| MatchList.IndexPredictions | src/components/features/matches/MatchList.tsx:30-31 | A match id is a key iff some prediction has it, and it maps to the last such prediction in the list |
| MatchList.RecordSaved | src/components/features/matches/MatchList.tsx:108 | A saved prediction is stored under its match id, the key set gains only that id, and every other entry is unchanged |
| MatchList.DayOf | src/components/features/matches/MatchList.tsx:34 | The day is a prefix of the date with no `T`, followed in the date by a `T` when it is shorter than the date |
| MatchList.InsertDay | src/components/features/matches/MatchList.tsx:34 | Adding a day to a strictly sorted list keeps it strictly sorted, with exactly the old days plus the new one |
| MatchList.UniqueDays | src/components/features/matches/MatchList.tsx:34 | The day list is strictly ascending in string order and holds exactly the days of the matches |
| MatchList.SortedListIsUnique | src/components/features/matches/MatchList.tsx:34 | Two strictly sorted lists with the same elements are equal, so the day list is determined by the set of days |
| MatchList.AtOrAfter | src/components/features/matches/MatchList.tsx:41 | The filter keeps exactly the days not before today, and keeps the list sorted |
| MatchList.SelectDay | src/components/features/matches/MatchList.tsx:37-44 | Today is selected when it is a match day; with days the selection is one of them; with none the selection is left as it was; when every day is before today the first day is selected |
| MatchList.SelectsNearestDay | src/components/features/matches/MatchList.tsx:40-43 | On a sorted list without today: the least day after today is selected when there is one, else the least day |
| MatchList.SelectedDayIsAMatchDay | src/components/features/matches/MatchList.tsx:38-43 | With matches, the selected day is the day of one of them |
| MatchList.OnDay | src/components/features/matches/MatchList.tsx:57 | Each match occurs in the result as often as in the input if its date starts with the day, else not at all |
| MatchList.InsertByStart | src/components/features/matches/MatchList.tsx:58 | Inserting into a list sorted by start keeps it sorted and adds exactly that match |
| MatchList.SortByStart | src/components/features/matches/MatchList.tsx:58 | The result is ordered by start time, is a permutation of the input, and keeps matches with the same start in their input order (stable) |
| MatchList.DayAndStartCommute | src/components/features/matches/MatchList.tsx:56-58 | Filtering by day and picking the matches of one start, in either order, give the same list |
| MatchList.InsertGoesFirstAmongEqual | src/components/features/matches/MatchList.tsx:58 | Inserting a match before its equals keeps the matches of every start in order, with the new one first among its own start |
| MatchList.StableSortIsUnique | src/components/features/matches/MatchList.tsx:58 | Two lists sorted by start that list the matches of every start in the same order are equal, so the stable sort's result is determined |
| MatchList.ShownMatches | src/components/features/matches/MatchList.tsx:56-58 | The shown matches are exactly those whose date starts with the selected day, with their multiplicities, ordered by start time, and matches with the same start keep their order in the list |
| Leaderboard.SortByPoints | src/routes/leaderboard.tsx:25 | The array afterwards is in non-increasing points order and is a permutation of the fetched profiles |
| Leaderboard.MoveIntoPlace | src/routes/leaderboard.tsx:25 | One insertion step grows the sorted prefix by one element and keeps the array a permutation |
| Leaderboard.FindIndex | src/routes/leaderboard.tsx:53 | -1 iff no profile has the user id; otherwise the first position holding it |
| Leaderboard.UserRank | src/routes/leaderboard.tsx:53-54 | The rank is `-` iff the user is absent; otherwise it is one more than the position of the user's first profile |
| Leaderboard.RankBadge | src/routes/leaderboard.tsx:57-62 | Rank 1 gets the crown, 2 the silver medal and 3 the bronze medal, each iff; any other rank is shown as its number |
| Leaderboard.Rows | src/routes/leaderboard.tsx:77-79 | One row per profile, in order |
| Leaderboard.RowAt | src/routes/leaderboard.tsx:78-130 | The row at position k has rank k+1, the rank badge of k+1, is the viewer's iff the user ids match, and has Gold, Silver or Bronze iff k is 0, 1 or 2 and the row is not the viewer's |
| Leaderboard.RowsLabelTopThree | src/routes/leaderboard.tsx:78-130 | Row k has rank k+1; no medal appears on two rows; only the first row has the crown; the viewer's rows never have a medal |
| Leaderboard.RanksFollowPoints | src/routes/leaderboard.tsx:25-78 | On the sorted board a better rank never has fewer points |
| Leaderboard.ShowPinnedBar | src/routes/leaderboard.tsx:146 | The bar is shown iff the viewer has no profile on the board or their first profile is at position five or later |
| Leaderboard.PinnedBarWhenOutsideTopFive | src/routes/leaderboard.tsx:146 | The pinned bar is shown iff the viewer's rank is `-` or worse than fifth |
| MatchCard.FlagCode | src/components/features/matches/MatchCard.tsx:21-25 | A listed team gets its code and any other name `xx`; the code has two letters |
| MatchCard.FlagUrl | src/components/features/matches/MatchCard.tsx:26 | The URL is the flag service's base address, the team's code and `.png` |
| MatchCard.FlagUrlsTellTeamsApart | src/components/features/matches/MatchCard.tsx:21-26 | A listed team's flag URL differs from the URL of every other name |
| MatchCard.OnlyListedTeamsHaveFlags | src/components/features/matches/MatchCard.tsx:21-25 | A name gets a code other than `xx` iff it is one of the eight listed names |
| MatchCard.CardLocked | src/components/features/matches/MatchCard.tsx:38-40 | The card is locked iff the status is `live` or `finished` |
| MatchCard.ActionControl | src/components/features/matches/MatchCard.tsx:148-171 | No control iff locked; Save Tip iff open and editing; otherwise Edit Prediction iff a prediction exists, else Make Prediction |
| MatchCard.InitialInput | src/components/features/matches/MatchCard.tsx:33-34 | An input starts empty iff there is no prediction |
| MatchCard.HandleSave | src/components/features/matches/MatchCard.tsx:50-61 | Nothing happens iff an input is empty or no user is signed in; otherwise it updates the existing prediction iff there is one, else it creates one for this match and user, with the parsed scores |
| MatchCard.SaveUnchangedRewritesPrediction | src/components/features/matches/MatchCard.tsx:33-58 | Saving inputs as they were filled from a prediction writes that prediction's scores back to it |
| MatchCard.FirstSaveCreates | src/components/features/matches/MatchCard.tsx:57-60 | A first save by a signed-in user creates a prediction for this match with the typed scores |
| StatusVocabulary.SyncedCardsNeverLock | functions/syncMatches/main.js:64-69 | After a sync pass every event's document has a sync status, and the card's lock check rejects each of them |
| StatusVocabulary.GuardAndCardDisagree | src/lib/matchUtils.ts:5-7 | A match the sync marks completed or in progress is closed by the service guard, while its card still offers Make Prediction |
| StatusVocabulary.SyncedDateDay | src/components/features/matches/MatchList.tsx:34 | The match list files a synced match under the feed's `dateEvent`, provided it holds no `T` |
| JsValues.ParseDecimalString | src/components/features/matches/MatchCard.tsx:53-54 | Parsing a number's decimal form gives the number back |

## Left out

- The feed requests: the two HTTP calls and their `Promise.all` concurrency
  are inputs (`FeedResponse`). When both fail, the model answers with the
  next feed's message; which rejection comes first is not modelled.
- The document store SDK: `listDocuments`, `createDocument` and
  `updateDocument` become a map keyed by `externalId`. Generated document
  ids (`$id`, `ID.unique()`) are not modelled.
- Store errors: an error thrown by a store call is the `StoreFault`
  parameter, which names the index of the failing event.
- The store's treatment of `undefined`: the documents sent to the store are
  taken to be serialised as JSON, so an `undefined` property is dropped. On
  create it reads back as null, and on update it leaves the stored value as
  it was. The store's own code is not part of this model.
- Event ids are strings. An event without an `idEvent` cannot be
  represented.
- Scores: `parseInt` is modelled on decimal digit strings only. Whitespace,
  signs, partial digits and `NaN` are not modelled. Prediction scores are
  non-negative integers.
- Dates: parsing and formatting (`new Date`, `getTime`, `toISOString`,
  `toLocaleTimeString`) are not modelled. A match's start is an integer
  millisecond timestamp (`startMs`), and "now" and "today" are parameters.
- MatchUtils.IsMatchLocked: the floating-point division of the source is
  modelled as exact real division. Invalid dates (`NaN`) are not modelled.
- MatchCard.FlagCode: the lookup does not model inherited `Object.prototype`
  keys such as `toString`.
- Leaderboard.SortByPoints: does not state that the sort is stable, which
  JavaScript's `Array.prototype.sort` guarantees.
- Leaderboard.Rows: the avatar cell (the image, or the nickname's first two
  letters in upper case when there is none), the nickname and the points are
  presentation only and are left out.
- The sync job's execution log (its `log` and `error` calls) is not
  modelled. No modelled behaviour depends on it.
- React state: setters, loading flags, `isSaving`, effects and rendering
  are left out, apart from the values that decide what is shown.
- Scoring: recalculating points is not part of these files.
- Network and SDK failures while saving a prediction are left out (they are
  only logged). The rest of the prediction service and the other services
  are thin SDK wrappers.
