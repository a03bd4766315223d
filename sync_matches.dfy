/** The match synchronisation job (functions/syncMatches/main.js): it merges
    the league's past-events and next-events feeds into one list with one
    event per `idEvent`, derives a canonical record from each raw event, and
    upserts the records into the match store keyed by `externalId`, counting
    created, updated and skipped records. */
module SyncMatches {
  import opened Wrappers
  import opened JsValues
  import opened Sequences

  // ---------------------------------------------------------------------------
  // Configuration and constants
  // ---------------------------------------------------------------------------

  /** The league used when no league is configured (NHL). */
  const DefaultLeagueId: string := "4380"

  /** The status vocabulary the job writes. */
  const Scheduled: string := "scheduled"
  const InProgress: string := "in_progress"
  const Completed: string := "completed"

  /** The time of day used when an event carries none. */
  const DefaultTime: string := "00:00:00"

  /** `process.env.THESPORTSDB_LEAGUE_ID || DEFAULT_LEAGUE_ID`: a missing or
      empty setting falls back to the default league. */
  function ResolveLeagueId(setting: Option<string>): (leagueId: string)
    ensures leagueId != ""
    ensures setting.Some? && setting.value != "" ==> leagueId == setting.value
    ensures setting.None? || setting.value == "" ==> leagueId == DefaultLeagueId
  {
    if setting.Some? && setting.value != "" then setting.value else DefaultLeagueId
  }

  // ---------------------------------------------------------------------------
  // Feed data
  // ---------------------------------------------------------------------------

  /** A score property of a raw event: absent, `null`, or a digit string
      (the empty string included). */
  datatype ScoreField = ScoreUndefined | ScoreNull | ScoreText(text: DigitString)

  /** One event object of the feed, with the properties the job reads. */
  datatype RawEvent = RawEvent(
    idEvent: string,
    strHomeTeam: Val,
    strAwayTeam: Val,
    dateEvent: Val,
    strTime: Val,
    strStatus: Val,
    intHomeScore: ScoreField,
    intAwayScore: ScoreField,
    strHomeTeamBadge: Val,
    strAwayTeamBadge: Val)

  /** The outcome of one feed request: its `data.events` property (absent or
      `null` when the feed has no events), or the error the request raised. */
  datatype FeedResponse = Fetched(events: Option<seq<RawEvent>>) | FetchFailed(message: string)

  /** The identifiers occurring in a list of events. */
  function IdSet(events: seq<RawEvent>): set<string> {
    set e | e in events :: e.idEvent
  }

  predicate DistinctEventIds(events: seq<RawEvent>) {
    forall i, j :: 0 <= i < j < |events| ==> events[i].idEvent != events[j].idEvent
  }

  // ---------------------------------------------------------------------------
  // Merging the two feeds
  // ---------------------------------------------------------------------------

  /** The identifiers of `events`, each once, in order of first occurrence:
      the key order of a JavaScript `Map` filled by `set` in list order. */
  function DistinctIds(events: seq<RawEvent>): (ids: seq<string>)
    ensures forall i, j :: 0 <= i < j < |ids| ==> ids[i] != ids[j]
    ensures forall id :: id in ids <==> id in IdSet(events)
    ensures |ids| <= |events|
    decreases |events|
  {
    if |events| == 0 then []
    else
      var init := events[..|events| - 1];
      var id := events[|events| - 1].idEvent;
      assert events == init + [events[|events| - 1]];
      var ids := DistinctIds(init);
      if id in ids then ids else ids + [id]
  }

  /** The position of the last event with identifier `id`. */
  function LastIndexWithId(events: seq<RawEvent>, id: string): (i: nat)
    requires id in IdSet(events)
    ensures i < |events| && events[i].idEvent == id
    ensures forall j :: i < j < |events| ==> events[j].idEvent != id
    decreases |events|
  {
    var last := |events| - 1;
    if events[last].idEvent == id then last
    else
      assert events == events[..last] + [events[last]];
      LastIndexWithId(events[..last], id)
  }

  /** The merged event list: one event per identifier, in order of first
      occurrence, each being the last event in `events` with that identifier. */
  function Merged(events: seq<RawEvent>): (all: seq<RawEvent>)
    ensures |all| <= |events|
    ensures DistinctEventIds(all)
    ensures IdSet(all) == IdSet(events)
    ensures forall k :: 0 <= k < |all| ==> all[k] == events[LastIndexWithId(events, all[k].idEvent)]
  {
    var ids := DistinctIds(events);
    var all := seq(|ids|, k requires 0 <= k < |ids| => events[LastIndexWithId(events, ids[k])]);
    assert forall k :: 0 <= k < |all| ==> all[k].idEvent == ids[k];
    assert IdSet(all) == IdSet(events) by {
      forall id | id in IdSet(events) ensures id in IdSet(all) {
        var k :| 0 <= k < |ids| && ids[k] == id;
        assert all[k] in all;
      }
    }
    all
  }

  /** For an identifier that the next-events feed carries, the merged entry
      is the last such next event, whatever the past-events feed says. */
  lemma NextEventWins(past: seq<RawEvent>, next: seq<RawEvent>, id: string)
    requires id in IdSet(next)
    ensures id in IdSet(past + next)
    ensures (past + next)[LastIndexWithId(past + next, id)] == next[LastIndexWithId(next, id)]
  {
    var n := LastIndexWithId(next, id);
    assert (past + next)[|past| + n] == next[n];
  }

  /** An identifier first seen in the past-events feed keeps the position of
      its first insertion: the past feed's key order is a prefix of the
      merged key order. */
  lemma {:induction false} PastOrderKept(past: seq<RawEvent>, next: seq<RawEvent>)
    ensures |DistinctIds(past)| <= |DistinctIds(past + next)|
    ensures DistinctIds(past + next)[..|DistinctIds(past)|] == DistinctIds(past)
    decreases |next|
  {
    if |next| > 0 {
      var init := next[..|next| - 1];
      assert (past + next)[..|past + next| - 1] == past + init;
      PastOrderKept(past, init);
    } else {
      assert past + next == past;
    }
  }

  /** A JavaScript `Map` from identifier to event that holds, for every
      identifier in `seen`, the last event in `seen` with that identifier. */
  predicate HoldsLastEvents(entries: map<string, RawEvent>, seen: seq<RawEvent>) {
    && entries.Keys == IdSet(seen)
    && forall id :: id in entries ==> entries[id] == seen[LastIndexWithId(seen, id)]
  }

  /** The last occurrences in a list one event longer. */
  lemma LastIndexStep(events: seq<RawEvent>, i: nat)
    requires i < |events|
    ensures IdSet(events[..i + 1]) == IdSet(events[..i]) + {events[i].idEvent}
    ensures forall id :: id in IdSet(events[..i]) && id != events[i].idEvent ==>
      LastIndexWithId(events[..i + 1], id) == LastIndexWithId(events[..i], id)
  {
    PrefixExtend(events, i);
  }

  /** `map.set(events[i].idEvent, …)`: the key order gains the identifier
      only when the map does not have it yet. */
  lemma KeysStep(keys: seq<string>, entries: map<string, RawEvent>, events: seq<RawEvent>, i: nat)
    requires i < |events| && keys == DistinctIds(events[..i]) && entries.Keys == IdSet(events[..i])
    ensures DistinctIds(events[..i + 1]) ==
      if events[i].idEvent in entries then keys else keys + [events[i].idEvent]
  {
    PrefixExtend(events, i);
  }

  /** `map.set(events[i].idEvent, events[i])`: the entries now hold the last
      events of one more list element. */
  lemma EntriesStep(entries: map<string, RawEvent>, events: seq<RawEvent>, i: nat)
    requires i < |events| && HoldsLastEvents(entries, events[..i])
    ensures HoldsLastEvents(entries[events[i].idEvent := events[i]], events[..i + 1])
  {
    var (seen, s, evt) := (events[..i], events[..i + 1], events[i]);
    LastIndexStep(events, i);
    var entries' := entries[evt.idEvent := evt];
    forall id | id in entries' ensures entries'[id] == s[LastIndexWithId(s, id)] {
      if id != evt.idEvent {
        var k := LastIndexWithId(seen, id);
        assert s[k] == seen[k];
      }
    }
  }

  /** The JavaScript `Map` after `set` was called for the first `i` events:
      its keys in insertion order and its entries. */
  predicate MapAfter(keys: seq<string>, entries: map<string, RawEvent>, events: seq<RawEvent>, i: nat)
    requires i <= |events|
  {
    keys == DistinctIds(events[..i]) && HoldsLastEvents(entries, events[..i])
  }

  /** One more `map.set(evt.idEvent, evt)`. */
  lemma MapAfterStep(keys: seq<string>, entries: map<string, RawEvent>, events: seq<RawEvent>, i: nat)
    requires i < |events| && MapAfter(keys, entries, events, i)
    ensures MapAfter(if events[i].idEvent in entries then keys else keys + [events[i].idEvent],
                     entries[events[i].idEvent := events[i]], events, i + 1)
  {
    KeysStep(keys, entries, events, i);
    EntriesStep(entries, events, i);
  }

  /** `Array.from(map.values())` once every event is in the map. */
  lemma MapValuesAreMerged(keys: seq<string>, entries: map<string, RawEvent>, events: seq<RawEvent>)
    requires MapAfter(keys, entries, events, |events|)
    ensures forall k :: 0 <= k < |keys| ==> keys[k] in entries
    ensures seq(|keys|, k requires 0 <= k < |keys| => entries[keys[k]]) == Merged(events)
  {
    assert events[..|events|] == events;
  }

  /** Lines 45-47: `map.set(evt.idEvent, evt)` for every event in order. */
  method FillMap(events: seq<RawEvent>) returns (keys: seq<string>, entries: map<string, RawEvent>)
    ensures MapAfter(keys, entries, events, |events|)
  {
    keys, entries := [], map[];
    var i := 0;
    while i < |events|
      invariant 0 <= i <= |events|
      invariant MapAfter(keys, entries, events, i)
    {
      var evt := events[i];
      MapAfterStep(keys, entries, events, i);
      ghost var keys' := if evt.idEvent in entries then keys else keys + [evt.idEvent];
      if evt.idEvent !in entries {
        keys := keys + [evt.idEvent];
      }
      assert keys == keys';
      entries := entries[evt.idEvent := evt];
      i := i + 1;
    }
  }

  /** Lines 40-47: a missing `events` array counts as empty; the past events
      and then the next events are put into a `Map` keyed by `idEvent`, and
      the merged list is the map's values in key order. */
  method MergeFeeds(nextEvents: Option<seq<RawEvent>>, pastEvents: Option<seq<RawEvent>>)
    returns (all: seq<RawEvent>)
    ensures all == Merged(pastEvents.GetOr([]) + nextEvents.GetOr([]))
  {
    var events := pastEvents.GetOr([]) + nextEvents.GetOr([]);
    var keys, entries := FillMap(events);
    MapValuesAreMerged(keys, entries, events);
    all := seq(|keys|, k requires 0 <= k < |keys| => entries[keys[k]]);
  }

  // ---------------------------------------------------------------------------
  // Deriving the canonical record
  // ---------------------------------------------------------------------------

  /** Line 61: the event's date, a `T`, and its time, or midnight when the
      time is missing or empty. */
  function EventDate(dateEvent: Val, strTime: Val): (date: string)
    ensures |date| > |ToJsString(dateEvent)|
  {
    ToJsString(dateEvent) + "T" + ToJsString(if Truthy(strTime) then strTime else Str(DefaultTime))
  }

  /** The derived date reads back as the feed's date, a `T`, and the feed's
      time when it is non-empty, midnight otherwise. */
  lemma EventDateParts(dateEvent: Val, strTime: Val)
    ensures var (date, d) := (EventDate(dateEvent, strTime), ToJsString(dateEvent));
      && date[..|d|] == d
      && date[|d|] == 'T'
      && date[|d| + 1..] == (if Truthy(strTime) then strTime.s else DefaultTime)
  {
  }

  /** Lines 64-69: the feed's status vocabulary mapped onto the job's. */
  function MapStatus(strStatus: Val): (status: string)
    ensures status == Completed <==> strStatus == Str("Match Finished") || strStatus == Str("FT")
    ensures status == InProgress <==> strStatus == Str("Live") || strStatus == Str("In Progress")
    ensures status == Scheduled <==>
      strStatus !in {Str("Match Finished"), Str("FT"), Str("Live"), Str("In Progress")}
  {
    if strStatus == Str("Match Finished") || strStatus == Str("FT") then Completed
    else if strStatus == Str("Live") || strStatus == Str("In Progress") then InProgress
    else Scheduled
  }

  /** Lines 71-72: a falsy score property gives `null`, any other is parsed. */
  function ParseScore(field: ScoreField): (score: Option<int>)
    ensures score.None? <==> field.ScoreUndefined? || field.ScoreNull? || field.text == ""
    ensures score.Some? ==> score.value >= 0
  {
    match field
    case ScoreText(text) => if text != "" then Some(ParseDecimal(text)) else None
    case _ => None
  }

  /** A feed score written as a number's decimal form is read back as that
      number; in particular `"0"` gives 0, not `null`. */
  lemma ScoreRoundTrip(n: nat)
    ensures ParseScore(ScoreText(DecimalString(n))) == Some(n)
  {
    ParseDecimalString(n);
  }

  /** The canonical record derived from one raw event (lines 57-75). */
  datatype CanonicalEvent = CanonicalEvent(
    externalId: string,
    homeTeam: Val,
    awayTeam: Val,
    date: string,
    status: string,
    homeScore: Option<int>,
    awayScore: Option<int>,
    homeTeamBadge: Val,
    awayTeamBadge: Val)

  function Derive(e: RawEvent): (c: CanonicalEvent)
    ensures c.externalId == e.idEvent
    ensures c.homeTeam == e.strHomeTeam && c.awayTeam == e.strAwayTeam
    ensures c.homeTeamBadge == e.strHomeTeamBadge && c.awayTeamBadge == e.strAwayTeamBadge
    ensures c.status in {Scheduled, InProgress, Completed}
    ensures c.homeScore.Some? ==> c.homeScore.value >= 0
    ensures c.awayScore.Some? ==> c.awayScore.value >= 0
  {
    CanonicalEvent(
      e.idEvent,
      e.strHomeTeam,
      e.strAwayTeam,
      EventDate(e.dateEvent, e.strTime),
      MapStatus(e.strStatus),
      ParseScore(e.intHomeScore),
      ParseScore(e.intAwayScore),
      e.strHomeTeamBadge,
      e.strAwayTeamBadge)
  }

  // ---------------------------------------------------------------------------
  // The match store and the upsert of one record
  // ---------------------------------------------------------------------------

  /** A stored match document. */
  datatype MatchDoc = MatchDoc(
    externalId: string,
    homeTeam: Val,
    awayTeam: Val,
    date: string,
    status: string,
    homeScore: Option<int>,
    awayScore: Option<int>,
    leagueId: string,
    homeTeamBadge: Val,
    awayTeamBadge: Val)

  /** Every document is filed under its own `externalId`. */
  predicate KeyedByExternalId(docs: map<string, MatchDoc>) {
    forall k :: k in docs ==> docs[k].externalId == k
  }

  /** A document travels to the store as JSON, which has no `undefined`: no
      stored document holds one. */
  predicate NoUndefinedFields(docs: map<string, MatchDoc>) {
    forall k :: k in docs ==>
      && docs[k].homeTeam != Undefined && docs[k].awayTeam != Undefined
      && docs[k].homeTeamBadge != Undefined && docs[k].awayTeamBadge != Undefined
  }

  /** Lines 118-129: what a created document holds in a property. An
      `undefined` property is dropped from the JSON payload, and the store
      reads the missing attribute back as `null`. */
  function Stored(v: Val): (r: Val)
    ensures r != Undefined
    ensures v != Undefined ==> r == v
  {
    if v == Undefined then Null else v
  }

  /** Lines 98-106: what an update leaves in a property. A dropped
      (`undefined`) property keeps the value the document had. */
  function Patched(prev: Val, v: Val): (r: Val)
    ensures v != Undefined ==> r == v
    ensures v == Undefined ==> r == prev
  {
    if v == Undefined then prev else v
  }

  /** Lines 88-92: the fields whose change triggers an update. They have
      changed exactly when writing the record's status, scores and badges
      over the document would alter it. */
  function TrackedChanged(doc: MatchDoc, c: CanonicalEvent): (changed: bool)
    ensures changed <==>
      doc.(status := c.status, homeScore := c.homeScore, awayScore := c.awayScore,
           homeTeamBadge := c.homeTeamBadge, awayTeamBadge := c.awayTeamBadge) != doc
  {
    || doc.status != c.status
    || doc.homeScore != c.homeScore
    || doc.awayScore != c.awayScore
    || doc.homeTeamBadge != c.homeTeamBadge
    || doc.awayTeamBadge != c.awayTeamBadge
  }

  /** The record carries both badges (neither property is `undefined`). */
  predicate HasBadges(c: CanonicalEvent) {
    c.homeTeamBadge != Undefined && c.awayTeamBadge != Undefined
  }

  /** The document holds what the record sends: its status, its scores and
      each badge the record carries. */
  predicate Holds(doc: MatchDoc, c: CanonicalEvent) {
    && doc.status == c.status && doc.homeScore == c.homeScore && doc.awayScore == c.awayScore
    && (c.homeTeamBadge != Undefined ==> doc.homeTeamBadge == c.homeTeamBadge)
    && (c.awayTeamBadge != Undefined ==> doc.awayTeamBadge == c.awayTeamBadge)
  }

  datatype Outcome = Created | Updated | Skipped

  datatype UpsertResult = UpsertResult(docs: map<string, MatchDoc>, outcome: Outcome)

  /** Lines 77-132 for one record: create it when no document has its
      `externalId`; otherwise update the document when a tracked field
      differs, and skip it when none does. */
  function Upserted(docs: map<string, MatchDoc>, c: CanonicalEvent, leagueId: string): (r: UpsertResult)
    ensures r.outcome == Created <==> c.externalId !in docs
    ensures r.outcome == Updated <==> c.externalId in docs && TrackedChanged(docs[c.externalId], c)
    ensures r.outcome == Skipped <==> c.externalId in docs && !TrackedChanged(docs[c.externalId], c)
    ensures r.outcome == Skipped ==> r.docs == docs
    // afterwards the stored document holds what the record sends, and it
    // agrees with the record on every tracked field when both badges are sent
    ensures c.externalId in r.docs && Holds(r.docs[c.externalId], c)
    ensures HasBadges(c) ==> !TrackedChanged(r.docs[c.externalId], c)
  {
    var id := c.externalId;
    if id in docs then
      var doc := docs[id];
      if TrackedChanged(doc, c) then
        var updated := doc.(
          status := c.status,
          homeScore := c.homeScore,
          awayScore := c.awayScore,
          date := c.date,
          leagueId := leagueId,
          homeTeamBadge := Patched(doc.homeTeamBadge, c.homeTeamBadge),
          awayTeamBadge := Patched(doc.awayTeamBadge, c.awayTeamBadge));
        UpsertResult(docs[id := updated], Updated)
      else
        UpsertResult(docs, Skipped)
    else
      var created := MatchDoc(
        id, Stored(c.homeTeam), Stored(c.awayTeam), c.date, c.status,
        c.homeScore, c.awayScore, leagueId, Stored(c.homeTeamBadge), Stored(c.awayTeamBadge));
      UpsertResult(docs[id := created], Created)
  }

  /** Only the record's own document is touched, it is filed under its own
      identifier, and it holds no `undefined`. */
  lemma UpsertFrame(docs: map<string, MatchDoc>, c: CanonicalEvent, leagueId: string)
    ensures var r := Upserted(docs, c, leagueId);
      && r.docs.Keys == docs.Keys + {c.externalId}
      && (forall k :: k in docs && k != c.externalId ==> r.docs[k] == docs[k])
      && (KeyedByExternalId(docs) ==> KeyedByExternalId(r.docs))
      && (NoUndefinedFields(docs) ==> NoUndefinedFields(r.docs))
  {
  }

  /** What a write stores: a create writes every field of the record with
      the configured league, `undefined` ones as `null`; an update rewrites
      status, scores, date, league and the badges the record carries, and
      keeps the identifier, the team names and a badge the record lacks. */
  lemma UpsertWrites(docs: map<string, MatchDoc>, c: CanonicalEvent, leagueId: string)
    ensures var (r, id) := (Upserted(docs, c, leagueId), c.externalId);
      && (r.outcome == Created ==>
            r.docs[id] == MatchDoc(id, Stored(c.homeTeam), Stored(c.awayTeam), c.date, c.status,
                                   c.homeScore, c.awayScore, leagueId,
                                   Stored(c.homeTeamBadge), Stored(c.awayTeamBadge)))
      && (r.outcome == Updated ==>
            var (d, d0) := (r.docs[id], docs[id]);
            && d.externalId == d0.externalId && d.homeTeam == d0.homeTeam && d.awayTeam == d0.awayTeam
            && d.date == c.date && d.leagueId == leagueId
            && d.status == c.status && d.homeScore == c.homeScore && d.awayScore == c.awayScore
            && d.homeTeamBadge == Patched(d0.homeTeamBadge, c.homeTeamBadge)
            && d.awayTeamBadge == Patched(d0.awayTeamBadge, c.awayTeamBadge))
  {
  }

  /** A record without a badge never settles: the store holds no
      `undefined`, so the comparison on lines 91-92 always finds a change,
      and an existing document is updated again on every run. */
  lemma BadgelessRecordIsRewritten(docs: map<string, MatchDoc>, c: CanonicalEvent, leagueId: string)
    requires NoUndefinedFields(docs) && c.externalId in docs && !HasBadges(c)
    ensures Upserted(docs, c, leagueId).outcome == Updated
  {
  }

  /** A record that differs from its document only in date or team names is
      skipped: those fields are not compared. */
  lemma UntrackedChangeSkipped(docs: map<string, MatchDoc>, c: CanonicalEvent, leagueId: string)
    requires c.externalId in docs
    requires var d := docs[c.externalId];
      && d.status == c.status && d.homeScore == c.homeScore && d.awayScore == c.awayScore
      && d.homeTeamBadge == c.homeTeamBadge && d.awayTeamBadge == c.awayTeamBadge
    ensures Upserted(docs, c, leagueId) == UpsertResult(docs, Skipped)
  {
  }

  // ---------------------------------------------------------------------------
  // The whole pass
  // ---------------------------------------------------------------------------

  datatype Stats = Stats(created: nat, updated: nat, skipped: nat)

  datatype SyncState = SyncState(docs: map<string, MatchDoc>, stats: Stats)

  /** The counters after one more upsert: exactly one of them goes up. */
  function Tally(stats: Stats, outcome: Outcome): (r: Stats)
    ensures r.created + r.updated + r.skipped == stats.created + stats.updated + stats.skipped + 1
    ensures r.created >= stats.created && r.updated >= stats.updated && r.skipped >= stats.skipped
    ensures outcome == Created <==> r.created > stats.created
    ensures outcome == Updated <==> r.updated > stats.updated
  {
    match outcome
    case Created => stats.(created := stats.created + 1)
    case Updated => stats.(updated := stats.updated + 1)
    case Skipped => stats.(skipped := stats.skipped + 1)
  }

  /** The store and the counters after upserting `events` in order. */
  function Synced(docs: map<string, MatchDoc>, events: seq<RawEvent>, leagueId: string): (r: SyncState)
    ensures r.stats.created + r.stats.updated + r.stats.skipped == |events|
    decreases |events|
  {
    if |events| == 0 then SyncState(docs, Stats(0, 0, 0))
    else
      var init := events[..|events| - 1];
      var prev := Synced(docs, init, leagueId);
      var u := Upserted(prev.docs, Derive(events[|events| - 1]), leagueId);
      SyncState(u.docs, Tally(prev.stats, u.outcome))
  }

  /** The pass over one more event, given the state before it and the
      upsert of that event. */
  lemma SyncedStep(docs: map<string, MatchDoc>, events: seq<RawEvent>, i: nat, leagueId: string,
                   before: SyncState, u: UpsertResult)
    requires i < |events|
    requires Synced(docs, events[..i], leagueId) == before
    requires u == Upserted(before.docs, Derive(events[i]), leagueId)
    ensures Synced(docs, events[..i + 1], leagueId) == SyncState(u.docs, Tally(before.stats, u.outcome))
  {
    SyncedExtend(docs, events, i, leagueId);
  }

  /** A pass keeps every document filed under its own identifier, and
      brings in no `undefined`. */
  lemma {:induction false} SyncedKeepsKeying(docs: map<string, MatchDoc>, events: seq<RawEvent>, leagueId: string)
    ensures KeyedByExternalId(docs) ==> KeyedByExternalId(Synced(docs, events, leagueId).docs)
    ensures NoUndefinedFields(docs) ==> NoUndefinedFields(Synced(docs, events, leagueId).docs)
    decreases |events|
  {
    if |events| > 0 {
      var init := events[..|events| - 1];
      SyncedKeepsKeying(docs, init, leagueId);
      UpsertFrame(Synced(docs, init, leagueId).docs, Derive(events[|events| - 1]), leagueId);
    }
  }

  /** The pass over one more event of `events`. */
  lemma SyncedExtend(docs: map<string, MatchDoc>, events: seq<RawEvent>, i: nat, leagueId: string)
    requires i < |events|
    ensures Synced(docs, events[..i + 1], leagueId) ==
      var prev := Synced(docs, events[..i], leagueId);
      var u := Upserted(prev.docs, Derive(events[i]), leagueId);
      SyncState(u.docs, Tally(prev.stats, u.outcome))
  {
    PrefixExtend(events, i);
  }

  /** The identifiers of a list are those of all but its last event, and
      the last event's. */
  lemma IdSetSnoc(events: seq<RawEvent>)
    requires |events| > 0
    ensures IdSet(events) == IdSet(events[..|events| - 1]) + {events[|events| - 1].idEvent}
  {
    assert events == events[..|events| - 1] + [events[|events| - 1]];
  }

  /** The pass over a non-empty list ends with the upsert of its last event. */
  lemma SyncedLast(docs: map<string, MatchDoc>, events: seq<RawEvent>, leagueId: string)
    requires |events| > 0
    ensures var prev := Synced(docs, events[..|events| - 1], leagueId);
      var u := Upserted(prev.docs, Derive(events[|events| - 1]), leagueId);
      Synced(docs, events, leagueId) == SyncState(u.docs, Tally(prev.stats, u.outcome))
  {
  }

  /** A pass keeps every document and adds one for each new identifier. */
  lemma {:induction false} SyncedKeys(docs: map<string, MatchDoc>, events: seq<RawEvent>, leagueId: string)
    ensures Synced(docs, events, leagueId).docs.Keys == docs.Keys + IdSet(events)
    decreases |events|
  {
    if |events| > 0 {
      var init := events[..|events| - 1];
      IdSetSnoc(events);
      SyncedKeys(docs, init, leagueId);
      UpsertFrame(Synced(docs, init, leagueId).docs, Derive(events[|events| - 1]), leagueId);
    }
  }

  /** Every event has a document that holds what the event sends. */
  predicate InSync(docs: map<string, MatchDoc>, events: seq<RawEvent>) {
    forall i :: 0 <= i < |events| ==> AgreesWith(docs, events[i])
  }

  /** The store has a document for the event that holds its status, its
      scores and each badge it carries. */
  predicate AgreesWith(docs: map<string, MatchDoc>, e: RawEvent) {
    e.idEvent in docs && Holds(docs[e.idEvent], Derive(e))
  }

  /** Every event carries both badges. */
  predicate AllHaveBadges(events: seq<RawEvent>) {
    forall i :: 0 <= i < |events| ==> HasBadges(Derive(events[i]))
  }

  /** Upserting an event leaves the store agreeing with it, and with every
      event of another identifier it agreed with before. */
  lemma UpsertAgreement(docs: map<string, MatchDoc>, e: RawEvent, leagueId: string)
    ensures AgreesWith(Upserted(docs, Derive(e), leagueId).docs, e)
    ensures forall other :: AgreesWith(docs, other) && other.idEvent != e.idEvent ==>
      AgreesWith(Upserted(docs, Derive(e), leagueId).docs, other)
  {
  }

  /** Upserting an event that carries both badges and that the store agrees
      with is a skip. */
  lemma AgreeingUpsertSkips(docs: map<string, MatchDoc>, e: RawEvent, leagueId: string)
    requires AgreesWith(docs, e) && HasBadges(Derive(e))
    ensures Upserted(docs, Derive(e), leagueId) == UpsertResult(docs, Skipped)
  {
  }

  /** After a pass over events with distinct identifiers, the store agrees
      with every one of them. */
  lemma {:induction false} SyncBringsInSync(docs: map<string, MatchDoc>, events: seq<RawEvent>, leagueId: string)
    requires DistinctEventIds(events)
    ensures InSync(Synced(docs, events, leagueId).docs, events)
    decreases |events|
  {
    if |events| > 0 {
      var last := |events| - 1;
      var init := events[..last];
      DistinctSplit(events);
      SyncBringsInSync(docs, init, leagueId);
      SyncedLast(docs, events, leagueId);
      InSyncStep(Synced(docs, init, leagueId).docs, events, leagueId);
    }
  }

  /** Distinct identifiers stay distinct in a prefix, and the last event's
      differs from every earlier one. */
  lemma DistinctSplit(events: seq<RawEvent>)
    requires |events| > 0 && DistinctEventIds(events)
    ensures DistinctEventIds(events[..|events| - 1])
    ensures forall i :: 0 <= i < |events| - 1 ==> events[i].idEvent != events[|events| - 1].idEvent
  {
    var init := events[..|events| - 1];
    assert forall i :: 0 <= i < |init| ==> init[i] == events[i];
  }

  /** Upserting the last event of `events`, whose identifier no earlier
      event has, keeps the store in sync with the earlier events and brings
      it in sync with the last one. */
  lemma InSyncStep(docs: map<string, MatchDoc>, events: seq<RawEvent>, leagueId: string)
    requires |events| > 0
    requires InSync(docs, events[..|events| - 1])
    requires forall i :: 0 <= i < |events| - 1 ==> events[i].idEvent != events[|events| - 1].idEvent
    ensures InSync(Upserted(docs, Derive(events[|events| - 1]), leagueId).docs, events)
  {
    var last := |events| - 1;
    var after := Upserted(docs, Derive(events[last]), leagueId).docs;
    UpsertAgreement(docs, events[last], leagueId);
    forall i | 0 <= i < last ensures AgreesWith(after, events[i]) {
      assert events[..last][i] == events[i];
    }
  }

  /** A pass over events that carry both badges and that the store already
      agrees with writes nothing and counts every event as skipped. */
  lemma {:induction false} SyncInSyncIsNoop(docs: map<string, MatchDoc>, events: seq<RawEvent>, leagueId: string)
    requires InSync(docs, events) && AllHaveBadges(events)
    ensures Synced(docs, events, leagueId) == SyncState(docs, Stats(0, 0, |events|))
    decreases |events|
  {
    if |events| > 0 {
      var last := |events| - 1;
      var init := events[..last];
      assert InSync(docs, init) && AllHaveBadges(init) by {
        forall i | 0 <= i < last ensures AgreesWith(docs, init[i]) && HasBadges(Derive(init[i])) {
          assert init[i] == events[i];
        }
      }
      SyncInSyncIsNoop(docs, init, leagueId);
      assert AgreesWith(docs, events[last]);
      AgreeingUpsertSkips(docs, events[last], leagueId);
      SyncedLast(docs, events, leagueId);
      assert Tally(Stats(0, 0, last), Skipped) == Stats(0, 0, |events|);
    }
  }

  // ---------------------------------------------------------------------------
  // The job's entry point
  // ---------------------------------------------------------------------------

  /** A store call that throws: the position in the merged list of the event
      whose lookup or write fails, and the error's message. */
  datatype StoreFault = NoFault | FailsAt(index: nat, message: string)

  /** The JSON body the job answers with. */
  datatype Body = SyncSucceeded(created: nat, updated: nat, skipped: nat) | SyncFailed(error: string)

  datatype Response = Response(status: int, body: Body)

  datatype RunResult = RunResult(docs: map<string, MatchDoc>, response: Response)

  /** Lines 35-147: what one invocation leaves in the store and answers. A
      failed feed request aborts before any store call; a failing store call
      aborts the loop, keeping the writes made before it. */
  function RunSpec(docs: map<string, MatchDoc>, leagueId: string, nextFeed: FeedResponse,
                   pastFeed: FeedResponse, fault: StoreFault): (r: RunResult)
    ensures r.response.status == 500 <==> r.response.body.SyncFailed?
    ensures r.response.status == 200 <==> r.response.body.SyncSucceeded?
    ensures (nextFeed.FetchFailed? || pastFeed.FetchFailed?) ==> r.docs == docs && r.response.status == 500
    ensures r.response.body.SyncSucceeded? ==>
      && nextFeed.Fetched? && pastFeed.Fetched?
      && var all := Merged(pastFeed.events.GetOr([]) + nextFeed.events.GetOr([]));
      && var b := r.response.body;
      && b.created + b.updated + b.skipped == |all|
  {
    if nextFeed.FetchFailed? then RunResult(docs, Response(500, SyncFailed(nextFeed.message)))
    else if pastFeed.FetchFailed? then RunResult(docs, Response(500, SyncFailed(pastFeed.message)))
    else
      PassSpec(docs, Merged(pastFeed.events.GetOr([]) + nextFeed.events.GetOr([])), leagueId, fault)
  }

  /** Lines 56-147 once the merged list is known: upsert every event in
      order, answering 200 with the counters, or 500 with the message of the
      first store call that throws, keeping the writes made before it. */
  function PassSpec(docs: map<string, MatchDoc>, all: seq<RawEvent>, leagueId: string, fault: StoreFault): (r: RunResult)
    ensures r.response.status == 500 <==> r.response.body.SyncFailed?
    ensures r.response.status == 200 <==> r.response.body.SyncSucceeded?
    ensures r.response.body.SyncSucceeded? ==>
      r.response.body.created + r.response.body.updated + r.response.body.skipped == |all|
  {
    if fault.FailsAt? && fault.index < |all| then
      RunResult(Synced(docs, all[..fault.index], leagueId).docs, Response(500, SyncFailed(fault.message)))
    else
      var s := Synced(docs, all, leagueId);
      RunResult(s.docs, Response(200, SyncSucceeded(s.stats.created, s.stats.updated, s.stats.skipped)))
  }

  /** Re-running the job on unchanged feeds whose events carry both badges,
      against the store the first run left, creates and updates nothing,
      leaves the store as it was, and counts every merged event as skipped. */
  lemma RerunIsQuiet(docs: map<string, MatchDoc>, leagueId: string, nextFeed: FeedResponse, pastFeed: FeedResponse)
    requires nextFeed.Fetched? && pastFeed.Fetched?
    requires AllHaveBadges(Merged(pastFeed.events.GetOr([]) + nextFeed.events.GetOr([])))
    ensures var first := RunSpec(docs, leagueId, nextFeed, pastFeed, NoFault);
      var second := RunSpec(first.docs, leagueId, nextFeed, pastFeed, NoFault);
      var all := Merged(pastFeed.events.GetOr([]) + nextFeed.events.GetOr([]));
      && second.docs == first.docs
      && second.response == Response(200, SyncSucceeded(0, 0, |all|))
  {
    var all := Merged(pastFeed.events.GetOr([]) + nextFeed.events.GetOr([]));
    var first := Synced(docs, all, leagueId);
    SyncBringsInSync(docs, all, leagueId);
    SyncInSyncIsNoop(first.docs, all, leagueId);
  }

  /** One more event never lowers the update counter. */
  lemma UpdatesNeverDrop(docs: map<string, MatchDoc>, events: seq<RawEvent>, leagueId: string)
    requires |events| > 0
    ensures Synced(docs, events, leagueId).stats.updated >= Synced(docs, events[..|events| - 1], leagueId).stats.updated
  {
    SyncedLast(docs, events, leagueId);
  }

  /** A last event without a badge whose document exists is counted as an
      update. */
  lemma LastBadgelessUpdates(docs: map<string, MatchDoc>, events: seq<RawEvent>, leagueId: string)
    requires |events| > 0 && NoUndefinedFields(docs)
    requires events[|events| - 1].idEvent in docs && !HasBadges(Derive(events[|events| - 1]))
    ensures Synced(docs, events, leagueId).stats.updated > 0
  {
    var init := events[..|events| - 1];
    var prev := Synced(docs, init, leagueId);
    SyncedKeys(docs, init, leagueId);
    SyncedKeepsKeying(docs, init, leagueId);
    BadgelessRecordIsRewritten(prev.docs, Derive(events[|events| - 1]), leagueId);
    SyncedLast(docs, events, leagueId);
  }

  /** A pass in which an event without a badge meets an existing document
      counts at least one update. */
  lemma {:induction false} BadgelessEventUpdates(docs: map<string, MatchDoc>, events: seq<RawEvent>,
                                                 leagueId: string, i: nat)
    requires i < |events| && NoUndefinedFields(docs)
    requires events[i].idEvent in docs && !HasBadges(Derive(events[i]))
    ensures Synced(docs, events, leagueId).stats.updated > 0
    decreases |events|
  {
    var init := events[..|events| - 1];
    if i < |init| {
      assert init[i] == events[i];
      BadgelessEventUpdates(docs, init, leagueId, i);
      UpdatesNeverDrop(docs, events, leagueId);
    } else {
      LastBadgelessUpdates(docs, events, leagueId);
    }
  }

  /** A run whose feeds arrive and whose store calls succeed is the pass
      over the merged list, answered with its counters. */
  lemma RunWithoutFault(docs: map<string, MatchDoc>, leagueId: string, nextFeed: FeedResponse, pastFeed: FeedResponse)
    requires nextFeed.Fetched? && pastFeed.Fetched?
    ensures var s := Synced(docs, Merged(pastFeed.events.GetOr([]) + nextFeed.events.GetOr([])), leagueId);
      RunSpec(docs, leagueId, nextFeed, pastFeed, NoFault) ==
        RunResult(s.docs, Response(200, SyncSucceeded(s.stats.created, s.stats.updated, s.stats.skipped)))
  {
  }

  /** Re-running the job on unchanged feeds is not quiet when a merged event
      lacks a badge: the second run updates that event's document again. */
  lemma RerunRewritesBadgeless(docs: map<string, MatchDoc>, leagueId: string,
                               nextFeed: FeedResponse, pastFeed: FeedResponse)
    requires nextFeed.Fetched? && pastFeed.Fetched? && NoUndefinedFields(docs)
    requires !AllHaveBadges(Merged(pastFeed.events.GetOr([]) + nextFeed.events.GetOr([])))
    ensures var first := RunSpec(docs, leagueId, nextFeed, pastFeed, NoFault);
      var second := RunSpec(first.docs, leagueId, nextFeed, pastFeed, NoFault);
      second.response.body.SyncSucceeded? && second.response.body.updated > 0
  {
    var all := Merged(pastFeed.events.GetOr([]) + nextFeed.events.GetOr([]));
    var first := Synced(docs, all, leagueId);
    RunWithoutFault(docs, leagueId, nextFeed, pastFeed);
    RunWithoutFault(first.docs, leagueId, nextFeed, pastFeed);
    var i :| 0 <= i < |all| && !HasBadges(Derive(all[i]));
    SyncedKeys(docs, all, leagueId);
    assert all[i] in all;
    SyncedKeepsKeying(docs, all, leagueId);
    BadgelessEventUpdates(first.docs, all, leagueId, i);
  }

  /** The match store, keyed by `externalId`. */
  class MatchStore {
    var docs: map<string, MatchDoc>

    ghost predicate Valid()
      reads this
    {
      KeyedByExternalId(docs) && NoUndefinedFields(docs)
    }

    constructor (initial: map<string, MatchDoc>)
      requires KeyedByExternalId(initial) && NoUndefinedFields(initial)
      ensures Valid() && docs == initial
    {
      docs := initial;
    }

    /** Lines 77-132 for one record. */
    method Upsert(c: CanonicalEvent, leagueId: string) returns (outcome: Outcome)
      requires Valid()
      modifies this
      ensures Valid()
      ensures UpsertResult(docs, outcome) == Upserted(old(docs), c, leagueId)
    {
      if c.externalId in docs {
        var doc := docs[c.externalId];
        if doc.status != c.status
          || doc.homeScore != c.homeScore
          || doc.awayScore != c.awayScore
          || doc.homeTeamBadge != c.homeTeamBadge
          || doc.awayTeamBadge != c.awayTeamBadge
        {
          docs := docs[c.externalId := doc.(
            status := c.status,
            homeScore := c.homeScore,
            awayScore := c.awayScore,
            date := c.date,
            leagueId := leagueId,
            homeTeamBadge := Patched(doc.homeTeamBadge, c.homeTeamBadge),
            awayTeamBadge := Patched(doc.awayTeamBadge, c.awayTeamBadge))];
          outcome := Updated;
        } else {
          outcome := Skipped;
        }
      } else {
        docs := docs[c.externalId := MatchDoc(
          c.externalId, Stored(c.homeTeam), Stored(c.awayTeam), c.date, c.status,
          c.homeScore, c.awayScore, leagueId, Stored(c.homeTeamBadge), Stored(c.awayTeamBadge))];
        outcome := Created;
      }
    }

    /** One invocation of the job (lines 9-149), with the league setting, the
        two feed responses and the store's failure behaviour as inputs. */
    method Run(leagueSetting: Option<string>, nextFeed: FeedResponse, pastFeed: FeedResponse, fault: StoreFault)
      returns (response: Response)
      requires Valid()
      modifies this
      ensures Valid()
      ensures RunResult(docs, response) == RunSpec(old(docs), ResolveLeagueId(leagueSetting), nextFeed, pastFeed, fault)
    {
      var leagueId := ResolveLeagueId(leagueSetting);
      if nextFeed.FetchFailed? {
        return Response(500, SyncFailed(nextFeed.message));
      }
      if pastFeed.FetchFailed? {
        return Response(500, SyncFailed(pastFeed.message));
      }
      var all := MergeFeeds(nextFeed.events, pastFeed.events);
      response := Pass(all, leagueId, fault);
    }

    /** Lines 108, 110 and 131: the counter of the outcome goes up by one. */
    static method Count(outcome: Outcome, created: nat, updated: nat, skipped: nat)
      returns (created': nat, updated': nat, skipped': nat)
      ensures Stats(created', updated', skipped') == Tally(Stats(created, updated, skipped), outcome)
    {
      created', updated', skipped' := created, updated, skipped;
      match outcome {
        case Created => created' := created + 1;
        case Updated => updated' := updated + 1;
        case Skipped => skipped' := skipped + 1;
      }
    }

    /** Lines 56-147: the upsert loop over the merged list and its answer. */
    method Pass(all: seq<RawEvent>, leagueId: string, fault: StoreFault) returns (response: Response)
      requires Valid()
      modifies this
      ensures Valid()
      ensures RunResult(docs, response) == PassSpec(old(docs), all, leagueId, fault)
    {
      var created: nat, updated: nat, skipped: nat := 0, 0, 0;
      var i := 0;
      while i < |all|
        invariant 0 <= i <= |all|
        invariant Valid()
        invariant fault.FailsAt? ==> fault.index >= i
        invariant Synced(old(docs), all[..i], leagueId) == SyncState(docs, Stats(created, updated, skipped))
      {
        if fault.FailsAt? && fault.index == i {
          return Response(500, SyncFailed(fault.message));
        }
        ghost var before := SyncState(docs, Stats(created, updated, skipped));
        var outcome := Upsert(Derive(all[i]), leagueId);
        created, updated, skipped := Count(outcome, created, updated, skipped);
        SyncedStep(old(docs), all, i, leagueId, before, UpsertResult(docs, outcome));
        i := i + 1;
      }
      WholePrefix(all);
      response := Response(200, SyncSucceeded(created, updated, skipped));
    }
  }
}
