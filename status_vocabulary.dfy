/** How the three status vocabularies of the system meet. The sync job
    writes `scheduled`, `in_progress` and `completed`
    (functions/syncMatches/main.js:64-69); the prediction guard checks
    `in_progress`, `completed` and `canceled` (src/lib/matchUtils.ts:5); the
    match card checks `live` and `finished`
    (src/components/features/matches/MatchCard.tsx:38-39). Also how the
    sync job's date text meets the match list's day key. */
module StatusVocabulary {
  import opened Wrappers
  import opened JsValues
  import SyncMatches
  import MatchUtils
  import MatchList
  import MatchCard

  /** After a sync pass, the document of every event carries a status the
      card's lock check rejects: a card showing synced matches never locks. */
  lemma SyncedCardsNeverLock(docs: map<string, SyncMatches.MatchDoc>, events: seq<SyncMatches.RawEvent>, leagueId: string)
    requires SyncMatches.DistinctEventIds(events)
    ensures var after := SyncMatches.Synced(docs, events, leagueId).docs;
      forall e :: e in events ==>
        && e.idEvent in after
        && after[e.idEvent].status in {SyncMatches.Scheduled, SyncMatches.InProgress, SyncMatches.Completed}
        && !MatchCard.CardLocked(after[e.idEvent].status)
  {
    var after := SyncMatches.Synced(docs, events, leagueId).docs;
    SyncMatches.SyncBringsInSync(docs, events, leagueId);
    forall e | e in events
      ensures e.idEvent in after && !MatchCard.CardLocked(after[e.idEvent].status)
      ensures after[e.idEvent].status in {SyncMatches.Scheduled, SyncMatches.InProgress, SyncMatches.Completed}
    {
      var i :| 0 <= i < |events| && events[i] == e;
      assert SyncMatches.AgreesWith(after, events[i]);
    }
  }

  /** A match the sync marks completed or in progress is closed to
      predictions at any time, while its card still offers the controls. */
  lemma GuardAndCardDisagree(status: string, startMs: int, nowMs: int)
    requires status == SyncMatches.Completed || status == SyncMatches.InProgress
    ensures MatchUtils.IsMatchLocked(status, startMs, nowMs)
    ensures MatchCard.ActionControl(status, false, None) == MatchCard.MakePrediction
  {
  }

  /** The day the match list files a synced match under is the feed's
      `dateEvent`, provided that text holds no `T`. */
  lemma SyncedDateDay(dateEvent: string, strTime: Val)
    requires 'T' !in dateEvent
    ensures MatchList.DayOf(SyncMatches.EventDate(Str(dateEvent), strTime)) == dateEvent
  {
    var date := SyncMatches.EventDate(Str(dateEvent), strTime);
    SyncMatches.EventDateParts(Str(dateEvent), strTime);
    var day := MatchList.DayOf(date);
    assert day == date[..|day|];
  }
}
