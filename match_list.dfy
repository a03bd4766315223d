/** The match list screen's rules (src/components/features/matches/MatchList.tsx):
    the index of the user's predictions by match, the sorted list of match
    days, the day selected by default, the matches shown for the selected
    day, and the index update after a prediction is saved. "Today" is a
    parameter. */
module MatchList {
  import opened JsValues
  import opened Sequences
  import opened AppTypes

  // ---------------------------------------------------------------------------
  // Predictions by match (lines 30-31)
  // ---------------------------------------------------------------------------

  /** The position of the last prediction for `matchId`, or -1 when there is
      none (the prediction a `forEach` filling an object keeps). */
  function LastIndexFor(preds: seq<Prediction>, matchId: string): (i: int)
    ensures -1 <= i < |preds|
    ensures i == -1 <==> forall j :: 0 <= j < |preds| ==> preds[j].matchId != matchId
    ensures i >= 0 ==> preds[i].matchId == matchId
    ensures i >= 0 ==> forall j :: i < j < |preds| ==> preds[j].matchId != matchId
    decreases |preds|
  {
    if |preds| == 0 then -1
    else if preds[|preds| - 1].matchId == matchId then |preds| - 1
    else LastIndexFor(preds[..|preds| - 1], matchId)
  }

  /** `predictionsLog.forEach(p => { predMap[p.matchId] = p; })`: every match
      with a prediction is a key, mapped to its last prediction in the list. */
  method IndexPredictions(preds: seq<Prediction>) returns (index: map<string, Prediction>)
    ensures forall id :: id in index <==> LastIndexFor(preds, id) >= 0
    ensures forall id :: id in index ==> index[id] == preds[LastIndexFor(preds, id)]
  {
    index := map[];
    var i := 0;
    while i < |preds|
      invariant 0 <= i <= |preds|
      invariant forall id :: id in index <==> LastIndexFor(preds[..i], id) >= 0
      invariant forall id :: id in index ==> index[id] == preds[LastIndexFor(preds[..i], id)]
    {
      PrefixExtend(preds, i);
      index := index[preds[i].matchId := preds[i]];
      i := i + 1;
    }
    assert preds[..i] == preds;
  }

  /** Line 108: a saved prediction replaces the entry of its own match and
      leaves every other entry as it was. */
  function RecordSaved(index: map<string, Prediction>, p: Prediction): (r: map<string, Prediction>)
    ensures p.matchId in r && r[p.matchId] == p
    ensures r.Keys == index.Keys + {p.matchId}
    ensures forall id :: id in index && id != p.matchId ==> r[id] == index[id]
  {
    index[p.matchId := p]
  }

  // ---------------------------------------------------------------------------
  // Match days (line 34)
  // ---------------------------------------------------------------------------

  /** `date.split('T')[0]`: the part of the date before its first `T`. */
  function DayOf(date: string): (day: string)
    ensures StartsWith(date, day)
    ensures 'T' !in day
    ensures |day| < |date| ==> date[|day|] == 'T'
  {
    if |date| == 0 || date[0] == 'T' then ""
    else [date[0]] + DayOf(date[1..])
  }

  /** The days on which the listed matches take place. */
  function DaySet(matches: seq<Match>): set<string> {
    set m | m in matches :: DayOf(m.date)
  }

  /** A strictly sorted list stays strictly sorted with a smaller head. */
  lemma ConsSorted(d: string, days: seq<string>)
    requires StrictlySorted(days)
    requires forall x :: x in days ==> StrLt(d, x)
    ensures StrictlySorted([d] + days)
  {
    var r := [d] + days;
    forall i, j | 0 <= i < j < |r| ensures StrLt(r[i], r[j]) {
      if i > 0 {
        assert r[i] == days[i - 1] && r[j] == days[j - 1];
      } else {
        assert r[j] == days[j - 1];
      }
    }
  }

  /** Every element of a strictly sorted list after its head is larger. */
  lemma HeadIsLeast(days: seq<string>)
    requires StrictlySorted(days) && |days| > 0
    ensures forall x :: x in days[1..] ==> StrLt(days[0], x)
    ensures StrictlySorted(days[1..])
  {
    forall x | x in days[1..] ensures StrLt(days[0], x) {
      var k :| 0 <= k < |days[1..]| && days[1..][k] == x;
      assert days[k + 1] == x;
    }
  }

  /** Adds a day to a strictly sorted list of days unless it is already there. */
  function InsertDay(days: seq<string>, d: string): (r: seq<string>)
    requires StrictlySorted(days)
    ensures StrictlySorted(r)
    ensures forall x :: x in r <==> x in days || x == d
    decreases |days|
  {
    if |days| == 0 then [d]
    else if d == days[0] then days
    else if StrLt(d, days[0]) then
      HeadIsLeast(days);
      LessThanAll(d, days);
      ConsSorted(d, days);
      [d] + days
    else
      StrLtTotal(d, days[0]);
      HeadIsLeast(days);
      var rest := InsertDay(days[1..], d);
      ConsSorted(days[0], rest);
      [days[0]] + rest
  }

  lemma LessThanAll(d: string, days: seq<string>)
    requires StrictlySorted(days) && |days| > 0 && StrLt(d, days[0])
    ensures forall x :: x in days ==> StrLt(d, x)
  {
    forall x | x in days ensures StrLt(d, x) {
      var k :| 0 <= k < |days| && days[k] == x;
      if k > 0 {
        StrLtTransitive(d, days[0], x);
      }
    }
  }

  /** `Array.from(new Set(matches.map(m => m.date.split('T')[0]))).sort()`:
      the distinct match days in ascending string order. */
  function UniqueDays(matches: seq<Match>): (days: seq<string>)
    ensures StrictlySorted(days)
    ensures forall d :: d in days <==> d in DaySet(matches)
    decreases |matches|
  {
    if |matches| == 0 then []
    else
      var init := matches[..|matches| - 1];
      assert matches == init + [matches[|matches| - 1]];
      InsertDay(UniqueDays(init), DayOf(matches[|matches| - 1].date))
  }

  /** A strictly sorted list is determined by its elements: whichever way
      the set of days is built, sorting it gives the same list. */
  lemma {:induction false} SortedListIsUnique(a: seq<string>, b: seq<string>)
    requires StrictlySorted(a) && StrictlySorted(b)
    requires forall x :: x in a <==> x in b
    ensures a == b
    decreases |a|
  {
    SameElementsBothEmpty(a, b);
    if |a| > 0 {
      HeadIsLeast(a);
      HeadIsLeast(b);
      assert a == [a[0]] + a[1..] && b == [b[0]] + b[1..];
      if a[0] != b[0] {
        InTail(b, a[0]);
        InTail(a, b[0]);
        StrLtAsymmetric(a[0], b[0]);
        assert false;
      }
      forall x ensures x in a[1..] <==> x in b[1..] {
        StrLtIrreflexive(a[0]);
        if x in a[1..] { InTail(b, x); }
        if x in b[1..] { InTail(a, x); }
      }
      SortedListIsUnique(a[1..], b[1..]);
    }
  }

  lemma SameElementsBothEmpty<T>(a: seq<T>, b: seq<T>)
    requires forall x :: x in a <==> x in b
    ensures |a| == 0 <==> |b| == 0
  {
    if |a| > 0 {
      assert a[0] in b;
    }
    if |b| > 0 {
      assert b[0] in a;
    }
  }

  lemma InTail<T>(s: seq<T>, x: T)
    requires x in s && x != s[0]
    ensures x in s[1..]
  {
    var k :| 0 <= k < |s| && s[k] == x;
    assert s[1..][k - 1] == x;
  }

  // ---------------------------------------------------------------------------
  // The day selected by default (lines 14, 37-44)
  // ---------------------------------------------------------------------------

  /** `uniqueDays.filter(d => d >= today)`. */
  function AtOrAfter(days: seq<string>, today: string): (future: seq<string>)
    ensures forall d :: d in future <==> d in days && !StrLt(d, today)
    ensures StrictlySorted(days) ==> StrictlySorted(future)
    decreases |days|
  {
    if |days| == 0 then []
    else
      var rest := AtOrAfter(days[1..], today);
      assert forall d :: d in days <==> d == days[0] || d in days[1..];
      assert StrictlySorted(days) ==> StrictlySorted(rest) && StrictlySorted([days[0]] + rest) by {
        if StrictlySorted(days) {
          HeadIsLeast(days);
          ConsSorted(days[0], rest);
        }
      }
      if !StrLt(days[0], today) then [days[0]] + rest else rest
  }

  /** Lines 37-44: today when it is a match day; otherwise the first day not
      before today; otherwise the first day; with no days the selection is
      left as it was (`current`, the empty string on first load). */
  function SelectDay(days: seq<string>, today: string, current: string): (selected: string)
    ensures today in days ==> selected == today
    ensures |days| > 0 ==> selected in days
    ensures |days| == 0 ==> selected == current
    ensures today !in days && (forall d :: d in days ==> StrLt(d, today)) && |days| > 0 ==> selected == days[0]
  {
    if today in days then today
    else
      var future := AtOrAfter(days, today);
      if |future| > 0 then future[0]
      else if |days| > 0 then days[0]
      else current
  }

  /** On a sorted day list: when today is not a match day, the selection is
      the smallest day after today if there is one, else the smallest day. */
  lemma SelectsNearestDay(days: seq<string>, today: string, current: string)
    requires StrictlySorted(days) && |days| > 0 && today !in days
    ensures var selected := SelectDay(days, today, current);
      && ((exists d :: d in days && StrLt(today, d)) ==>
            StrLt(today, selected) && forall d :: d in days && StrLt(today, d) ==> StrLe(selected, d))
      && ((forall d :: d in days ==> StrLt(d, today)) ==>
            forall d :: d in days ==> StrLe(selected, d))
  {
    var future := AtOrAfter(days, today);
    var selected := SelectDay(days, today, current);
    if exists d :: d in days && StrLt(today, d) {
      var d0 :| d0 in days && StrLt(today, d0);
      StrLtAsymmetric(today, d0);
      assert d0 in future;
      HeadIsLeast(future);
      assert selected == future[0];
      StrLtTotal(selected, today);
      forall d | d in days && StrLt(today, d) ensures StrLe(selected, d) {
        StrLtAsymmetric(today, d);
        assert d in future;
      }
    } else if forall d :: d in days ==> StrLt(d, today) {
      assert selected == days[0];
      HeadIsLeast(days);
      forall d | d in days ensures StrLe(selected, d) {
        if d != days[0] { assert d in days[1..]; }
      }
    }
  }

  /** Line 38-43 on the list built from the matches: with matches, the
      selected day is one of their days. */
  lemma SelectedDayIsAMatchDay(matches: seq<Match>, today: string, current: string)
    requires |matches| > 0
    ensures SelectDay(UniqueDays(matches), today, current) in DaySet(matches)
  {
    assert DayOf(matches[0].date) in DaySet(matches);
  }

  // ---------------------------------------------------------------------------
  // The matches shown (lines 56-58)
  // ---------------------------------------------------------------------------

  /** `matches.filter(m => m.date.startsWith(selectedDate))`. */
  function OnDay(matches: seq<Match>, selected: string): (r: seq<Match>)
    ensures forall m :: multiset(r)[m] == if StartsWith(m.date, selected) then multiset(matches)[m] else 0
    decreases |matches|
  {
    if |matches| == 0 then []
    else
      assert matches == [matches[0]] + matches[1..];
      (if StartsWith(matches[0].date, selected) then [matches[0]] else []) + OnDay(matches[1..], selected)
  }

  /** The matches of `s` that start at instant `t`, in list order. */
  function WithStart(s: seq<Match>, t: int): seq<Match>
    decreases |s|
  {
    if |s| == 0 then []
    else (if s[0].startMs == t then [s[0]] else []) + WithStart(s[1..], t)
  }

  /** The first match starting at `t` is one of the list's. */
  lemma {:induction false} WithStartHeadInList(s: seq<Match>, t: int)
    requires WithStart(s, t) != []
    ensures WithStart(s, t)[0] in s && WithStart(s, t)[0].startMs == t
    decreases |s|
  {
    if s[0].startMs != t {
      WithStartHeadInList(s[1..], t);
    }
  }

  lemma {:induction false} WithStartAppend(a: seq<Match>, b: seq<Match>, t: int)
    ensures WithStart(a + b, t) == WithStart(a, t) + WithStart(b, t)
    decreases |a|
  {
    if |a| > 0 {
      assert (a + b)[0] == a[0] && (a + b)[1..] == a[1..] + b;
      WithStartAppend(a[1..], b, t);
    } else {
      assert a + b == b;
    }
  }

  lemma {:induction false} OnDayAppend(a: seq<Match>, b: seq<Match>, selected: string)
    ensures OnDay(a + b, selected) == OnDay(a, selected) + OnDay(b, selected)
    decreases |a|
  {
    if |a| > 0 {
      assert (a + b)[0] == a[0] && (a + b)[1..] == a[1..] + b;
      OnDayAppend(a[1..], b, selected);
    } else {
      assert a + b == b;
    }
  }

  /** Filtering by day and by start instant can be done in either order. */
  lemma {:induction false} DayAndStartCommute(s: seq<Match>, selected: string, t: int)
    ensures WithStart(OnDay(s, selected), t) == OnDay(WithStart(s, t), selected)
    decreases |s|
  {
    if |s| > 0 {
      var x := s[0];
      var day := if StartsWith(x.date, selected) then [x] else [];
      var start := if x.startMs == t then [x] else [];
      WithStartAppend(day, OnDay(s[1..], selected), t);
      OnDayAppend(start, WithStart(s[1..], t), selected);
      DayAndStartCommute(s[1..], selected, t);
      if start != [] {
        assert start[1..] == [];
      }
      if day != [] {
        assert day[1..] == [];
      }
    }
  }

  predicate SortedByStart(s: seq<Match>) {
    forall i, j :: 0 <= i < j < |s| ==> s[i].startMs <= s[j].startMs
  }

  /** Prepending a match that starts no later than the rest keeps the order. */
  lemma StartsNoLater(first: Match, m: Match, tail: seq<Match>, rest: seq<Match>)
    requires SortedByStart([first] + tail) && first.startMs < m.startMs
    requires SortedByStart(rest) && multiset(rest) == multiset(tail) + multiset{m}
    ensures SortedByStart([first] + rest)
  {
    var r := [first] + rest;
    forall i, j | 0 <= i < j < |r| ensures r[i].startMs <= r[j].startMs {
      if i == 0 {
        var x := r[j];
        assert r[0] == first && x == rest[j - 1];
        assert x in rest;
        assert x in multiset(rest);
        if x != m {
          assert x in multiset(tail);
          var k :| 0 <= k < |tail| && tail[k] == x;
          var ft := [first] + tail;
          assert ft[0] == first && ft[k + 1] == x;
          assert ft[0].startMs <= ft[k + 1].startMs;
        }
      } else {
        assert r[i] == rest[i - 1] && r[j] == rest[j - 1];
      }
    }
  }

  /** Puts a match before the first one that does not start earlier. */
  function InsertByStart(sorted: seq<Match>, m: Match): (r: seq<Match>)
    requires SortedByStart(sorted)
    ensures SortedByStart(r)
    ensures multiset(r) == multiset(sorted) + multiset{m}
    decreases |sorted|
  {
    if |sorted| == 0 then [m]
    else if m.startMs <= sorted[0].startMs then [m] + sorted
    else
      assert sorted == [sorted[0]] + sorted[1..];
      var rest := InsertByStart(sorted[1..], m);
      StartsNoLater(sorted[0], m, sorted[1..], rest);
      [sorted[0]] + rest
  }

  /** The matches starting at `t` in a list with a given head. */
  lemma WithStartCons(x: Match, s: seq<Match>, t: int)
    ensures WithStart([x] + s, t) == (if x.startMs == t then [x] else []) + WithStart(s, t)
  {
    assert ([x] + s)[1..] == s;
  }

  /** Inserting a match that starts after the head keeps the head first. */
  lemma InsertAfterHead(sorted: seq<Match>, m: Match)
    requires SortedByStart(sorted) && |sorted| > 0 && sorted[0].startMs < m.startMs
    ensures InsertByStart(sorted, m) == [sorted[0]] + InsertByStart(sorted[1..], m)
  {
  }

  /** One step of `InsertGoesFirstAmongEqual` past a head that starts earlier. */
  lemma InsertGroupsStep(s0: Match, tail: seq<Match>, rest: seq<Match>, m: Match, t: int)
    requires s0.startMs < m.startMs
    requires WithStart(rest, t) == (if m.startMs == t then [m] else []) + WithStart(tail, t)
    ensures WithStart([s0] + rest, t) == (if m.startMs == t then [m] else []) + WithStart([s0] + tail, t)
  {
    WithStartCons(s0, rest, t);
    WithStartCons(s0, tail, t);
  }

  /** The inserted match goes ahead of every match with the same start. */
  lemma {:induction false} InsertGoesFirstAmongEqual(sorted: seq<Match>, m: Match, t: int)
    requires SortedByStart(sorted)
    ensures WithStart(InsertByStart(sorted, m), t) == (if m.startMs == t then [m] else []) + WithStart(sorted, t)
    decreases |sorted|
  {
    if |sorted| == 0 {
      WithStartCons(m, [], t);
      assert [m] + [] == [m];
    } else if m.startMs <= sorted[0].startMs {
      WithStartCons(m, sorted, t);
    } else {
      InsertAfterHead(sorted, m);
      InsertGoesFirstAmongEqual(sorted[1..], m, t);
      InsertGroupsStep(sorted[0], sorted[1..], InsertByStart(sorted[1..], m), m, t);
      assert [sorted[0]] + sorted[1..] == sorted;
    }
  }

  lemma InsertKeepsStartGroups(sorted: seq<Match>, m: Match)
    requires SortedByStart(sorted)
    ensures forall t :: WithStart(InsertByStart(sorted, m), t) ==
                          (if m.startMs == t then [m] else []) + WithStart(sorted, t)
  {
    forall t ensures WithStart(InsertByStart(sorted, m), t) ==
                     (if m.startMs == t then [m] else []) + WithStart(sorted, t) {
      InsertGoesFirstAmongEqual(sorted, m, t);
    }
  }

  /** The comparator `new Date(a.date).getTime() - new Date(b.date).getTime()`
      with the stable `Array.prototype.sort`: ordered by start, and matches
      with the same start keep their list order. */
  function SortByStart(s: seq<Match>): (r: seq<Match>)
    ensures SortedByStart(r)
    ensures multiset(r) == multiset(s)
    ensures forall t :: WithStart(r, t) == WithStart(s, t)
    decreases |s|
  {
    if |s| == 0 then []
    else
      assert s == [s[0]] + s[1..];
      var sortedTail := SortByStart(s[1..]);
      InsertKeepsStartGroups(sortedTail, s[0]);
      InsertByStart(sortedTail, s[0])
  }

  /** A list with matches has a group of matches at some start, so another
      list with the same groups has matches too. */
  lemma SameGroupsNonEmpty(a: seq<Match>, b: seq<Match>)
    requires forall t :: WithStart(a, t) == WithStart(b, t)
    ensures |a| > 0 ==> |b| > 0
  {
    if |a| > 0 {
      assert WithStart(b, a[0].startMs) == WithStart(a, a[0].startMs) != [];
    }
  }

  /** Two lists sorted by start with the same groups begin with the same match. */
  lemma SameGroupsSameHead(a: seq<Match>, b: seq<Match>)
    requires SortedByStart(a) && SortedByStart(b) && |a| > 0 && |b| > 0
    requires forall t :: WithStart(a, t) == WithStart(b, t)
    ensures a[0] == b[0]
  {
    var (x, y) := (a[0], b[0]);
    assert WithStart(a, x.startMs)[0] == x && WithStart(b, y.startMs)[0] == y;
    WithStartHeadInList(b, x.startMs);
    WithStartHeadInList(a, y.startMs);
  }

  /** ... and removing that match leaves lists with the same groups. */
  lemma SameGroupsSameTail(a: seq<Match>, b: seq<Match>)
    requires |a| > 0 && |b| > 0 && a[0] == b[0]
    requires forall t :: WithStart(a, t) == WithStart(b, t)
    ensures forall t :: WithStart(a[1..], t) == WithStart(b[1..], t)
  {
    forall t ensures WithStart(a[1..], t) == WithStart(b[1..], t) {
      var h := if a[0].startMs == t then [a[0]] else [];
      assert WithStart(a, t) == h + WithStart(a[1..], t);
      assert WithStart(b, t) == h + WithStart(b[1..], t);
      assert WithStart(a[1..], t) == WithStart(a, t)[|h|..];
    }
  }

  /** Sorting by start and keeping each start's matches in a given order
      leaves one possible result: two lists sorted by start that agree on
      the matches of every start are equal. */
  lemma {:induction false} StableSortIsUnique(a: seq<Match>, b: seq<Match>)
    requires SortedByStart(a) && SortedByStart(b)
    requires forall t :: WithStart(a, t) == WithStart(b, t)
    ensures a == b
    decreases |a|
  {
    SameGroupsNonEmpty(a, b);
    SameGroupsNonEmpty(b, a);
    if |a| > 0 {
      SameGroupsSameHead(a, b);
      SameGroupsSameTail(a, b);
      StableSortIsUnique(a[1..], b[1..]);
      assert a == [a[0]] + a[1..] && b == [b[0]] + b[1..];
    }
  }

  /** The matches shown for the selected day: exactly those whose date starts
      with it, each as often as it is listed, ordered by start time, and
      those with the same start in list order. */
  function ShownMatches(matches: seq<Match>, selected: string): (r: seq<Match>)
    ensures SortedByStart(r)
    ensures forall m :: multiset(r)[m] == if StartsWith(m.date, selected) then multiset(matches)[m] else 0
    ensures forall m :: m in r <==> m in matches && StartsWith(m.date, selected)
    ensures forall t :: WithStart(r, t) == OnDay(WithStart(matches, t), selected)
  {
    var shown := SortByStart(OnDay(matches, selected));
    assert forall t :: WithStart(shown, t) == OnDay(WithStart(matches, t), selected) by {
      forall t ensures WithStart(shown, t) == OnDay(WithStart(matches, t), selected) {
        DayAndStartCommute(matches, selected, t);
      }
    }
    shown
  }
}
