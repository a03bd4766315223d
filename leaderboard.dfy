/** The leaderboard page (src/routes/leaderboard.tsx): the room's profiles
    ordered by points, the viewer's rank, the rank badges and medal labels
    of the rows, and whether the viewer's pinned bar is shown. */
module Leaderboard {
  import opened Wrappers
  import opened AppTypes

  /** Highest points first. */
  predicate ByPointsDesc(s: seq<Profile>) {
    forall i, j :: 0 <= i < j < |s| ==> s[i].totalPoints >= s[j].totalPoints
  }

  /** Line 25, `list.sort((a, b) => b.totalPoints - a.totalPoints)`, which
      sorts the fetched array in place: afterwards it holds the same profiles
      with the highest points first. */
  method SortByPoints(a: array<Profile>)
    modifies a
    ensures ByPointsDesc(a[..])
    ensures multiset(a[..]) == multiset(old(a[..]))
  {
    var i := 0;
    while i < a.Length
      invariant 0 <= i <= a.Length
      invariant ByPointsDesc(a[..i])
      invariant multiset(a[..]) == multiset(old(a[..]))
    {
      MoveIntoPlace(a, i);
      i := i + 1;
    }
    assert a[..i] == a[..];
  }

  /** Moves `a[i]` left past every profile with fewer points, so that the
      sorted prefix grows by one. */
  method MoveIntoPlace(a: array<Profile>, i: nat)
    requires i < a.Length && ByPointsDesc(a[..i])
    modifies a
    ensures ByPointsDesc(a[..i + 1])
    ensures multiset(a[..]) == multiset(old(a[..]))
  {
    var j := i;
    while j > 0 && a[j - 1].totalPoints < a[j].totalPoints
      invariant 0 <= j <= i
      invariant multiset(a[..]) == multiset(old(a[..]))
      invariant forall p, q :: 0 <= p < q <= i && p != j && q != j ==> a[p].totalPoints >= a[q].totalPoints
      invariant forall q :: j < q <= i ==> a[q].totalPoints < a[j].totalPoints
    {
      Swap(a, j - 1, j);
      j := j - 1;
    }
  }

  /** Exchanges two entries of the array. */
  method Swap(a: array<Profile>, p: nat, q: nat)
    requires p < q < a.Length
    modifies a
    ensures a[..] == old(a[..])[p := old(a[q])][q := old(a[p])]
    ensures multiset(a[..]) == multiset(old(a[..]))
  {
    a[p], a[q] := a[q], a[p];
  }

  /** `profiles.findIndex(p => p.userId === userId)`. */
  function FindIndex(profiles: seq<Profile>, userId: string): (i: int)
    ensures -1 <= i < |profiles|
    ensures i == -1 <==> forall k :: 0 <= k < |profiles| ==> profiles[k].userId != userId
    ensures i >= 0 ==> profiles[i].userId == userId
    ensures i >= 0 ==> forall k :: 0 <= k < i ==> profiles[k].userId != userId
  {
    if |profiles| == 0 then -1
    else if profiles[0].userId == userId then 0
    else
      var k := FindIndex(profiles[1..], userId);
      if k == -1 then -1 else k + 1
  }

  /** What the pinned bar shows as the viewer's position. */
  datatype RankText = Position(n: nat) | Dash

  /** Lines 53-54: the one-based position of the viewer's first row, or `-`
      when the viewer is not on the board. */
  function UserRank(profiles: seq<Profile>, userId: string): (rank: RankText)
    ensures rank == Dash <==> forall k :: 0 <= k < |profiles| ==> profiles[k].userId != userId
    ensures rank.Position? ==> 1 <= rank.n <= |profiles| && profiles[rank.n - 1].userId == userId
    ensures rank.Position? ==> forall k :: 0 <= k < rank.n - 1 ==> profiles[k].userId != userId
  {
    var i := FindIndex(profiles, userId);
    if i != -1 then Position(i + 1) else Dash
  }

  /** Lines 57-62: the badge drawn for a rank. */
  datatype Badge = Crown | SilverMedal | BronzeMedal | Number(rank: nat)

  function RankBadge(rank: nat): (b: Badge)
    ensures b == Crown <==> rank == 1
    ensures b == SilverMedal <==> rank == 2
    ensures b == BronzeMedal <==> rank == 3
    ensures b.Number? ==> b.rank == rank && rank != 1 && rank != 2 && rank != 3
  {
    if rank == 1 then Crown
    else if rank == 2 then SilverMedal
    else if rank == 3 then BronzeMedal
    else Number(rank)
  }

  /** One rendered row: its rank, whether it is the viewer's, its badge and
      the medal label shown under the name, if any. */
  datatype Row = Row(rank: nat, isMe: bool, badge: Badge, medal: Option<string>)

  /** Lines 78-79 and 124-130 for the profile at `index`: the rank counts
      from one, the row is the viewer's when the profile has the viewer's
      id, and Gold, Silver and Bronze label ranks 1, 2 and 3 of rows that
      are not the viewer's. */
  function RowAt(profiles: seq<Profile>, userId: string, index: nat): (row: Row)
    requires index < |profiles|
    ensures row.rank == index + 1
    ensures row.isMe <==> profiles[index].userId == userId
    ensures row.badge == RankBadge(index + 1)
    ensures row.medal.Some? <==> index < 3 && !row.isMe
    ensures row.medal == Some("Gold") <==> index == 0 && !row.isMe
    ensures row.medal == Some("Silver") <==> index == 1 && !row.isMe
    ensures row.medal == Some("Bronze") <==> index == 2 && !row.isMe
  {
    var rank := index + 1;
    var isMe := profiles[index].userId == userId;
    var medal :=
      if rank <= 3 && !isMe then
        Some(if rank == 1 then "Gold" else if rank == 2 then "Silver" else "Bronze")
      else None;
    Row(rank, isMe, RankBadge(rank), medal)
  }

  /** `profiles.map((p, index) => …)`: one row per profile, in order. */
  function Rows(profiles: seq<Profile>, userId: string): (rows: seq<Row>)
    ensures |rows| == |profiles|
    ensures forall k :: 0 <= k < |rows| ==> rows[k] == RowAt(profiles, userId, k)
  {
    seq(|profiles|, k requires 0 <= k < |profiles| => RowAt(profiles, userId, k))
  }

  /** Across the whole board: the ranks run 1..n in order, each medal label
      is shown on at most one row, only the first row can carry the crown,
      and the viewer's own rows carry no label. */
  lemma RowsLabelTopThree(profiles: seq<Profile>, userId: string)
    ensures var rows := Rows(profiles, userId);
      && (forall k :: 0 <= k < |rows| ==> rows[k].rank == k + 1)
      && (forall k, l :: 0 <= k < l < |rows| && rows[k].medal.Some? ==> rows[k].medal != rows[l].medal)
      && (forall k :: 0 <= k < |rows| && rows[k].badge == Crown ==> k == 0)
      && (forall k :: 0 <= k < |rows| && rows[k].isMe ==> rows[k].medal.None?)
  {
    var rows := Rows(profiles, userId);
    forall k, l | 0 <= k < l < |rows| && rows[k].medal.Some?
      ensures rows[k].medal != rows[l].medal
    {
      assert rows[k] == RowAt(profiles, userId, k) && rows[l] == RowAt(profiles, userId, l);
    }
  }

  /** On a board sorted by points, a better rank never has fewer points. */
  lemma RanksFollowPoints(profiles: seq<Profile>, userId: string, k: nat, l: nat)
    requires ByPointsDesc(profiles)
    requires k < |profiles| && l < |profiles|
    requires Rows(profiles, userId)[k].rank < Rows(profiles, userId)[l].rank
    ensures profiles[k].totalPoints >= profiles[l].totalPoints
  {
  }

  /** Line 146, `!profiles.slice(0, 5).some(p => p.userId === userId)`: the
      bar shows when the viewer's first profile is missing or lies past the
      first five. */
  function ShowPinnedBar(profiles: seq<Profile>, userId: string): (shown: bool)
    ensures shown <==> FindIndex(profiles, userId) == -1 || FindIndex(profiles, userId) >= 5
  {
    !exists k :: 0 <= k < |profiles| && k < 5 && profiles[k].userId == userId
  }

  /** The pinned bar is shown exactly when the viewer's rank is `-` or worse
      than fifth. */
  lemma PinnedBarWhenOutsideTopFive(profiles: seq<Profile>, userId: string)
    ensures ShowPinnedBar(profiles, userId) <==>
      (UserRank(profiles, userId) == Dash || UserRank(profiles, userId).n > 5)
  {
    var rank := UserRank(profiles, userId);
    if rank.Position? && rank.n <= 5 {
      assert profiles[rank.n - 1].userId == userId;
    }
  }
}
