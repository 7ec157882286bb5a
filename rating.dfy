/** The rating aggregator of App.tsx: merging one user's rating into a content item's
    list of rating entries (an existing entry is replaced where it stands, otherwise one
    is appended), the arithmetic mean of the merged list, and the details screen's
    lookup of the current user's own rating. */
module Rating {
  import opened Types
  import opened Lists

  function ByUser(userId: string): RatingEntry -> bool {
    (e: RatingEntry) => e.userId == userId
  }

  /** `findIndex(r => r.userId === userId)`; None plays the part of -1. */
  function FindIndex(rs: seq<RatingEntry>, userId: string): (r: Option<nat>)
    ensures r.Some? ==> r.value < |rs| && rs[r.value].userId == userId
    ensures r.Some? ==> forall j :: 0 <= j < r.value ==> rs[j].userId != userId
    ensures r.None? <==> forall j :: 0 <= j < |rs| ==> rs[j].userId != userId
  {
    FirstIndex(rs, ByUser(userId))
  }

  /** At most one entry per user: the aggregator's invariant. */
  ghost predicate UniqueUsers(rs: seq<RatingEntry>) {
    forall i, j :: 0 <= i < j < |rs| ==> rs[i].userId != rs[j].userId
  }

  /** The entry list after `userId` rates `rating`. */
  function Merge(rs: seq<RatingEntry>, userId: string, rating: int): (r: seq<RatingEntry>)
    ensures FindIndex(rs, userId).Some? ==>
      var i := FindIndex(rs, userId).value;
      && |r| == |rs|
      && r[i] == RatingEntry(userId, rating)
      && forall j :: 0 <= j < |rs| && j != i ==> r[j] == rs[j]
    ensures FindIndex(rs, userId).None? ==> r == rs + [RatingEntry(userId, rating)]
    ensures |r| >= 1
  {
    match FindIndex(rs, userId)
    case Some(i) => rs[i := RatingEntry(userId, rating)]
    case None => rs + [RatingEntry(userId, rating)]
  }

  /** The rating the user has given, if any (the first entry with that user id). */
  function RatingOf(rs: seq<RatingEntry>, userId: string): Option<int> {
    match FindIndex(rs, userId)
    case Some(i) => Some(rs[i].rating)
    case None => None
  }

  /** The details screen's `userRating`: the signed-in user's own rating, 0 when there
      is no user or no entry. */
  function UserRating(currentUser: Option<User>, rs: seq<RatingEntry>): (r: int)
    ensures currentUser.None? ==> r == 0
    ensures currentUser.Some? && RatingOf(rs, currentUser.value.id).None? ==> r == 0
    ensures currentUser.Some? && RatingOf(rs, currentUser.value.id).Some? ==>
              r == RatingOf(rs, currentUser.value.id).value
  {
    match currentUser
    case None => 0
    case Some(u) =>
      match RatingOf(rs, u.id)
      case Some(x) => x
      case None => 0
  }

  /** After a merge the user's own rating reads back as the value just given. */
  lemma MergeThenRatingOf(rs: seq<RatingEntry>, userId: string, rating: int)
    ensures RatingOf(Merge(rs, userId, rating), userId) == Some(rating)
  {
    var r := Merge(rs, userId, rating);
    match FindIndex(rs, userId)
    case Some(i) =>
      assert forall j :: 0 <= j < i ==> r[j] == rs[j];
      assert FindIndex(r, userId) == Some(i) by {
        FindIndexUnique(r, userId, i);
      }
    case None =>
      assert forall j :: 0 <= j < |rs| ==> r[j] == rs[j];
      FindIndexUnique(r, userId, |rs|);
  }

  lemma FindIndexUnique(rs: seq<RatingEntry>, userId: string, i: nat)
    requires i < |rs| && rs[i].userId == userId
    requires forall j :: 0 <= j < i ==> rs[j].userId != userId
    ensures FindIndex(rs, userId) == Some(i)
  {
    assert FindIndex(rs, userId).Some?;
  }

  /** Merging never touches another user's rating. */
  lemma MergeKeepsOthers(rs: seq<RatingEntry>, userId: string, rating: int, other: string)
    requires other != userId
    ensures RatingOf(Merge(rs, userId, rating), other) == RatingOf(rs, other)
  {
    var r := Merge(rs, userId, rating);
    assert forall j :: 0 <= j < |rs| ==> r[j].userId == rs[j].userId;
    assert forall j :: 0 <= j < |rs| && r[j].userId == other ==> r[j] == rs[j];
    match FindIndex(rs, other)
    case Some(k) =>
      FindIndexUnique(r, other, k);
    case None =>
      assert forall j :: 0 <= j < |r| ==> r[j].userId != other;
  }

  /** Merging keeps at most one entry per user, so a second rating by the same user
      replaces rather than duplicates. */
  lemma MergeKeepsUsersUnique(rs: seq<RatingEntry>, userId: string, rating: int)
    requires UniqueUsers(rs)
    ensures UniqueUsers(Merge(rs, userId, rating))
  {
    var r := Merge(rs, userId, rating);
    forall i, j | 0 <= i < j < |r| ensures r[i].userId != r[j].userId {
      assert forall k :: 0 <= k < |rs| ==> r[k].userId == rs[k].userId;
      if j == |rs| {
        assert FindIndex(rs, userId).None?;
      }
    }
  }

  /** Rating twice with the same value is the same as rating once. */
  lemma MergeIdempotent(rs: seq<RatingEntry>, userId: string, rating: int)
    ensures Merge(Merge(rs, userId, rating), userId, rating) == Merge(rs, userId, rating)
  {
    var r := Merge(rs, userId, rating);
    match FindIndex(rs, userId)
    case Some(i) =>
      FindIndexUnique(r, userId, i);
    case None =>
      FindIndexUnique(r, userId, |rs|);
  }

  /** `ratings.reduce((sum, r) => sum + r.rating, 0)`. */
  function Total(rs: seq<RatingEntry>): int {
    if rs == [] then 0 else rs[0].rating + Total(rs[1..])
  }

  /** The aggregate: the arithmetic mean of the entries' ratings. */
  function Average(rs: seq<RatingEntry>): (a: real)
    requires |rs| > 0
    ensures a * |rs| as real == Total(rs) as real
  {
    Total(rs) as real / |rs| as real
  }

  lemma {:induction false} TotalAppend(rs: seq<RatingEntry>, e: RatingEntry)
    ensures Total(rs + [e]) == Total(rs) + e.rating
  {
    if rs != [] {
      assert (rs + [e])[1..] == rs[1..] + [e];
      TotalAppend(rs[1..], e);
    }
  }

  lemma {:induction false} TotalUpdate(rs: seq<RatingEntry>, i: nat, e: RatingEntry)
    requires i < |rs|
    ensures Total(rs[i := e]) == Total(rs) - rs[i].rating + e.rating
  {
    if i > 0 {
      assert rs[i := e][1..] == rs[1..][i - 1 := e];
      TotalUpdate(rs[1..], i - 1, e);
    } else {
      assert rs[i := e][1..] == rs[1..];
    }
  }

  /** The aggregate after a merge: a replacement moves the mean by the rating's change
      over the unchanged count; an append adds one rating to the sum and one to the
      count. */
  lemma {:induction false} MergedAverage(rs: seq<RatingEntry>, userId: string, rating: int)
    ensures FindIndex(rs, userId).Some? ==>
      Average(Merge(rs, userId, rating))
        == Average(rs) + (rating - rs[FindIndex(rs, userId).value].rating) as real / |rs| as real
    ensures FindIndex(rs, userId).None? ==>
      Average(Merge(rs, userId, rating)) == (Total(rs) + rating) as real / (|rs| + 1) as real
  {
    match FindIndex(rs, userId)
    case Some(i) =>
      TotalUpdate(rs, i, RatingEntry(userId, rating));
      var m := Merge(rs, userId, rating);
      assert Total(m) == Total(rs) + (rating - rs[i].rating);
      DivideSum(Total(rs) as real, (rating - rs[i].rating) as real, |rs| as real);
    case None =>
      TotalAppend(rs, RatingEntry(userId, rating));
  }

  lemma DivideSum(a: real, d: real, n: real)
    requires n > 0.0
    ensures (a + d) / n == a / n + d / n
  {
  }

  ghost predicate RatingsWithin(rs: seq<RatingEntry>, lo: int, hi: int) {
    forall i :: 0 <= i < |rs| ==> lo <= rs[i].rating <= hi
  }

  lemma {:induction false} TotalWithin(rs: seq<RatingEntry>, lo: int, hi: int)
    requires RatingsWithin(rs, lo, hi)
    ensures lo * |rs| <= Total(rs) <= hi * |rs|
  {
    if rs != [] {
      TotalWithin(rs[1..], lo, hi);
      assert lo * |rs| == lo * |rs[1..]| + lo && hi * |rs| == hi * |rs[1..]| + hi;
    }
  }

  /** With every rating between lo and hi (1 and 10 from the star widget), so is the
      aggregate. */
  lemma AverageWithin(rs: seq<RatingEntry>, lo: int, hi: int)
    requires |rs| > 0 && RatingsWithin(rs, lo, hi)
    ensures lo as real <= Average(rs) <= hi as real
  {
    TotalWithin(rs, lo, hi);
    var n := |rs| as real;
    QuotientWithin(Total(rs) as real, n, lo as real, hi as real);
  }

  lemma QuotientWithin(t: real, n: real, lo: real, hi: real)
    requires n > 0.0 && lo * n <= t <= hi * n
    ensures lo <= t / n <= hi
  {
  }

  /** Merging an in-range rating into in-range ratings stays in range. */
  lemma MergeWithin(rs: seq<RatingEntry>, userId: string, rating: int, lo: int, hi: int)
    requires RatingsWithin(rs, lo, hi) && lo <= rating <= hi
    ensures RatingsWithin(Merge(rs, userId, rating), lo, hi)
  {
  }
}
