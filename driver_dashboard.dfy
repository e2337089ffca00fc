/**
 * The driver dashboard: the completed-ride count, the earnings summed over the same rides, the
 * average rating with its empty-case guard, and the online toggle, whose button always offers
 * the opposite of the state it last showed.
 */
module DriverDashboard {
  import opened Wrappers
  import opened Documents
  import opened RemoteStore
  import opened RideStatus
  import opened Auth
  import opened Queries
  import RideRequests

  /** A ride credited to the driver: its `driverId` is the driver's id and its status "completed". */
  predicate CompletedBy(d: Doc, uid: string) {
    GetString(d, driverId) == Some(uid) && GetString(d, status) == Some(Code(Completed))
  }

  /** A rating given to the driver. */
  predicate RatingFor(d: Doc, uid: string) {
    GetString(d, driverId) == Some(uid)
  }

  /** The filter of the completed-rides query (`driverId` and `status` equality). */
  function CompletedQuery(uid: string): Doc -> bool {
    d => CompletedBy(d, uid)
  }

  /** The filter of the ratings query (`driverId` equality on `rideRatings`). */
  function RatingsQuery(uid: string): Doc -> bool {
    d => RatingFor(d, uid)
  }

  /** A numeric field as the dashboard adds it up: a missing or non-numeric value counts as 0.0. */
  function Amount(d: Doc, k: Field): real {
    GetDouble(d, k).GetOr(0.0)
  }

  /** The sum of a numeric field over query results. */
  function SumOf(docs: seq<(string, Doc)>, k: Field): real {
    if docs == [] then 0.0 else SumOf(docs[..|docs| - 1], k) + Amount(docs[|docs| - 1].1, k)
  }

  /** Adding up two lists one after the other. */
  lemma {:induction false} SumOfAppend(u: seq<(string, Doc)>, v: seq<(string, Doc)>, k: Field)
    ensures SumOf(u + v, k) == SumOf(u, k) + SumOf(v, k)
  {
    if v == [] {
      assert u + v == u;
    } else {
      var init := v[..|v| - 1];
      assert (u + v)[..|u + v| - 1] == u + init;
      SumOfAppend(u, init, k);
    }
  }

  /** The sum is the sum without entry j plus that entry's amount. */
  lemma SumWithout(b: seq<(string, Doc)>, j: nat, k: Field)
    requires j < |b|
    ensures SumOf(b, k) == SumOf(b[..j] + b[j + 1..], k) + Amount(b[j].1, k)
  {
    var left, right := b[..j], b[j + 1..];
    assert b == (left + [b[j]]) + right;
    assert [b[j]][..0] == [];
    SumOfAppend(left + [b[j]], right, k);
    SumOfAppend(left, [b[j]], k);
    SumOfAppend(left, right, k);
  }

  /** Dropping entry j keeps the ids distinct. */
  lemma DropKeepsDistinct(b: seq<(string, Doc)>, j: nat)
    requires j < |b| && DistinctIds(b)
    ensures DistinctIds(b[..j] + b[j + 1..])
  {
    var b' := b[..j] + b[j + 1..];
    forall p, q | 0 <= p < q < |b'| ensures b'[p].0 != b'[q].0 {
      var p', q' := if p < j then p else p + 1, if q < j then q else q + 1;
      assert b'[p] == b[p'] && b'[q] == b[q'];
    }
  }

  /** With the same entries on both sides, dropping the last entry of `a` and its copy in `b` keeps them equal. */
  lemma DropSameEntry(a: seq<(string, Doc)>, b: seq<(string, Doc)>, j: nat, a': seq<(string, Doc)>, b': seq<(string, Doc)>)
    requires a != [] && DistinctIds(a) && DistinctIds(b)
    requires forall x :: x in a <==> x in b
    requires j < |b| && b[j] == a[|a| - 1]
    requires a' == a[..|a| - 1] && b' == b[..j] + b[j + 1..]
    ensures forall y :: y in a' <==> y in b'
  {
    var n, x := |a| - 1, a[|a| - 1];
    forall y | y in a' ensures y in b' {
      var i :| 0 <= i < n && a'[i] == y;
      assert a[i] == y && y.0 != x.0;
      assert y in b;
      var m :| 0 <= m < |b| && b[m] == y;
      if m < j { assert b'[m] == y; } else { assert b'[m - 1] == y; }
    }
    forall y | y in b' ensures y in a' {
      var m :| 0 <= m < |b'| && b'[m] == y;
      var m' := if m < j then m else m + 1;
      assert b[m'] == y && y.0 != x.0;
      assert y in a;
      var i :| 0 <= i < |a| && a[i] == y;
      assert a'[i] == y;
    }
  }

  /** A list with an entry has one in every list with the same entries. */
  lemma SameEntriesBothEmpty(a: seq<(string, Doc)>, b: seq<(string, Doc)>)
    requires forall x :: x in a <==> x in b
    ensures b != [] ==> a != []
  {
    if b != [] {
      assert b[0] in a;
    }
  }

  /** Lists with the same entries, each once, have the same sum: the order of a query result does not matter. */
  lemma {:induction false} SameEntriesSameSum(a: seq<(string, Doc)>, b: seq<(string, Doc)>, k: Field)
    requires DistinctIds(a) && DistinctIds(b)
    requires forall x :: x in a <==> x in b
    ensures SumOf(a, k) == SumOf(b, k)
    decreases |a|
  {
    SameEntriesBothEmpty(a, b);
    if a != [] {
      var n := |a| - 1;
      assert a[n] in b;
      var j :| 0 <= j < |b| && b[j] == a[n];
      var a', b' := a[..n], b[..j] + b[j + 1..];
      assert DistinctIds(a') by {
        forall p, q | 0 <= p < q < |a'| ensures a'[p].0 != a'[q].0 {
          assert a'[p] == a[p] && a'[q] == a[q];
        }
      }
      DropKeepsDistinct(b, j);
      DropSameEntry(a, b, j, a', b');
      SameEntriesSameSum(a', b', k);
      SumWithout(b, j, k);
    }
  }

  /**
   * The count and the earnings come from two runs of the same completed-rides query: both runs
   * cover the same rides, so the count and the earnings describe one set of rides, whatever order
   * each run returns.
   */
  lemma CountAndEarningsAgree(db: Db, uid: string, counted: seq<(string, Doc)>, summed: seq<(string, Doc)>)
    requires QueryResult(db, Rides, CompletedQuery(uid), counted)
    requires QueryResult(db, Rides, CompletedQuery(uid), summed)
    ensures |counted| == |summed| == |MatchingIds(db, Rides, CompletedQuery(uid))|
    ensures SumOf(counted, estimatedFare) == SumOf(summed, estimatedFare)
  {
    CountIsMatchingDocuments(db, Rides, CompletedQuery(uid), counted);
    CountIsMatchingDocuments(db, Rides, CompletedQuery(uid), summed);
    SameQuerySameEntries(db, Rides, CompletedQuery(uid), counted, summed);
    SameEntriesSameSum(counted, summed, estimatedFare);
  }

  lemma ScaledStep(n: real, lo: real, s: real, v: real)
    requires n * lo <= s && lo <= v
    ensures (n + 1.0) * lo <= s + v
  {
  }

  lemma ScaledQuotient(n: real, lo: real, s: real)
    requires n > 0.0 && n * lo <= s
    ensures lo <= s / n
  {
    assert s / n - lo == (s - n * lo) / n;
  }

  lemma ScaledQuotientAtMost(n: real, hi: real, s: real)
    requires n > 0.0 && s <= n * hi
    ensures s / n <= hi
  {
    assert hi - s / n == (n * hi - s) / n;
  }

  /** Values of `k` all at least `lo` give a sum of at least n * lo. */
  lemma {:induction false} SumAtLeast(docs: seq<(string, Doc)>, k: Field, lo: real)
    requires forall i :: 0 <= i < |docs| ==> lo <= Amount(docs[i].1, k)
    ensures |docs| as real * lo <= SumOf(docs, k)
  {
    if docs != [] {
      var init, n := docs[..|docs| - 1], |docs| - 1;
      forall i | 0 <= i < |init| ensures lo <= Amount(init[i].1, k) {
        assert init[i] == docs[i];
      }
      SumAtLeast(init, k, lo);
      ScaledStep(n as real, lo, SumOf(init, k), Amount(docs[n].1, k));
    }
  }

  /** Values of `k` all at most `hi` give a sum of at most n * hi. */
  lemma {:induction false} SumAtMost(docs: seq<(string, Doc)>, k: Field, hi: real)
    requires forall i :: 0 <= i < |docs| ==> Amount(docs[i].1, k) <= hi
    ensures SumOf(docs, k) <= |docs| as real * hi
  {
    if docs != [] {
      var init, n := docs[..|docs| - 1], |docs| - 1;
      forall i | 0 <= i < |init| ensures Amount(init[i].1, k) <= hi {
        assert init[i] == docs[i];
      }
      SumAtMost(init, k, hi);
      ScaledStep(n as real, -hi, -SumOf(init, k), -Amount(docs[n].1, k));
    }
  }

  /** The earnings loop: the fares of the completed rides added up in query order. */
  method TotalOf(docs: seq<(string, Doc)>, k: Field) returns (total: real)
    ensures total == SumOf(docs, k)
  {
    total := 0.0;
    for i := 0 to |docs|
      invariant total == SumOf(docs[..i], k)
    {
      assert docs[..i + 1][..i] == docs[..i];
      total := total + Amount(docs[i].1, k);
    }
    assert docs[..|docs|] == docs;
  }

  /** The rating shown: 0.0 with no ratings, otherwise their sum divided by their number. */
  method AverageRating(ratings: seq<(string, Doc)>) returns (average: real)
    ensures ratings == [] ==> average == 0.0
    ensures ratings != [] ==> average == SumOf(ratings, rating) / |ratings| as real
  {
    if ratings == [] {
      return 0.0;
    }
    var total := TotalOf(ratings, rating);
    average := total / |ratings| as real;
  }

  /** Ratings all within [lo, hi] give an average within [lo, hi]. */
  lemma AverageWithinBounds(ratings: seq<(string, Doc)>, lo: real, hi: real)
    requires ratings != []
    requires forall i :: 0 <= i < |ratings| ==> lo <= Amount(ratings[i].1, rating) <= hi
    ensures lo <= SumOf(ratings, rating) / |ratings| as real <= hi
  {
    var n, s := |ratings| as real, SumOf(ratings, rating);
    SumAtLeast(ratings, rating, lo);
    SumAtMost(ratings, rating, hi);
    ScaledQuotient(n, lo, s);
    ScaledQuotientAtMost(n, hi, s);
  }

  /** Earnings are never negative while every stored fare is non-negative. */
  lemma EarningsNonNegative(completed: seq<(string, Doc)>)
    requires forall i :: 0 <= i < |completed| ==> Amount(completed[i].1, estimatedFare) >= 0.0
    ensures SumOf(completed, estimatedFare) >= 0.0
  {
    SumAtLeast(completed, estimatedFare, 0.0);
  }

  /** The action the online button performs. */
  datatype Toggle = GoOnline | GoOffline

  /** `goOnline` / `goOffline`: nothing without a user; otherwise an update of `onlineStatus` alone. */
  function SetOnline(db: Db, uid: Option<string>, online: bool, net: bool): (r: (Db, bool))
    ensures !r.1 ==> r.0 == db
    ensures r.1 <==> uid.Some? && net && Path(Drivers, uid.value) in db
  {
    match uid
    case None => (db, false)
    case Some(id) => UpdateDoc(db, Path(Drivers, id), map[onlineStatus := Flag(online)], net)
  }

  /** A completed toggle stores the new flag and leaves every other field of the profile as it was. */
  lemma SetOnlineWritesFlagOnly(db: Db, id: string, online: bool, net: bool)
    requires SetOnline(db, Some(id), online, net).1
    ensures var d, d' := db[Path(Drivers, id)], SetOnline(db, Some(id), online, net).0[Path(Drivers, id)];
      && GetBoolean(d', onlineStatus) == Some(online)
      && (forall k :: k != onlineStatus ==> (k in d' <==> k in d) && (k in d ==> d'[k] == d[k]))
  {
  }

  /** Going online opens the request list to the driver, and going offline closes it. */
  lemma OnlineOpensRequests(db: Db, u: User, online: bool)
    requires Path(Drivers, u.uid) in db
    ensures var db' := SetOnline(db, Some(u.uid), online, true).0;
      RideRequests.OpenGate(Some(u), ReadDoc(db', Path(Drivers, u.uid), true)).Listening? <==> online
  {
    SetOnlineWritesFlagOnly(db, u.uid, online, true);
  }

  class DriverDashboardScreen {
    var welcomeName: string
    var shownOnline: bool
    var buttonLabel: string
    var labelSet: bool
    var onClick: Toggle
    var completedRides: int
    var earnings: real
    var averageRating: real

    /**
     * The click does the opposite of the online state shown. Once the screen has written the
     * button's label itself (after the profile or a toggle), the label names that action.
     */
    ghost predicate Valid()
      reads this
    {
      && (onClick == GoOffline <==> shownOnline)
      && (labelSet ==> (buttonLabel == "Go Offline" || buttonLabel == "Go Online"))
      && (labelSet ==> (buttonLabel == "Go Offline" <==> onClick == GoOffline))
    }

    /** Before the profile loads, the button goes online, whatever label the layout gives it. */
    constructor (layoutLabel: string)
      ensures Valid()
      ensures onClick == GoOnline && buttonLabel == layoutLabel && !shownOnline
    {
      welcomeName, shownOnline, buttonLabel, labelSet, onClick := "", false, layoutLabel, false, GoOnline;
      completedRides, earnings, averageRating := 0, 0.0, 0.0;
    }

    /** The profile read: a missing `onlineStatus` means offline and a missing name shows as "Driver". */
    method OnProfile(profile: Read)
      modifies this
      ensures profile.Found? ==> Valid() && shownOnline == GetBoolean(profile.doc, onlineStatus).GetOr(false)
      ensures profile.Found? ==> welcomeName == GetString(profile.doc, fullName).GetOr("Driver") && labelSet
      ensures profile.ReadFailed? ==> welcomeName == "Driver"
      ensures !profile.Found? ==> shownOnline == old(shownOnline) && buttonLabel == old(buttonLabel) && onClick == old(onClick)
      ensures !profile.Found? ==> labelSet == old(labelSet)
      ensures completedRides == old(completedRides) && earnings == old(earnings) && averageRating == old(averageRating)
    {
      match profile
      case Found(d) =>
        var online := GetBoolean(d, onlineStatus).GetOr(false);
        welcomeName := GetString(d, fullName).GetOr("Driver");
        shownOnline := online;
        buttonLabel := if online then "Go Offline" else "Go Online";
        labelSet := true;
        onClick := if online then GoOffline else GoOnline;
      case ReadFailed =>
        welcomeName := "Driver";
      case Missing =>
    }

    /**
     * The completed-rides count listener: the number of the driver's completed rides in the
     * store. A failed query has no listener, so the count stays as it was.
     */
    method OnCompletedRides(ghost db: Db, uid: string, result: Option<seq<(string, Doc)>>)
      requires result.Some? ==> QueryResult(db, Rides, CompletedQuery(uid), result.value)
      modifies this
      ensures result.Some? ==> completedRides == |MatchingIds(db, Rides, CompletedQuery(uid))|
      ensures result.None? ==> completedRides == old(completedRides)
      ensures earnings == old(earnings) && averageRating == old(averageRating)
      ensures welcomeName == old(welcomeName) && shownOnline == old(shownOnline)
      ensures buttonLabel == old(buttonLabel) && labelSet == old(labelSet) && onClick == old(onClick)
    {
      if result.Some? {
        CountIsMatchingDocuments(db, Rides, CompletedQuery(uid), result.value);
        completedRides := |result.value|;
      }
    }

    /**
     * The earnings listener, fed by its own run of the completed-rides query: the fares of the
     * driver's completed rides added up. A failed query leaves the earnings as they were.
     */
    method OnEarnings(ghost db: Db, uid: string, result: Option<seq<(string, Doc)>>)
      requires result.Some? ==> QueryResult(db, Rides, CompletedQuery(uid), result.value)
      modifies this
      ensures result.Some? ==> earnings == SumOf(result.value, estimatedFare)
      ensures result.None? ==> earnings == old(earnings)
      ensures completedRides == old(completedRides) && averageRating == old(averageRating)
      ensures welcomeName == old(welcomeName) && shownOnline == old(shownOnline)
      ensures buttonLabel == old(buttonLabel) && labelSet == old(labelSet) && onClick == old(onClick)
    {
      if result.Some? {
        earnings := TotalOf(result.value, estimatedFare);
      }
    }

    /**
     * The ratings listener: the average of the driver's ratings, 0.0 with none. A failed query
     * leaves the rating as it was.
     */
    method OnRatings(ghost db: Db, uid: string, result: Option<seq<(string, Doc)>>)
      requires result.Some? ==> QueryResult(db, RideRatings, RatingsQuery(uid), result.value)
      modifies this
      ensures result.Some? && result.value == [] ==> averageRating == 0.0
      ensures result.Some? ==> |result.value| == |MatchingIds(db, RideRatings, RatingsQuery(uid))|
      ensures result.Some? && result.value != [] ==> averageRating == SumOf(result.value, rating) / |result.value| as real
      ensures result.None? ==> averageRating == old(averageRating)
      ensures completedRides == old(completedRides) && earnings == old(earnings)
      ensures welcomeName == old(welcomeName) && shownOnline == old(shownOnline)
      ensures buttonLabel == old(buttonLabel) && labelSet == old(labelSet) && onClick == old(onClick)
    {
      if result.Some? {
        CountIsMatchingDocuments(db, RideRatings, RatingsQuery(uid), result.value);
        averageRating := AverageRating(result.value);
      }
    }

    /** A click performs the action on offer; once the write succeeds the screen flips to the other state. */
    method Click(store: Store, uid: Option<string>, net: bool) returns (ok: bool)
      requires Valid()
      modifies this, store
      ensures Valid()
      ensures (store.db, ok) == SetOnline(old(store.db), uid, old(onClick) == GoOnline, net)
      ensures ok ==> shownOnline == (old(onClick) == GoOnline) && onClick != old(onClick) && labelSet
      ensures ok ==> buttonLabel == (if shownOnline then "Go Offline" else "Go Online")
      ensures !ok ==> shownOnline == old(shownOnline) && onClick == old(onClick) && buttonLabel == old(buttonLabel)
      ensures !ok ==> labelSet == old(labelSet)
      ensures welcomeName == old(welcomeName)
    {
      var online := onClick == GoOnline;
      if uid.None? {
        return false;
      }
      ok := store.Update(Path(Drivers, uid.value), map[onlineStatus := Flag(online)], net);
      if ok {
        shownOnline := online;
        buttonLabel := if online then "Go Offline" else "Go Online";
        labelSet := true;
        onClick := if online then GoOffline else GoOnline;
      }
    }
  }
}
