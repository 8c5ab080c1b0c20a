/** The owner-only feedback statistics: how many 1-4 star reviews a
    business has, their mean, how they spread over the five ratings, and
    how many arrived on each of the last 30 days. Times are whole seconds
    since the epoch; a day is a UTC calendar day, the date part of
    toISOString. */
module Analytics {
  import opened Js
  import Auth

  const DaySeconds: nat := 86400
  const WindowDays: nat := 30

  /** The columns of a businesses row the handlers read. */
  datatype Business = Business(id: nat, slug: string, name: string, userId: int)

  /** A row of the reviews table. */
  datatype Review = Review(id: nat, businessId: nat, rating: int, name: Value, comments: Value, at: int)

  /** The UTC day of a time: Dafny's division floors for a positive
      divisor, as the calendar does before the epoch too. */
  function Day(at: int): int
  {
    at / DaySeconds
  }

  /** The rows every statement selects: this business, rating below 5. */
  function Feedback(reviews: seq<Review>, businessId: nat): (r: seq<Review>)
    ensures |r| <= |reviews|
    ensures forall x :: x in r <==> x in reviews && x.businessId == businessId && x.rating < 5
    ensures forall i :: 0 <= i < |r| ==> r[i].rating < 5 && r[i].businessId == businessId
  {
    if |reviews| == 0 then []
    else
      var rest := Feedback(reviews[1..], businessId);
      var x := reviews[0];
      if x.businessId == businessId && x.rating < 5 then [x] + rest else rest
  }

  /** The ratings of the rows, in order. */
  function Ratings(rows: seq<Review>): (ks: seq<int>)
    ensures |ks| == |rows|
    ensures forall i :: 0 <= i < |rows| ==> ks[i] == rows[i].rating
  {
    seq(|rows|, i requires 0 <= i < |rows| => rows[i].rating)
  }

  /** The count map a `forEach` builds: each key's count, starting from
      `init` (0 for keys not in it), plus one per occurrence in ks. */
  function Tally(init: map<int, nat>, ks: seq<int>): map<int, nat>
    decreases |ks|
  {
    if |ks| == 0 then init
    else
      var m := Tally(init, ks[..|ks| - 1]);
      var k := ks[|ks| - 1];
      m[k := (if k in m then m[k] else 0) + 1]
  }

  function Start(init: map<int, nat>, k: int): nat
  {
    if k in init then init[k] else 0
  }

  /** A tally holds the keys it started with and those it met, and each
      count is the starting count plus the number of occurrences. */
  lemma {:induction false} TallyCounts(init: map<int, nat>, ks: seq<int>)
    ensures forall k :: k in Tally(init, ks) <==> k in init || k in ks
    ensures forall k :: k in Tally(init, ks) ==> Tally(init, ks)[k] == Start(init, k) + multiset(ks)[k]
    decreases |ks|
  {
    if |ks| > 0 {
      var front := ks[..|ks| - 1];
      var k := ks[|ks| - 1];
      TallyCounts(init, front);
      assert ks == front + [k];
      assert multiset(ks) == multiset(front) + multiset{k};
      forall j ensures j in ks <==> j in front || j == k {
        if j in ks {
          var i :| 0 <= i < |ks| && ks[i] == j;
          if i < |ks| - 1 { assert front[i] == j; }
        }
      }
    }
  }

  /** The distribution's starting object: keys 1 to 5, all zero. */
  const Zeroes: map<int, nat> := map[1 := 0, 2 := 0, 3 := 0, 4 := 0, 5 := 0]

  /** `ratingDistribution` after the `forEach`. */
  function Distribution(rows: seq<Review>): (d: map<int, nat>)
    ensures forall k :: 1 <= k <= 5 ==> k in d
    ensures forall k :: k in d ==> d[k] == multiset(Ratings(rows))[k]
  {
    TallyCounts(Zeroes, Ratings(rows));
    Tally(Zeroes, Ratings(rows))
  }

  /** The sum of the counts of the keys lo .. lo + n - 1. */
  function SumRange(ks: seq<int>, lo: int, n: nat): nat
  {
    if n == 0 then 0 else SumRange(ks, lo, n - 1) + multiset(ks)[lo + n - 1]
  }

  /** Counts over a run of consecutive keys add up to at most the number of
      elements, and to exactly that when every element lies in the run. */
  lemma {:induction false} SumRangeBound(ks: seq<int>, lo: int, n: nat)
    ensures SumRange(ks, lo, n) <= |ks|
    ensures (forall i :: 0 <= i < |ks| ==> lo <= ks[i] < lo + n) ==> SumRange(ks, lo, n) == |ks|
    decreases |ks|
  {
    if |ks| == 0 {
      SumRangeNone(ks, lo, n);
    } else {
      var front := ks[..|ks| - 1];
      var e := ks[|ks| - 1];
      assert ks == front + [e];
      SumRangeBound(front, lo, n);
      SumRangeStep(front, e, lo, n);
      if forall i :: 0 <= i < |ks| ==> lo <= ks[i] < lo + n {
        assert forall i :: 0 <= i < |front| ==> front[i] == ks[i];
      }
    }
  }

  /** One more element adds one to the run that holds it and nothing to
      the others. */
  lemma {:induction false} SumRangeStep(ks: seq<int>, e: int, lo: int, n: nat)
    ensures SumRange(ks + [e], lo, n) == SumRange(ks, lo, n) + (if lo <= e < lo + n then 1 else 0)
    decreases n
  {
    assert multiset(ks + [e]) == multiset(ks) + multiset{e};
    if n > 0 {
      SumRangeStep(ks, e, lo, n - 1);
    }
  }

  /** The counts of the five ratings add up to the number of reviews, and
      the count for 5 stays 0 over the rows the statements select. */
  lemma DistributionSums(rows: seq<Review>)
    requires forall i :: 0 <= i < |rows| ==> 1 <= rows[i].rating < 5
    ensures var d := Distribution(rows);
            d[1] + d[2] + d[3] + d[4] + d[5] == |rows| && d[5] == 0
  {
    var ks := Ratings(rows);
    SumRangeBound(ks, 1, 5);
    SumRangeBound(ks, 5, 1);
    assert SumRange(ks, 1, 1) == multiset(ks)[1];
    assert SumRange(ks, 1, 2) == multiset(ks)[1] + multiset(ks)[2];
    assert SumRange(ks, 1, 3) == multiset(ks)[1] + multiset(ks)[2] + multiset(ks)[3];
    assert SumRange(ks, 1, 4) == SumRange(ks, 1, 3) + multiset(ks)[4];
    assert SumRange(ks, 1, 5) == SumRange(ks, 1, 4) + multiset(ks)[5];
    assert multiset(ks)[5] == SumRange(ks, 5, 1);
    assert forall i :: 0 <= i < |ks| ==> !(5 <= ks[i] < 6);
    assert SumRange(ks, 5, 1) == 0 by {
      SumRangeNone(ks, 5, 1);
    }
  }

  /** A run that holds no element counts 0. */
  lemma {:induction false} SumRangeNone(ks: seq<int>, lo: int, n: nat)
    requires forall i :: 0 <= i < |ks| ==> !(lo <= ks[i] < lo + n)
    ensures SumRange(ks, lo, n) == 0
    decreases n
  {
    if n > 0 {
      SumRangeNone(ks, lo, n - 1);
      assert lo + n - 1 !in ks;
    }
  }

  function RatingSum(rows: seq<Review>): int
  {
    if |rows| == 0 then 0 else RatingSum(rows[..|rows| - 1]) + rows[|rows| - 1].rating
  }

  /** The mean rating before rounding; 0 when there are no reviews. */
  function Average(rows: seq<Review>): (a: real)
    ensures |rows| == 0 ==> a == 0.0
    ensures |rows| > 0 ==> a * |rows| as real == RatingSum(rows) as real
  {
    if |rows| > 0 then RatingSum(rows) as real / |rows| as real else 0.0
  }

  /** Ratings from 1 to 4 have a mean from 1 to 4. */
  lemma AverageBounds(rows: seq<Review>)
    requires |rows| > 0 && forall i :: 0 <= i < |rows| ==> 1 <= rows[i].rating <= 4
    ensures 1.0 <= Average(rows) <= 4.0
  {
    RatingSumBounds(rows);
    QuotientBounds(RatingSum(rows) as real, |rows| as real);
  }

  /** A quotient of s by n > 0 with n <= s <= 4n lies between 1 and 4. */
  lemma QuotientBounds(s: real, n: real)
    requires n > 0.0 && n <= s <= 4.0 * n
    ensures 1.0 <= s / n <= 4.0
  {
  }

  lemma {:induction false} RatingSumBounds(rows: seq<Review>)
    requires forall i :: 0 <= i < |rows| ==> 1 <= rows[i].rating <= 4
    ensures |rows| <= RatingSum(rows) <= 4 * |rows|
    decreases |rows|
  {
    if |rows| > 0 {
      RatingSumBounds(rows[..|rows| - 1]);
    }
  }

  /** Each count as a percentage of the total; all 0 without reviews. */
  function Percentages(counts: map<int, nat>, total: nat): (p: map<int, real>)
    ensures p.Keys == counts.Keys
    ensures total == 0 ==> forall k :: k in p ==> p[k] == 0.0
    ensures total > 0 ==> forall k :: k in p ==> p[k] * total as real == counts[k] as real * 100.0
  {
    map k | k in counts :: if total > 0 then (counts[k] as real / total as real) * 100.0 else 0.0
  }

  /** One point of the chart. */
  datatype Point = Point(day: int, count: nat)

  /** The review's time is on or after the same moment 30 days back. */
  predicate Recent(r: Review, now: int)
  {
    r.at >= now - WindowDays * DaySeconds
  }

  function RecentDays(rows: seq<Review>, now: int): (ds: seq<int>)
    ensures |ds| <= |rows|
  {
    if |rows| == 0 then []
    else RecentDays(rows[..|rows| - 1], now) + (if Recent(rows[|rows| - 1], now) then [Day(rows[|rows| - 1].at)] else [])
  }

  /** `reviewsOverTime`: recent reviews counted per day. */
  function PerDay(rows: seq<Review>, now: int): (m: map<int, nat>)
    ensures forall d :: d in m ==> m[d] == multiset(RecentDays(rows, now))[d]
    ensures forall d :: d !in m ==> multiset(RecentDays(rows, now))[d] == 0
  {
    TallyCounts(map[], RecentDays(rows, now));
    Tally(map[], RecentDays(rows, now))
  }

  /** The 30 points for today-29 .. today, each day's count or 0. */
  method TimeSeries(rows: seq<Review>, now: int) returns (s: seq<Point>)
    ensures |s| == WindowDays
    ensures forall j :: 0 <= j < |s| ==> s[j].day == Day(now) - 29 + j
    ensures forall j :: 0 <= j < |s| ==> s[j].count == multiset(RecentDays(rows, now))[s[j].day]
  {
    var perDay := PerDay(rows, now);
    s := [];
    var i := 29;
    while i >= 0
      invariant -1 <= i <= 29
      invariant |s| == 29 - i
      invariant forall j :: 0 <= j < |s| ==> s[j].day == Day(now) - 29 + j
      invariant forall j :: 0 <= j < |s| ==> s[j].count == multiset(RecentDays(rows, now))[s[j].day]
    {
      var day := Day(now) - i;
      var count := if day in perDay then perDay[day] else 0;
      s := s + [Point(day, count)];
      i := i - 1;
    }
  }

  function SeriesTotal(s: seq<Point>): nat
  {
    if |s| == 0 then 0 else SeriesTotal(s[..|s| - 1]) + s[|s| - 1].count
  }

  /** The chart never shows more reviews than the total. */
  lemma SeriesWithinTotal(rows: seq<Review>, now: int, s: seq<Point>)
    requires |s| == WindowDays
    requires forall j :: 0 <= j < |s| ==> s[j].day == Day(now) - 29 + j
    requires forall j :: 0 <= j < |s| ==> s[j].count == multiset(RecentDays(rows, now))[s[j].day]
    ensures SeriesTotal(s) <= |rows|
  {
    var ds := RecentDays(rows, now);
    SeriesIsSumRange(ds, Day(now) - 29, s, |s|);
    assert s[..|s|] == s;
    SumRangeBound(ds, Day(now) - 29, |s|);
    assert |ds| <= |rows|;
  }

  lemma {:induction false} SeriesIsSumRange(ds: seq<int>, lo: int, s: seq<Point>, n: nat)
    requires n <= |s|
    requires forall j :: 0 <= j < |s| ==> s[j].day == lo + j && s[j].count == multiset(ds)[s[j].day]
    ensures SeriesTotal(s[..n]) == SumRange(ds, lo, n)
    decreases n
  {
    if n > 0 {
      SeriesIsSumRange(ds, lo, s, n - 1);
      assert s[..n][..n - 1] == s[..n - 1];
    }
  }

  /** The aggregate block of both handlers. */
  datatype Stats = Stats(total: nat, average: real, counts: map<int, nat>, percentages: map<int, real>, series: seq<Point>)

  /** What the handlers report about rows: their number, mean,
      distribution and percentages, and the 30 days ending today with the
      number of recent rows on each. */
  predicate Summarizes(st: Stats, rows: seq<Review>, now: int)
  {
    && st.total == |rows|
    && st.average == Average(rows)
    && st.counts == Distribution(rows)
    && st.percentages == Percentages(st.counts, st.total)
    && |st.series| == WindowDays
    && (forall j :: 0 <= j < |st.series| ==> st.series[j].day == Day(now) - 29 + j)
    && (forall j :: 0 <= j < |st.series| ==> st.series[j].count == multiset(RecentDays(rows, now))[st.series[j].day])
  }

  method Aggregate(rows: seq<Review>, now: int) returns (st: Stats)
    ensures st.total == |rows|
    ensures st.average == Average(rows)
    ensures st.counts == Distribution(rows)
    ensures st.percentages == Percentages(st.counts, st.total)
    ensures |st.series| == WindowDays && SeriesTotal(st.series) <= st.total
    ensures forall j :: 0 <= j < |st.series| ==> st.series[j].day == Day(now) - 29 + j
    ensures Summarizes(st, rows, now)
  {
    var counts := Distribution(rows);
    var series := TimeSeries(rows, now);
    SeriesWithinTotal(rows, now, series);
    st := Stats(|rows|, Average(rows), counts, Percentages(counts, |rows|), series);
  }

  /** Index of the business with this slug, or -1. */
  function FindSlug(store: seq<Business>, slug: string): (i: int)
    ensures -1 <= i < |store|
    ensures i == -1 <==> forall k :: 0 <= k < |store| ==> store[k].slug != slug
    ensures i >= 0 ==> store[i].slug == slug && forall k :: 0 <= k < i ==> store[k].slug != slug
  {
    FirstWith(store, (b: Business) => b.slug, slug)
  }

  /** `business.user_id !== user.userId`, a strict comparison of the row's
      number with the token's claim. */
  predicate Owns(b: Business, userId: Value)
  {
    userId == Num(b.userId as real)
  }

  /** The common guards of both handlers, in order. */
  datatype Gate =
    | NotGet
    | AuthFailed
    | NotAuthenticated
    | SlugRequired
    | UnknownBusiness
    | AccessDenied
    | Open(business: Business)

  function GateStatus(g: Gate): nat
  {
    match g
    case NotGet => 405
    case AuthFailed => 500
    case NotAuthenticated => 401
    case SlugRequired => 400
    case UnknownBusiness => 404
    case AccessDenied => 403
    case Open(_) => 200
  }

  /** `auth` is requireAuth's result: an error it throws lands in the
      catch block (500); a user is compared by the token's userId claim. */
  function Guard(httpMethod: string, auth: Auth.AuthResult, slug: string, store: seq<Business>): (g: Gate)
    ensures g == NotGet <==> httpMethod != "GET"
    ensures g == AuthFailed <==> httpMethod == "GET" && auth.AuthError?
    ensures g == NotAuthenticated <==> httpMethod == "GET" && auth.Anonymous?
    ensures g == SlugRequired <==> httpMethod == "GET" && auth.Authenticated? && slug == ""
    ensures g == UnknownBusiness <==>
              httpMethod == "GET" && auth.Authenticated? && slug != "" && FindSlug(store, slug) < 0
    ensures g == AccessDenied <==>
              && httpMethod == "GET" && auth.Authenticated? && slug != "" && FindSlug(store, slug) >= 0
              && !Owns(store[FindSlug(store, slug)], auth.claims.userId)
    ensures g.Open? <==>
              && httpMethod == "GET" && auth.Authenticated? && slug != "" && FindSlug(store, slug) >= 0
              && Owns(store[FindSlug(store, slug)], auth.claims.userId)
    ensures g.Open? ==> g.business.slug == slug && Owns(g.business, auth.claims.userId) && g.business in store
  {
    if httpMethod != "GET" then NotGet
    else if auth.AuthError? then AuthFailed
    else if auth.Anonymous? then NotAuthenticated
    else if slug == "" then SlugRequired
    else
      var i := FindSlug(store, slug);
      if i < 0 then UnknownBusiness
      else if !Owns(store[i], auth.claims.userId) then AccessDenied
      else Open(store[i])
  }

  /** Nobody but the owner gets past the guards. */
  lemma OnlyOwnerSees(httpMethod: string, auth: Auth.AuthResult, slug: string, store: seq<Business>)
    requires auth.Authenticated? ==> forall b :: b in store && b.slug == slug ==> !Owns(b, auth.claims.userId)
    ensures !Guard(httpMethod, auth, slug, store).Open?
  {
  }

  /** Which database statement throws, if one does: the business lookup,
      or the reviews statement that runs once the owner is let through.
      Either throw ends in the handler's catch block, which answers 500. */
  datatype Fault = NoFault | LookupFails | ReviewsFail

  /** The request gets as far as the business lookup. */
  predicate ReachesLookup(httpMethod: string, auth: Auth.AuthResult, slug: string)
  {
    httpMethod == "GET" && auth.Authenticated? && slug != ""
  }

  /** Failed is the catch block's 500 'Internal server error'. */
  datatype Reply = Refused(gate: Gate) | Failed | Report(businessName: string, stats: Stats)

  /** The analytics endpoint. `fault` says which database statement throws. */
  method AnalyticsRoute(httpMethod: string, auth: Auth.AuthResult, slug: string,
                        store: seq<Business>, reviews: seq<Review>, now: int, fault: Fault) returns (reply: Reply)
    ensures httpMethod == "GET" && auth.AuthError? ==> reply == Refused(AuthFailed) && GateStatus(reply.gate) == 500
    ensures reply == Failed <==>
              || (ReachesLookup(httpMethod, auth, slug) && fault == LookupFails)
              || (Guard(httpMethod, auth, slug, store).Open? && fault == ReviewsFail)
    ensures reply.Refused? <==>
              !Guard(httpMethod, auth, slug, store).Open? && !(ReachesLookup(httpMethod, auth, slug) && fault == LookupFails)
    ensures reply.Refused? ==> reply.gate == Guard(httpMethod, auth, slug, store)
    ensures reply.Report? <==> Guard(httpMethod, auth, slug, store).Open? && fault == NoFault
    ensures reply.Report? ==>
              var b := Guard(httpMethod, auth, slug, store).business;
              && reply.businessName == b.name
              && reply.stats.total == |Feedback(reviews, b.id)|
              && reply.stats.counts == Distribution(Feedback(reviews, b.id))
              && Summarizes(reply.stats, Feedback(reviews, b.id), now)
  {
    var g := Guard(httpMethod, auth, slug, store);
    if ReachesLookup(httpMethod, auth, slug) && fault == LookupFails {
      return Failed;
    }
    if !g.Open? {
      return Refused(g);
    }
    if fault == ReviewsFail {
      return Failed;
    }
    var stats := Aggregate(Feedback(reviews, g.business.id), now);
    reply := Report(g.business.name, stats);
  }
}
