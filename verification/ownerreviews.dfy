/** The owner's reviews endpoint: behind the same guards as the analytics
    endpoint it answers with the statistics, with the insights summary, or
    with the list of 1-4 star reviews, newest first. */
module OwnerReviews {
  import opened Js
  import opened Analytics
  import Auth

  /** `analytics === 'true' || analytics === true`, and the same for insights. */
  predicate Flag(v: Value)
  {
    v == Str("true") || v == Bool(true)
  }

  /** A listed review: the row without its business id. */
  datatype Item = Item(id: nat, rating: int, name: Value, comments: Value, submittedAt: int)

  function ToItem(r: Review): Item
  {
    Item(r.id, r.rating, r.name, r.comments, r.at)
  }

  predicate NewestFirst(rows: seq<Review>)
  {
    forall i, j :: 0 <= i < j < |rows| ==> rows[i].at >= rows[j].at
  }

  /** Puts one row into a newest-first list. */
  function Insert(x: Review, rows: seq<Review>): (r: seq<Review>)
    requires NewestFirst(rows)
    ensures NewestFirst(r)
    ensures multiset(r) == multiset(rows) + multiset{x}
    ensures |r| == |rows| + 1
    ensures r[0] == x || (|rows| > 0 && r[0] == rows[0])
  {
    if |rows| == 0 then [x]
    else if x.at >= rows[0].at then [x] + rows
    else
      var tail := Insert(x, rows[1..]);
      assert rows == [rows[0]] + rows[1..];
      assert rows[0].at >= tail[0].at;
      [rows[0]] + tail
  }

  /** `ORDER BY submitted_at DESC`: the same rows, newest first. */
  function SortNewestFirst(rows: seq<Review>): (r: seq<Review>)
    ensures NewestFirst(r)
    ensures multiset(r) == multiset(rows)
    ensures |r| == |rows|
  {
    if |rows| == 0 then []
    else
      assert rows == [rows[0]] + rows[1..];
      Insert(rows[0], SortNewestFirst(rows[1..]))
  }

  datatype Reply =
    | Denied(gate: Gate)
    | Failed                                 // 500 'Internal server error', a statement threw
    | StatsReport(businessName: string, stats: Stats)
    | NoInsightsKey                          // 500 'OpenAI API key not configured'
    | NoRecentFeedback(businessName: string)  // 200, the fixed summary with no themes
    | InsightsGenerated(businessName: string) // the generated insights, not modelled
    | Listing(businessName: string, items: seq<Item>)

  /** The fixed insights for a business with no recent feedback. */
  const NoRecentSummary := "No reviews found in the last 30 days to analyze."

  /** The rows the insights statement selects: recent 1-4 star feedback. */
  function RecentFeedback(rows: seq<Review>, now: int): (r: seq<Review>)
    ensures forall x :: x in r <==> x in rows && Recent(x, now)
  {
    if |rows| == 0 then []
    else (if Recent(rows[0], now) then [rows[0]] else []) + RecentFeedback(rows[1..], now)
  }

  /** The endpoint. `hasKey` says whether the insights API key is set and
      `fault` which database statement throws: the business lookup, or the
      one reviews statement the chosen branch runs. */
  method ReviewsRoute(httpMethod: string, auth: Auth.AuthResult, slug: string, analytics: Value, insights: Value,
                      hasKey: bool, store: seq<Business>, reviews: seq<Review>, now: int, fault: Fault)
    returns (reply: Reply)
    ensures httpMethod == "GET" && auth.AuthError? ==> reply == Denied(AuthFailed)
    ensures var g := Guard(httpMethod, auth, slug, store);
            var lookupThrows := ReachesLookup(httpMethod, auth, slug) && fault == LookupFails;
            var runsStatement := !(!Flag(analytics) && Flag(insights) && !hasKey);
            && (reply == Reply.Failed <==> lookupThrows || (g.Open? && fault == ReviewsFail && runsStatement))
            && (reply.Denied? <==> !g.Open? && !lookupThrows)
            && (reply.Denied? ==> reply.gate == g)
            && (g.Open? && fault != LookupFails ==>
                  var rows := Feedback(reviews, g.business.id);
                  && (reply.StatsReport? <==> Flag(analytics) && fault == NoFault)
                  && (reply.StatsReport? ==>
                        && reply.businessName == g.business.name
                        && reply.stats.total == |rows| && reply.stats.counts == Distribution(rows)
                        && Summarizes(reply.stats, rows, now))
                  && (reply.InsightsGenerated? ==> reply.businessName == g.business.name)
                  && (!Flag(analytics) && Flag(insights) && !hasKey ==> reply == NoInsightsKey)
                  && (!Flag(analytics) && Flag(insights) && hasKey && fault == NoFault ==>
                        (reply == NoRecentFeedback(g.business.name) <==> forall x :: x in rows ==> !Recent(x, now)))
                  && (reply.Listing? <==> !Flag(analytics) && !Flag(insights) && fault == NoFault)
                  && (reply.Listing? ==>
                        && reply.businessName == g.business.name
                        && |reply.items| == |rows|
                        && exists sorted :: NewestFirst(sorted) && multiset(sorted) == multiset(rows)
                             && |sorted| == |reply.items|
                             && forall i :: 0 <= i < |sorted| ==> reply.items[i] == ToItem(sorted[i])))
  {
    var g := Guard(httpMethod, auth, slug, store);
    if ReachesLookup(httpMethod, auth, slug) && fault == LookupFails {
      return Reply.Failed;
    }
    if !g.Open? {
      return Denied(g);
    }
    var rows := Feedback(reviews, g.business.id);
    if Flag(analytics) {
      if fault == ReviewsFail {
        return Reply.Failed;
      }
      var stats := Aggregate(rows, now);
      return StatsReport(g.business.name, stats);
    }
    if Flag(insights) {
      if !hasKey {
        return NoInsightsKey;
      }
      if fault == ReviewsFail {
        return Reply.Failed;
      }
      var recent := RecentFeedback(rows, now);
      if |recent| == 0 {
        assert forall x :: x in rows ==> !Recent(x, now);
        return NoRecentFeedback(g.business.name);
      }
      assert recent[0] in rows && Recent(recent[0], now);
      return InsightsGenerated(g.business.name);
    }
    if fault == ReviewsFail {
      return Reply.Failed;
    }
    var sorted := SortNewestFirst(rows);
    var items := seq(|sorted|, i requires 0 <= i < |sorted| => ToItem(sorted[i]));
    reply := Listing(g.business.name, items);
  }

  /** The list holds exactly the business's 1-4 star reviews: a 5-star row
      or another business's row is never listed. */
  lemma ListedAreFeedback(rows: seq<Review>, businessId: nat, x: Review)
    requires x in SortNewestFirst(Feedback(rows, businessId))
    ensures x in rows && x.businessId == businessId && x.rating < 5
  {
    assert x in multiset(SortNewestFirst(Feedback(rows, businessId)));
  }
}
