/** The stand-alone setup page: from a pasted Maps URL, an optional name
    and an API key it finds the business's place id with the Places
    library in the browser, and shows the place id, name, category and
    review link. The Places library calls are parameters. */
module Setup {
  import opened Js
  import opened Text
  import Uri
  import Maps

  const ReviewBase := "https://search.google.com/local/writereview?placeid="

  const GuardMessage := "Please provide both the Google Maps URL and an API key."

  const UnresolvedMessage := "Could not resolve a Place ID. Try a clearer name or a different Maps URL."

  /** `typeof s === "string" ? s.trim() : ""`. */
  function Sanitize(v: Value): (r: string)
    ensures v.Str? ==> r == Trim(v.s)
    ensures !v.Str? ==> r == ""
    ensures |r| == 0 || (!IsSpace(r[0]) && !IsSpace(r[|r| - 1]))
  {
    if v.Str? then Trim(v.s) else ""
  }

  // ---------------------------------------------------------------------
  // The query list

  /** `arr.indexOf(v)` for a v that occurs. */
  function FirstIndex<T(==)>(arr: seq<T>, v: T): (i: nat)
    requires v in arr
    ensures i < |arr| && arr[i] == v
    ensures forall k :: 0 <= k < i ==> arr[k] != v
  {
    if arr[0] == v then 0 else 1 + FirstIndex(arr[1..], v)
  }

  /** `arr.filter((v, i) => arr.indexOf(v) === i)` over the first n items. */
  function KeepFirst<T(==)>(arr: seq<T>, n: nat): (r: seq<T>)
    requires n <= |arr|
    ensures forall k :: 0 <= k < |r| ==> r[k] in arr[..n]
    decreases n
  {
    if n == 0 then []
    else
      var prev := KeepFirst(arr, n - 1);
      if FirstIndex(arr, arr[n - 1]) == n - 1 then prev + [arr[n - 1]] else prev
  }

  ghost predicate Distinct<T>(r: seq<T>)
  {
    forall i, j :: 0 <= i < j < |r| ==> r[i] != r[j]
  }

  /** The de-duplicated list holds every item of the first n once, in the
      order of first occurrence. */
  lemma {:induction false} KeepFirstProperties<T>(arr: seq<T>, n: nat)
    requires n <= |arr|
    ensures var r := KeepFirst(arr, n);
            && Distinct(r)
            && (forall v :: v in r <==> v in arr[..n])
            && (forall i, j :: 0 <= i < j < |r| ==> FirstIndex(arr, r[i]) < FirstIndex(arr, r[j]))
            && (forall k :: 0 <= k < |r| ==> FirstIndex(arr, r[k]) < n)
  {
    if n > 0 {
      KeepFirstProperties(arr, n - 1);
      var prev := KeepFirst(arr, n - 1);
      var v := arr[n - 1];
      assert arr[..n] == arr[..n - 1] + [v];
      if FirstIndex(arr, v) == n - 1 {
        assert v !in arr[..n - 1];
        forall u ensures u in KeepFirst(arr, n) <==> u in arr[..n] {
          assert KeepFirst(arr, n) == prev + [v];
        }
      } else {
        var f := FirstIndex(arr, v);
        assert f < n - 1;
        assert v == arr[..n - 1][f];
      }
    }
  }

  function Dedup<T(==)>(arr: seq<T>): seq<T>
  {
    KeepFirst(arr, |arr|)
  }

  /** The non-empty items, in order. */
  function NonEmpty(items: seq<string>): (r: seq<string>)
    ensures forall k :: 0 <= k < |r| ==> |r[k]| > 0
    ensures forall v :: v in r <==> v in items && |v| > 0
  {
    if |items| == 0 then []
    else (if |items[0]| > 0 then [items[0]] else []) + NonEmpty(items[1..])
  }

  /** `[nameHint, parsed.searchName, mapUrl].map(sanitize).filter(Boolean)`
      with duplicates dropped. */
  function Queries(nameHint: string, searchName: string, mapUrl: string): seq<string>
  {
    Dedup(NonEmpty([Trim(nameHint), Trim(searchName), Trim(mapUrl)]))
  }

  /** The query list: every non-blank candidate once, trimmed, with the
      name hint first when it is given. */
  lemma QueriesShape(nameHint: string, searchName: string, mapUrl: string)
    ensures var q := Queries(nameHint, searchName, mapUrl);
            && Distinct(q)
            && (forall v :: v in q <==> |v| > 0 && (v == Trim(nameHint) || v == Trim(searchName) || v == Trim(mapUrl)))
            && (|Trim(nameHint)| > 0 ==> q[0] == Trim(nameHint))
  {
    QueriesMembers(nameHint, searchName, mapUrl);
    if |Trim(nameHint)| > 0 {
      QueriesHead(nameHint, searchName, mapUrl);
    }
  }

  lemma QueriesMembers(nameHint: string, searchName: string, mapUrl: string)
    ensures var q := Queries(nameHint, searchName, mapUrl);
            && Distinct(q)
            && (forall v :: v in q <==> |v| > 0 && (v == Trim(nameHint) || v == Trim(searchName) || v == Trim(mapUrl)))
  {
    var cands := [Trim(nameHint), Trim(searchName), Trim(mapUrl)];
    DedupProperties(NonEmpty(cands));
    assert forall v :: v in cands <==> v == cands[0] || v == cands[1] || v == cands[2];
  }

  lemma QueriesHead(nameHint: string, searchName: string, mapUrl: string)
    requires |Trim(nameHint)| > 0
    ensures var q := Queries(nameHint, searchName, mapUrl);
            |q| > 0 && q[0] == Trim(nameHint)
  {
    var cands := [Trim(nameHint), Trim(searchName), Trim(mapUrl)];
    var items := NonEmpty(cands);
    assert items == [Trim(nameHint)] + NonEmpty(cands[1..]);
    KeepFirstHead(items, |items|);
  }

  lemma DedupProperties<T>(items: seq<T>)
    ensures Distinct(Dedup(items))
    ensures forall v :: v in Dedup(items) <==> v in items
  {
    KeepFirstProperties(items, |items|);
    assert items[..|items|] == items;
  }

  /** The first item always survives de-duplication, in front. */
  lemma {:induction false} KeepFirstHead<T>(arr: seq<T>, n: nat)
    requires 1 <= n <= |arr|
    ensures |KeepFirst(arr, n)| > 0 && KeepFirst(arr, n)[0] == arr[0]
  {
    if n == 1 {
      assert FirstIndex(arr, arr[0]) == 0;
    } else {
      KeepFirstHead(arr, n - 1);
    }
  }

  // ---------------------------------------------------------------------
  // The search

  /** A search hit as the Places library returns it. */
  datatype Summary = Summary(id: string, displayName: string)

  /** `summary?.id`. */
  predicate HasId(s: Option<Summary>)
  {
    s.Some? && |s.value.id| > 0
  }

  /** One text search: it threw, or it answered with its top place or none. */
  datatype SearchResult = SearchThrew | Top(place: Option<Summary>)

  /** The coordinates the setup page biases its searches with: any parsed
      pair, zero included (`bias?.lat != null`). */
  function Bias(parsed: Maps.Parsed): Option<Maps.Coords>
  {
    parsed.coords
  }

  predicate Hit(r: SearchResult)
  {
    r.Top? && HasId(r.place)
  }

  /** The first query whose search answers with a place id. */
  function FirstHit(queries: seq<string>, bias: Option<Maps.Coords>,
                    search: (string, Option<Maps.Coords>) -> SearchResult): (r: Option<nat>)
    ensures r.Some? ==> r.value < |queries| && Hit(search(queries[r.value], bias))
    ensures r.Some? ==> forall k :: 0 <= k < r.value ==> !Hit(search(queries[k], bias))
    ensures r.None? ==> forall k :: 0 <= k < |queries| ==> !Hit(search(queries[k], bias))
  {
    var p := (k: nat) => k < |queries| && Hit(search(queries[k], bias));
    assert forall k: nat {:trigger queries[k]} :: k < |queries| ==> p(k) == Hit(search(queries[k], bias));
    Maps.FirstWhere(|queries|, p, 0)
  }

  /** The query loop: each query is searched in turn until one answers
      with a place id; a search that throws leaves the last answer in
      place. Returns that answer and how many searches were made. */
  method SearchQueries(queries: seq<string>, bias: Option<Maps.Coords>,
                       search: (string, Option<Maps.Coords>) -> SearchResult)
    returns (summary: Option<Summary>, searches: nat)
    ensures HasId(summary) <==> FirstHit(queries, bias, search).Some?
    ensures HasId(summary) ==>
              && searches == FirstHit(queries, bias, search).value + 1
              && summary == search(queries[searches - 1], bias).place
    ensures !HasId(summary) ==> searches == |queries|
  {
    summary := None;
    searches := 0;
    while searches < |queries|
      invariant searches <= |queries|
      invariant forall k :: 0 <= k < searches ==> !Hit(search(queries[k], bias))
      invariant !HasId(summary)
    {
      var r := search(queries[searches], bias);
      searches := searches + 1;
      if r.Top? {
        summary := r.place;
        if HasId(summary) {
          return;
        }
      }
    }
  }

  // ---------------------------------------------------------------------
  // The category

  const CategoryMap: map<string, string> := map[
    "grocery_or_supermarket" := "Grocery", "supermarket" := "Grocery", "convenience_store" := "Grocery",
    "hypermarket" := "Hypermarket", "department_store" := "Retail", "shopping_mall" := "Retail",
    "store" := "Retail", "electronics_store" := "Retail", "clothing_store" := "Retail",
    "jewelry_store" := "Retail", "furniture_store" := "Retail", "home_goods_store" := "Retail",
    "restaurant" := "Restaurant", "meal_takeaway" := "Restaurant", "meal_delivery" := "Restaurant",
    "cafe" := "Coffee Shop", "bakery" := "Coffee Shop", "bar" := "Restaurant",
    "beauty_salon" := "Salon", "hair_care" := "Salon", "spa" := "Spa", "gym" := "Fitness",
    "health" := "Fitness", "doctor" := "Health", "dentist" := "Health", "auto_repair" := "Auto Repair",
    "car_dealer" := "Auto", "lodging" := "Hotel", "hotel" := "Hotel"]

  /** The first candidate the table knows. */
  function FirstMapped(all: seq<string>): (r: Option<nat>)
    ensures r.Some? ==> r.value < |all| && all[r.value] in CategoryMap
    ensures r.Some? ==> forall k :: 0 <= k < r.value ==> all[k] !in CategoryMap
    ensures r.None? ==> forall k :: 0 <= k < |all| ==> all[k] !in CategoryMap
  {
    var p := (k: nat) => k < |all| && all[k] in CategoryMap;
    assert forall k: nat {:trigger all[k]} :: k < |all| ==> p(k) == (all[k] in CategoryMap);
    Maps.FirstWhere(|all|, p, 0)
  }

  /** `replace(/_/g, " ").replace(/\b\w/g, c => c.toUpperCase())`. */
  function Label(t: string): string
  {
    var u := ReplaceChar(t, '_', ' ');
    seq(|u|, i requires 0 <= i < |u| =>
      if IsWordChar(u[i]) && (i == 0 || !IsWordChar(u[i - 1])) then ToUpperChar(u[i]) else u[i])
  }

  /** The category shown for the place: the table's entry for the first of
      the primary type and then the types that it knows, else the first of
      them as a label, else empty. */
  function ToCategory(types: seq<string>, primaryType: string): (r: string)
    ensures var all := NonEmpty([primaryType] + types);
            && (FirstMapped(all).Some? ==> r == CategoryMap[all[FirstMapped(all).value]])
            && (FirstMapped(all).None? && |all| > 0 ==> r == Label(all[0]))
            && (|all| == 0 ==> r == "")
  {
    var all := NonEmpty([primaryType] + types);
    match FirstMapped(all)
    case Some(k) => CategoryMap[all[k]]
    case None => if |all| > 0 then Label(all[0]) else ""
  }

  /** For a type made of lower-case letters, digits and `_` the setup page's
      label and the server's category label agree. */
  lemma LabelAgreesWithServer(t: string)
    requires forall k :: 0 <= k < |t| ==> IsLower(t[k]) || IsDigit(t[k]) || t[k] == '_'
    ensures Label(t) == Maps.FormatCategory(t)
  {
    Maps.FormatCategoryIsTitle(t);
    forall i | 0 <= i < |t| ensures Label(t)[i] == Maps.TitleChar(t, i, true) {
      LabelCharIsTitle(t, i);
    }
  }

  lemma LabelCharIsTitle(t: string, i: nat)
    requires i < |t|
    requires IsLower(t[i]) || IsDigit(t[i]) || t[i] == '_'
    requires i > 0 ==> IsLower(t[i - 1]) || IsDigit(t[i - 1]) || t[i - 1] == '_'
    ensures |Label(t)| == |t| && Label(t)[i] == Maps.TitleChar(t, i, true)
  {
    var u := ReplaceChar(t, '_', ' ');
    assert IsWordChar(u[i]) <==> t[i] != '_';
    assert i > 0 ==> (IsWordChar(u[i - 1]) <==> t[i - 1] != '_');
  }

  /** With an upper-case letter inside a word they differ: the setup page
      keeps it, the server lower-cases it. */
  lemma LabelsDifferOnUpperCase()
    ensures Label("aB") == "AB" && Maps.FormatCategory("aB") == "Ab"
  {
    Maps.FormatCategoryIsTitle("aB");
    var b := Maps.FormatCategory("aB");
    assert b[0] == 'A' && b[1] == 'b';
  }

  // ---------------------------------------------------------------------
  // The click handler

  /** The review link: the place id percent-encoded into the write-review URL. */
  function ReviewUrl(placeId: string): (r: string)
    ensures |r| >= |ReviewBase| && r[..|ReviewBase|] == ReviewBase
    ensures Uri.UriSafe(r[|ReviewBase|..])
    ensures Uri.DecodeToBytes(r[|ReviewBase|..]) == Some(Uri.Utf8String(placeId))
  {
    var e := Uri.EncodeURIComponent(placeId);
    Uri.EncodeDecodesToUtf8(placeId);
    assert (ReviewBase + e)[|ReviewBase|..] == e;
    ReviewBase + e
  }

  /** The nearby search and the details request; either may throw, which
      ends the click without a message. */
  datatype NearbyResult = NearbyThrew | Nearby(place: Option<Summary>)

  datatype PlaceFields = DetailsThrew | Fields(displayName: string, types: seq<string>, primaryType: string)

  datatype Shown = Shown(placeId: string, name: string, category: string, reviewUrl: string, mapUrl: string)

  datatype ClickOutcome =
    | InputError(message: string)
    | SdkError(message: string)
    | Unresolved(message: string)
    | Abandoned
    | Resolved(shown: Shown)

  /** The name shown: the first non-empty of the details name, the search
      hit's name, the name hint and the name read from the URL. */
  function DisplayName(detailsName: string, summaryName: string, nameHint: string, searchName: string): (r: string)
    ensures |detailsName| > 0 ==> r == detailsName
    ensures |detailsName| == 0 && |summaryName| > 0 ==> r == summaryName
    ensures |detailsName| == 0 && |summaryName| == 0 && |nameHint| > 0 ==> r == nameHint
    ensures |detailsName| == 0 && |summaryName| == 0 && |nameHint| == 0 ==> r == searchName
  {
    OrStr(detailsName, OrStr(summaryName, OrStr(nameHint, searchName)))
  }

  /** Where the place search ends: a place with an id, nothing, or a
      nearby search that threw. */
  datatype Lookup = Located(summary: Summary) | Missed | NearbyFailed

  /** The text searches in query order, then, only when none hit and
      coordinates were read from the URL, the nearby search. */
  function Locate(queries: seq<string>, coords: Option<Maps.Coords>,
                  search: (string, Option<Maps.Coords>) -> SearchResult,
                  nearby: Maps.Coords -> NearbyResult): (l: Lookup)
    ensures l.Located? ==> |l.summary.id| > 0
    ensures FirstHit(queries, coords, search).Some? ==> l.Located?
    ensures l.NearbyFailed? ==> coords.Some? && nearby(coords.value).NearbyThrew?
    ensures l.Missed? ==> FirstHit(queries, coords, search).None? && (coords.Some? ==> nearby(coords.value).Nearby?)
  {
    match FirstHit(queries, coords, search)
    case Some(k) => Located(search(queries[k], coords).place.value)
    case None =>
      if coords.None? then Missed
      else match nearby(coords.value)
        case NearbyThrew => NearbyFailed
        case Nearby(p) => if HasId(p) then Located(p.value) else Missed
  }

  /** The query loop followed by the nearby fallback. */
  method LocatePlace(queries: seq<string>, coords: Option<Maps.Coords>,
                     search: (string, Option<Maps.Coords>) -> SearchResult,
                     nearby: Maps.Coords -> NearbyResult) returns (l: Lookup)
    ensures l == Locate(queries, coords, search, nearby)
  {
    var summary, _ := SearchQueries(queries, coords, search);
    if !HasId(summary) && coords.Some? {
      var n := nearby(coords.value);
      if n.NearbyThrew? {
        return NearbyFailed;
      }
      summary := n.place;
    }
    if !HasId(summary) {
      return Missed;
    }
    l := Located(summary.value);
  }

  /** What the page shows for a located place, given its details. */
  function ShownFor(summary: Summary, fields: PlaceFields, nameHint: string, searchName: string, mapUrl: string): Shown
    requires fields.Fields?
  {
    Shown(summary.id, DisplayName(fields.displayName, summary.displayName, nameHint, searchName),
          ToCategory(fields.types, fields.primaryType), ReviewUrl(summary.id), mapUrl)
  }

  /** What a click that passed the guard and loaded the SDK ends in: the
      message when nothing is found, nothing when a nearby search or the
      details request threw, else the located place with its details. */
  predicate ShowsPlace(o: ClickOutcome, mapUrl: string, nameHint: string, parsed: Maps.Parsed,
                       search: (string, Option<Maps.Coords>) -> SearchResult,
                       nearby: Maps.Coords -> NearbyResult,
                       details: string -> PlaceFields)
  {
    var l := Locate(Queries(nameHint, parsed.searchName, mapUrl), Bias(parsed), search, nearby);
    && (o == Unresolved(UnresolvedMessage) <==> l.Missed?)
    && (o == Abandoned <==> l.NearbyFailed? || (l.Located? && details(l.summary.id).DetailsThrew?))
    && (o.Resolved? <==> l.Located? && details(l.summary.id).Fields?)
    && (o.Resolved? ==> o.shown == ShownFor(l.summary, details(l.summary.id), nameHint, parsed.searchName, mapUrl))
    && !o.InputError? && !o.SdkError?
  }

  /** The click once the inputs passed the guard and the SDK loaded:
      locate the place, fetch its details and show them. */
  method ShowPlace(mapUrl: string, nameHint: string, parsed: Maps.Parsed,
                   search: (string, Option<Maps.Coords>) -> SearchResult,
                   nearby: Maps.Coords -> NearbyResult,
                   details: string -> PlaceFields)
    returns (o: ClickOutcome)
    ensures ShowsPlace(o, mapUrl, nameHint, parsed, search, nearby, details)
  {
    var l := LocatePlace(Queries(nameHint, parsed.searchName, mapUrl), Bias(parsed), search, nearby);
    o := match l
         case NearbyFailed => Abandoned
         case Missed => Unresolved(UnresolvedMessage)
         case Located(summary) =>
           var fields := details(summary.id);
           if fields.DetailsThrew? then Abandoned
           else Resolved(ShownFor(summary, fields, nameHint, parsed.searchName, mapUrl));
  }

  /** The resolve button. `sdkError` is the SDK loader's failure message,
      if any; `decode` stands for decodeURIComponent; `search`, `nearby`
      and `details` for the Places library calls. */
  method ResolveClick(mapsInput: Value, nameInput: Value, keyInput: Value, sdkError: Option<string>,
                      decode: Value -> Option<string>,
                      search: (string, Option<Maps.Coords>) -> SearchResult,
                      nearby: Maps.Coords -> NearbyResult,
                      details: string -> PlaceFields)
    returns (o: ClickOutcome)
    ensures o == InputError(GuardMessage) <==> Sanitize(mapsInput) == "" || Sanitize(keyInput) == ""
    ensures Sanitize(mapsInput) != "" && Sanitize(keyInput) != "" ==>
              && (o.SdkError? <==> sdkError.Some?)
              && (o.SdkError? ==> o.message == sdkError.value)
    ensures Sanitize(mapsInput) != "" && Sanitize(keyInput) != "" && sdkError.None? ==>
              ShowsPlace(o, Sanitize(mapsInput), Sanitize(nameInput),
                         Maps.ParseMapsUrlDetails(Str(Sanitize(mapsInput)), decode), search, nearby, details)
  {
    var mapUrl := Sanitize(mapsInput);
    var apiKey := Sanitize(keyInput);
    var nameHint := Sanitize(nameInput);
    if mapUrl == "" || apiKey == "" {
      return InputError(GuardMessage);
    }
    if sdkError.Some? {
      return SdkError(sdkError.value);
    }
    var parsed := Maps.ParseMapsUrlDetails(Str(mapUrl), decode);
    o := ShowPlace(mapUrl, nameHint, parsed, search, nearby, details);
  }

  /** A resolved click shows a non-empty place id and a review link that
      carries exactly that id. */
  lemma ResolvedLinkCarriesId(summary: Summary, fields: PlaceFields, nameHint: string, searchName: string, mapUrl: string)
    requires fields.Fields? && |summary.id| > 0
    ensures var shown := ShownFor(summary, fields, nameHint, searchName, mapUrl);
            && |shown.placeId| > 0
            && Uri.DecodeToBytes(shown.reviewUrl[|ReviewBase|..]) == Some(Uri.Utf8String(shown.placeId))
  {
  }

  /** Where the server drops a zero coordinate from its text search, the
      setup page keeps it as a bias and, when no query hits, searches
      nearby it. */
  lemma ZeroCoordinateBiasDiffers(name: string, lng: string)
    ensures var parsed := Maps.Parsed(name, Some(Maps.Coords("0.0", lng)));
            && Bias(parsed) == Some(Maps.Coords("0.0", lng))
            && Maps.TextQuery(parsed).bias == None
  {
    Maps.ZeroCoordinateDropsBias(name, lng);
  }
}
