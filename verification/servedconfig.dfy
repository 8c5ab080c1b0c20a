/** The per-tenant configuration script served by the business config route
    (`window.REVIEW_TOOL_CONFIG = {...};`): the stored business row projected
    onto the keys the script carries, with falsy settings replaced by
    defaults, and the empty object whenever there is nothing to serve. */
module ServedConfig {
  import opened Js
  import opened Text
  import Uri
  import ReviewFlow

  /** The columns of a businesses row the route selects; SQL NULL is None.
      `config` is the stored JSON settings object. */
  datatype Row = Row(
    slug: string,
    placeId: Option<string>,
    name: Option<string>,
    category: Option<string>,
    googleMapsUrl: Option<string>,
    heroImage: Option<string>,
    logoUrl: Option<string>,
    config: Value)

  /** A column as the JSON value it is serialised to. */
  function Column(c: Option<string>): Value
  {
    if c.Some? then Str(c.value) else Null
  }

  /** The response: 400 for a missing slug, otherwise a script assigning
      the given object. */
  datatype Reply = SlugRequired | Script(config: map<string, Value>)

  const EmptyScript := Script(map[])

  const ReviewBase := "https://search.google.com/local/writereview?placeid="

  /** The keys the route emits. */
  const ServedKeys: set<string> := {
    "place_id", "name", "category", "google_maps_url", "hero_image", "logo_url",
    "google_review_base_url", "google_review_url", "sheet_script_url", "review_threshold",
    "discount_enabled", "discount_percentage", "discount_valid_days", "referral_enabled", "min_review"}

  /** The text of a column that may be NULL, for the truthiness test. */
  function ColumnText(c: Option<string>): string
  {
    if c.Some? then c.value else ""
  }

  /** The object the route builds from a row, field by field. */
  datatype Served = Served(
    placeId: Value,
    name: Value,
    category: Value,
    googleMapsUrl: Value,
    heroImage: Value,
    logoUrl: Value,
    googleReviewBaseUrl: string,
    googleReviewUrl: string,
    sheetScriptUrl: Value,
    reviewThreshold: Value,
    discountEnabled: bool,
    discountPercentage: Value,
    discountValidDays: Value,
    referralEnabled: bool,
    minReview: Value)

  /** The projection of a row: columns copied, settings read from the
      stored object (`config || {}`) with `||` and `!== false` defaults. */
  function Project(row: Row): (r: Served)
    ensures r.placeId == Column(row.placeId) && r.name == Column(row.name)
    ensures r.category == Column(row.category) && r.logoUrl == Column(row.logoUrl)
    ensures r.googleMapsUrl == Column(row.googleMapsUrl) && r.heroImage == Column(row.heroImage)
    ensures r.googleReviewBaseUrl == ReviewBase
    ensures ColumnText(row.placeId) == "" ==> r.googleReviewUrl == ""
    ensures ColumnText(row.placeId) != "" ==>
              && StartsWith(r.googleReviewUrl, ReviewBase)
              && Uri.DecodeToBytes(r.googleReviewUrl[|ReviewBase|..]) == Some(Uri.Utf8String(row.placeId.value))
    ensures Truthy(r.reviewThreshold) && Truthy(r.discountPercentage) && Truthy(r.discountValidDays)
    ensures Truthy(Prop(row.config, "review_threshold")) ==> r.reviewThreshold == Prop(row.config, "review_threshold")
    ensures !Truthy(Prop(row.config, "review_threshold")) ==> r.reviewThreshold == Num(5.0)
    ensures Truthy(Prop(row.config, "discount_percentage")) ==> r.discountPercentage == Prop(row.config, "discount_percentage")
    ensures !Truthy(Prop(row.config, "discount_percentage")) ==> r.discountPercentage == Num(10.0)
    ensures Truthy(Prop(row.config, "discount_valid_days")) ==> r.discountValidDays == Prop(row.config, "discount_valid_days")
    ensures !Truthy(Prop(row.config, "discount_valid_days")) ==> r.discountValidDays == Num(30.0)
    ensures r.minReview == r.reviewThreshold
    ensures r.discountEnabled <==> Prop(row.config, "discount_enabled") != Bool(false)
    ensures r.referralEnabled <==> Prop(row.config, "referral_enabled") != Bool(false)
    ensures Truthy(r.sheetScriptUrl) <==> Truthy(Prop(row.config, "sheet_script_url"))
    ensures Truthy(Prop(row.config, "sheet_script_url")) ==> r.sheetScriptUrl == Prop(row.config, "sheet_script_url")
    ensures !Truthy(r.sheetScriptUrl) ==> r.sheetScriptUrl == Str("")
  {
    var settings := Or(row.config, Obj(map[]));
    var threshold := Or(Prop(settings, "review_threshold"), Num(5.0));
    Served(
      placeId := Column(row.placeId),
      name := Column(row.name),
      category := Column(row.category),
      googleMapsUrl := Column(row.googleMapsUrl),
      heroImage := Column(row.heroImage),
      logoUrl := Column(row.logoUrl),
      googleReviewBaseUrl := ReviewBase,
      googleReviewUrl := ReviewFlow.ReviewUrl("", ReviewBase, ColumnText(row.placeId)),
      sheetScriptUrl := Or(Prop(settings, "sheet_script_url"), Str("")),
      reviewThreshold := threshold,
      discountEnabled := Prop(settings, "discount_enabled") != Bool(false),
      discountPercentage := Or(Prop(settings, "discount_percentage"), Num(10.0)),
      discountValidDays := Or(Prop(settings, "discount_valid_days"), Num(30.0)),
      referralEnabled := Prop(settings, "referral_enabled") != Bool(false),
      minReview := threshold)
  }

  /** The object as the script spells it: snake_case keys, none of which
      the page reads. */
  function Emit(s: Served): map<string, Value>
  {
    map[
      "place_id" := s.placeId,
      "name" := s.name,
      "category" := s.category,
      "google_maps_url" := s.googleMapsUrl,
      "hero_image" := s.heroImage,
      "logo_url" := s.logoUrl,
      "google_review_base_url" := Str(s.googleReviewBaseUrl),
      "google_review_url" := Str(s.googleReviewUrl),
      "sheet_script_url" := s.sheetScriptUrl,
      "review_threshold" := s.reviewThreshold,
      "discount_enabled" := Bool(s.discountEnabled),
      "discount_percentage" := s.discountPercentage,
      "discount_valid_days" := s.discountValidDays,
      "referral_enabled" := Bool(s.referralEnabled),
      "min_review" := s.minReview]
  }

  /** Index of the first row stored under the slug, or -1. */
  function FirstWithSlug(store: seq<Row>, slug: string): (i: int)
    ensures -1 <= i < |store|
    ensures i == -1 <==> forall k :: 0 <= k < |store| ==> store[k].slug != slug
    ensures i >= 0 ==> store[i].slug == slug && forall k :: 0 <= k < i ==> store[k].slug != slug
  {
    FirstWith(store, (r: Row) => r.slug, slug)
  }

  /** The config route. `slug` is the query parameter, `store` the table,
      and `dbFails` says whether the query throws. A non-string slug
      matches no row. */
  function ConfigRoute(slug: Value, store: seq<Row>, dbFails: bool): (reply: Reply)
    ensures !Truthy(slug) <==> reply == SlugRequired
    ensures Truthy(slug) && (dbFails || !slug.Str?) ==> reply == EmptyScript
    ensures Truthy(slug) && slug.Str? && FirstWithSlug(store, slug.s) == -1 ==> reply == EmptyScript
    ensures Truthy(slug) && !dbFails && slug.Str? && FirstWithSlug(store, slug.s) >= 0 ==>
              reply == Script(Emit(Project(store[FirstWithSlug(store, slug.s)])))
  {
    if !Truthy(slug) then SlugRequired
    else if dbFails || !slug.Str? then EmptyScript
    else
      var i := FirstWithSlug(store, slug.s);
      if i < 0 then EmptyScript else Script(Emit(Project(store[i])))
  }

  /** Every key initializeState reads, none of which the route emits. */
  const PageKeys: set<string> := {
    "businessName", "businessCategory", "googleMapsUrl", "googlePlaceId", "googleReviewBaseUrl",
    "googleReviewUrl", "sheetScriptUrl", "reviewThreshold", "discount"}

  predicate NoPageKey(m: map<string, Value>)
  {
    && "businessName" !in m && "businessCategory" !in m && "googleMapsUrl" !in m
    && "googlePlaceId" !in m && "googleReviewBaseUrl" !in m && "googleReviewUrl" !in m
    && "sheetScriptUrl" !in m && "reviewThreshold" !in m && "discount" !in m
  }

  /** The emitted object holds none of the keys the page reads, checked a
      few keys at a time. */
  lemma EmitLacksPageKeys(s: Served)
    ensures Emit(s).Keys == ServedKeys
    ensures NoPageKey(Emit(s))
  {
    LacksBusinessKeys(s);
    LacksGoogleKeys(s);
    LacksSettingKeys(s);
  }

  lemma LacksBusinessKeys(s: Served)
    ensures "businessName" !in Emit(s) && "businessCategory" !in Emit(s) && "discount" !in Emit(s)
  {
  }

  lemma LacksGoogleKeys(s: Served)
    ensures "googleMapsUrl" !in Emit(s) && "googlePlaceId" !in Emit(s)
    ensures "googleReviewBaseUrl" !in Emit(s) && "googleReviewUrl" !in Emit(s)
  {
  }

  lemma LacksSettingKeys(s: Served)
    ensures "sheetScriptUrl" !in Emit(s) && "reviewThreshold" !in Emit(s)
  {
  }

  /** A configuration object holding none of the keys the page reads starts
      the page exactly as no configuration does. */
  lemma ForeignKeysIgnored(m: map<string, Value>, parse: string -> Option<real>)
    requires NoPageKey(m)
    ensures ReviewFlow.InitialState(Obj(m), parse) == ReviewFlow.UnconfiguredState
  {
    ReviewFlow.MissingConfigDefaults(parse);
  }

  /** As written, the page ignores the script the route serves: the keys
      are snake_case while initializeState reads camelCase ones, so a
      configured tenant's page shows the default name, no review link and
      the default threshold. */
  lemma ServedConfigIgnored(row: Row, parse: string -> Option<real>)
    ensures ReviewFlow.InitialState(Obj(Emit(Project(row))), parse) == ReviewFlow.UnconfiguredState
  {
    EmitLacksPageKeys(Project(row));
    ForeignKeysIgnored(Emit(Project(row)), parse);
  }

  /** The row in the layout of the embedded configuration table, which is
      the layout the page reads. */
  datatype PageObject = PageObject(
    businessName: Value,
    businessCategory: Value,
    googleMapsUrl: Value,
    googlePlaceId: Value,
    googleReviewBaseUrl: string,
    sheetScriptUrl: Value,
    reviewThreshold: Value,
    discountEnabled: bool,
    discountPercentage: Value,
    discountValidDays: Value,
    referralEnabled: bool,
    logoUrl: Value,
    heroImageUrl: Value)

  function PageConfig(row: Row): (o: PageObject)
    ensures o.businessName == Column(row.name) && o.googlePlaceId == Column(row.placeId)
    ensures o.businessCategory == Column(row.category) && o.googleMapsUrl == Column(row.googleMapsUrl)
    ensures o.discountEnabled <==> Prop(row.config, "discount_enabled") != Bool(false)
    ensures Prop(row.config, "sheet_script_url").Str? && Prop(row.config, "sheet_script_url").s != "" ==>
              o.sheetScriptUrl == Prop(row.config, "sheet_script_url")
    ensures o.logoUrl == Column(row.logoUrl) && o.heroImageUrl == Column(row.heroImage)
    ensures o.googleReviewBaseUrl == ReviewBase
    ensures Truthy(Prop(row.config, "review_threshold")) ==> o.reviewThreshold == Prop(row.config, "review_threshold")
    ensures !Truthy(Prop(row.config, "review_threshold")) ==> o.reviewThreshold == Num(5.0)
    ensures Truthy(Prop(row.config, "discount_percentage")) ==> o.discountPercentage == Prop(row.config, "discount_percentage")
    ensures !Truthy(Prop(row.config, "discount_percentage")) ==> o.discountPercentage == Num(10.0)
    ensures Truthy(Prop(row.config, "discount_valid_days")) ==> o.discountValidDays == Prop(row.config, "discount_valid_days")
    ensures !Truthy(Prop(row.config, "discount_valid_days")) ==> o.discountValidDays == Num(30.0)
    ensures o.referralEnabled <==> Prop(row.config, "referral_enabled") != Bool(false)
    ensures var p := Project(row);
            && o.reviewThreshold == p.reviewThreshold && o.discountPercentage == p.discountPercentage
            && o.discountValidDays == p.discountValidDays && o.sheetScriptUrl == p.sheetScriptUrl
  {
    var settings := Or(row.config, Obj(map[]));
    PageObject(
      businessName := Column(row.name),
      businessCategory := Column(row.category),
      googleMapsUrl := Column(row.googleMapsUrl),
      googlePlaceId := Column(row.placeId),
      googleReviewBaseUrl := ReviewBase,
      sheetScriptUrl := Or(Prop(settings, "sheet_script_url"), Str("")),
      reviewThreshold := Or(Prop(settings, "review_threshold"), Num(5.0)),
      discountEnabled := Prop(settings, "discount_enabled") != Bool(false),
      discountPercentage := Or(Prop(settings, "discount_percentage"), Num(10.0)),
      discountValidDays := Or(Prop(settings, "discount_valid_days"), Num(30.0)),
      referralEnabled := Prop(settings, "referral_enabled") != Bool(false),
      logoUrl := Column(row.logoUrl),
      heroImageUrl := Column(row.heroImage))
  }

  /** The page layout spelled out: every key the page reads carries the
      field of the same name, and no review URL is given, so the page
      builds it from the place id. */
  function EmitPage(o: PageObject): (m: map<string, Value>)
    ensures Prop(Obj(m), "businessName") == o.businessName
    ensures Prop(Obj(m), "businessCategory") == o.businessCategory
    ensures Prop(Obj(m), "googleMapsUrl") == o.googleMapsUrl
    ensures Prop(Obj(m), "googlePlaceId") == o.googlePlaceId
    ensures Prop(Obj(m), "googleReviewBaseUrl") == Str(o.googleReviewBaseUrl)
    ensures Prop(Obj(m), "googleReviewUrl") == Str("")
    ensures Prop(Obj(m), "sheetScriptUrl") == o.sheetScriptUrl
    ensures Prop(Obj(m), "reviewThreshold") == o.reviewThreshold
    ensures Prop(Prop(Obj(m), "discount"), "enabled") == Bool(o.discountEnabled)
    ensures Prop(Prop(Obj(m), "discount"), "percentage") == o.discountPercentage
    ensures Prop(Prop(Obj(m), "discount"), "validDays") == o.discountValidDays
  {
    map[
      "businessName" := o.businessName,
      "businessCategory" := o.businessCategory,
      "googleMapsUrl" := o.googleMapsUrl,
      "googlePlaceId" := o.googlePlaceId,
      "googleReviewBaseUrl" := Str(o.googleReviewBaseUrl),
      "googleReviewUrl" := Str(""),
      "sheetScriptUrl" := o.sheetScriptUrl,
      "reviewThreshold" := o.reviewThreshold,
      "discount" := Obj(map[
        "enabled" := Bool(o.discountEnabled),
        "percentage" := o.discountPercentage,
        "validDays" := o.discountValidDays]),
      "referral" := Obj(map["enabled" := Bool(o.referralEnabled)]),
      "logoUrl" := o.logoUrl,
      "heroImageUrl" := o.heroImageUrl]
  }

  /** The config route serving the page's own layout. */
  function PageConfigRoute(slug: Value, store: seq<Row>, dbFails: bool): (reply: Reply)
    ensures !Truthy(slug) <==> reply == SlugRequired
    ensures Truthy(slug) && (dbFails || !slug.Str?) ==> reply == EmptyScript
    ensures Truthy(slug) && slug.Str? && FirstWithSlug(store, slug.s) == -1 ==> reply == EmptyScript
    ensures Truthy(slug) && !dbFails && slug.Str? && FirstWithSlug(store, slug.s) >= 0 ==>
              reply == Script(EmitPage(PageConfig(store[FirstWithSlug(store, slug.s)])))
  {
    if !Truthy(slug) then SlugRequired
    else if dbFails || !slug.Str? then EmptyScript
    else
      var i := FirstWithSlug(store, slug.s);
      if i < 0 then EmptyScript else Script(EmitPage(PageConfig(store[i])))
  }

  /** With the page's layout the stored business reaches the page: its
      name, place id, review link, sheet URL and discount switch. */
  lemma PageConfigRead(row: Row, parse: string -> Option<real>)
    ensures var st := ReviewFlow.InitialState(Obj(EmitPage(PageConfig(row))), parse);
            && (Trim(ColumnText(row.name)) != "" ==> st.businessName == Trim(ColumnText(row.name)))
            && st.placeId == Trim(ColumnText(row.placeId))
            && (st.placeId != "" ==> st.googleReviewUrl != "")
            && st.discountEnabled == (Prop(row.config, "discount_enabled") != Bool(false))
            && (Prop(row.config, "sheet_script_url").Str? && Prop(row.config, "sheet_script_url").s != "" ==>
                  st.sheetScriptUrl == Trim(Prop(row.config, "sheet_script_url").s))
  {
    var config := Obj(EmitPage(PageConfig(row)));
    PageReadsRow(row);
    ReviewUrlPresent(ReviewFlow.InitialState(config, parse));
  }

  /** What the page's sanitizing reads find in the emitted layout. */
  lemma PageReadsRow(row: Row)
    ensures var config := Obj(EmitPage(PageConfig(row)));
            && ReviewFlow.Sanitize(Prop(config, "businessName")) == Trim(ColumnText(row.name))
            && ReviewFlow.Sanitize(Prop(config, "googlePlaceId")) == Trim(ColumnText(row.placeId))
            && ReviewFlow.Sanitize(Prop(config, "googleReviewUrl")) == ""
            && (Prop(Prop(config, "discount"), "enabled") != Bool(false) <==>
                  Prop(row.config, "discount_enabled") != Bool(false))
            && (Prop(row.config, "sheet_script_url").Str? && Prop(row.config, "sheet_script_url").s != "" ==>
                  ReviewFlow.Sanitize(Prop(config, "sheetScriptUrl")) == Trim(Prop(row.config, "sheet_script_url").s))
  {
    EmittedReads(PageConfig(row), row.name, row.placeId, row.config);
  }

  /** The same for any layout object holding those columns and settings. */
  lemma EmittedReads(o: PageObject, name: Option<string>, placeId: Option<string>, settings: Value)
    requires o.businessName == Column(name) && o.googlePlaceId == Column(placeId)
    requires o.discountEnabled <==> Prop(settings, "discount_enabled") != Bool(false)
    requires Prop(settings, "sheet_script_url").Str? && Prop(settings, "sheet_script_url").s != "" ==>
               o.sheetScriptUrl == Prop(settings, "sheet_script_url")
    ensures var config := Obj(EmitPage(o));
            && ReviewFlow.Sanitize(Prop(config, "businessName")) == Trim(ColumnText(name))
            && ReviewFlow.Sanitize(Prop(config, "googlePlaceId")) == Trim(ColumnText(placeId))
            && ReviewFlow.Sanitize(Prop(config, "googleReviewUrl")) == ""
            && (Prop(Prop(config, "discount"), "enabled") != Bool(false) <==>
                  Prop(settings, "discount_enabled") != Bool(false))
            && (Prop(settings, "sheet_script_url").Str? && Prop(settings, "sheet_script_url").s != "" ==>
                  ReviewFlow.Sanitize(Prop(config, "sheetScriptUrl")) == Trim(Prop(settings, "sheet_script_url").s))
  {
    ColumnSanitized(name);
    ColumnSanitized(placeId);
    assert ReviewFlow.Sanitize(Str("")) == "" by { assert Trim("") == ""; }
  }

  /** A text column reads back as its trimmed text, a missing one as "". */
  lemma ColumnSanitized(c: Option<string>)
    ensures ReviewFlow.Sanitize(Column(c)) == Trim(ColumnText(c))
  {
    assert Trim("") == "";
  }

  /** Without a configured review URL, a place id gives the page a review
      link. */
  lemma ReviewUrlPresent(st: ReviewFlow.State)
    requires st.googleReviewUrl == ReviewFlow.ReviewUrl("", st.googleReviewBaseUrl, st.placeId)
    ensures st.placeId != "" ==> st.googleReviewUrl != ""
  {
    if st.placeId != "" {
      assert |st.googleReviewUrl| > |st.googleReviewBaseUrl| by {
        EncodedNonEmpty(st.googleReviewUrl[|st.googleReviewBaseUrl|..], st.placeId);
      }
    }
  }

  /** A non-empty string does not decode from the empty one. */
  lemma EncodedNonEmpty(enc: string, s: string)
    requires s != "" && Uri.DecodeToBytes(enc) == Some(Uri.Utf8String(s))
    ensures enc != ""
  {
    assert Uri.Utf8String(s) != [] by {
      assert |Uri.Utf8(s[0])| >= 1;
    }
  }
}
