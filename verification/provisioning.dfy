/** Creating a tenant: the two database-backed create handlers (the library
    route and its serverless copy) and the admin generator that writes the
    embedded configuration table. All three validate the request in a fixed
    order, turn the business name into a slug, pick a free variant of it and
    store the new tenant under that slug. */
module Provisioning {
  import opened Js
  import opened Text
  import opened Slug
  import Auth
  import ServedConfig
  import ReviewFlow

  /** A row of the businesses table. `userId` is the owner as the session
      token's userId claim gives it, the value the insert binds. */
  datatype Business = Business(
    id: nat,
    userId: Value,
    slug: string,
    placeId: Value,
    name: Value,
    category: Value,
    googleMapsUrl: Value,
    heroImage: Value,
    logoUrl: Value,
    config: map<string, Value>)

  function Slugs(store: seq<Business>): set<string>
  {
    set i | 0 <= i < |store| :: store[i].slug
  }

  predicate Owns(store: seq<Business>, user: Value)
  {
    exists i :: 0 <= i < |store| && store[i].userId == user
  }

  /** The unique constraint on businesses.slug. */
  predicate UniqueSlugs(store: seq<Business>)
  {
    forall i, j :: 0 <= i < j < |store| ==> store[i].slug != store[j].slug
  }

  /** The free-tier rule: no user owns two businesses. */
  predicate OnePerUser(store: seq<Business>)
  {
    forall i, j :: 0 <= i < j < |store| ==> store[i].userId != store[j].userId
  }

  /** The settings object a new business starts with when the client sends
      none: discounts on at 10% for 30 days, referrals on, threshold 5, no
      sheet URL. */
  const CreateDefaults: map<string, Value> := map[
    "discount_enabled" := Bool(true),
    "discount_percentage" := Num(10.0),
    "discount_valid_days" := Num(30.0),
    "referral_enabled" := Bool(true),
    "review_threshold" := Num(5.0),
    "sheet_script_url" := Str("")]

  /** What `...(config || {})` copies: a falsy config gives way to the
      empty object, any other value spreads its own keys. */
  function SpreadSource(config: Value): map<string, Value>
  {
    SpreadKeys(Or(config, Obj(map[])))
  }

  /** The settings object of a new business as the handler writes it: each
      default key behind `config?.key ?? d` (the sheet URL behind
      `config?.sheet_script_url || ''`), then the client's own keys spread
      over them. */
  function MergeConfig(config: Value): (r: map<string, Value>)
    ensures r.Keys == CreateDefaults.Keys + SpreadSource(config).Keys
    ensures forall k :: k in SpreadSource(config) ==> r[k] == SpreadSource(config)[k]
  {
    var defaults := map k | k in CreateDefaults ::
      if k == "sheet_script_url" then Or(Prop(config, k), Str(""))
      else Coalesce(Prop(config, k), CreateDefaults[k]);
    Spread(defaults, SpreadSource(config))
  }

  /** The defaulting expressions never decide a value: a key the client
      sends is overwritten by the spread, and an absent key reads as
      undefined. So the merge is the fixed defaults with the client's keys
      on top: client keys win, defaults fill only the keys it leaves out. */
  lemma MergeIsDefaultsThenClient(config: Value)
    ensures MergeConfig(config) == Spread(CreateDefaults, SpreadSource(config))
  {
    MergeAgrees(config, MergeConfig(config), Spread(CreateDefaults, SpreadSource(config)));
    SameMaps(MergeConfig(config), Spread(CreateDefaults, SpreadSource(config)));
  }

  lemma MergeAgrees(config: Value, r: map<string, Value>, s: map<string, Value>)
    requires r == MergeConfig(config) && s == Spread(CreateDefaults, SpreadSource(config))
    ensures r.Keys == s.Keys && forall k :: k in r ==> r[k] == s[k]
  {
    forall k | k in r
      ensures k in s && r[k] == s[k]
    {
      MergeKey(config, k);
    }
  }

  lemma SameMaps(r: map<string, Value>, s: map<string, Value>)
    requires r.Keys == s.Keys && forall k :: k in r ==> r[k] == s[k]
    ensures r == s
  {
  }

  /** Key by key: the merged value is the client's when it sent the key and
      the fixed default otherwise. */
  lemma MergeKey(config: Value, k: string)
    requires k in MergeConfig(config)
    ensures k in Spread(CreateDefaults, SpreadSource(config))
    ensures MergeConfig(config)[k] == Spread(CreateDefaults, SpreadSource(config))[k]
  {
    if k !in SpreadSource(config) {
      UnspreadKeyUndefined(config, k);
      if k == "sheet_script_url" {
        assert CreateDefaults[k] == Str("");
      }
    }
  }

  /** A key the spread does not copy reads as undefined on the config. */
  lemma UnspreadKeyUndefined(config: Value, k: string)
    requires k !in SpreadSource(config)
    ensures Prop(config, k) == Undefined
  {
    if config.Obj? {
      assert SpreadSource(config) == config.fields;
    }
  }

  /** A string sent as the config is spread character by character: each
      character lands under its index key next to the defaults. */
  lemma TextConfigSpreadsIndexKeys(text: string)
    ensures var r := MergeConfig(Str(text));
            forall i :: 0 <= i < |text| ==> NatToString(i) in r && r[NatToString(i)] == Str([text[i]])
  {
    var r := MergeConfig(Str(text));
    if |text| > 0 {
      var src := SpreadSource(Str(text));
      forall i | 0 <= i < |text| ensures NatToString(i) in r && r[NatToString(i)] == Str([text[i]]) {
        assert NatToString(i) in src;
      }
    }
  }

  /** Which host rule the handler builds the review URL with. */
  datatype UrlRule =
    | KeepLastTwo  // the library route: the last two host labels
    | StripFirst   // the serverless copy: the host minus its first label

  function ReviewUrl(rule: UrlRule, slug: string, hostHeader: string): string
  {
    match rule
    case KeepLastTwo => TenantUrl(slug, StoreBaseDomain(hostHeader))
    case StripFirst => TenantUrl(slug, StripFirstLabel(hostHeader))
  }

  const Apex := "blooreview.app"

  /** The apex host holds a single dot, at index 10. */
  lemma ApexDot(i: int)
    requires 0 <= i < |Apex| && Apex[i] == '.'
    ensures i == 10
  {
    assert Apex == ['b', 'l', 'o', 'o', 'r', 'e', 'v', 'i', 'e', 'w', '.', 'a', 'p', 'p'];
  }

  lemma ApexLastTwo()
    ensures StoreBaseDomain(Apex) == Apex
  {
    assert Apex[10] == '.';
    forall k | 0 <= k < |Apex| && Apex[k] == '.' ensures k == 10 {
      ApexDot(k);
    }
    Slug.OneDotSuffix(Apex, StoreBaseDomain(Apex), 10);
  }

  lemma ApexStripped()
    ensures StripFirstLabel(Apex) == "app"
  {
    assert Apex[10] == '.';
    forall i | 0 <= i < 10 ensures Apex[i] != '.' {
      if Apex[i] == '.' {
        ApexDot(i);
      }
    }
    assert '.' !in Apex[..10];
    IndexOfCharAt(Apex, '.', 10);
    assert Apex[11..] == "app";
  }

  /** The apex host shows the two rules apart: the library route links to
      the apex domain, the serverless copy to its top-level domain. */
  lemma ApexHostRules(slug: string)
    ensures ReviewUrl(KeepLastTwo, slug, Apex) == TenantUrl(slug, Apex)
    ensures ReviewUrl(StripFirst, slug, Apex) == TenantUrl(slug, "app")
    ensures ReviewUrl(KeepLastTwo, slug, Apex) != ReviewUrl(StripFirst, slug, Apex)
  {
    ApexLastTwo();
    ApexStripped();
    assert |TenantUrl(slug, Apex)| != |TenantUrl(slug, "app")|;
  }

  /** The outcomes of a create request, with the status each is sent with. */
  datatype Outcome =
    | MethodNotAllowed
    | NotAuthenticated
    | MissingFields
    | PlanLimit
    | Conflict
    | ServerError
    | Created(business: Business, reviewUrl: string)

  function Status(o: Outcome): nat
  {
    match o
    case MethodNotAllowed => 405
    case NotAuthenticated => 401
    case MissingFields => 400
    case PlanLimit => 403
    case Conflict => 409
    case ServerError => 500
    case Created(_, _) => 201
  }

  /** The catch block: the unique-violation code becomes 409, every other
      error 500. `code` is the thrown error's `code` property. */
  function Failure(code: Value): (o: Outcome)
    ensures o == Conflict <==> code == Str("23505")
    ensures o != Conflict ==> o == ServerError
  {
    if code == Str("23505") then Conflict else ServerError
  }

  /** The request passes every guard up to the plan limit. */
  predicate Admitted(httpMethod: string, auth: Auth.AuthResult, body: Value)
  {
    && httpMethod == "POST" && auth.Authenticated? && !Nullish(body)
    && Truthy(Prop(body, "name")) && Truthy(Prop(body, "placeId"))
  }

  /** The create handler. `auth` is what requireAuth gives: an error it
      throws ends in the catch block (500), no user is a 401, and a user's
      userId claim owns the new row. `store` is the businesses table,
      `newId` the id the insert assigns and `fault` the code of the error
      a database statement throws, if one does. A missing body makes the
      destructuring throw, and a name that is not a string makes
      generateSlug throw; both end in the catch block with no code. */
  method Create(rule: UrlRule, httpMethod: string, auth: Auth.AuthResult, body: Value, hostHeader: string,
                store: seq<Business>, newId: nat, fault: Option<Value>)
    returns (out: Outcome, after: seq<Business>)
    ensures httpMethod != "POST" ==> out == MethodNotAllowed
    ensures httpMethod == "POST" && auth.AuthError? ==> out == ServerError
    ensures httpMethod == "POST" && auth.Anonymous? ==> out == NotAuthenticated
    ensures httpMethod == "POST" && auth.Authenticated? && Nullish(body) ==> out == ServerError
    ensures httpMethod == "POST" && auth.Authenticated? && !Nullish(body)
            && !(Truthy(Prop(body, "name")) && Truthy(Prop(body, "placeId")))
            ==> out == MissingFields
    ensures Admitted(httpMethod, auth, body) && Owns(store, auth.claims.userId) ==> out == PlanLimit
    ensures Admitted(httpMethod, auth, body) && !Owns(store, auth.claims.userId) && !Prop(body, "name").Str? ==>
              out == ServerError
    ensures Admitted(httpMethod, auth, body) && !Owns(store, auth.claims.userId) && Prop(body, "name").Str?
            && fault.Some?
            ==> out == Failure(fault.value)
    ensures out.Created? <==>
              Admitted(httpMethod, auth, body) && !Owns(store, auth.claims.userId) && Prop(body, "name").Str? && fault.None?
    ensures !out.Created? ==> after == store
    ensures out.Created? ==>
              var b := out.business;
              var base := GenerateSlug(Prop(body, "name").s);
              && after == store + [b]
              && b.id == newId && b.userId == auth.claims.userId
              && b.slug !in Slugs(store)
              && (base !in Slugs(store) ==> b.slug == base)
              && (base in Slugs(store) ==>
                    exists n: nat :: n >= 1 && b.slug == Candidate(base, n) &&
                      (forall k: nat :: 1 <= k < n ==> Candidate(base, k) in Slugs(store)))
              && b.name == Prop(body, "name") && b.placeId == Prop(body, "placeId")
              && b.category == Or(Prop(body, "category"), Null)
              && b.googleMapsUrl == Or(Prop(body, "googleMapsUrl"), Null)
              && b.heroImage == Or(Prop(body, "heroImage"), Null)
              && b.logoUrl == Or(Prop(body, "logoUrl"), Null)
              && b.config == Spread(CreateDefaults, SpreadSource(Prop(body, "config")))
              && out.reviewUrl == ReviewUrl(rule, b.slug, hostHeader)
    ensures UniqueSlugs(store) ==> UniqueSlugs(after)
    ensures OnePerUser(store) ==> OnePerUser(after)
  {
    after := store;
    if httpMethod != "POST" {
      return MethodNotAllowed, after;
    }
    if auth.AuthError? {
      return ServerError, after;
    }
    if auth.Anonymous? {
      return NotAuthenticated, after;
    }
    if Nullish(body) {
      return ServerError, after;
    }
    var name := Prop(body, "name");
    var placeId := Prop(body, "placeId");
    if !Truthy(name) || !Truthy(placeId) {
      return MissingFields, after;
    }
    if Owns(store, auth.claims.userId) {
      return PlanLimit, after;
    }
    if !name.Str? {
      return ServerError, after;
    }
    var base := GenerateSlug(name.s);
    var slug := UniqueSlugInStore(base, Slugs(store));
    if fault.Some? {
      return Failure(fault.value), after;
    }
    var config := Prop(body, "config");
    MergeIsDefaultsThenClient(config);
    var b := Business(newId, auth.claims.userId, slug, placeId, name,
                      Or(Prop(body, "category"), Null), Or(Prop(body, "googleMapsUrl"), Null),
                      Or(Prop(body, "heroImage"), Null), Or(Prop(body, "logoUrl"), Null),
                      MergeConfig(config));
    after := store + [b];
    SlugsGrow(store, b);
    out := Created(b, ReviewUrl(rule, slug, hostHeader));
  }

  /** Appending a business whose slug is new keeps slugs unique; one whose
      owner owns nothing keeps the one-per-user rule. */
  lemma SlugsGrow(store: seq<Business>, b: Business)
    ensures b.slug !in Slugs(store) && UniqueSlugs(store) ==> UniqueSlugs(store + [b])
    ensures !Owns(store, b.userId) && OnePerUser(store) ==> OnePerUser(store + [b])
  {
    var s := store + [b];
    if b.slug !in Slugs(store) && UniqueSlugs(store) {
      forall i, j | 0 <= i < j < |s| ensures s[i].slug != s[j].slug {
        if j == |store| {
          assert s[i].slug == store[i].slug;
          assert store[i].slug in Slugs(store);
        }
      }
    }
  }

  /** `${v}` in a template literal: a string is itself, `show` renders
      any other value. */
  function TemplateText(v: Value, show: Value -> string): string
  {
    if v.Str? then v.s else show(v)
  }

  /** The request-dependent part of the entry the admin generator writes. */
  datatype GeneratedEntry = GeneratedEntry(
    placeId: Value,
    name: Value,
    category: Value,
    mapsUrl: Value,
    heroImage: Value,
    sheetScriptUrl: string)

  const MapsPlacePrefix := "https://www.google.com/maps/place/?q=place_id:"

  /** The new entry: the category defaults to 'Business', the Maps URL to
      the place-id search URL, the hero image to ''; the sheet URL is the
      deployment's REVIEW_SCRIPT_URL or ''. */
  function NewEntry(body: Value, scriptUrl: string, show: Value -> string): (e: GeneratedEntry)
    ensures e.placeId == Prop(body, "placeId") && e.name == Prop(body, "name")
    ensures Truthy(Prop(body, "category")) ==> e.category == Prop(body, "category")
    ensures !Truthy(Prop(body, "category")) ==> e.category == Str("Business")
    ensures Truthy(Prop(body, "mapsUrl")) ==> e.mapsUrl == Prop(body, "mapsUrl")
    ensures !Truthy(Prop(body, "mapsUrl")) ==>
              e.mapsUrl == Str(MapsPlacePrefix + TemplateText(Prop(body, "placeId"), show))
    ensures Truthy(Prop(body, "heroImage")) ==> e.heroImage == Prop(body, "heroImage")
    ensures !Truthy(Prop(body, "heroImage")) ==> e.heroImage == Str("")
    ensures |scriptUrl| > 0 ==> e.sheetScriptUrl == scriptUrl
    ensures |scriptUrl| == 0 ==> e.sheetScriptUrl == ""
  {
    var placeId := Prop(body, "placeId");
    GeneratedEntry(
      placeId := placeId,
      name := Prop(body, "name"),
      category := Or(Prop(body, "category"), Str("Business")),
      mapsUrl := Or(Prop(body, "mapsUrl"), Str(MapsPlacePrefix + TemplateText(placeId, show))),
      heroImage := Or(Prop(body, "heroImage"), Str("")),
      sheetScriptUrl := OrStr(scriptUrl, ""))
  }

  /** The keys of a generated entry, all snake_case. */
  const EntryKeys: set<string> := {
    "place_id", "name", "category", "google_maps_url", "hero_image", "logo_url",
    "discount_enabled", "discount_percentage", "discount_valid_days", "referral_enabled",
    "referral_message", "google_review_base_url", "google_review_url", "sheet_script_url", "min_review"}

  /** No key of a generated entry is one the page reads. */
  lemma EntryKeysForeign()
    ensures forall e :: ServedConfig.NoPageKey(EmitEntry(e))
  {
    assert "businessName" !in EntryKeys && "businessCategory" !in EntryKeys && "googleMapsUrl" !in EntryKeys;
    assert "googlePlaceId" !in EntryKeys && "googleReviewBaseUrl" !in EntryKeys && "googleReviewUrl" !in EntryKeys;
    assert "sheetScriptUrl" !in EntryKeys && "reviewThreshold" !in EntryKeys && "discount" !in EntryKeys;
  }

  /** The value a generated entry holds under key k; the keys outside the
      request-dependent part carry the generator's fixed defaults. */
  function EntryValue(e: GeneratedEntry, k: string): Value
  {
    if k == "place_id" then e.placeId
    else if k == "name" then e.name
    else if k == "category" then e.category
    else if k == "google_maps_url" then e.mapsUrl
    else if k == "hero_image" then e.heroImage
    else if k == "sheet_script_url" then Str(e.sheetScriptUrl)
    else if k == "discount_enabled" || k == "referral_enabled" then Bool(true)
    else if k == "discount_percentage" then Num(10.0)
    else if k == "discount_valid_days" then Num(30.0)
    else if k == "min_review" then Num(5.0)
    else if k == "referral_message" then Str("Lade deine Freunde ein sich Ihren eigenen Rabattcode zu holen!")
    else if k == "google_review_base_url" then Str("https://search.google.com/local/writereview?placeid=")
    else Str("")
  }

  /** The entry as written into the table, the constant defaults included. */
  function EmitEntry(e: GeneratedEntry): (m: map<string, Value>)
  {
    map k | k in EntryKeys :: EntryValue(e, k)
  }

  /** The outcomes of the admin generator: 405, 400, 500 and 200. */
  datatype GenerateReply =
    | NotPost
    | NoPlaceOrName
    | GenerateError
    | Generated(slug: string, previewUrl: string)

  /** The admin generator. `configs` is the table read from the repository
      and `heroImages` the hero-image map; the results are the two maps the
      handler commits (commit failures are logged and never change the
      reply). `scriptUrl` is REVIEW_SCRIPT_URL. */
  method Generate(httpMethod: string, body: Value, hostHeader: string, configs: map<string, Value>,
                  heroImages: map<string, Value>, scriptUrl: string, show: Value -> string)
    returns (out: GenerateReply, configsAfter: map<string, Value>, heroAfter: map<string, Value>)
    ensures httpMethod != "POST" ==> out == NotPost
    ensures httpMethod == "POST" && Nullish(body) ==> out == GenerateError
    ensures httpMethod == "POST" && !Nullish(body)
            && !(Truthy(Prop(body, "placeId")) && Truthy(Prop(body, "name")))
            ==> out == NoPlaceOrName
    ensures httpMethod == "POST" && !Nullish(body) && Truthy(Prop(body, "placeId")) && Truthy(Prop(body, "name"))
            && !Prop(body, "name").Str?
            ==> out == GenerateError
    ensures out.Generated? <==>
              && httpMethod == "POST" && !Nullish(body) && Truthy(Prop(body, "placeId"))
              && Truthy(Prop(body, "name")) && Prop(body, "name").Str?
    ensures !out.Generated? ==> configsAfter == configs && heroAfter == heroImages
    ensures out.Generated? ==>
              Commits(out, configsAfter, heroAfter, body, hostHeader, configs, heroImages, scriptUrl, show)
  {
    configsAfter, heroAfter := configs, heroImages;
    if httpMethod != "POST" {
      return NotPost, configsAfter, heroAfter;
    }
    if Nullish(body) {
      return GenerateError, configsAfter, heroAfter;
    }
    var placeId := Prop(body, "placeId");
    var name := Prop(body, "name");
    if !Truthy(placeId) || !Truthy(name) {
      return NoPlaceOrName, configsAfter, heroAfter;
    }
    if !name.Str? {
      return GenerateError, configsAfter, heroAfter;
    }
    out, configsAfter, heroAfter := Provision(body, hostHeader, configs, heroImages, scriptUrl, show);
  }

  /** The accepted request: pick the slug, add the entry, record the hero
      image, and answer with the preview URL. */
  method Provision(body: Value, hostHeader: string, configs: map<string, Value>,
                   heroImages: map<string, Value>, scriptUrl: string, show: Value -> string)
    returns (out: GenerateReply, configsAfter: map<string, Value>, heroAfter: map<string, Value>)
    requires Prop(body, "name").Str?
    ensures out.Generated?
    ensures Commits(out, configsAfter, heroAfter, body, hostHeader, configs, heroImages, scriptUrl, show)
  {
    var base := GenerateSlug(Prop(body, "name").s);
    var slug := UniqueSlugInConfigs(base, configs);
    configsAfter := configs[slug := Obj(EmitEntry(NewEntry(body, scriptUrl, show)))];
    heroAfter := heroImages;
    var hero := Prop(body, "heroImage");
    if Truthy(hero) {
      heroAfter := heroImages[slug := hero];
    }
    out := Generated(slug, TenantUrl(slug, AdminBaseDomain(hostHeader)));
  }

  /** A generated tenant: a free slug derived from the name, its entry
      added to the table and nothing else changed there, its hero image
      recorded when one was sent, and the preview URL on the admin's base
      domain. */
  ghost predicate Commits(out: GenerateReply, configsAfter: map<string, Value>, heroAfter: map<string, Value>,
                    body: Value, hostHeader: string, configs: map<string, Value>,
                    heroImages: map<string, Value>, scriptUrl: string, show: Value -> string)
    requires out.Generated? && Prop(body, "name").Str?
  {
    var s := out.slug;
    && FreeSlugFor(configs, GenerateSlug(Prop(body, "name").s), s)
    && configsAfter == configs[s := Obj(EmitEntry(NewEntry(body, scriptUrl, show)))]
    && (forall k :: k in configs && k != s ==> configsAfter[k] == configs[k])
    && (Truthy(Prop(body, "heroImage")) ==> heroAfter == heroImages[s := Prop(body, "heroImage")])
    && (!Truthy(Prop(body, "heroImage")) ==> heroAfter == heroImages)
    && out.previewUrl == TenantUrl(s, AdminBaseDomain(hostHeader))
  }

  /** A generated entry does not configure the page that loads it: the
      page reads camelCase keys and starts as if unconfigured. */
  lemma GeneratedEntryIgnored(e: GeneratedEntry, parse: string -> Option<real>)
    ensures ReviewFlow.InitialState(Obj(EmitEntry(e)), parse) == ReviewFlow.UnconfiguredState
  {
    EntryKeysForeign();
    ServedConfig.ForeignKeysIgnored(EmitEntry(e), parse);
  }
}
