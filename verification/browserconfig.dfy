/** How the browser picks the active tenant config: config.js indexes its
    embedded table, config-loader.js tries the sheet service, then its own
    static table, then a fallback. Configs are JSON-shaped values; only the
    fields the code or its callers look at are spelled out. */
module BrowserConfig {
  import opened Js
  import opened Text
  import opened Tenant

  function Named(name: string): Value
  {
    Obj(map["businessName" := Str(name)])
  }

  /** The table embedded in config.js, reduced to each tenant's name. */
  const ReviewConfigs: map<string, Value> := map[
    "bigc-donchan" := Named("Big C Supercenter Chiang Mai Don Chan"),
    "starbucks-123" := Named("Starbucks Coffee Chiang Mai"),
    "newbus123" := Named("newbus123 Franky"),
    "dein-business" := Named("Dein lokales Business"),
    "bodenseebaer" := Named("Bodenseeb\U{00C3}\U{00A4}r")
  ]

  /** `REVIEW_CONFIGS[slug] || REVIEW_CONFIGS["default"]` */
  function SelectConfig(table: map<string, Value>, slug: string): (cfg: Value)
    ensures Truthy(Get(table, slug)) ==> cfg == table[slug]
    ensures !Truthy(Get(table, slug)) ==> cfg == Get(table, "default")
  {
    Or(Get(table, slug), Get(table, "default"))
  }

  /** The embedded table has no "default" entry, so a slug it does not know
      leaves the page without any config, while a known slug gets its own. */
  lemma EmbeddedSelection(slug: string)
    ensures slug !in ReviewConfigs ==> SelectConfig(ReviewConfigs, slug) == Undefined
    ensures slug in ReviewConfigs ==> SelectConfig(ReviewConfigs, slug) == ReviewConfigs[slug]
  {
    assert "default" !in ReviewConfigs;
  }

  /** A host such as `bigc-donchan.blooreview.app` selects its own entry. */
  lemma SeededHostSelectsItsEntry(host: string)
    requires |Labels(host)| > 2 && Labels(host)[0] == "bigc-donchan"
    ensures ResolveSlug("", host) == "bigc-donchan"
    ensures SelectConfig(ReviewConfigs, ResolveSlug("", host)) == ReviewConfigs["bigc-donchan"]
  {
    BigCNotIgnored();
    KeptLabelResolves(host);
    assert "bigc-donchan" in ReviewConfigs;
    EmbeddedSelection("bigc-donchan");
  }

  /** What the sheet service fetch came to: a thrown fetch, or a response
      with its HTTP ok flag and its body parsed as JSON (None when the body
      is not JSON, which makes `response.json()` throw). */
  datatype SheetReply =
    | FetchThrew
    | Response(httpOk: bool, body: Option<Value>)

  /** loadConfigFromSheets: null on any failure, else `result.config`. */
  function LoadConfigFromSheets(reply: SheetReply): (cfg: Value)
    ensures reply.FetchThrew? ==> cfg == Null
    ensures reply.Response? && (!reply.httpOk || reply.body.None?) ==> cfg == Null
    ensures reply.Response? && reply.httpOk && reply.body.Some? ==>
              if Truthy(Prop(reply.body.value, "ok")) then cfg == Prop(reply.body.value, "config")
              else cfg == Null
  {
    match reply
    case FetchThrew => Null
    case Response(ok, body) =>
      if !ok then Null
      else match body
        case None => Null
        case Some(result) =>
          if !Truthy(Prop(result, "ok")) then Null else Prop(result, "config")
  }

  function Discount(enabled: bool, percentage: real, validDays: real): Value
  {
    Obj(map["enabled" := Bool(enabled), "percentage" := Num(percentage), "validDays" := Num(validDays)])
  }

  function TenantConfig(name: string, category: string, percentage: real): Value
  {
    Obj(map[
      "businessName" := Str(name),
      "businessCategory" := Str(category),
      "discount" := Discount(true, percentage, 30.0)
    ])
  }

  /** The loader's static table. */
  const StaticConfigs: map<string, Value> := map[
    "bigc-donchan" := TenantConfig("Big C Supercenter Chiang Mai Don Chan", "Hypermarket", 10.0),
    "starbucks-123" := TenantConfig("Starbucks Coffee Chiang Mai", "Coffee Shop", 15.0)
  ]

  const FallbackConfig: Value := TenantConfig("Review Tool", "Business", 10.0)

  /** `dynamicConfig || staticConfig || fallbackConfig` */
  function FinalConfig(dynamic: Value, slug: string): (cfg: Value)
    ensures Truthy(dynamic) ==> cfg == dynamic
    ensures !Truthy(dynamic) && slug in StaticConfigs ==> cfg == StaticConfigs[slug]
    ensures !Truthy(dynamic) && slug !in StaticConfigs ==> cfg == FallbackConfig
    ensures Truthy(cfg)
  {
    Or(Or(dynamic, Get(StaticConfigs, slug)), FallbackConfig)
  }

  /** The loader's state as the app sees it: whether the config is loaded,
      and the config it published. */
  datatype LoaderState = LoaderState(configLoaded: bool, config: Value)

  /** The loader's observable states, in order: before the fetch resolves,
      and after the final config is published. */
  function LoaderRun(biz: string, host: string, reply: SheetReply): (trace: seq<LoaderState>)
    ensures |trace| == 2
    ensures forall k :: 0 <= k < |trace| ==> (trace[k].configLoaded <==> k == |trace| - 1)
    ensures !trace[0].configLoaded && trace[0].config == Undefined
    ensures trace[1].configLoaded && Truthy(trace[1].config)
  {
    var slug := ResolveSlug(biz, host);
    [LoaderState(false, Undefined),
     LoaderState(true, FinalConfig(LoadConfigFromSheets(reply), slug))]
  }

  /** A failed sheet lookup never leaves the app without a config: the
      static entry or the fallback stands in, in that order. */
  lemma SheetFailureFallsBack(reply: SheetReply, slug: string)
    requires reply.FetchThrew? || (reply.Response? && !reply.httpOk)
    ensures FinalConfig(LoadConfigFromSheets(reply), slug)
              == (if slug in StaticConfigs then StaticConfigs[slug] else FallbackConfig)
  {
  }

  /** The fallback is "Review Tool" with a 10% discount valid 30 days. */
  lemma FallbackContents()
    ensures Prop(FallbackConfig, "businessName") == Str("Review Tool")
    ensures Prop(FallbackConfig, "discount") == Discount(true, 10.0, 30.0)
  {
  }
}
