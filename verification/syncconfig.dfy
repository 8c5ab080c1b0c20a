/** The command-line config sync: it fetches the settings of a list of
    slugs from the spreadsheet's web app, keeps the answers that carry a
    config, merges them over the configs already on disk, and writes the
    result, or exits with status 1 when nothing came back. The web app is a
    parameter; reading the old file and writing the new one are not
    modelled. */
module SyncConfig {
  import opened Js
  import opened Text

  const AppsScriptUrl := "https://script.google.com/macros/s/AKfycbzbo0fy_aFMAyI1I87n8XvZ6eDzaxe1nI4zuUfkkNuawcKWBIbJ2uFkJq1Ntb_c-keLEQ/exec"

  const DefaultSlugs: seq<string> := ["bigc-donchan", "starbucks-123", "default", "newbus123"]

  /** The request URL for one slug; the slug is not encoded. */
  function SlugUrl(slug: string): string
  {
    AppsScriptUrl + "?slug=" + slug
  }

  // ---------------------------------------------------------------------
  // One request with its redirects

  /** What one GET gets back: a response (status, Location header, status
      text, and the body parsed as JSON when it parses) or a transport
      error. */
  datatype Response =
    | Response(status: nat, location: string, statusMessage: string, body: Option<Value>)
    | TransportError(message: string)

  predicate IsRedirect(status: nat)
  {
    status == 301 || status == 302 || status == 307 || status == 308
  }

  /** How a request settles: with the parsed body, with an error, or not
      yet after the redirects the model was allowed to follow. */
  datatype Fetch = Fetched(data: Value) | Rejected(message: string) | Unsettled

  /** fetchJSON. Redirects are followed with no bound in the script; `fuel`
      is how many the model follows before calling the request unsettled. */
  function FetchJson(server: string -> Response, url: string, fuel: nat): (r: Fetch)
    ensures server(url).TransportError? ==> r == Rejected(server(url).message)
    ensures server(url).Response? && !IsRedirect(server(url).status) ==>
              && (server(url).status != 200 ==> r.Rejected?)
              && (server(url).status == 200 ==> (r.Fetched? <==> server(url).body.Some?))
    ensures r.Unsettled? ==> server(url).Response? && IsRedirect(server(url).status)
    ensures r.Fetched? ==> exists u :: server(u).Response? && server(u).status == 200 && server(u).body == Some(r.data)
    decreases fuel
  {
    match server(url)
    case TransportError(m) => Rejected(m)
    case Response(status, location, statusMessage, body) =>
      if IsRedirect(status) then
        if fuel == 0 then Unsettled else FetchJson(server, location, fuel - 1)
      else if status != 200 then Rejected("HTTP " + NatToString(status) + ": " + statusMessage)
      else if body.None? then Rejected("Invalid JSON response")
      else Fetched(body.value)
  }

  /** Following more redirects never changes a request that has settled. */
  lemma {:induction false} FetchSettlesForGood(server: string -> Response, url: string, f: nat, g: nat)
    requires f <= g && !FetchJson(server, url, f).Unsettled?
    ensures FetchJson(server, url, g) == FetchJson(server, url, f)
    decreases f
  {
    var resp := server(url);
    if resp.Response? && IsRedirect(resp.status) {
      FetchSettlesForGood(server, resp.location, f - 1, g - 1);
    }
  }

  /** A URL that redirects to itself never settles: the script waits for it
      forever. */
  lemma {:induction false} SelfRedirectNeverSettles(server: string -> Response, url: string, fuel: nat)
    requires server(url).Response? && IsRedirect(server(url).status) && server(url).location == url
    ensures FetchJson(server, url, fuel) == Unsettled
    decreases fuel
  {
    if fuel > 0 {
      SelfRedirectNeverSettles(server, url, fuel - 1);
    }
  }

  // ---------------------------------------------------------------------
  // Fetching the configs

  /** `data.ok && data.config`. */
  predicate Accepts(f: Fetch)
  {
    f.Fetched? && Truthy(Prop(f.data, "ok")) && Truthy(Prop(f.data, "config"))
  }

  /** The `config` of an answer. */
  function ConfigOf(f: Fetch): Value
  {
    if f.Fetched? then Prop(f.data, "config") else Undefined
  }

  /** The configs the answers for these slugs carry. */
  function Accepted(slugs: seq<string>, server: string -> Response, fuel: nat): (m: map<string, Value>)
    ensures forall s :: s in m <==> s in slugs && Accepts(FetchJson(server, SlugUrl(s), fuel))
    ensures forall s :: s in m ==> m[s] == ConfigOf(FetchJson(server, SlugUrl(s), fuel))
  {
    map s | s in slugs && Accepts(FetchJson(server, SlugUrl(s), fuel)) :: ConfigOf(FetchJson(server, SlugUrl(s), fuel))
  }

  predicate Settles(slugs: seq<string>, server: string -> Response, fuel: nat)
  {
    forall i :: 0 <= i < |slugs| ==> !FetchJson(server, SlugUrl(slugs[i]), fuel).Unsettled?
  }

  /** fetchConfigs: the slugs one after another; an answer with `ok` and a
      truthy `config` adds that config under its slug, any other answer or
      error is skipped. `settled` is false when a request never settles, in
      which case the loop never finishes. */
  method FetchConfigs(slugs: seq<string>, server: string -> Response, fuel: nat)
    returns (configs: map<string, Value>, settled: bool)
    ensures settled <==> Settles(slugs, server, fuel)
    ensures settled ==> configs == Accepted(slugs, server, fuel)
  {
    configs := map[];
    var i := 0;
    while i < |slugs|
      invariant 0 <= i <= |slugs|
      invariant Settles(slugs[..i], server, fuel)
      invariant configs == Accepted(slugs[..i], server, fuel)
    {
      var slug := slugs[i];
      var f := FetchJson(server, SlugUrl(slug), fuel);
      if f.Unsettled? {
        assert !Settles(slugs, server, fuel);
        return configs, false;
      }
      if Accepts(f) {
        configs := configs[slug := ConfigOf(f)];
      }
      PrefixStep(slugs, i, server, fuel, configs);
      i := i + 1;
    }
    assert slugs[..i] == slugs;
    settled := true;
  }

  lemma PrefixStep(slugs: seq<string>, i: nat, server: string -> Response, fuel: nat, configs: map<string, Value>)
    requires i < |slugs|
    requires Settles(slugs[..i], server, fuel) && !FetchJson(server, SlugUrl(slugs[i]), fuel).Unsettled?
    requires var f := FetchJson(server, SlugUrl(slugs[i]), fuel);
             configs == if Accepts(f) then Accepted(slugs[..i], server, fuel)[slugs[i] := ConfigOf(f)]
                        else Accepted(slugs[..i], server, fuel)
    ensures Settles(slugs[..i + 1], server, fuel)
    ensures configs == Accepted(slugs[..i + 1], server, fuel)
  {
    var prefix, longer := slugs[..i], slugs[..i + 1];
    assert longer == prefix + [slugs[i]];
    assert Settles(longer, server, fuel) by {
      forall k | 0 <= k < |longer| ensures !FetchJson(server, SlugUrl(longer[k]), fuel).Unsettled? {
        if k < i { assert longer[k] == prefix[k]; }
      }
    }
    AcceptedStep(prefix, slugs[i], server, fuel, configs);
  }

  /** The configs accepted from one more slug. */
  lemma AcceptedStep(prefix: seq<string>, slug: string, server: string -> Response, fuel: nat, configs: map<string, Value>)
    requires var f := FetchJson(server, SlugUrl(slug), fuel);
             configs == if Accepts(f) then Accepted(prefix, server, fuel)[slug := ConfigOf(f)]
                        else Accepted(prefix, server, fuel)
    ensures configs == Accepted(prefix + [slug], server, fuel)
  {
    var next := Accepted(prefix + [slug], server, fuel);
    forall s ensures s in configs <==> s in next {
      assert s in prefix + [slug] <==> s in prefix || s == slug;
    }
    assert configs.Keys == next.Keys;
  }

  // ---------------------------------------------------------------------
  // The script

  datatype SyncOutcome =
    | Hangs                                  // a request never settles
    | NothingFetched                         // exit status 1, nothing written
    | Written(configs: map<string, Value>)   // config.js rewritten with these

  /** The slugs on the command line, or the default list without any. */
  function SlugsToFetch(args: seq<string>): seq<string>
  {
    if |args| > 0 then args else DefaultSlugs
  }

  /** The run. `existing` is what reading the current config file gives
      (it is read only when slugs are named on the command line). */
  method Sync(args: seq<string>, existing: map<string, Value>, server: string -> Response, fuel: nat)
    returns (o: SyncOutcome)
    ensures var slugs := SlugsToFetch(args);
            var fetched := Accepted(slugs, server, fuel);
            && (o.Hangs? <==> !Settles(slugs, server, fuel))
            && (o.NothingFetched? <==> Settles(slugs, server, fuel) && |fetched| == 0)
            && (o.Written? ==>
                  && |fetched| > 0
                  && (|args| > 0 ==> o.configs.Keys == existing.Keys + fetched.Keys)
                  && (|args| == 0 ==> o.configs == fetched)
                  && (forall k :: k in fetched ==> o.configs[k] == fetched[k])
                  && (|args| > 0 ==> forall k :: k in existing && k !in fetched ==> o.configs[k] == existing[k]))
    ensures o.Written? && |args| == 0 ==> forall k :: k in o.configs ==> k in DefaultSlugs
  {
    var slugs := SlugsToFetch(args);
    var base: map<string, Value> := if |args| > 0 then existing else map[];
    var newConfigs, settled := FetchConfigs(slugs, server, fuel);
    if !settled {
      return Hangs;
    }
    if |newConfigs| == 0 {
      return NothingFetched;
    }
    if |args| == 0 {
      SpreadOntoNothing(newConfigs);
    }
    o := Written(Spread(base, newConfigs));
  }

  /** Spreading over an empty object copies. */
  lemma SpreadOntoNothing(m: map<string, Value>)
    ensures Spread(map[], m) == m
  {
    var r := Spread(map[], m);
    assert r.Keys == m.Keys;
  }
}
