/** The router in front of the account handlers: it picks a handler from
    the lower-cased request URL, first by its last path segment and then by
    what the path contains. */
module AuthRouter {
  import opened Text

  datatype Target =
    | RegisterHandler
    | LoginHandler
    | LogoutHandler
    | VerifyHandler
    | NotFound(receivedPath: string)  // 404, with the URL as received

  /** Index of the last non-empty part, or -1 when every part is empty. */
  function LastNonEmptyIndex(parts: seq<string>): (i: int)
    ensures -1 <= i < |parts|
    ensures i == -1 <==> forall k :: 0 <= k < |parts| ==> parts[k] == ""
    ensures i >= 0 ==> parts[i] != "" && forall k :: i < k < |parts| ==> parts[k] == ""
  {
    if |parts| == 0 then -1
    else if parts[|parts| - 1] != "" then |parts| - 1
    else
      var i := LastNonEmptyIndex(parts[..|parts| - 1]);
      assert forall k :: 0 <= k < |parts| - 1 ==> parts[..|parts| - 1][k] == parts[k];
      i
  }

  /** `parts.filter(Boolean).pop() || ''`: the last non-empty part. */
  function LastNonEmpty(parts: seq<string>): (r: string)
    ensures r == "" <==> forall i :: 0 <= i < |parts| ==> parts[i] == ""
    ensures r != "" ==> r == parts[LastNonEmptyIndex(parts)]
  {
    var i := LastNonEmptyIndex(parts);
    if i < 0 then "" else parts[i]
  }

  /** The endpoint name: the last non-empty `/`-segment of the path. */
  function Endpoint(path: string): string
  {
    LastNonEmpty(Split(path, '/'))
  }

  /** A branch matches on the endpoint name or on `/name` in the path. */
  predicate Matches(path: string, name: string)
  {
    Endpoint(path) == name || Contains(path, "/" + name)
  }

  /** The dispatch: register, login, logout, verify, first match wins. */
  function Route(url: string): (t: Target)
    ensures t == RegisterHandler <==> Matches(ToLower(url), "register")
    ensures t == LoginHandler <==> !Matches(ToLower(url), "register") && Matches(ToLower(url), "login")
    ensures t == LogoutHandler <==>
              !Matches(ToLower(url), "register") && !Matches(ToLower(url), "login") && Matches(ToLower(url), "logout")
    ensures t == VerifyHandler <==>
              && !Matches(ToLower(url), "register") && !Matches(ToLower(url), "login")
              && !Matches(ToLower(url), "logout") && Matches(ToLower(url), "verify")
    ensures t.NotFound? ==> t.receivedPath == url
  {
    var path := ToLower(url);
    if Matches(path, "register") then RegisterHandler
    else if Matches(path, "login") then LoginHandler
    else if Matches(path, "logout") then LogoutHandler
    else if Matches(path, "verify") then VerifyHandler
    else NotFound(url)
  }

  /** The endpoint is a single segment: it holds no `/`. */
  lemma EndpointIsSegment(path: string)
    ensures '/' !in Endpoint(path)
  {
    var parts := Split(path, '/');
    SplitPartsFree(path, '/');
    if Endpoint(path) != "" {
      var i :| 0 <= i < |parts| && parts[i] == Endpoint(path);
    }
  }

  /** Any URL ending in `/register`, in any letter case, reaches the
      registration handler, whatever comes before it (a login path with a
      query string such as `?next=/register` included). */
  lemma {:induction false} RegisterSuffixWins(prefix: string, suffix: string)
    requires ToLower(suffix) == "/register"
    ensures Route(prefix + suffix) == RegisterHandler
  {
    var path := ToLower(prefix + suffix);
    assert Matches(path, "register") by {
      LowerSuffixOccurs(prefix, suffix);
      assert "/" + "register" == ToLower(suffix);
      assert Contains(path, "/" + "register");
    }
  }

  /** Lower-casing keeps a suffix where it was. */
  lemma LowerSuffixOccurs(prefix: string, suffix: string)
    ensures OccursAt(ToLower(prefix + suffix), ToLower(suffix), |prefix|)
  {
    var url := prefix + suffix;
    var path := ToLower(url);
    var low := ToLower(suffix);
    var n := |prefix|;
    var tail := path[n..];
    forall k | 0 <= k < |low| ensures tail[k] == low[k] {
      assert url[n + k] == suffix[k];
    }
    assert path[n..n + |low|] == tail;
  }
}
