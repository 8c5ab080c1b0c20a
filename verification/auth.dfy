/** Session handling: the token payload, the Set-Cookie headers, the loose
    Cookie header parser (a relaxed form of the cookie-string syntax of
    section 4.2.1 of RFC 6265) and the choice between the session cookie
    and a Bearer token (section 2.1 of RFC 6750).

    Signing and verifying tokens and percent-decoding cookie values are
    parameters: `verify` gives the claims of a valid token, `decode` is
    decodeURIComponent, with None where it throws. */
module Auth {
  import opened Js
  import opened Text

  /** The claims of a session token. */
  datatype Claims = Claims(userId: Value, email: Value, subscriptionTier: Value)

  /** generateToken's payload for a user row: the tier defaults to 'free'. */
  function TokenPayload(user: Value): (c: Claims)
    ensures c.userId == Prop(user, "id") && c.email == Prop(user, "email")
    ensures Truthy(c.subscriptionTier)
    ensures !Truthy(Prop(user, "subscription_tier")) ==> c.subscriptionTier == Str("free")
    ensures Truthy(Prop(user, "subscription_tier")) ==> c.subscriptionTier == Prop(user, "subscription_tier")
  {
    Claims(Prop(user, "id"), Prop(user, "email"), Or(Prop(user, "subscription_tier"), Str("free")))
  }

  const CookieName := "auth_token"
  const CookieAttributes := " HttpOnly; Secure; SameSite=Strict; Path=/; Max-Age="

  /** One week in seconds. */
  const SessionSeconds: nat := 7 * 24 * 60 * 60

  /** The header setAuthCookie sends: the token as `auth_token`, expiring
      after a week. */
  function SetAuthCookie(token: string): (h: string)
    ensures h == CookieName + "=" + token + ";" + CookieAttributes + "604800"
  {
    WeekDigits();
    CookieName + "=" + token + ";" + CookieAttributes + NatToString(SessionSeconds)
  }

  lemma WeekDigits()
    ensures NatToString(SessionSeconds) == "604800"
  {
    assert SessionSeconds == 604800;
    assert NatToString(6) == "6" && NatToString(60) == "60" && NatToString(604) == "604";
    assert NatToString(6048) == "6048" && NatToString(60480) == "60480";
  }

  /** The header clearAuthCookie sends: the same cookie, empty, expiring now. */
  const ClearAuthCookie := "auth_token=; HttpOnly; Secure; SameSite=Strict; Path=/; Max-Age=0"

  /** The name and value of one `;`-piece: the trimmed piece split at `=`,
      the name before the first `=`, the value between the first and the
      second (empty when there is no `=`). */
  function Pair(piece: string): (string, string)
  {
    var parts := Split(Trim(piece), '=');
    (parts[0], if |parts| >= 2 then parts[1] else "")
  }

  /** The pairs of a Cookie header's `;`-pieces, in order. */
  function Pairs(header: string): (ps: seq<(string, string)>)
    ensures |ps| == |Split(header, ';')|
  {
    var pieces := Split(header, ';');
    seq(|pieces|, i requires 0 <= i < |pieces| => Pair(pieces[i]))
  }

  /** A pair that sets a cookie: both its name and its value are non-empty. */
  predicate Sets(p: (string, string))
  {
    p.0 != "" && p.1 != ""
  }

  /** parseCookies over the pairs, in order: a pair that sets a cookie
      overrides any earlier pair of the same name, and a value that cannot
      be decoded throws. */
  function ParsePairs(ps: seq<(string, string)>, decode: string -> Option<string>): Option<map<string, string>>
    decreases |ps|
  {
    if |ps| == 0 then Some(map[])
    else
      var last := ps[|ps| - 1];
      match ParsePairs(ps[..|ps| - 1], decode)
      case None => None
      case Some(m) =>
        if Sets(last) then
          match decode(last.1)
          case None => None
          case Some(d) => Some(m[last.0 := d])
        else Some(m)
  }

  function ParseCookies(header: string, decode: string -> Option<string>): Option<map<string, string>>
  {
    ParsePairs(Pairs(header), decode)
  }

  /** A pair whose value cannot be decoded. */
  predicate Undecodable(p: (string, string), decode: string -> Option<string>)
  {
    Sets(p) && decode(p.1).None?
  }

  /** Parsing throws exactly when some pair that sets a cookie cannot be
      decoded. */
  lemma {:induction false} ParseThrows(ps: seq<(string, string)>, decode: string -> Option<string>)
    ensures ParsePairs(ps, decode).None? <==> exists i :: 0 <= i < |ps| && Undecodable(ps[i], decode)
    decreases |ps|
  {
    if |ps| > 0 {
      var n := |ps| - 1;
      var front := ps[..n];
      ParseThrows(front, decode);
      if ParsePairs(front, decode).None? {
        var i :| 0 <= i < n && Undecodable(front[i], decode);
        assert Undecodable(ps[i], decode);
      } else if ParsePairs(ps, decode).Some? {
        forall i | 0 <= i < |ps| ensures !Undecodable(ps[i], decode) {
          if i < n { assert front[i] == ps[i]; }
        }
      }
    }
  }

  /** Otherwise the cookies are exactly the names the setting pairs give. */
  lemma {:induction false} ParseNames(ps: seq<(string, string)>, decode: string -> Option<string>)
    requires ParsePairs(ps, decode).Some?
    ensures forall k :: k in ParsePairs(ps, decode).value <==> exists i :: 0 <= i < |ps| && Sets(ps[i]) && ps[i].0 == k
    decreases |ps|
  {
    if |ps| > 0 {
      var n := |ps| - 1;
      var front := ps[..n];
      ParseNames(front, decode);
      var r := ParsePairs(ps, decode).value;
      forall k | k in r ensures exists i :: 0 <= i < |ps| && Sets(ps[i]) && ps[i].0 == k {
        if !(Sets(ps[n]) && ps[n].0 == k) {
          var i :| 0 <= i < n && Sets(front[i]) && front[i].0 == k;
          assert ps[i] == front[i];
        }
      }
      forall k, i | 0 <= i < |ps| && Sets(ps[i]) && ps[i].0 == k ensures k in r {
        if i < n { assert Sets(front[i]) && front[i].0 == k; }
      }
    }
  }

  /** A later pair for a name overrides every earlier one. */
  lemma LaterPairWins(ps: seq<(string, string)>, p: (string, string), decode: string -> Option<string>)
    requires Sets(p) && ParsePairs(ps, decode).Some? && decode(p.1).Some?
    ensures ParsePairs(ps + [p], decode) == Some(ParsePairs(ps, decode).value[p.0 := decode(p.1).value])
  {
    assert (ps + [p])[..|ps|] == ps;
  }

  /** The value is what lies between the first and the second `=`. */
  lemma PairOf(name: string, value: string, rest: string)
    requires '=' !in name && '=' !in value
    requires NoSpace(name) && NoSpace(value) && NoSpace(rest)
    ensures Pair(name + "=" + value) == (name, value)
    ensures Pair(name + "=" + value + "=" + rest) == (name, value)
  {
    PairOfWhole(name, value);
    PairOfLonger(name, value, rest);
  }

  lemma PairOfWhole(name: string, value: string)
    requires '=' !in name && '=' !in value && NoSpace(name) && NoSpace(value)
    ensures Pair(name + "=" + value) == (name, value)
  {
    var one := name + "=" + value;
    NoSpaceAround(name, value);
    TrimIdentity(one);
    assert one == name + ['='] + value;
    SplitPrefix(name, '=', value);
    SplitCount(value, '=');
  }

  lemma PairOfLonger(name: string, value: string, rest: string)
    requires '=' !in name && '=' !in value
    requires NoSpace(name) && NoSpace(value) && NoSpace(rest)
    ensures Pair(name + "=" + value + "=" + rest) == (name, value)
  {
    var tail := value + "=" + rest;
    var two := name + "=" + tail;
    assert name + "=" + value + "=" + rest == two;
    NoSpaceAround(value, rest);
    NoSpaceAround(name, tail);
    TrimIdentity(two);
    assert two == name + ['='] + tail;
    SplitPrefix(name, '=', tail);
    assert tail == value + ['='] + rest;
    SplitPrefix(value, '=', rest);
  }

  /** Joining two words with `=` adds no white space. */
  lemma NoSpaceAround(a: string, b: string)
    requires NoSpace(a) && NoSpace(b)
    ensures NoSpace(a + "=" + b)
  {
    var s := a + "=" + b;
    forall i | 0 <= i < |s| ensures !IsSpace(s[i]) {
      if i < |a| { assert s[i] == a[i]; }
      else if i > |a| { assert s[i] == b[i - |a| - 1]; }
    }
  }

  /** The token in the `auth_token` cookie, or "" when there is none. */
  function CookieToken(cookies: map<string, string>): string
  {
    if CookieName in cookies then cookies[CookieName] else ""
  }

  /** A Cookie header without `;` is one pair. */
  lemma OnePiece(header: string)
    requires ';' !in header
    ensures Pairs(header) == [Pair(header)]
  {
    SplitCount(header, ';');
    var ps := Pairs(header);
    assert |ps| == 1;
    assert ps[0] == Pair(Split(header, ';')[0]);
  }

  /** One pair that sets a decodable cookie gives just that cookie. */
  lemma OnePair(p: (string, string), decode: string -> Option<string>)
    requires Sets(p) && decode(p.1).Some?
    ensures ParsePairs([p], decode) == Some(map[p.0 := decode(p.1).value])
  {
    assert [p][..0] == [];
  }

  /** A Cookie header that is exactly one `name=value` pair. */
  lemma SinglePair(name: string, value: string, decode: string -> Option<string>)
    requires name != "" && value != "" && '=' !in name && '=' !in value && ';' !in name + "=" + value
    requires NoSpace(name) && NoSpace(value) && decode(value) == Some(value)
    ensures ParseCookies(name + "=" + value, decode) == Some(map[name := value])
  {
    OnePiece(name + "=" + value);
    PairOf(name, value, "");
    OnePair((name, value), decode);
  }

  /** The first piece of the Set-Cookie header, sent back as a Cookie
      header, gives the token back. */
  lemma SessionCookieRoundTrip(token: string, decode: string -> Option<string>)
    requires token != "" && '=' !in token && ';' !in token && NoSpace(token)
    requires decode(token) == Some(token)
    ensures var sent := Split(SetAuthCookie(token), ';')[0];
            && sent == CookieName + "=" + token
            && ParseCookies(sent, decode).Some?
            && CookieToken(ParseCookies(sent, decode).value) == token
  {
    var sent := CookieName + "=" + token;
    CookieHeadFree(token);
    var header := SetAuthCookie(token);
    assert header == (sent + ";") + (CookieAttributes + "604800");
    SplitHead(sent, header);
    SinglePair(CookieName, token, decode);
  }

  lemma CookieHeadFree(token: string)
    requires '=' !in token && ';' !in token && NoSpace(token)
    ensures ';' !in CookieName + "=" + token && '=' !in CookieName && NoSpace(CookieName)
  {
    var sent := CookieName + "=" + token;
    assert CookieName == ['a', 'u', 't', 'h', '_', 't', 'o', 'k', 'e', 'n'];
    forall i | 0 <= i < |sent| ensures sent[i] != ';' {
      if i > |CookieName| { assert sent[i] == token[i - |CookieName| - 1]; }
    }
  }

  /** A header that starts with a piece free of `;` followed by `;` has that
      piece first. */
  lemma SplitHead(piece: string, header: string)
    requires ';' !in piece && StartsWith(header, piece + ";")
    ensures Split(header, ';')[0] == piece
  {
    assert header == piece + [';'] + header[|piece| + 1..];
    SplitPrefix(piece, ';', header[|piece| + 1..]);
  }

  datatype AuthResult = AuthError | Anonymous | Authenticated(claims: Claims)

  /** The Authorization header: `Bearer ` and then the token. */
  function FromBearer(authorization: string, verify: string -> Option<Claims>): (r: AuthResult)
    ensures r.Authenticated? <==> StartsWith(authorization, "Bearer ") && verify(authorization[7..]).Some?
    ensures r.Authenticated? ==> r.claims == verify(authorization[7..]).value
    ensures !r.AuthError?
  {
    if authorization != "" && StartsWith(authorization, "Bearer ") then
      match verify(authorization[7..])
      case None => Anonymous
      case Some(c) => Authenticated(c)
    else Anonymous
  }

  /** getUserFromRequest (and requireAuth, which returns its result as it
      is): the session cookie first, the Bearer token only when the cookie
      gives no valid token. An undecodable cookie value throws. Absent
      headers are "". */
  function UserFromRequest(cookieHeader: string, authorization: string,
                           decode: string -> Option<string>, verify: string -> Option<Claims>): (r: AuthResult)
    ensures cookieHeader == "" ==> r == FromBearer(authorization, verify)
    ensures cookieHeader != "" && ParseCookies(cookieHeader, decode).None? ==> r == AuthError
    ensures cookieHeader != "" && ParseCookies(cookieHeader, decode).Some? ==>
              var token := CookieToken(ParseCookies(cookieHeader, decode).value);
              && (token != "" && verify(token).Some? ==> r == Authenticated(verify(token).value))
              && (!(token != "" && verify(token).Some?) ==> r == FromBearer(authorization, verify))
  {
    if cookieHeader != "" then
      match ParseCookies(cookieHeader, decode)
      case None => AuthError
      case Some(cookies) =>
        var token := CookieToken(cookies);
        if token != "" && verify(token).Some? then Authenticated(verify(token).value)
        else FromBearer(authorization, verify)
    else FromBearer(authorization, verify)
  }

  /** A valid session cookie decides the user, whatever the Authorization
      header says. */
  lemma CookieBeatsBearer(cookieHeader: string, a1: string, a2: string,
                          decode: string -> Option<string>, verify: string -> Option<Claims>)
    requires cookieHeader != "" && ParseCookies(cookieHeader, decode).Some?
    requires var t := CookieToken(ParseCookies(cookieHeader, decode).value); t != "" && verify(t).Some?
    ensures UserFromRequest(cookieHeader, a1, decode, verify) == UserFromRequest(cookieHeader, a2, decode, verify)
    ensures UserFromRequest(cookieHeader, a1, decode, verify).Authenticated?
  {
  }

  /** No user without a token that verifies. */
  lemma AnonymousWithoutValidToken(cookieHeader: string, authorization: string,
                                   decode: string -> Option<string>, verify: string -> Option<Claims>)
    requires forall t :: verify(t).None?
    ensures !UserFromRequest(cookieHeader, authorization, decode, verify).Authenticated?
  {
  }
}
