/** Which tenant a request belongs to. The browser scripts (app.js,
    config.js, config-loader.js) share one resolver that ignores subdomains
    shaped like `word-x-y`; the server-side page renderer (api/index.js)
    uses a different rule that ignores Vercel deployment hashes. */
module Tenant {
  import opened Text

  predicate LowerAlnum(c: char) { IsLower(c) || IsDigit(c) }

  predicate AllLowerAlnum(s: string) { forall k :: 0 <= k < |s| ==> LowerAlnum(s[k]) }

  /** `s[lo..hi]` is all `[a-z]`, stated on positions. */
  predicate LowerIn(s: string, lo: int, hi: int)
    requires 0 <= lo <= hi <= |s|
  {
    forall k :: lo <= k < hi ==> IsLower(s[k])
  }

  /** `s[lo..hi]` is all `[a-z0-9]`, stated on positions. */
  predicate AlnumIn(s: string, lo: int, hi: int)
    requires 0 <= lo <= hi <= |s|
  {
    forall k :: lo <= k < hi ==> LowerAlnum(s[k])
  }

  /** The language of the regex `^[a-z]+-[a-z0-9]+-[a-z0-9]+$`, stated by
      where its two hyphens sit. */
  ghost predicate ThreeSegmentSpec(s: string)
  {
    exists i, j :: 0 < i && i + 1 < j && j + 1 < |s| && ThreeSegmentAt(s, i, j)
  }

  predicate ThreeSegmentAt(s: string, i: int, j: int)
    requires 0 < i && i + 1 < j && j + 1 < |s|
  {
    && s[i] == '-' && s[j] == '-'
    && LowerIn(s, 0, i) && AlnumIn(s, i + 1, j) && AlnumIn(s, j + 1, |s|)
  }

  /** The matcher: none of the three classes holds a hyphen, so the two
      hyphens the regex needs are the first two of the string. */
  function ThreeSegment(s: string): (m: bool)
  {
    var i := IndexOfChar(s, '-');
    if i <= 0 then false
    else
      var j := i + 1 + IndexOfChar(s[i + 1..], '-');
      && i + 1 < j && j + 1 < |s|
      && LowerIn(s, 0, i) && AlnumIn(s, i + 1, j) && AlnumIn(s, j + 1, |s|)
  }

  /** The matcher accepts exactly the language of the regex. */
  lemma ThreeSegmentMeans(s: string)
    ensures ThreeSegment(s) <==> ThreeSegmentSpec(s)
  {
    if ThreeSegment(s) {
      ThreeSegmentSound(s);
    }
    if ThreeSegmentSpec(s) {
      var i, j :| 0 < i && i + 1 < j && j + 1 < |s| && ThreeSegmentAt(s, i, j);
      ThreeSegmentComplete(s, i, j);
    }
  }

  lemma ThreeSegmentSound(s: string)
    requires ThreeSegment(s)
    ensures ThreeSegmentSpec(s)
  {
    var i := IndexOfChar(s, '-');
    var k := IndexOfChar(s[i + 1..], '-');
    var j := i + 1 + k;
    assert s[j] == '-' by { assert s[i + 1..][k] == s[j]; }
    assert ThreeSegmentAt(s, i, j);
  }

  lemma ThreeSegmentComplete(s: string, i: int, j: int)
    requires 0 < i && i + 1 < j && j + 1 < |s| && ThreeSegmentAt(s, i, j)
    ensures ThreeSegment(s)
  {
    var p := s[..i];
    forall k | 0 <= k < i ensures p[k] != '-' {
      assert p[k] == s[k];
    }
    IndexOfCharAt(s, '-', i);
    var rest := s[i + 1..];
    var k := j - i - 1;
    var q := rest[..k];
    forall m | 0 <= m < k ensures q[m] != '-' {
      assert q[m] == s[i + 1 + m];
    }
    IndexOfCharAt(rest, '-', k);
  }

  /** A name with fewer than two hyphens is never taken for a generated
      deployment name by the browser resolver. */
  lemma FewHyphensNotThreeSegment(s: string, i: int)
    requires 0 <= i < |s| && '-' !in s[..i] && '-' !in s[i + 1..]
    ensures !ThreeSegment(s)
  {
    var f := IndexOfChar(s, '-');
    if f > 0 {
      IndexOfCharAt(s, '-', i);
      assert IndexOfChar(s[f + 1..], '-') == -1;
    }
  }

  /** The hostname's labels, as `hostname.split(".")` gives them. */
  function Labels(host: string): (parts: seq<string>)
    ensures |parts| >= 1
  {
    Split(host, '.')
  }

  /** The resolver shared by app.js, config.js and config-loader.js. `biz` is
      the `biz` query parameter, the empty string when it is absent. */
  function ResolveSlug(biz: string, host: string): (slug: string)
    ensures |biz| > 0 ==> slug == ToLower(biz)
    ensures |biz| == 0 && |Labels(host)| <= 2 ==> slug == "default"
    ensures |biz| == 0 && |Labels(host)| > 2 ==>
              slug == (if ThreeSegmentSpec(ToLower(Labels(host)[0])) then "default"
                       else ToLower(Labels(host)[0]))
  {
    ThreeSegmentMeans(ToLower(Labels(host)[0]));
    if |biz| > 0 then ToLower(biz)
    else
      var parts := Labels(host);
      if |parts| > 2 && !ThreeSegment(ToLower(parts[0])) then ToLower(parts[0])
      else "default"
  }

  /** Length of the longest prefix made of `[a-z0-9]`. */
  function AlnumRun(s: string): (n: nat)
    ensures n <= |s|
    ensures AllLowerAlnum(s[..n])
    ensures n == |s| || !LowerAlnum(s[n])
  {
    if |s| > 0 && LowerAlnum(s[0]) then
      var n := 1 + AlnumRun(s[1..]);
      assert s[..n] == [s[0]] + s[1..][..n - 1];
      n
    else 0
  }

  predicate HasDigit(s: string) { exists k :: 0 <= k < |s| && IsDigit(s[k]) }

  /** The language of `/^[a-z0-9]{10,}-[a-z0-9]{10,}/.test(s) && /\d/.test(s)`:
      the regex is anchored only at the start, so ten characters after the
      hyphen suffice. */
  ghost predicate DeploymentHashSpec(s: string)
  {
    && (exists i :: 10 <= i && i + 11 <= |s| && HashAt(s, i))
    && HasDigit(s)
  }

  predicate HashAt(s: string, i: int)
    requires 10 <= i && i + 11 <= |s|
  {
    AllLowerAlnum(s[..i]) && s[i] == '-' && AllLowerAlnum(s[i + 1..i + 11])
  }

  /** The matcher: `[a-z0-9]{10,}` is greedy and cannot cross a hyphen, so
      the hyphen is the first character after the leading alphanumeric run. */
  function DeploymentHash(s: string): (m: bool)
  {
    var i := AlnumRun(s);
    && 10 <= i < |s| && s[i] == '-' && AlnumRun(s[i + 1..]) >= 10
    && HasDigit(s)
  }

  lemma DeploymentHashMeans(s: string)
    ensures DeploymentHash(s) <==> DeploymentHashSpec(s)
  {
    if DeploymentHash(s) {
      DeploymentHashSound(s);
    }
    if DeploymentHashSpec(s) {
      var h :| 10 <= h && h + 11 <= |s| && HashAt(s, h);
      DeploymentHashComplete(s, h);
    }
  }

  lemma DeploymentHashSound(s: string)
    requires DeploymentHash(s)
    ensures DeploymentHashSpec(s)
  {
    var i := AlnumRun(s);
    var t := s[i + 1..];
    var n := AlnumRun(t);
    var u := s[i + 1..i + 11];
    forall k | 0 <= k < 10 ensures LowerAlnum(u[k]) {
      assert u[k] == t[..n][k];
    }
    assert HashAt(s, i);
  }

  lemma DeploymentHashComplete(s: string, h: int)
    requires 10 <= h && h + 11 <= |s| && HashAt(s, h) && HasDigit(s)
    ensures DeploymentHash(s)
  {
    AlnumRunCovers(s, h);
    AlnumRunStops(s, h);
    var t := s[h + 1..];
    var u, v := s[h + 1..h + 11], t[..10];
    forall k | 0 <= k < 10 ensures LowerAlnum(v[k]) {
      assert v[k] == u[k];
    }
    AlnumRunCovers(t, 10);
  }

  /** The leading run ends at the first character outside `[a-z0-9]`. */
  lemma AlnumRunStops(s: string, h: nat)
    requires h < |s| && !LowerAlnum(s[h])
    ensures AlnumRun(s) <= h
  {
    var n := AlnumRun(s);
    var p := s[..n];
    forall k | 0 <= k < n ensures LowerAlnum(s[k]) {
      assert p[k] == s[k];
    }
  }

  /** An alphanumeric prefix lies inside the leading run. */
  lemma {:induction false} AlnumRunCovers(s: string, h: nat)
    requires h <= |s| && AllLowerAlnum(s[..h])
    ensures AlnumRun(s) >= h
    decreases h
  {
    if h > 0 {
      assert LowerAlnum(s[0]) by { assert s[..h][0] == s[0]; }
      var t := s[1..];
      var u, v := t[..h - 1], s[..h];
      forall k | 0 <= k < h - 1 ensures LowerAlnum(u[k]) {
        assert u[k] == v[k + 1];
      }
      AlnumRunCovers(t, h - 1);
    }
  }

  /** Subdomain extraction of the page renderer (api/index.js). */
  function RendererSubdomain(hostHeader: string): (sub: string)
    ensures |Labels(hostHeader)| <= 2 ==> sub == "default"
    ensures |Labels(hostHeader)| > 2 ==>
              sub == (if DeploymentHashSpec(ToLower(Labels(hostHeader)[0])) then "default"
                      else ToLower(Labels(hostHeader)[0]))
  {
    DeploymentHashMeans(ToLower(Labels(hostHeader)[0]));
    var parts := Labels(hostHeader);
    if |parts| > 2 && !DeploymentHash(ToLower(parts[0])) then ToLower(parts[0])
    else "default"
  }

  /** Without a query parameter, the two resolvers agree on every host whose
      first label holds no hyphen: neither ignore rule can fire. */
  lemma ResolversAgreeWithoutHyphen(host: string)
    requires '-' !in ToLower(Labels(host)[0])
    ensures ResolveSlug("", host) == RendererSubdomain(host)
  {
    var sub := ToLower(Labels(host)[0]);
    assert IndexOfChar(sub, '-') == -1;
  }

  /** They disagree on every three-segment tenant that is no deployment
      hash, such as `my-cafe-1` (see the two lemmas after this one): the
      browser falls back to "default", the renderer keeps the label. */
  lemma ResolversDisagreeOnThreeSegments(host: string)
    requires |Labels(host)| > 2
    requires ThreeSegment(ToLower(Labels(host)[0]))
    requires !DeploymentHash(ToLower(Labels(host)[0]))
    ensures ResolveSlug("", host) == "default"
    ensures RendererSubdomain(host) == ToLower(Labels(host)[0]) != "default"
  {
    var sub := ToLower(Labels(host)[0]);
    assert IndexOfChar(sub, '-') >= 0;
    DefaultHasNoHyphen();
  }

  lemma DefaultHasNoHyphen()
    ensures '-' !in "default"
  {
    assert "default" == ['d', 'e', 'f', 'a', 'u', 'l', 't'];
  }

  lemma CafeIsThreeSegment()
    ensures ThreeSegment("my-cafe-1")
  {
    var s := "my-cafe-1";
    assert ThreeSegmentAt(s, 2, 7);
    ThreeSegmentComplete(s, 2, 7);
  }

  lemma CafeIsNoHash()
    ensures !DeploymentHash("my-cafe-1")
  {
    var s := "my-cafe-1";
    assert !LowerAlnum(s[2]);
    assert AlnumRun(s[2..]) == 0;
    assert AlnumRun(s[1..]) == 1 + AlnumRun(s[1..][1..]);
    assert s[1..][1..] == s[2..];
  }

  /** A lower-case first label that is not three-segment is the slug. */
  lemma KeptLabelResolves(host: string)
    requires |Labels(host)| > 2
    requires NoUpper(Labels(host)[0]) && !ThreeSegment(Labels(host)[0])
    ensures ResolveSlug("", host) == Labels(host)[0]
  {
    ToLowerIdentity(Labels(host)[0]);
  }

  /** The two seeded tenants have one hyphen each, so the browser resolver
      keeps them. */
  lemma BigCNotIgnored()
    ensures NoUpper("bigc-donchan") && !ThreeSegment("bigc-donchan")
  {
    var s := "bigc-donchan";
    forall i | 0 <= i < |s| ensures !IsUpper(s[i]) {
      assert s[i] in s;
    }
    assert "bigc-donchan"[..4] == "bigc" && "bigc-donchan"[5..] == "donchan";
    assert '-' !in "bigc" && '-' !in "donchan";
    FewHyphensNotThreeSegment("bigc-donchan", 4);
  }

  lemma StarbucksNotIgnored()
    ensures !ThreeSegment("starbucks-123")
  {
    assert "starbucks-123"[..9] == "starbucks" && "starbucks-123"[10..] == "123";
    assert '-' !in "starbucks" && '-' !in "123";
    FewHyphensNotThreeSegment("starbucks-123", 9);
  }
}
