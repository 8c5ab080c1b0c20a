/** The server-side page renderer (api/index.js): it picks the tenant from
    the Host header and rewrites the Open Graph image and URL tags of the
    static page so that link previews show the tenant's hero image. */
module Renderer {
  import opened Text
  import opened Js
  import opened Tenant

  const OgImagePrefix := "<meta property=\"og:image\" content=\""
  const OgUrlPrefix := "<meta property=\"og:url\" content=\""

  /** The regex `prefix[^"]*"` matches at k when prefix occurs there and a
      quote follows somewhere after it (the class cannot cross a quote, so
      the match ends at the first one). */
  predicate MatchesAt(html: string, prefix: string, k: int)
  {
    OccursAt(html, prefix, k) && '"' in html[k + |prefix|..]
  }

  /** Leftmost position at or after `from` where the regex matches. */
  function MatchFrom(html: string, prefix: string, from: nat): (m: Option<nat>)
    requires from <= |html| + 1
    ensures m.None? ==> forall k :: from <= k ==> !MatchesAt(html, prefix, k)
    ensures m.Some? ==> from <= m.value && MatchesAt(html, prefix, m.value)
    ensures m.Some? ==> forall k :: from <= k < m.value ==> !MatchesAt(html, prefix, k)
    decreases |html| + 1 - from
  {
    if from + |prefix| > |html| then None
    else if MatchesAt(html, prefix, from) then Some(from)
    else MatchFrom(html, prefix, from + 1)
  }

  /** End of the match that starts at k: one past the first quote after the
      prefix. */
  function MatchEnd(html: string, prefix: string, k: nat): (e: nat)
    requires MatchesAt(html, prefix, k)
    ensures k + |prefix| < e <= |html| && html[e - 1] == '"'
    ensures '"' !in html[k + |prefix|..e - 1]
  {
    var q := IndexOfChar(html[k + |prefix|..], '"');
    assert html[k + |prefix|..][..q] == html[k + |prefix|..k + |prefix| + q];
    k + |prefix| + q + 1
  }

  /** The characters that follow `$` in a replacement pattern the regex
      here gives a meaning to. */
  predicate IsPatternChar(c: char) { c == '$' || c == '&' || c == '`' || c == '\'' }

  /** What `$c` stands for: a dollar sign, the matched text, the text
      before the match or the text after it. */
  function PatternText(c: char, matched: string, before: string, after: string): string
    requires IsPatternChar(c)
  {
    if c == '$' then "$" else if c == '&' then matched else if c == '`' then before else after
  }

  /** The replacement text String.prototype.replace builds from a
      replacement string (GetSubstitution in ECMA-262) for a pattern without
      capture groups: `$$`, `$&`, `` $` `` and `$'` are expanded, and every
      other `$` (`$1` and `$<` among them, there being no groups) stands
      for itself. */
  function Expand(template: string, matched: string, before: string, after: string): (r: string)
    ensures '$' !in template ==> r == template
    decreases |template|
  {
    if |template| == 0 then ""
    else if template[0] == '$' && |template| >= 2 && IsPatternChar(template[1]) then
      PatternText(template[1], matched, before, after) + Expand(template[2..], matched, before, after)
    else
      assert '$' !in template ==> '$' !in template[1..] by {
        assert template == [template[0]] + template[1..];
      }
      [template[0]] + Expand(template[1..], matched, before, after)
  }

  /** Every dollar sign doubled: the replacement string that would make
      the rewrite literal. */
  function EscapeDollars(s: string): (r: string)
    ensures |r| >= |s|
  {
    if |s| == 0 then ""
    else (if s[0] == '$' then "$$" else [s[0]]) + EscapeDollars(s[1..])
  }

  /** Expanding an escaped string gives the string back. */
  lemma {:induction false} ExpandEscaped(s: string, matched: string, before: string, after: string)
    ensures Expand(EscapeDollars(s), matched, before, after) == s
  {
    if |s| > 0 {
      var t := EscapeDollars(s);
      var rest := EscapeDollars(s[1..]);
      ExpandEscaped(s[1..], matched, before, after);
      if s[0] == '$' {
        assert t == "$$" + rest && t[2..] == rest;
      } else {
        assert t == [s[0]] + rest && t[1..] == rest;
      }
      assert s == [s[0]] + s[1..];
    }
  }

  /** A dollar-free head is copied as it is. */
  lemma {:induction false} ExpandPlainHead(a: string, b: string, matched: string, before: string, after: string)
    requires '$' !in a
    ensures Expand(a + b, matched, before, after) == a + Expand(b, matched, before, after)
  {
    if |a| == 0 {
      assert a + b == b;
    } else {
      var c, t := a[0], a[1..];
      assert a == [c] + t;
      assert c != '$' && '$' !in t;
      assert a + b == [c] + (t + b);
      ExpandOther(c, t + b, matched, before, after);
      ExpandPlainHead(t, b, matched, before, after);
      AppendAssoc([c], t, Expand(b, matched, before, after));
    }
  }

  /** A character other than `$` is copied as it is. */
  lemma ExpandOther(c: char, t: string, matched: string, before: string, after: string)
    requires c != '$'
    ensures Expand([c] + t, matched, before, after) == [c] + Expand(t, matched, before, after)
  {
    assert ([c] + t)[0] == c && ([c] + t)[1..] == t;
  }

  /** A closing quote after the value stays a closing quote. */
  lemma {:induction false} ExpandQuoteTail(v: string, matched: string, before: string, after: string)
    ensures Expand(v + "\"", matched, before, after) == Expand(v, matched, before, after) + "\""
  {
    var t := v + "\"";
    if |v| == 0 {
      assert t == "\"";
    } else if v[0] == '$' && |v| >= 2 && IsPatternChar(v[1]) {
      assert t[0] == v[0] && t[1] == v[1] && t[2..] == v[2..] + "\"";
      ExpandQuoteTail(v[2..], matched, before, after);
    } else if v[0] == '$' && |v| == 1 {
      assert t == "$\"" && t[1..] == "\"";
    } else {
      assert t[0] == v[0] && t[1..] == v[1..] + "\"";
      assert |v| >= 2 ==> t[1] == v[1];
      ExpandQuoteTail(v[1..], matched, before, after);
    }
  }

  /** The tag the rewrite writes for a dollar-free prefix: the prefix, the
      expanded value and the closing quote. */
  lemma ExpandTag(prefix: string, value: string, matched: string, before: string, after: string)
    requires '$' !in prefix
    ensures Expand(prefix + value + "\"", matched, before, after)
            == prefix + Expand(value, matched, before, after) + "\""
  {
    assert prefix + value + "\"" == prefix + (value + "\"");
    ExpandPlainHead(prefix, value + "\"", matched, before, after);
    ExpandQuoteTail(value, matched, before, after);
  }

  /** `html.replace(/prefix[^"]*"/, prefix + value + '"')`: the first match
      is replaced by the expanded replacement string, everything else is
      kept. */
  function ReplaceContent(html: string, prefix: string, value: string): (r: string)
    ensures MatchFrom(html, prefix, 0).None? ==> r == html
    ensures MatchFrom(html, prefix, 0).Some? ==>
              var k := MatchFrom(html, prefix, 0).value;
              var e := MatchEnd(html, prefix, k);
              var tag := Expand(prefix + value + "\"", html[k..e], html[..k], html[e..]);
              && k <= |r| && r[..k] == html[..k]
              && OccursAt(r, tag, k)
              && r[k + |tag|..] == html[e..]
  {
    match MatchFrom(html, prefix, 0)
    case None => html
    case Some(k) =>
      var e := MatchEnd(html, prefix, k);
      Splice(html[..k], Expand(prefix + value + "\"", html[k..e], html[..k], html[e..]), html[e..])
  }

  /** Without dollar signs the rewrite is literal. */
  lemma ReplaceLiteral(html: string, prefix: string, value: string)
    requires MatchFrom(html, prefix, 0).Some? && '$' !in prefix && '$' !in value
    ensures var k := MatchFrom(html, prefix, 0).value;
            var e := MatchEnd(html, prefix, k);
            ReplaceContent(html, prefix, value) == Splice(html[..k], prefix + value + "\"", html[e..])
  {
    var k := MatchFrom(html, prefix, 0).value;
    ReplaceLiteralAt(html, prefix, value, k, MatchEnd(html, prefix, k));
  }

  lemma ReplaceLiteralAt(html: string, prefix: string, value: string, k: nat, e: nat)
    requires MatchFrom(html, prefix, 0) == Some(k) && e == MatchEnd(html, prefix, k)
    requires '$' !in prefix && '$' !in value
    ensures ReplaceContent(html, prefix, value) == Splice(html[..k], prefix + value + "\"", html[e..])
  {
    ExpandTag(prefix, value, html[k..e], html[..k], html[e..]);
    ReplaceAt(html, prefix, value, k, e, prefix + value + "\"");
  }

  /** The rewrite at the first match k, ending at e, once the expanded
      replacement is known. */
  lemma ReplaceAt(html: string, prefix: string, value: string, k: nat, e: nat, tag: string)
    requires MatchFrom(html, prefix, 0) == Some(k) && e == MatchEnd(html, prefix, k)
    requires Expand(prefix + value + "\"", html[k..e], html[..k], html[e..]) == tag
    ensures ReplaceContent(html, prefix, value) == Splice(html[..k], tag, html[e..])
  {
  }

  /** A value holding `$&` writes the old tag back into the new one: a
      request path of `/?q=$&` puts the page's original og:url tag inside
      the rewritten one. */
  lemma DollarAmpersandRepeatsMatch(html: string, prefix: string)
    requires MatchFrom(html, prefix, 0).Some? && '$' !in prefix
    ensures var k := MatchFrom(html, prefix, 0).value;
            var e := MatchEnd(html, prefix, k);
            ReplaceContent(html, prefix, "$&") == Splice(html[..k], prefix + html[k..e] + "\"", html[e..])
  {
    var k := MatchFrom(html, prefix, 0).value;
    var e := MatchEnd(html, prefix, k);
    ExpandTag(prefix, "$&", html[k..e], html[..k], html[e..]);
    ExpandMatched(html[k..e], html[..k], html[e..]);
    ReplaceAt(html, prefix, "$&", k, e, prefix + html[k..e] + "\"");
  }

  /** `$&` alone expands to the matched text. */
  lemma ExpandMatched(matched: string, before: string, after: string)
    ensures Expand("$&", matched, before, after) == matched
  {
    assert "$&"[2..] == "";
  }

  /** a, then m, then b: the three parts can be read back at their offsets. */
  function Splice(a: string, m: string, b: string): (r: string)
    ensures |r| == |a| + |m| + |b|
    ensures r[..|a|] == a && OccursAt(r, m, |a|) && r[|a| + |m|..] == b
  {
    var r := a + m + b;
    assert r[|a|..|a| + |m|] == m;
    r
  }

  /** The content of the first matching tag, between the prefix and the
      closing quote. */
  function Content(html: string, prefix: string): string
    requires MatchFrom(html, prefix, 0).Some?
  {
    var k := MatchFrom(html, prefix, 0).value;
    html[k + |prefix|..MatchEnd(html, prefix, k) - 1]
  }

  /** Rewriting with the content already there changes nothing, as long
      as neither the prefix nor the content holds a dollar sign. */
  lemma ReplaceWithOwnContent(html: string, prefix: string)
    requires MatchFrom(html, prefix, 0).Some?
    requires '$' !in prefix && '$' !in Content(html, prefix)
    ensures ReplaceContent(html, prefix, Content(html, prefix)) == html
  {
    var k := MatchFrom(html, prefix, 0).value;
    var e := MatchEnd(html, prefix, k);
    var v := html[k + |prefix|..e - 1];
    assert v == Content(html, prefix);
    ReplaceLiteral(html, prefix, v);
    SpliceOwnTag(html, prefix, k, e);
  }

  /** Splicing a tag back in with the text it already holds gives the
      string back. */
  lemma SpliceOwnTag(s: string, prefix: string, k: nat, e: nat)
    requires OccursAt(s, prefix, k) && k + |prefix| < e <= |s| && s[e - 1] == '"'
    ensures Splice(s[..k], prefix + s[k + |prefix|..e - 1] + "\"", s[e..]) == s
  {
    assert s[k..e] == s[k..k + |prefix|] + s[k + |prefix|..e - 1] + s[e - 1..e];
    assert s[e - 1..e] == "\"";
    assert s == s[..k] + s[k..e] + s[e..];
  }

  /** Rewriting twice with a value free of quotes and dollar signs is
      rewriting once: the second pass finds the tag the first one wrote, at
      the same place. */
  lemma ReplaceIdempotent(html: string, prefix: string, value: string)
    requires '"' !in value && '$' !in value && '$' !in prefix
    ensures ReplaceContent(ReplaceContent(html, prefix, value), prefix, value)
            == ReplaceContent(html, prefix, value)
  {
    match MatchFrom(html, prefix, 0) {
    case None =>
    case Some(k) =>
      var tag := prefix + value + "\"";
      var r := ReplaceContent(html, prefix, value);
      RewriteFoundAgain(html, prefix, value, k);
      ReplaceLiteralAt(r, prefix, value, k, k + |tag|);
      SpliceWhole(r, tag, k);
    }
  }

  /** After a rewrite the search finds the written tag, where the old one
      stood, and its match ends at the tag's closing quote. */
  lemma RewriteFoundAgain(html: string, prefix: string, value: string, k: nat)
    requires '"' !in value && '$' !in value && '$' !in prefix && MatchFrom(html, prefix, 0) == Some(k)
    ensures var r := ReplaceContent(html, prefix, value);
            && MatchFrom(r, prefix, 0) == Some(k)
            && MatchEnd(r, prefix, k) == k + |prefix| + |value| + 1
            && OccursAt(r, prefix + value + "\"", k)
  {
    var e := MatchEnd(html, prefix, k);
    var r := Splice(html[..k], prefix + value + "\"", html[e..]);
    ReplaceLiteralAt(html, prefix, value, k, e);
    NoEarlierMatchAfterRewrite(html, prefix, k, e, r);
    RewrittenTagMatches(r, prefix, value, k);
    MatchFromLeftmost(r, prefix, k);
  }

  /** Splicing a tag back in where it already stands gives the string back. */
  lemma SpliceWhole(s: string, tag: string, k: nat)
    requires OccursAt(s, tag, k)
    ensures Splice(s[..k], tag, s[k + |tag|..]) == s
  {
    assert s == s[..k] + s[k..k + |tag|] + s[k + |tag|..];
  }

  lemma NoEarlierMatchAfterRewrite(html: string, prefix: string, k: nat, e: nat, r: string)
    requires MatchFrom(html, prefix, 0) == Some(k) && e == MatchEnd(html, prefix, k)
    requires k + |prefix| <= |r| && r[..k + |prefix|] == html[..k + |prefix|]
    ensures forall j :: 0 <= j < k ==> !MatchesAt(r, prefix, j)
  {
    forall j | 0 <= j < k ensures !OccursAt(r, prefix, j) {
      NotEarlierAfterRewrite(html, r, prefix, j, k, e);
    }
  }

  lemma NotEarlierAfterRewrite(html: string, r: string, prefix: string, j: nat, k: nat, e: nat)
    requires !MatchesAt(html, prefix, j) && j < k && k + |prefix| < e <= |html| && html[e - 1] == '"'
    requires k + |prefix| <= |r| && r[..k + |prefix|] == html[..k + |prefix|]
    ensures !OccursAt(r, prefix, j)
  {
    SameOccurrence(r, html, prefix, j, k + |prefix|);
    QuoteAfter(html, j + |prefix|, e);
  }

  lemma RewrittenTagMatches(r: string, prefix: string, value: string, k: nat)
    requires '"' !in value
    requires OccursAt(r, prefix + value + "\"", k)
    ensures MatchesAt(r, prefix, k)
    ensures MatchEnd(r, prefix, k) == k + |prefix| + |value| + 1
  {
    var tag := prefix + value + "\"";
    var t := r[k..k + |tag|];
    assert t == tag;
    assert tag[..|prefix|] == prefix && tag[|prefix|..|prefix| + |value|] == value;
    assert tag[|prefix| + |value|] == '"';
    assert r[k..k + |prefix|] == t[..|prefix|];
    forall i | 0 <= i < |value| ensures r[k + |prefix| + i] == value[i] {
      assert t[|prefix| + i] == r[k + |prefix| + i] && tag[|prefix| + i] == value[i];
    }
    assert r[k + |prefix|..k + |prefix| + |value|] == value;
    assert r[k + |prefix| + |value|] == t[|prefix| + |value|];
    assert r[k + |prefix|..][|value|] == '"';
    QuoteAfterValue(r, prefix, value, k, MatchEnd(r, prefix, k));
  }

  /** If the regex matches at k and nowhere before, the search finds k. */
  lemma {:induction false} MatchFromLeftmost(html: string, prefix: string, k: nat)
    requires MatchesAt(html, prefix, k)
    requires forall j :: 0 <= j < k ==> !MatchesAt(html, prefix, j)
    ensures MatchFrom(html, prefix, 0) == Some(k)
  {
  }

  lemma QuoteAfterValue(r: string, prefix: string, value: string, k: nat, e: nat)
    requires MatchesAt(r, prefix, k) && e == MatchEnd(r, prefix, k)
    requires '"' !in value
    requires k + |prefix| + |value| < |r|
    requires r[k + |prefix|..k + |prefix| + |value|] == value && r[k + |prefix| + |value|] == '"'
    ensures e == k + |prefix| + |value| + 1
  {
  }

  // ---------------------------------------------------------------------
  // Two tags rewritten one after the other

  /** A value the rewrite copies verbatim and that cannot start a tag: no
      quote, no dollar sign, no `<`. */
  predicate Plain(v: string) { '"' !in v && '$' !in v && '<' !in v }

  /** A tag prefix: it opens with `<` and holds no other `<` and no `$`. */
  predicate TagLike(p: string)
  {
    |p| > 0 && p[0] == '<' && (forall i :: 1 <= i < |p| ==> p[i] != '<') && '$' !in p
  }

  /** Two prefixes that disagree at a position both have. */
  predicate Differ(p: string, q: string) { exists i :: 0 <= i < |p| && i < |q| && p[i] != q[i] }

  /** The first matches of p and q do not overlap. */
  predicate Apart(html: string, p: string, q: string)
    requires MatchFrom(html, p, 0).Some? && MatchFrom(html, q, 0).Some?
  {
    var kp := MatchFrom(html, p, 0).value;
    var kq := MatchFrom(html, q, 0).value;
    MatchEnd(html, p, kp) <= kq || MatchEnd(html, q, kq) <= kp
  }

  /** The match at k ends at the first quote after the prefix. */
  lemma MatchEndAt(s: string, q: string, k: nat, e: nat)
    requires MatchesAt(s, q, k) && k + |q| < e <= |s| && s[e - 1] == '"'
    requires forall i :: k + |q| <= i < e - 1 ==> s[i] != '"'
    ensures MatchEnd(s, q, k) == e
  {
    var m := MatchEnd(s, q, k);
    forall i | k + |q| <= i < m - 1 ensures s[i] != '"' {
      assert s[k + |q|..m - 1][i - (k + |q|)] == s[i];
    }
  }

  /** Whether the regex matches at a position, and where that match ends,
      depends only on the text from there on. */
  lemma SuffixMatch(s: string, t: string, q: string, a: nat, b: nat)
    requires a <= |s| && b <= |t| && s[a..] == t[b..]
    ensures MatchesAt(s, q, a) <==> MatchesAt(t, q, b)
    ensures MatchesAt(s, q, a) ==> MatchEnd(s, q, a) - a == MatchEnd(t, q, b) - b
  {
    SuffixOccurs(s, t, q, a, b);
    if MatchesAt(t, q, b) {
      SuffixEnd(s, t, q, a, b);
    }
  }

  lemma SuffixOccurs(s: string, t: string, q: string, a: nat, b: nat)
    requires a <= |s| && b <= |t| && s[a..] == t[b..]
    ensures MatchesAt(s, q, a) <==> MatchesAt(t, q, b)
  {
    if a + |q| <= |s| {
      assert s[a..a + |q|] == s[a..][..|q|] && t[b..b + |q|] == t[b..][..|q|];
      assert s[a + |q|..] == s[a..][|q|..] && t[b + |q|..] == t[b..][|q|..];
    }
  }

  lemma SuffixEnd(s: string, t: string, q: string, a: nat, b: nat)
    requires a <= |s| && b <= |t| && s[a..] == t[b..] && MatchesAt(t, q, b) && MatchesAt(s, q, a)
    ensures MatchEnd(s, q, a) - a == MatchEnd(t, q, b) - b
  {
    var f := MatchEnd(t, q, b);
    var e := f - b + a;
    assert s[e - 1] == s[a..][f - 1 - b] == t[b..][f - 1 - b] == t[f - 1];
    forall i | a + |q| <= i < e - 1 ensures s[i] != '"' {
      assert s[a..][i - a] == s[i] && t[b..][i - a] == t[i - a + b];
      assert t[b + |q|..f - 1][i - a + b - (b + |q|)] == t[i - a + b];
    }
    MatchEndAt(s, q, a, e);
  }

  /** A shifted copy of a stretch without match has no match either. */
  lemma ShiftedNoMatch(r: string, html: string, q: string, n: nat, ep: nat, j: nat)
    requires n <= j <= |r| && ep <= |html| && r[n..] == html[ep..]
    requires !MatchesAt(html, q, j - n + ep)
    ensures !MatchesAt(r, q, j)
  {
    assert r[j..] == r[n..][j - n..] == html[ep..][j - n..] == html[j - n + ep..];
    SuffixOccurs(r, html, q, j, j - n + ep);
  }

  /** A quote at e - 1 lies after every position up to it. */
  lemma QuoteAfter(s: string, i: nat, e: nat)
    requires i < e <= |s| && s[e - 1] == '"'
    ensures '"' in s[i..]
  {
    assert s[i..][e - 1 - i] == '"';
  }

  /** Occurrences inside a common prefix are the same in both strings. */
  lemma SameOccurrence(s: string, t: string, q: string, j: nat, e: nat)
    requires j + |q| <= e <= |s| && e <= |t| && s[..e] == t[..e]
    ensures OccursAt(s, q, j) <==> OccursAt(t, q, j)
  {
    assert s[j..j + |q|] == s[..e][j..j + |q|] && t[j..j + |q|] == t[..e][j..j + |q|];
  }

  /** A string that agrees with t up to the end of t's first match has the
      same first match. */
  lemma AgreeingPrefix(s: string, t: string, q: string, k: nat, e: nat)
    requires MatchFrom(t, q, 0) == Some(k) && e == MatchEnd(t, q, k)
    requires e <= |s| && s[..e] == t[..e]
    ensures MatchFrom(s, q, 0) == Some(k) && MatchEnd(s, q, k) == e
  {
    assert t[e - 1] == t[..e][e - 1] == s[e - 1];
    assert forall j :: 0 <= j < k ==> !MatchesAt(t, q, j);
    forall j | 0 <= j < k ensures !MatchesAt(s, q, j) {
      AgreeingBefore(s, t, q, j, e);
    }
    SameOccurrence(s, t, q, k, e);
    QuoteAfter(s, k + |q|, e);
    MatchFromLeftmost(s, q, k);
    AgreeingEnd(s, t, q, k, e);
  }

  lemma AgreeingBefore(s: string, t: string, q: string, j: nat, e: nat)
    requires !MatchesAt(t, q, j) && j + |q| < e <= |s| && e <= |t| && s[..e] == t[..e] && t[e - 1] == '"'
    ensures !MatchesAt(s, q, j)
  {
    SameOccurrence(s, t, q, j, e);
    QuoteAfter(t, j + |q|, e);
  }

  lemma AgreeingEnd(s: string, t: string, q: string, k: nat, e: nat)
    requires MatchesAt(t, q, k) && MatchesAt(s, q, k) && e == MatchEnd(t, q, k)
    requires e <= |s| && s[..e] == t[..e]
    ensures MatchEnd(s, q, k) == e
  {
    assert t[e - 1] == t[..e][e - 1] == s[e - 1];
    forall i | k + |q| <= i < e - 1 ensures s[i] != '"' {
      assert t[k + |q|..e - 1][i - (k + |q|)] == t[i] == t[..e][i] == s[i];
    }
    MatchEndAt(s, q, k, e);
  }

  /** One position before a written tag that starts with `<`: a tag-like
      prefix that does not occur there in the original does not occur in
      the rewrite either. */
  lemma NotBeforeTag(r: string, html: string, q: string, kp: nat, j: nat, eq: nat)
    requires !MatchesAt(html, q, j) && j < kp && j + |q| < eq <= |html| && html[eq - 1] == '"'
    requires kp < |r| && kp <= |html| && r[..kp] == html[..kp] && r[kp] == '<' && TagLike(q)
    ensures !OccursAt(r, q, j)
  {
    if j + |q| <= kp {
      SameOccurrence(r, html, q, j, kp);
      QuoteAfter(html, j + |q|, eq);
    } else if j + |q| <= |r| {
      assert r[j..j + |q|][kp - j] == r[kp];
    }
  }

  /** Before a written tag that starts with `<` no tag-like prefix can match
      that did not match in the original. */
  lemma NoMatchBeforeTag(r: string, html: string, q: string, kp: nat, kq: nat)
    requires MatchFrom(html, q, 0) == Some(kq) && kp <= kq
    requires kp < |r| && kp <= |html| && r[..kp] == html[..kp] && r[kp] == '<' && TagLike(q)
    ensures forall j :: 0 <= j < kp ==> !MatchesAt(r, q, j)
  {
    var eq := MatchEnd(html, q, kq);
    forall j | 0 <= j < kp ensures !OccursAt(r, q, j) {
      NotBeforeTag(r, html, q, kp, j, eq);
    }
  }

  /** Inside a written tag no other tag-like prefix starts. */
  lemma NoMatchInsideTag(r: string, q: string, p: string, v: string, kp: nat)
    requires OccursAt(r, p + v + "\"", kp) && TagLike(p) && TagLike(q) && Differ(p, q) && '<' !in v
    ensures forall j :: kp <= j < kp + |p| + |v| + 1 ==> !OccursAt(r, q, j)
  {
    var tag := p + v + "\"";
    forall j | kp <= j < kp + |tag| ensures !OccursAt(r, q, j) {
      assert r[kp..kp + |tag|][j - kp] == r[j];
      if j == kp {
        var i :| 0 <= i < |p| && i < |q| && p[i] != q[i];
        assert r[kp..kp + |tag|][i] == r[kp + i];
        if j + |q| <= |r| {
          assert r[j..j + |q|][i] == r[kp + i];
        }
      } else {
        if j - kp < |p| {
          assert p[j - kp] == tag[j - kp];
        } else if j - kp < |p| + |v| {
          assert v[j - kp - |p|] == tag[j - kp];
        }
        if j + |q| <= |r| {
          assert r[j..j + |q|][0] == r[j];
        }
      }
    }
  }

  /** The shift of a later match: r agrees with html before kp, holds no
      occurrence of q on [kp, n) and continues at n with html's text from
      ep on. */
  lemma LaterMatch(r: string, html: string, q: string, kp: nat, n: nat, ep: nat, kq: nat, k2: nat)
    requires MatchFrom(html, q, 0) == Some(kq) && kp <= ep <= kq && TagLike(q)
    requires kp < n <= |r| && ep <= |html| && r[..kp] == html[..kp] && r[kp] == '<' && r[n..] == html[ep..]
    requires forall j :: kp <= j < n ==> !OccursAt(r, q, j)
    requires k2 == n + (kq - ep)
    ensures MatchFrom(r, q, 0) == Some(k2)
    ensures MatchEnd(r, q, k2) == k2 + (MatchEnd(html, q, kq) - kq)
  {
    NoMatchBeforeTag(r, html, q, kp, kq);
    forall j | n <= j < k2 ensures !MatchesAt(r, q, j) {
      ShiftedNoMatch(r, html, q, n, ep, j);
    }
    assert r[k2..] == r[n..][kq - ep..] == html[ep..][kq - ep..] == html[kq..];
    SuffixMatch(r, html, q, k2, kq);
    MatchFromLeftmost(r, q, k2);
  }

  /** r is html with the text on [kp, ep) replaced by tag. */
  predicate Rewrites(r: string, html: string, kp: nat, ep: nat, tag: string)
  {
    && kp <= ep <= |html| && kp + |tag| <= |r|
    && r[..kp] == html[..kp] && OccursAt(r, tag, kp) && r[kp + |tag|..] == html[ep..]
  }

  /** The rewrite with a plain value puts the written tag in place of the
      match and keeps the text on either side. */
  lemma RewrittenParts(html: string, p: string, v: string)
    requires MatchFrom(html, p, 0).Some? && '$' !in p && '$' !in v
    ensures var kp := MatchFrom(html, p, 0).value;
            Rewrites(ReplaceContent(html, p, v), html, kp, MatchEnd(html, p, kp), p + v + "\"")
  {
    ReplaceLiteral(html, p, v);
  }

  /** Two tag prefixes and a value that cannot be mistaken for one another:
      a tag of one prefix cannot start inside a tag written with the other. */
  predicate Separate(p: string, q: string, v: string)
  {
    TagLike(p) && TagLike(q) && Differ(p, q) && '<' !in v
  }

  /** r is html with v written into the match of p at kp, which ended at
      ep, and the search finds the written tag. */
  predicate Written(r: string, html: string, p: string, v: string, kp: nat, ep: nat)
  {
    && MatchFrom(r, p, 0) == Some(kp) && MatchEnd(r, p, kp) == kp + |p| + |v| + 1
    && Rewrites(r, html, kp, ep, p + v + "\"")
  }

  /** The rewrite with a plain value is found again. */
  lemma RewriteFacts(html: string, p: string, v: string)
    requires MatchFrom(html, p, 0).Some? && TagLike(p) && Plain(v)
    ensures var kp := MatchFrom(html, p, 0).value;
            Written(ReplaceContent(html, p, v), html, p, v, kp, MatchEnd(html, p, kp))
  {
    RewriteFoundAgain(html, p, v, MatchFrom(html, p, 0).value);
    RewrittenParts(html, p, v);
  }

  /** The rewritten tag holds the value. */
  lemma RewrittenValue(r: string, html: string, p: string, v: string, kp: nat, ep: nat)
    requires Written(r, html, p, v, kp, ep)
    ensures MatchFrom(r, p, 0).Some? && Content(r, p) == v
  {
    TagValue(r, p, v, kp);
    ContentAt(r, p, kp, kp + |p| + |v| + 1);
  }

  /** Rewriting one of two apart tags with a plain value writes the value
      into it and leaves the other tag's text alone. */
  lemma ReplaceKeepsOther(html: string, p: string, q: string, v: string)
    requires MatchFrom(html, p, 0).Some? && MatchFrom(html, q, 0).Some? && Apart(html, p, q)
    requires TagLike(p) && TagLike(q) && Differ(p, q) && Plain(v)
    ensures var r := ReplaceContent(html, p, v);
            && MatchFrom(r, p, 0).Some? && MatchFrom(r, q, 0).Some? && Apart(r, p, q)
            && Content(r, p) == v && Content(r, q) == Content(html, q)
  {
    var kp := MatchFrom(html, p, 0).value;
    RewriteFacts(html, p, v);
    RewrittenValue(ReplaceContent(html, p, v), html, p, v, kp, MatchEnd(html, p, kp));
    OtherTagKept(ReplaceContent(html, p, v), html, p, q, v, kp);
  }

  /** The same for any string r that is html with the tag written over the
      first match of p. */
  lemma OtherTagKept(r: string, html: string, p: string, q: string, v: string, kp: nat)
    requires MatchFrom(html, p, 0) == Some(kp) && MatchFrom(html, q, 0).Some? && Apart(html, p, q)
    requires Separate(p, q, v) && Written(r, html, p, v, kp, MatchEnd(html, p, kp))
    ensures MatchFrom(r, q, 0).Some? && Apart(r, p, q) && Content(r, q) == Content(html, q)
  {
    var kq := MatchFrom(html, q, 0).value;
    if MatchEnd(html, q, kq) <= kp {
      EarlierTagKept(r, html, p, q, kp, kq);
    } else {
      LaterTagKept(r, html, p, q, v, kp, MatchEnd(html, p, kp), kq);
    }
  }

  /** A tag of q that ends before kp, where r and html agree, is found at
      the same place in r, with the same content. */
  lemma EarlierTagKept(r: string, html: string, p: string, q: string, kp: nat, kq: nat)
    requires MatchFrom(html, q, 0) == Some(kq) && MatchEnd(html, q, kq) <= kp
    requires MatchFrom(r, p, 0) == Some(kp) && kp <= |r| && kp <= |html| && r[..kp] == html[..kp]
    ensures MatchFrom(r, q, 0).Some? && Apart(r, p, q) && Content(r, q) == Content(html, q)
  {
    var eq := MatchEnd(html, q, kq);
    EarlierTagFound(r, html, q, kp, kq, eq);
    EarlierTagText(r, html, q, kp, kq, eq);
  }

  /** The earlier tag keeps its text. */
  lemma EarlierTagText(r: string, html: string, q: string, kp: nat, kq: nat, eq: nat)
    requires MatchFrom(html, q, 0) == Some(kq) && eq == MatchEnd(html, q, kq) && eq <= kp
    requires MatchFrom(r, q, 0) == Some(kq) && eq == MatchEnd(r, q, kq)
    requires kp <= |r| && kp <= |html| && r[..kp] == html[..kp]
    ensures Content(r, q) == Content(html, q)
  {
    PrefixSlice(r, html, kq + |q|, eq - 1, kp);
    SameContent(r, html, q, kq, eq, kq, eq);
  }

  /** The earlier tag is found where it was and ends where it did. */
  lemma EarlierTagFound(r: string, html: string, q: string, kp: nat, kq: nat, eq: nat)
    requires MatchFrom(html, q, 0) == Some(kq) && eq == MatchEnd(html, q, kq) && eq <= kp
    requires kp <= |r| && kp <= |html| && r[..kp] == html[..kp]
    ensures MatchFrom(r, q, 0) == Some(kq) && MatchEnd(r, q, kq) == eq
  {
    ShorterPrefix(r, html, eq, kp);
    AgreeingPrefix(r, html, q, kq, eq);
  }

  /** A tag of q that starts after html's match of p ends is found in r
      shifted by the change in length, with the same content. */
  lemma LaterTagKept(r: string, html: string, p: string, q: string, v: string, kp: nat, ep: nat, kq: nat)
    requires MatchFrom(html, q, 0) == Some(kq) && ep <= kq
    requires Separate(p, q, v) && Written(r, html, p, v, kp, ep)
    ensures MatchFrom(r, q, 0).Some? && Apart(r, p, q) && Content(r, q) == Content(html, q)
  {
    var k2 := kp + |p| + |v| + 1 + (kq - ep);
    LaterTagFound(r, html, p, q, v, kp, ep, kq, k2);
    LaterTagText(r, html, q, kp + |p| + |v| + 1, ep, kq, MatchEnd(html, q, kq), k2, MatchEnd(r, q, k2));
  }

  /** The later tag keeps its text. */
  lemma LaterTagText(r: string, html: string, q: string, n: nat, ep: nat, kq: nat, eq: nat, k2: nat, e2: nat)
    requires MatchFrom(html, q, 0) == Some(kq) && eq == MatchEnd(html, q, kq) && ep <= kq
    requires n <= |r| && ep <= |html| && r[n..] == html[ep..] && k2 == n + (kq - ep)
    requires MatchFrom(r, q, 0) == Some(k2) && e2 == MatchEnd(r, q, k2) && e2 == k2 + (eq - kq)
    ensures Content(r, q) == Content(html, q)
  {
    ShiftedSlice(r, html, n, ep, kq + |q|, eq - 1, k2 + |q|, e2 - 1);
    SameContent(r, html, q, k2, e2, kq, eq);
  }

  /** Two first matches with the same text between prefix and quote have
      the same content. */
  lemma SameContent(r: string, html: string, q: string, k2: nat, e2: nat, kq: nat, eq: nat)
    requires MatchFrom(r, q, 0) == Some(k2) && e2 == MatchEnd(r, q, k2)
    requires MatchFrom(html, q, 0) == Some(kq) && eq == MatchEnd(html, q, kq)
    requires r[k2 + |q|..e2 - 1] == html[kq + |q|..eq - 1]
    ensures Content(r, q) == Content(html, q)
  {
    ContentAt(r, q, k2, e2);
    ContentAt(html, q, kq, eq);
  }

  /** Where the later tag is found after the rewrite. */
  lemma LaterTagFound(r: string, html: string, p: string, q: string, v: string, kp: nat, ep: nat, kq: nat, k2: nat)
    requires MatchFrom(html, q, 0) == Some(kq) && ep <= kq
    requires Separate(p, q, v) && Rewrites(r, html, kp, ep, p + v + "\"") && k2 == kp + |p| + |v| + 1 + (kq - ep)
    ensures MatchFrom(r, q, 0) == Some(k2) && MatchEnd(r, q, k2) == k2 + (MatchEnd(html, q, kq) - kq)
  {
    var tag := p + v + "\"";
    assert r[kp] == '<' by {
      assert r[kp..kp + |tag|][0] == r[kp] && tag[0] == p[0];
    }
    NoMatchInsideTag(r, q, p, v, kp);
    LaterMatch(r, html, q, kp, kp + |tag|, ep, kq, k2);
  }

  /** The content of the first match at k. */
  lemma ContentAt(s: string, q: string, k: nat, e: nat)
    requires MatchFrom(s, q, 0) == Some(k) && MatchEnd(s, q, k) == e
    ensures Content(s, q) == s[k + |q|..e - 1]
  {
  }

  /** The value sits between the prefix and the quote of a written tag. */
  lemma TagValue(r: string, p: string, v: string, k: nat)
    requires OccursAt(r, p + v + "\"", k)
    ensures r[k + |p|..k + |p| + |v|] == v
  {
    assert r[k + |p|..k + |p| + |v|] == r[k..k + |p| + |v| + 1][|p|..|p| + |v|];
  }

  /** Two strings that agree up to m agree up to any point before m. */
  lemma ShorterPrefix(r: string, html: string, e: nat, m: nat)
    requires e <= m <= |r| && m <= |html| && r[..m] == html[..m]
    ensures r[..e] == html[..e]
  {
    forall i | 0 <= i < e ensures r[i] == html[i] {
      assert r[..m][i] == html[..m][i];
    }
  }

  /** Two strings that agree up to m agree on every slice below m. */
  lemma PrefixSlice(r: string, html: string, i: nat, j: nat, m: nat)
    requires i <= j <= m <= |r| && m <= |html| && r[..m] == html[..m]
    ensures r[i..j] == html[i..j]
  {
    assert r[i..j] == r[..m][i..j] && html[i..j] == html[..m][i..j];
  }

  /** r continues at n with html's text from ep on, and [a, b) is where
      html's slice [i, j) lands in r. */
  predicate Shift(r: string, html: string, n: nat, ep: nat, i: int, j: int, a: int, b: int)
  {
    && n <= |r| && ep <= i <= j <= |html| && r[n..] == html[ep..]
    && a == n + (i - ep) && b == n + (j - ep)
  }

  /** A string that continues at n with html's text from ep on holds each
      later slice of html, shifted by n - ep. */
  lemma ShiftedSlice(r: string, html: string, n: nat, ep: nat, i: int, j: int, a: int, b: int)
    requires Shift(r, html, n, ep, i, j, a, b)
    ensures 0 <= a <= b <= |r| && 0 <= i <= j <= |html| && r[a..b] == html[i..j]
  {
    assert |r| - n == |html| - ep;
    forall t | 0 <= t < j - i ensures r[a..b][t] == html[i..j][t] {
      assert r[n..][i - ep + t] == html[ep..][i - ep + t];
    }
  }

  lemma OgImagePrefixTagLike()
    ensures TagLike(OgImagePrefix)
  {
    assert |OgImagePrefix| == 35;
  }

  lemma OgUrlPrefixTagLike()
    ensures TagLike(OgUrlPrefix)
  {
    assert |OgUrlPrefix| == 33;
  }

  lemma OgPrefixesDiffer()
    ensures Differ(OgImagePrefix, OgUrlPrefix) && Differ(OgUrlPrefix, OgImagePrefix)
  {
    assert OgImagePrefix[19] == 'i' && OgUrlPrefix[19] == 'u';
  }

  /** The image a link preview shows: the tenant's hero image when the map
      has a non-empty one, else the site logo on the requested host. */
  function OgImage(heroImages: map<string, string>, sub: string, host: string): (url: string)
    ensures sub in heroImages && |heroImages[sub]| > 0 ==> url == heroImages[sub]
    ensures !(sub in heroImages && |heroImages[sub]| > 0) ==> url == "https://" + host + "/logo.png"
  {
    if sub in heroImages && |heroImages[sub]| > 0 then heroImages[sub]
    else "https://" + host + "/logo.png"
  }

  /** The canonical URL: the host followed by the request path, "/" when the
      request carries none. */
  function OgUrl(host: string, path: string): (url: string)
    ensures StartsWith(url, "https://" + host)
    ensures url[|"https://" + host|..] == (if |path| > 0 then path else "/")
  {
    "https://" + host + OrPath(path)
  }

  function OrPath(path: string): string { if |path| > 0 then path else "/" }

  /** The page for one request. `host` and `path` are the Host header and
      request URL, the empty string when absent; `heroImages` is the parsed
      hero image file, empty when it could not be read. On a page whose two
      tags do not overlap, and for values the rewrite copies verbatim, the
      og:image tag carries the tenant's image and the og:url tag the
      request's URL. */
  function RenderPage(heroImages: map<string, string>, host: string, path: string, html: string): (page: string)
    ensures MatchFrom(html, OgImagePrefix, 0).None? ==> page == ReplaceContent(html, OgUrlPrefix, OgUrl(host, path))
    ensures MatchFrom(html, OgImagePrefix, 0).None? && MatchFrom(html, OgUrlPrefix, 0).None? ==> page == html
    ensures var img := OgImage(heroImages, RendererSubdomain(host), host);
            var url := OgUrl(host, path);
            && MatchFrom(html, OgImagePrefix, 0).Some? && MatchFrom(html, OgUrlPrefix, 0).Some?
            && Apart(html, OgImagePrefix, OgUrlPrefix) && Plain(img) && Plain(url)
            ==> && MatchFrom(page, OgImagePrefix, 0).Some? && Content(page, OgImagePrefix) == img
                && MatchFrom(page, OgUrlPrefix, 0).Some? && Content(page, OgUrlPrefix) == url
  {
    var sub := RendererSubdomain(host);
    var img := OgImage(heroImages, sub, host);
    var url := OgUrl(host, path);
    var withImage := ReplaceContent(html, OgImagePrefix, img);
    var page := ReplaceContent(withImage, OgUrlPrefix, url);
    TagsWritten(html, img, url);
    page
  }

  /** The two rewrites in a row: each tag ends up with its own value. */
  lemma TagsWritten(html: string, img: string, url: string)
    ensures var page := ReplaceContent(ReplaceContent(html, OgImagePrefix, img), OgUrlPrefix, url);
            && MatchFrom(html, OgImagePrefix, 0).Some? && MatchFrom(html, OgUrlPrefix, 0).Some?
            && Apart(html, OgImagePrefix, OgUrlPrefix) && Plain(img) && Plain(url)
            ==> && MatchFrom(page, OgImagePrefix, 0).Some? && Content(page, OgImagePrefix) == img
                && MatchFrom(page, OgUrlPrefix, 0).Some? && Content(page, OgUrlPrefix) == url
  {
    if && MatchFrom(html, OgImagePrefix, 0).Some? && MatchFrom(html, OgUrlPrefix, 0).Some?
       && Apart(html, OgImagePrefix, OgUrlPrefix) && Plain(img) && Plain(url) {
      OgImagePrefixTagLike();
      OgUrlPrefixTagLike();
      OgPrefixesDiffer();
      ReplaceKeepsOther(html, OgImagePrefix, OgUrlPrefix, img);
      var withImage := ReplaceContent(html, OgImagePrefix, img);
      ReplaceKeepsOther(withImage, OgUrlPrefix, OgImagePrefix, url);
    }
  }

  /** When the hero image file could not be read every tenant previews with
      the logo. */
  lemma NoHeroFileMeansLogo(sub: string, host: string)
    ensures OgImage(map[], sub, host) == "https://" + host + "/logo.png"
  {
  }
}
