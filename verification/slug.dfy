/** Tenant slugs: turning a business name into a URL slug, resolving
    collisions against the existing tenants, and deriving the base domain a
    tenant's page is served under. */
module Slug {
  import opened Text
  import opened Js

  /** Characters a finished slug may hold: [a-z0-9_-]. */
  predicate SlugChar(c: char) { IsLower(c) || IsDigit(c) || c == '_' || c == '-' }

  predicate NoDoubleHyphen(s: string)
  {
    forall i :: 0 <= i < |s| - 1 ==> !(s[i] == '-' && s[i + 1] == '-')
  }

  predicate NoEdgeHyphen(s: string)
  {
    |s| == 0 || (s[0] != '-' && s[|s| - 1] != '-')
  }

  /** The shape every generated slug has. */
  predicate IsSlug(s: string)
  {
    && (forall i :: 0 <= i < |s| ==> SlugChar(s[i]))
    && NoDoubleHyphen(s)
    && NoEdgeHyphen(s)
  }

  predicate Kept(c: char) { IsWordChar(c) || IsSpace(c) || c == '-' }

  /** `replace(/[^\w\s-]/g, '')` */
  function RemoveSpecial(s: string): (r: string)
    ensures forall i :: 0 <= i < |r| ==> Kept(r[i])
    ensures (forall i :: 0 <= i < |s| ==> Kept(s[i])) ==> r == s
    ensures NoUpper(s) ==> NoUpper(r)
  {
    if |s| == 0 then ""
    else if Kept(s[0]) then [s[0]] + RemoveSpecial(s[1..])
    else RemoveSpecial(s[1..])
  }

  /** `replace(/\s+/g, '-')`: each maximal run of white space becomes one hyphen. */
  function Hyphenate(s: string): (r: string)
    ensures NoSpace(r)
    ensures |s| > 0 <==> |r| > 0
    ensures |s| > 0 ==> r[0] == (if IsSpace(s[0]) then '-' else s[0])
    ensures (forall i :: 0 <= i < |s| ==> SlugChar(s[i]) || IsSpace(s[i])) ==>
              forall i :: 0 <= i < |r| ==> SlugChar(r[i])
    ensures NoSpace(s) ==> r == s
    decreases |s|
  {
    if |s| == 0 then ""
    else if IsSpace(s[0]) then "-" + Hyphenate(TrimStart(s))
    else [s[0]] + Hyphenate(s[1..])
  }

  /** Removing the special characters works character by character: the
      result for a + b is the result for a followed by the result for b,
      and a single character is kept exactly when it is a word character,
      white space or a hyphen. So the kept characters of s survive, in
      order, and nothing else does. */
  lemma {:induction false} RemoveSpecialAppend(a: string, b: string)
    ensures RemoveSpecial(a + b) == RemoveSpecial(a) + RemoveSpecial(b)
    decreases |a|
  {
    if |a| == 0 {
      assert a + b == b;
    } else {
      assert (a + b)[0] == a[0] && (a + b)[1..] == a[1..] + b;
      RemoveSpecialAppend(a[1..], b);
    }
  }

  lemma RemoveSpecialOne(c: char)
    ensures RemoveSpecial([c]) == if Kept(c) then [c] else ""
  {
    assert [c][1..] == "";
  }

  /** Hyphenation works piece by piece wherever the cut does not split a
      run of white space. */
  lemma {:induction false} HyphenateAppend(a: string, b: string)
    requires |a| == 0 || |b| == 0 || !IsSpace(a[|a| - 1]) || !IsSpace(b[0])
    ensures Hyphenate(a + b) == Hyphenate(a) + Hyphenate(b)
    decreases |a|, 1
  {
    if |a| == 0 {
      assert a + b == b;
    } else if |b| == 0 {
      assert a + b == a;
    } else if !IsSpace(a[0]) {
      HyphenateAfterOther(a, b);
    } else if AllSpace(a) {
      SpaceRunBeforeText(a, b);
    } else {
      HyphenateAfterRun(a, b);
    }
  }

  /** The inductive step when a starts with a character that is not
      white space. */
  lemma {:induction false} HyphenateAfterOther(a: string, b: string)
    requires |a| > 0 && |b| > 0 && !IsSpace(a[0]) && (!IsSpace(a[|a| - 1]) || !IsSpace(b[0]))
    ensures Hyphenate(a + b) == Hyphenate(a) + Hyphenate(b)
    decreases |a|, 0
  {
    assert (a + b)[0] == a[0] && (a + b)[1..] == a[1..] + b;
    HyphenateAppend(a[1..], b);
    AppendAssoc([a[0]], Hyphenate(a[1..]), Hyphenate(b));
  }

  /** The inductive step when a starts with a run of white space that does
      not fill it. */
  lemma {:induction false} HyphenateAfterRun(a: string, b: string)
    requires |a| > 0 && |b| > 0 && IsSpace(a[0]) && !AllSpace(a) && (!IsSpace(a[|a| - 1]) || !IsSpace(b[0]))
    ensures Hyphenate(a + b) == Hyphenate(a) + Hyphenate(b)
    decreases |a|, 0
  {
    assert (a + b)[0] == a[0];
    TrimStartNonBlank(a, b);
    var t := TrimStart(a);
    assert t[|t| - 1] == a[|a| - 1];
    HyphenateAppend(t, b);
    AppendAssoc("-", Hyphenate(t), Hyphenate(b));
  }

  /** A run of white space followed by text that does not start with it. */
  lemma SpaceRunBeforeText(a: string, b: string)
    requires |a| > 0 && AllSpace(a) && |b| > 0 && !IsSpace(b[0])
    ensures Hyphenate(a + b) == Hyphenate(a) + Hyphenate(b)
  {
    assert IsSpace((a + b)[0]);
    TrimStartBlank(a, b);
    SpaceRunHyphen(a);
  }

  /** A blank string trims to nothing. */
  lemma BlankTrimsToEmpty(w: string)
    requires AllSpace(w)
    ensures TrimStart(w) == ""
  {
  }

  /** A run of white space becomes a single hyphen. */
  lemma SpaceRunHyphen(w: string)
    requires |w| > 0 && AllSpace(w)
    ensures Hyphenate(w) == "-"
  {
    BlankTrimsToEmpty(w);
  }

  predicate AllHyphens(s: string) { forall i :: 0 <= i < |s| ==> s[i] == '-' }

  /** Dropping the hyphens of a + b when a is all hyphens drops into b. */
  lemma {:induction false} DropHyphensAll(a: string, b: string)
    requires AllHyphens(a)
    ensures DropHyphens(a + b) == DropHyphens(b)
    decreases |a|
  {
    if |a| == 0 {
      assert a + b == b;
    } else {
      assert (a + b)[0] == a[0] && (a + b)[1..] == a[1..] + b;
      assert AllHyphens(a[1..]) by {
        forall i | 0 <= i < |a| - 1 ensures a[1..][i] == '-' {
          assert a[1..][i] == a[i + 1];
        }
      }
      DropHyphensAll(a[1..], b);
    }
  }

  /** Dropping the hyphens of a + b stops inside a when a holds anything
      else. */
  lemma {:induction false} DropHyphensSome(a: string, b: string)
    requires !AllHyphens(a)
    ensures DropHyphens(a + b) == DropHyphens(a) + b
    decreases |a|
  {
    assert (a + b)[0] == a[0];
    if a[0] == '-' {
      assert (a + b)[1..] == a[1..] + b;
      var i :| 0 <= i < |a| && a[i] != '-';
      assert a[1..][i - 1] == a[i];
      DropHyphensSome(a[1..], b);
    }
  }

  /** A string of hyphens only drops to nothing. */
  lemma HyphensDropToEmpty(w: string)
    requires AllHyphens(w)
    ensures DropHyphens(w) == ""
  {
  }

  /** Collapsing works piece by piece wherever the cut does not split a
      run of hyphens; together with HyphenRunCollapses and
      CollapseHyphensIdentity this pins the result down: every other
      character is kept in place and order. */
  lemma {:induction false} CollapseHyphensAppend(a: string, b: string)
    requires |a| == 0 || |b| == 0 || a[|a| - 1] != '-' || b[0] != '-'
    ensures CollapseHyphens(a + b) == CollapseHyphens(a) + CollapseHyphens(b)
    decreases |a|, 1
  {
    if |a| == 0 {
      assert a + b == b;
    } else if |b| == 0 {
      assert a + b == a;
    } else if a[0] != '-' {
      CollapseAfterOther(a, b);
    } else if AllHyphens(a) {
      HyphenRunBeforeText(a, b);
    } else {
      CollapseAfterRun(a, b);
    }
  }

  /** The inductive step when a starts with another character. */
  lemma {:induction false} CollapseAfterOther(a: string, b: string)
    requires |a| > 0 && |b| > 0 && a[0] != '-' && (a[|a| - 1] != '-' || b[0] != '-')
    ensures CollapseHyphens(a + b) == CollapseHyphens(a) + CollapseHyphens(b)
    decreases |a|, 0
  {
    assert (a + b)[0] == a[0] && (a + b)[1..] == a[1..] + b;
    CollapseHyphensAppend(a[1..], b);
    AppendAssoc([a[0]], CollapseHyphens(a[1..]), CollapseHyphens(b));
  }

  /** The inductive step when a starts with a hyphen run that does not
      fill it. */
  lemma {:induction false} CollapseAfterRun(a: string, b: string)
    requires |a| > 0 && |b| > 0 && a[0] == '-' && !AllHyphens(a) && (a[|a| - 1] != '-' || b[0] != '-')
    ensures CollapseHyphens(a + b) == CollapseHyphens(a) + CollapseHyphens(b)
    decreases |a|, 0
  {
    assert (a + b)[0] == a[0];
    DropHyphensSome(a, b);
    var t := DropHyphens(a);
    assert t[|t| - 1] == a[|a| - 1];
    CollapseHyphensAppend(t, b);
    AppendAssoc("-", CollapseHyphens(t), CollapseHyphens(b));
  }

  /** A run of hyphens followed by text that does not start with one. */
  lemma HyphenRunBeforeText(a: string, b: string)
    requires |a| > 0 && AllHyphens(a) && |b| > 0 && b[0] != '-'
    ensures CollapseHyphens(a + b) == CollapseHyphens(a) + CollapseHyphens(b)
  {
    assert (a + b)[0] == '-';
    DropHyphensAll(a, b);
    HyphenRunCollapses(a);
  }

  /** A run of hyphens becomes a single hyphen. */
  lemma HyphenRunCollapses(w: string)
    requires |w| > 0 && AllHyphens(w)
    ensures CollapseHyphens(w) == "-"
  {
    HyphensDropToEmpty(w);
  }

  /** Drops the leading hyphens of s. */
  function DropHyphens(s: string): (r: string)
    ensures |r| <= |s| && r == s[|s| - |r|..]
    ensures |r| == 0 || r[0] != '-'
    ensures forall i :: 0 <= i < |s| - |r| ==> s[i] == '-'
  {
    if |s| > 0 && s[0] == '-' then DropHyphens(s[1..]) else s
  }

  /** `replace(/-+/g, '-')`: each maximal run of hyphens becomes one hyphen. */
  function CollapseHyphens(s: string): (r: string)
    ensures NoDoubleHyphen(r)
    ensures |s| > 0 <==> |r| > 0
    ensures |s| > 0 ==> r[0] == s[0]
    ensures (forall i :: 0 <= i < |s| ==> SlugChar(s[i])) ==> forall i :: 0 <= i < |r| ==> SlugChar(r[i])
    decreases |s|
  {
    if |s| == 0 then ""
    else if s[0] == '-' then "-" + CollapseHyphens(DropHyphens(s))
    else [s[0]] + CollapseHyphens(s[1..])
  }

  lemma {:induction false} CollapseHyphensIdentity(s: string)
    requires NoDoubleHyphen(s)
    ensures CollapseHyphens(s) == s
    decreases |s|
  {
    if |s| > 0 {
      if s[0] == '-' {
        assert DropHyphens(s[1..]) == s[1..];
      }
      CollapseHyphensIdentity(s[1..]);
    }
  }

  /** `replace(/^-|-$/g, '')`: one leading and one trailing hyphen go. */
  function StripEdgeHyphens(s: string): (r: string)
    ensures NoDoubleHyphen(s) ==> NoEdgeHyphen(r) && NoDoubleHyphen(r)
    ensures (forall i :: 0 <= i < |s| ==> SlugChar(s[i])) ==> forall i :: 0 <= i < |r| ==> SlugChar(r[i])
    ensures NoEdgeHyphen(s) ==> r == s
  {
    var a := if |s| > 0 && s[0] == '-' then s[1..] else s;
    if |a| > 0 && a[|a| - 1] == '-' then a[..|a| - 1] else a
  }

  /** generateSlug: lower-case, trim, drop everything but word characters,
      white space and hyphens, turn white-space runs into hyphens, collapse
      hyphen runs, and strip a hyphen at either end. */
  function GenerateSlug(name: string): (r: string)
    ensures IsSlug(r)
  {
    var lowered := ToLower(name);
    ToLowerHasNoUpper(name);
    var trimmed := Trim(lowered);
    var kept := RemoveSpecial(trimmed);
    assert NoUpper(trimmed);
    assert forall i :: 0 <= i < |kept| ==> SlugChar(kept[i]) || IsSpace(kept[i]);
    var collapsed := CollapseHyphens(Hyphenate(kept));
    assert forall i :: 0 <= i < |collapsed| ==> SlugChar(collapsed[i]);
    StripEdgeHyphens(collapsed)
  }

  /** Every stage of the pipeline leaves a finished slug unchanged. */
  lemma SlugIsFixedPoint(s: string)
    requires IsSlug(s)
    ensures GenerateSlug(s) == s
  {
    assert NoUpper(s);
    ToLowerIdentity(s);
    assert NoSpace(s);
    TrimIdentity(s);
    assert RemoveSpecial(s) == s;
    assert Hyphenate(s) == s;
    CollapseHyphensIdentity(s);
    assert StripEdgeHyphens(s) == s;
  }

  /** generateSlug is idempotent. */
  lemma GenerateSlugIdempotent(name: string)
    ensures GenerateSlug(GenerateSlug(name)) == GenerateSlug(name)
  {
    SlugIsFixedPoint(GenerateSlug(name));
  }

  /** The collision candidate `${base}-${n}`. */
  function Candidate(base: string, n: nat): string
  {
    base + "-" + NatToString(n)
  }

  lemma CandidateInjective(base: string, m: nat, n: nat)
    requires m != n
    ensures Candidate(base, m) != Candidate(base, n)
  {
    assert Candidate(base, m)[|base| + 1..] == NatToString(m);
    assert Candidate(base, n)[|base| + 1..] == NatToString(n);
    DigitsValueOfNatToString(m);
    DigitsValueOfNatToString(n);
  }

  lemma CandidateIsNotBase(base: string, n: nat)
    ensures Candidate(base, n) != base
  {
    assert |Candidate(base, n)| > |base|;
  }

  /** The candidates with counters in [lo, hi). */
  ghost function CandidatesBetween(base: string, lo: nat, hi: nat): set<string>
  {
    set k: nat | lo <= k < hi :: Candidate(base, k)
  }

  lemma {:induction false} CandidatesBetweenSize(base: string, lo: nat, hi: nat)
    requires lo <= hi
    ensures |CandidatesBetween(base, lo, hi)| == hi - lo
    decreases hi - lo
  {
    if lo < hi {
      var below := CandidatesBetween(base, lo, hi - 1);
      CandidatesBetweenSize(base, lo, hi - 1);
      assert CandidatesBetween(base, lo, hi) == below + {Candidate(base, hi - 1)};
      forall k: nat | lo <= k < hi - 1
        ensures Candidate(base, k) != Candidate(base, hi - 1)
      {
        CandidateInjective(base, k, hi - 1);
      }
    } else {
      assert CandidatesBetween(base, lo, hi) == {};
    }
  }

  lemma SubsetSize<T>(a: set<T>, b: set<T>)
    requires a <= b
    ensures |a| <= |b|
  {
    assert b == a + (b - a);
  }

  /** A slug is taken in the file-backed config map when its entry is truthy
      (`existingConfigs[slug]` negated with `!`). */
  predicate TakenInConfigs(configs: map<string, Value>, slug: string)
  {
    slug in configs && Truthy(configs[slug])
  }

  /** What the admin generator's slug search promises: a free slug, the
      base itself when that is free, otherwise `base-N` for the smallest
      N >= 2 that is free. */
  ghost predicate FreeSlugFor(configs: map<string, Value>, base: string, slug: string)
  {
    && !TakenInConfigs(configs, slug)
    && (!TakenInConfigs(configs, base) ==> slug == base)
    && (TakenInConfigs(configs, base) ==>
          exists n: nat :: n >= 2 && slug == Candidate(base, n) &&
            (forall k: nat :: 2 <= k < n ==> TakenInConfigs(configs, Candidate(base, k))))
  }

  /** The admin generator never hands out `base-1`. */
  lemma FreeSlugSkipsOne(configs: map<string, Value>, base: string, slug: string)
    requires FreeSlugFor(configs, base, slug)
    ensures slug != Candidate(base, 1)
  {
    if TakenInConfigs(configs, base) {
      var n: nat :| n >= 2 && slug == Candidate(base, n);
      CandidateInjective(base, n, 1);
    } else {
      CandidateIsNotBase(base, 1);
    }
  }

  /** getUniqueSlug of the admin generator: the base slug when it is free,
      otherwise `base-N` for the smallest N >= 2 that is free. */
  method UniqueSlugInConfigs(base: string, configs: map<string, Value>) returns (slug: string)
    ensures !TakenInConfigs(configs, slug)
    ensures !TakenInConfigs(configs, base) ==> slug == base
    ensures TakenInConfigs(configs, base) ==>
              exists n: nat :: n >= 2 && slug == Candidate(base, n) &&
                (forall k: nat :: 2 <= k < n ==> TakenInConfigs(configs, Candidate(base, k)))
    ensures FreeSlugFor(configs, base, slug)
  {
    if !TakenInConfigs(configs, base) {
      return base;
    }
    var counter: nat := 2;
    slug := Candidate(base, counter);
    ghost var taken := set k | k in configs && Truthy(configs[k]);
    while TakenInConfigs(configs, slug)
      invariant counter >= 2
      invariant slug == Candidate(base, counter)
      invariant forall k: nat :: 2 <= k < counter ==> TakenInConfigs(configs, Candidate(base, k))
      invariant CandidatesBetween(base, 2, counter) <= taken
      decreases |taken| - (counter - 2)
    {
      CandidatesBetweenSize(base, 2, counter + 1);
      assert CandidatesBetween(base, 2, counter + 1) <= taken;
      SubsetSize(CandidatesBetween(base, 2, counter + 1), taken);
      counter := counter + 1;
      slug := Candidate(base, counter);
    }
  }

  /** getUniqueSlug of the database-backed create handlers: tries `base`,
      `base-1`, `base-2`, ... and returns the first one not in the store. */
  method UniqueSlugInStore(base: string, existing: set<string>) returns (slug: string)
    ensures slug !in existing
    ensures base !in existing ==> slug == base
    ensures base in existing ==>
              exists n: nat :: n >= 1 && slug == Candidate(base, n) &&
                (forall k: nat :: 1 <= k < n ==> Candidate(base, k) in existing)
  {
    slug := base;
    var counter: nat := 1;
    while slug in existing
      invariant counter >= 1
      invariant counter == 1 ==> slug == base
      invariant counter >= 2 ==> base in existing && slug == Candidate(base, counter - 1)
      invariant forall k: nat :: 1 <= k < counter - 1 ==> Candidate(base, k) in existing
      invariant counter >= 2 ==> CandidatesBetween(base, 1, counter - 1) + {base} <= existing
      decreases |existing| - (counter - 1)
    {
      ghost var tried := CandidatesBetween(base, 1, counter) + {base};
      CandidatesBetweenSize(base, 1, counter);
      forall k: nat | 1 <= k < counter ensures Candidate(base, k) != base {
        CandidateIsNotBase(base, k);
      }
      assert tried <= existing;
      SubsetSize(tried, existing);
      slug := Candidate(base, counter);
      counter := counter + 1;
    }
  }

  /** Base domain of the admin generator: the first `admin.` is removed when
      present, otherwise the last two host labels are kept. */
  function AdminBaseDomain(hostHeader: string): (base: string)
    ensures var host := OrStr(hostHeader, "blooreview.app");
            var i := IndexOf(host, "admin.");
            && (i >= 0 ==> base == host[..i] + host[i + 6..])
            && (i < 0 && '.' in host ==> TwoLabelSuffix(host, base))
            && (i < 0 && '.' !in host ==> base == "blooreview.app")
  {
    var host := OrStr(hostHeader, "blooreview.app");
    var i := IndexOf(host, "admin.");
    if i >= 0 then host[..i] + host[i + 6..]
    else if '.' in host then LastTwoLabels(host)
    else "blooreview.app"
  }

  /** b is the last two dot-separated labels of host: a suffix holding
      exactly one dot. */
  predicate TwoLabelSuffix(host: string, b: string)
  {
    && |b| <= |host| && host[|host| - |b|..] == b
    && (exists j :: 0 <= j < |b| && b[j] == '.' && '.' !in b[..j] && '.' !in b[j + 1..])
    && (|b| < |host| ==> host[|host| - |b| - 1] == '.')
  }

  /** A host with a single dot is its own last two labels. */
  lemma OneDotSuffix(host: string, b: string, d: int)
    requires TwoLabelSuffix(host, b) && 0 <= d < |host| && host[d] == '.'
    requires forall k :: 0 <= k < |host| && host[k] == '.' ==> k == d
    ensures b == host
  {
    var i := |host| - |b|;
    var j :| 0 <= j < |b| && b[j] == '.' && '.' !in b[..j] && '.' !in b[j + 1..];
    assert host[i + j] == '.' by {
      assert host[i..][j] == host[i + j];
    }
    assert i == 0;
    assert host[i..] == host;
  }

  /** `host.split('.').slice(-2).join('.')` for a host holding a dot. */
  function LastTwoLabels(host: string): (b: string)
    requires '.' in host
    ensures TwoLabelSuffix(host, b)
  {
    var parts := Split(host, '.');
    SplitCount(host, '.');
    SplitPartsFree(host, '.');
    var k := |parts| - 2;
    JoinSplit(host, '.');
    if k == 0 then
      assert parts == parts[k..];
      JoinTwo(parts[k], parts[k + 1]);
      Join(parts[k..], ".")
    else
      JoinAppend(parts[..k], parts[k..], ".");
      assert parts[..k] + parts[k..] == parts;
      JoinTwo(parts[k], parts[k + 1]);
      Join(parts[k..], ".")
  }

  lemma JoinTwo(a: string, b: string)
    requires '.' !in a && '.' !in b
    ensures var j := Join([a, b], ".");
            j == a + "." + b && j[|a|] == '.' && '.' !in j[..|a|] && '.' !in j[|a| + 1..]
  {
    var j := Join([a, b], ".");
    assert [a, b][1..] == [b];
    assert Join([b], ".") == b;
    assert j == a + "." + b;
    assert j[..|a|] == a;
    assert j[|a| + 1..] == b;
  }

  lemma {:induction false} JoinAppend(a: seq<string>, b: seq<string>, sep: string)
    requires |a| >= 1 && |b| >= 1
    ensures Join(a + b, sep) == Join(a, sep) + sep + Join(b, sep)
    decreases |a|
  {
    if |a| == 1 {
      assert (a + b)[1..] == b;
    } else {
      assert (a + b)[1..] == a[1..] + b;
      JoinAppend(a[1..], b, sep);
    }
  }

  /** Base domain of the library create handler: the last two host labels
      when the host holds a dot, else `blooreview.app`. */
  function StoreBaseDomain(hostHeader: string): (base: string)
    ensures var host := OrStr(hostHeader, "blooreview.app");
            && ('.' in host ==> TwoLabelSuffix(host, base))
            && ('.' !in host ==> base == "blooreview.app")
  {
    var host := OrStr(hostHeader, "blooreview.app");
    if '.' in host then LastTwoLabels(host) else "blooreview.app"
  }

  /** `host.replace(/^[^.]+\./, '')`: drops the first label and its dot when
      the host starts with a non-empty label followed by a dot. */
  function StripFirstLabel(hostHeader: string): (base: string)
    ensures var host := OrStr(hostHeader, "blooreview.app");
            var i := IndexOfChar(host, '.');
            && (i > 0 ==> base == host[i + 1..])
            && (i <= 0 ==> base == host)
  {
    var host := OrStr(hostHeader, "blooreview.app");
    var i := IndexOfChar(host, '.');
    if i > 0 then host[i + 1..] else host
  }

  /** The public URL of a tenant page: `https://<slug>.<base>`. */
  function TenantUrl(slug: string, base: string): string
  {
    "https://" + slug + "." + base
  }
}
