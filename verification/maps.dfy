/** The Google Maps lookup behind the admin page and the signup flow: the
    name, coordinates and place id read out of a pasted Maps URL, the
    Places requests made from them, the category label, and the photo URL
    resolution that must never hand out a URL carrying the API key. The
    Places service and the photo fetches are parameters. */
module Maps {
  import opened Js
  import opened Text
  import Uri

  /** The leftmost position in [from, n) where p holds: how a regular
      expression without the g flag picks its match. */
  function FirstWhere(n: nat, p: nat -> bool, from: nat): (r: Option<nat>)
    ensures r.Some? ==> from <= r.value < n && p(r.value)
    ensures r.Some? ==> forall k :: from <= k < r.value ==> !p(k)
    ensures r.None? ==> forall k :: from <= k < n ==> !p(k)
    decreases n - from
  {
    if from >= n then None
    else if p(from) then Some(from)
    else FirstWhere(n, p, from + 1)
  }

  /** The length of the longest run of `inClass` characters at i: what a
      greedy `[...]+` or `\d+` consumes. */
  function Run(s: string, i: nat, inClass: char -> bool): (n: nat)
    requires i <= |s|
    ensures i + n <= |s|
    ensures forall k :: i <= k < i + n ==> inClass(s[k])
    ensures i + n < |s| ==> !inClass(s[i + n])
    decreases |s| - i
  {
    if i < |s| && inClass(s[i]) then 1 + Run(s, i + 1, inClass) else 0
  }

  /** `-?\d+\.\d+` at position i: its length, if it matches. Both digit
      runs are maximal, since a shorter run would be followed by a digit
      where the pattern wants `.` or the text after it. */
  function DecimalAt(s: string, i: nat): (r: Option<nat>)
    requires i <= |s|
    ensures r.Some? ==> i + r.value <= |s| && r.value >= 3
  {
    var j := if i < |s| && s[i] == '-' then i + 1 else i;
    var whole := Run(s, j, IsDigit);
    if whole == 0 || j + whole >= |s| || s[j + whole] != '.' then None
    else
      var frac := Run(s, j + whole + 1, IsDigit);
      if frac == 0 then None else Some(j + whole + 1 + frac - i)
  }

  /** Coordinates as captured text; Number() of them is what the handlers
      keep, and only whether it is zero matters below. */
  datatype Coords = Coords(lat: string, lng: string)

  /** Number(t) is 0 (or -0) for a decimal made of zeros only. */
  predicate IsZero(t: string)
  {
    forall k :: 0 <= k < |t| ==> t[k] == '-' || t[k] == '0' || t[k] == '.'
  }

  datatype Parsed = Parsed(searchName: string, coords: Option<Coords>)

  const NoDetails := Parsed("", None)

  const PlacePath := "/maps/place/"

  predicate NotSlash(c: char) { c != '/' }

  /** `/\/maps\/place\/([^/]+)/i` matches at i (the path is lower case, so
      matching it against the lower-cased text is the case-insensitive
      match). */
  predicate NameAt(s: string, i: nat)
  {
    OccursAt(ToLower(s), PlacePath, i) && i + |PlacePath| < |s| && s[i + |PlacePath|] != '/'
  }

  /** The captured segment of a name match at i. */
  function Segment(s: string, i: nat): string
    requires NameAt(s, i)
  {
    var start := i + |PlacePath|;
    s[start..start + Run(s, start, NotSlash)]
  }

  /** `+` and `-` become spaces, then the ends are trimmed. */
  function CleanName(segment: string): string
  {
    Trim(ReplaceChar(ReplaceChar(segment, '+', ' '), '-', ' '))
  }

  const PreciseHead := "!8m2!3d"
  const PreciseMid := "!4d"

  /** `/!8m2!3d(-?\d+\.\d+)!4d(-?\d+\.\d+)/` matches at i. */
  predicate PreciseAt(s: string, i: nat)
  {
    && OccursAt(s, PreciseHead, i)
    && DecimalAt(s, i + 7).Some?
    && OccursAt(s, PreciseMid, i + 7 + DecimalAt(s, i + 7).value)
    && DecimalAt(s, i + 10 + DecimalAt(s, i + 7).value).Some?
  }

  function PreciseCoords(s: string, i: nat): Coords
    requires PreciseAt(s, i)
  {
    var a := DecimalAt(s, i + 7).value;
    var b := DecimalAt(s, i + 10 + a).value;
    Coords(s[i + 7..i + 7 + a], s[i + 10 + a..i + 10 + a + b])
  }

  /** `/@(-?\d+\.\d+),(-?\d+\.\d+)/` matches at i. */
  predicate AtSignAt(s: string, i: nat)
  {
    && i < |s| && s[i] == '@'
    && DecimalAt(s, i + 1).Some?
    && i + 1 + DecimalAt(s, i + 1).value < |s| && s[i + 1 + DecimalAt(s, i + 1).value] == ','
    && DecimalAt(s, i + 2 + DecimalAt(s, i + 1).value).Some?
  }

  function AtSignCoords(s: string, i: nat): Coords
    requires AtSignAt(s, i)
  {
    var a := DecimalAt(s, i + 1).value;
    var b := DecimalAt(s, i + 2 + a).value;
    Coords(s[i + 1..i + 1 + a], s[i + 2 + a..i + 2 + a + b])
  }

  function FirstName(s: string): (r: Option<nat>)
    ensures r.Some? ==> NameAt(s, r.value)
    ensures r.None? ==> forall i :: 0 <= i < |s| ==> !NameAt(s, i)
  {
    var p := (i: nat) => NameAt(s, i);
    assert forall i: nat {:trigger NameAt(s, i)} :: p(i) == NameAt(s, i);
    FirstWhere(|s|, p, 0)
  }

  function FirstPrecise(s: string): (r: Option<nat>)
    ensures r.Some? ==> PreciseAt(s, r.value)
    ensures r.None? ==> forall i :: 0 <= i < |s| ==> !PreciseAt(s, i)
  {
    var p := (i: nat) => PreciseAt(s, i);
    assert forall i: nat {:trigger PreciseAt(s, i)} :: p(i) == PreciseAt(s, i);
    FirstWhere(|s|, p, 0)
  }

  function FirstAtSign(s: string): (r: Option<nat>)
    ensures r.Some? ==> AtSignAt(s, r.value)
    ensures r.None? ==> forall i :: 0 <= i < |s| ==> !AtSignAt(s, i)
  {
    var p := (i: nat) => AtSignAt(s, i);
    assert forall i: nat {:trigger AtSignAt(s, i)} :: p(i) == AtSignAt(s, i);
    FirstWhere(|s|, p, 0)
  }

  /** The coordinates of a decoded URL: the `!8m2!3d..!4d..` form when it
      is present, otherwise `@lat,lng`. */
  function FindCoords(s: string): (c: Option<Coords>)
    ensures c.None? <==> (forall i :: 0 <= i < |s| ==> !PreciseAt(s, i)) && (forall i :: 0 <= i < |s| ==> !AtSignAt(s, i))
  {
    match FirstPrecise(s)
    case Some(i) => Some(PreciseCoords(s, i))
    case None =>
      match FirstAtSign(s)
      case Some(i) => Some(AtSignCoords(s, i))
      case None => None
  }

  /** The precise form wins: wherever it occurs, the coordinates come from
      it and never from an `@lat,lng` part. */
  lemma PreciseWins(s: string, i: nat)
    requires i < |s| && PreciseAt(s, i)
    ensures exists j :: 0 <= j <= i && PreciseAt(s, j) && FindCoords(s) == Some(PreciseCoords(s, j))
  {
    var j := FirstPrecise(s).value;
    FirstPreciseIsLeftmost(s, i);
  }

  lemma FirstPreciseIsLeftmost(s: string, i: nat)
    requires i < |s| && PreciseAt(s, i)
    ensures FirstPrecise(s).Some? && FirstPrecise(s).value <= i
  {
    var p := (k: nat) => PreciseAt(s, k);
    assert p(i);
  }

  /** parseMapsUrlDetails. `decode` is decodeURIComponent (None when it
      throws, in which case nothing has been read yet). */
  function ParseMapsUrlDetails(url: Value, decode: Value -> Option<string>): (r: Parsed)
    ensures !Truthy(url) || decode(url).None? ==> r == NoDetails
    ensures Truthy(url) && decode(url).Some? ==>
              var s := decode(url).value;
              && (FirstName(s).None? ==> r.searchName == "")
              && (FirstName(s).Some? ==> r.searchName == CleanName(Segment(s, FirstName(s).value)))
              && r.coords == FindCoords(s)
  {
    if !Truthy(url) then NoDetails
    else
      match decode(url)
      case None => NoDetails
      case Some(s) =>
        var name := match FirstName(s)
                    case Some(i) => CleanName(Segment(s, i))
                    case None => "";
        Parsed(name, FindCoords(s))
  }

  /** The name a Maps URL yields holds no `+`, `-` or `/` and is trimmed. */
  lemma {:induction false} SearchNameShape(url: Value, decode: Value -> Option<string>)
    ensures var n := ParseMapsUrlDetails(url, decode).searchName;
            && (forall k :: 0 <= k < |n| ==> n[k] != '+' && n[k] != '-' && n[k] != '/')
            && (|n| == 0 || (!IsSpace(n[0]) && !IsSpace(n[|n| - 1])))
  {
    if Truthy(url) && decode(url).Some? {
      var s := decode(url).value;
      if FirstName(s).Some? {
        var seg := Segment(s, FirstName(s).value);
        SegmentHasNoSlash(s, FirstName(s).value);
        CleanNameShape(seg);
        assert ParseMapsUrlDetails(url, decode).searchName == CleanName(seg);
      }
    }
  }

  lemma SegmentHasNoSlash(s: string, i: nat)
    requires NameAt(s, i)
    ensures forall k :: 0 <= k < |Segment(s, i)| ==> Segment(s, i)[k] != '/'
  {
    var start := i + |PlacePath|;
    var n := Run(s, start, NotSlash);
    forall k | 0 <= k < n ensures Segment(s, i)[k] != '/' {
      assert Segment(s, i)[k] == s[start + k];
      assert NotSlash(s[start + k]);
    }
  }

  lemma {:induction false} CleanNameShape(seg: string)
    requires forall k :: 0 <= k < |seg| ==> seg[k] != '/'
    ensures var n := CleanName(seg);
            && (forall k :: 0 <= k < |n| ==> n[k] != '+' && n[k] != '-' && n[k] != '/')
            && (|n| == 0 || (!IsSpace(n[0]) && !IsSpace(n[|n| - 1])))
  {
    var r2 := ReplaceChar(ReplaceChar(seg, '+', ' '), '-', ' ');
    assert forall k :: 0 <= k < |r2| ==> r2[k] != '+' && r2[k] != '-' && r2[k] != '/';
    TrimKeepsAbsent(r2);
  }

  /** Trimming only removes characters. */
  lemma TrimKeepsAbsent(s: string)
    requires forall k :: 0 <= k < |s| ==> s[k] != '+' && s[k] != '-' && s[k] != '/'
    ensures forall k :: 0 <= k < |Trim(s)| ==> Trim(s)[k] != '+' && Trim(s)[k] != '-' && Trim(s)[k] != '/'
  {
    var a := TrimSlice(s);
    var n := Trim(s);
    forall k | 0 <= k < |n| ensures n[k] != '+' && n[k] != '-' && n[k] != '/' {
      assert n[k] == s[a + k];
    }
  }

  /** A trimmed string is a slice of the string. */
  lemma TrimSlice(s: string) returns (a: nat)
    ensures a + |Trim(s)| <= |s| && Trim(s) == s[a..a + |Trim(s)|]
  {
    var t := TrimStart(s);
    var u := TrimEnd(t);
    a := |s| - |t|;
    assert Trim(s) == u;
    var v := s[a..a + |u|];
    forall k | 0 <= k < |u| ensures u[k] == v[k] {
      assert u[k] == t[k] && t[k] == s[a + k];
    }
    assert u == v;
  }

  const PlaceIdTag := "place_id:"

  /** `[A-Za-z0-9_-]`. */
  predicate IdChar(c: char) { IsAlnum(c) || c == '_' || c == '-' }

  /** `/place_id:([A-Za-z0-9_-]+)/` matches at i. */
  predicate PlaceIdAt(s: string, i: nat)
  {
    OccursAt(s, PlaceIdTag, i) && i + |PlaceIdTag| < |s| && IdChar(s[i + |PlaceIdTag|])
  }

  function FirstPlaceId(s: string): (r: Option<nat>)
    ensures r.Some? ==> PlaceIdAt(s, r.value) && forall i :: 0 <= i < r.value ==> !PlaceIdAt(s, i)
    ensures r.None? ==> forall i :: 0 <= i < |s| ==> !PlaceIdAt(s, i)
  {
    var p := (i: nat) => PlaceIdAt(s, i);
    assert forall i: nat {:trigger PlaceIdAt(s, i)} :: p(i) == PlaceIdAt(s, i);
    FirstWhere(|s|, p, 0)
  }

  /** The id captured by a match at i: the longest run of id characters
      after the tag. */
  function IdAt(s: string, i: nat): (id: string)
    requires PlaceIdAt(s, i)
    ensures |id| > 0 && forall k :: 0 <= k < |id| ==> IdChar(id[k])
    ensures OccursAt(s, PlaceIdTag + id, i)
  {
    var start := i + |PlaceIdTag|;
    var id := s[start..start + Run(s, start, IdChar)];
    assert s[i..i + |PlaceIdTag + id|] == PlaceIdTag + id by {
      assert s[i..start] == PlaceIdTag;
    }
    id
  }

  /** extractPlaceIdFromUrl: the id after the first `place_id:`. A URL with
      only the `!1s0x...` form gets null as well, and so does a value that
      is not a string (its `.match` throws and the error is caught). */
  function ExtractPlaceIdFromUrl(url: Value): (r: Option<string>)
    ensures !url.Str? ==> r.None?
    ensures url.Str? ==> (r.None? <==> forall i :: 0 <= i < |url.s| ==> !PlaceIdAt(url.s, i))
    ensures r.Some? ==> |r.value| > 0 && forall k :: 0 <= k < |r.value| ==> IdChar(r.value[k])
    ensures r.Some? ==> exists i :: 0 <= i < |url.s| && PlaceIdAt(url.s, i) && OccursAt(url.s, PlaceIdTag + r.value, i)
  {
    if !url.Str? then None
    else
      match FirstPlaceId(url.s)
      case None => None
      case Some(i) => Some(IdAt(url.s, i))
  }

  /** The place-id URL the details fall back on. */
  function FallbackMapsUrl(placeId: string): string
  {
    "https://www.google.com/maps/place/?q=place_id:" + placeId
  }

  /** A place id written after a prefix without `_` is read back whole. */
  lemma {:induction false} PlaceIdAfterPrefix(prefix: string, id: string)
    requires '_' !in prefix
    requires |id| > 0 && forall k :: 0 <= k < |id| ==> IdChar(id[k])
    ensures ExtractPlaceIdFromUrl(Str(prefix + PlaceIdTag + id)) == Some(id)
  {
    var s := prefix + PlaceIdTag + id;
    var n := |prefix|;
    TagLetters();
    assert s[n..n + 9] == PlaceIdTag;
    assert s[n + 9] == id[0];
    assert PlaceIdAt(s, n);
    forall k | 0 <= k < n ensures !PlaceIdAt(s, k) {
      NoTagBefore(prefix, id, k);
    }
    assert FirstPlaceId(s) == Some(n);
    IdRunToEnd(s, n + 9, id);
    assert IdAt(s, n) == id;
  }

  lemma TagLetters()
    ensures PlaceIdTag == ['p', 'l', 'a', 'c', 'e', '_', 'i', 'd', ':']
  {
  }

  /** `place_id:` cannot start inside a prefix without `_`. */
  lemma NoTagBefore(prefix: string, id: string, k: nat)
    requires '_' !in prefix && k < |prefix|
    ensures !PlaceIdAt(prefix + PlaceIdTag + id, k)
  {
    var s := prefix + PlaceIdTag + id;
    var n := |prefix|;
    TagLetters();
    if k + 5 < n {
      assert s[k + 5] == prefix[k + 5];
    } else {
      assert s[k + 5] == PlaceIdTag[k + 5 - n];
    }
    assert k + 9 <= |s| ==> s[k..k + 9][5] == s[k + 5];
  }

  /** An id that runs to the end of the text is captured whole. */
  lemma IdRunToEnd(s: string, start: nat, id: string)
    requires start + |id| == |s| && s[start..] == id
    requires forall k :: 0 <= k < |id| ==> IdChar(id[k])
    ensures start + Run(s, start, IdChar) == |s|
    ensures s[start..start + Run(s, start, IdChar)] == id
  {
  }

  /** The fallback Maps URL carries its place id back out. */
  lemma FallbackUrlRoundTrip(id: string)
    requires |id| > 0 && forall k :: 0 <= k < |id| ==> IdChar(id[k])
    ensures ExtractPlaceIdFromUrl(Str(FallbackMapsUrl(id))) == Some(id)
  {
    var prefix := "https://www.google.com/maps/place/?q=";
    assert prefix == ['h', 't', 't', 'p', 's', ':', '/', '/', 'w', 'w', 'w', '.', 'g', 'o', 'o', 'g', 'l', 'e',
                      '.', 'c', 'o', 'm', '/', 'm', 'a', 'p', 's', '/', 'p', 'l', 'a', 'c', 'e', '/', '?', 'q', '='];
    assert FallbackMapsUrl(id) == prefix + PlaceIdTag + id;
    PlaceIdAfterPrefix(prefix, id);
  }

  // ---------------------------------------------------------------------
  // Category labels

  /** `word.charAt(0).toUpperCase() + word.slice(1).toLowerCase()`. */
  function Capitalize(w: string): string
  {
    if |w| == 0 then "" else ToUpper(w[..1]) + ToLower(w[1..])
  }

  function Words(parts: seq<string>): (r: seq<string>)
    ensures |r| == |parts|
    ensures forall i :: 0 <= i < |parts| ==> r[i] == Capitalize(parts[i])
  {
    seq(|parts|, i requires 0 <= i < |parts| => Capitalize(parts[i]))
  }

  /** A Places type such as `beauty_salon` as the label `Beauty Salon`. */
  function FormatCategory(t: string): string
  {
    Join(Words(Split(t, '_')), " ")
  }

  /** The label character by character, independently of split and join:
      each `_` becomes a space, the first letter of the type and every
      letter after a `_` is upper-cased, every other letter lower-cased.
      `atStart` says whether position 0 begins a word. */
  function TitleChar(t: string, i: nat, atStart: bool): char
    requires i < |t|
  {
    if t[i] == '_' then ' '
    else if (i == 0 && atStart) || (i > 0 && t[i - 1] == '_') then ToUpperChar(t[i])
    else ToLowerChar(t[i])
  }

  predicate IsTitleOf(r: string, t: string, atStart: bool)
  {
    |r| == |t| && forall i :: 0 <= i < |t| ==> r[i] == TitleChar(t, i, atStart)
  }

  /** The label of t, its first word capitalized when `atStart` and
      lower-cased otherwise. */
  function Phrase(t: string, atStart: bool): string
  {
    var p := Split(t, '_');
    Join([if atStart then Capitalize(p[0]) else ToLower(p[0])] + Words(p[1..]), " ")
  }

  lemma PhraseOfType(t: string)
    ensures FormatCategory(t) == Phrase(t, true)
  {
    WordsCons(Split(t, '_'));
  }

  lemma WordsCons(p: seq<string>)
    requires |p| > 0
    ensures Words(p) == [Capitalize(p[0])] + Words(p[1..])
  {
    var a, b := Words(p), [Capitalize(p[0])] + Words(p[1..]);
    forall i | 0 < i < |a| ensures a[i] == b[i] {
      assert b[i] == Words(p[1..])[i - 1] && p[1..][i - 1] == p[i];
    }
  }

  /** One character of the type gives one character of the label. */
  lemma PhraseStep(t: string, atStart: bool)
    requires |t| > 0
    ensures Phrase(t, atStart) == [TitleChar(t, 0, atStart)] + Phrase(t[1..], t[0] == '_')
  {
    if t[0] == '_' {
      PhraseStepAtGap(t, atStart);
    } else {
      PhraseStepInWord(t, atStart);
    }
  }

  /** A `_` closes a word: it becomes the separating space. */
  lemma PhraseStepAtGap(t: string, atStart: bool)
    requires |t| > 0 && t[0] == '_'
    ensures Phrase(t, atStart) == " " + Phrase(t[1..], true)
  {
    var tail := Split(t[1..], '_');
    assert Split(t, '_') == [""] + tail;
    assert ([""] + tail)[1..] == tail;
    WordsCons(tail);
    JoinCons("", Words(tail), " ");
  }

  /** A letter of the type becomes the first letter of the label, cased as
      its word position says, and the rest of the word carries on lower
      case. */
  lemma PhraseStepInWord(t: string, atStart: bool)
    requires |t| > 0 && t[0] != '_'
    ensures Phrase(t, atStart) == [TitleChar(t, 0, atStart)] + Phrase(t[1..], false)
  {
    var tail := Split(t[1..], '_');
    var rest := Words(tail[1..]);
    var w := [t[0]] + tail[0];
    assert Split(t, '_') == [w] + tail[1..];
    var first := if atStart then Capitalize(w) else ToLower(w);
    assert first == [TitleChar(t, 0, atStart)] + ToLower(tail[0]) by {
      CaseCons(t[0], tail[0]);
    }
    assert Phrase(t, atStart) == Join([first] + rest, " ") by {
      assert ([w] + tail[1..])[1..] == tail[1..];
    }
    JoinPrepend(TitleChar(t, 0, atStart), [ToLower(tail[0])] + rest, " ");
    assert ([ToLower(tail[0])] + rest)[1..] == rest;
  }

  /** Casing a word that starts with c. */
  lemma CaseCons(c: char, s: string)
    ensures ToLower([c] + s) == [ToLowerChar(c)] + ToLower(s)
    ensures Capitalize([c] + s) == [ToUpperChar(c)] + ToLower(s)
  {
    LowerCons(c, s);
    UpperOne(c);
    var w := [c] + s;
    assert w[..1] == [c] && w[1..] == s;
  }

  lemma LowerCons(c: char, s: string)
    ensures ToLower([c] + s) == [ToLowerChar(c)] + ToLower(s)
  {
    var w := [c] + s;
    var a, b := ToLower(w), [ToLowerChar(c)] + ToLower(s);
    forall i | 0 <= i < |a| ensures a[i] == b[i] {
      if i > 0 { assert w[i] == s[i - 1]; }
    }
  }

  lemma UpperOne(c: char)
    ensures ToUpper([c]) == [ToUpperChar(c)]
  {
    var u := ToUpper([c]);
    assert u[0] == ToUpperChar(c);
  }

  lemma {:induction false} PhraseIsTitle(t: string, atStart: bool)
    ensures IsTitleOf(Phrase(t, atStart), t, atStart)
    decreases |t|
  {
    if |t| == 0 {
      assert Split(t, '_') == [""];
    } else {
      PhraseStep(t, atStart);
      PhraseIsTitle(t[1..], t[0] == '_');
      var r := Phrase(t, atStart);
      forall i | 0 < i < |t| ensures r[i] == TitleChar(t, i, atStart) {
        assert r[i] == Phrase(t[1..], t[0] == '_')[i - 1];
        assert t[1..][i - 1] == t[i];
        assert i - 1 > 0 ==> t[1..][i - 2] == t[i - 1];
      }
    }
  }

  /** The label has one character per character of the type: `_` becomes
      a space, word starts are upper case and the rest lower case. */
  lemma FormatCategoryIsTitle(t: string)
    ensures IsTitleOf(FormatCategory(t), t, true)
  {
    PhraseOfType(t);
    PhraseIsTitle(t, true);
  }

  // ---------------------------------------------------------------------
  // Photo URL resolution

  /** One HEAD request for the photo: it threw (network error or the
      ten-second timeout), or it answered with an ok flag and the URL
      reached after following redirects. */
  datatype Attempt = Threw | Answered(ok: bool, url: string)

  const MaxRetries: nat := 3

  /** `response.ok && response.url`. */
  predicate Resolves(a: Attempt)
  {
    a.Answered? && a.ok && |a.url| > 0
  }

  /** `u.includes('&key=') || u.includes('?key=')`. */
  predicate HasKey(u: string)
  {
    Contains(u, "&key=") || Contains(u, "?key=")
  }

  /** The first of the attempts 1..MaxRetries whose answer resolves. */
  function FirstResolving(photoUrl: string, fetch: (string, nat) -> Attempt): (r: Option<nat>)
    ensures r.Some? ==> 1 <= r.value <= MaxRetries && Resolves(fetch(photoUrl, r.value))
    ensures r.Some? ==> forall k :: 1 <= k < r.value ==> !Resolves(fetch(photoUrl, k))
    ensures r.None? ==> forall k :: 1 <= k <= MaxRetries ==> !Resolves(fetch(photoUrl, k))
  {
    var p := (k: nat) => Resolves(fetch(photoUrl, k));
    assert forall k: nat {:trigger fetch(photoUrl, k)} :: p(k) == Resolves(fetch(photoUrl, k));
    FirstWhere(MaxRetries + 1, p, 1)
  }

  /** What resolution hands back: the resolved URL unless it still carries
      a key; when no attempt resolves, the URL itself unless it carries a
      key. */
  function Resolved(photoUrl: string, fetch: (string, nat) -> Attempt): (r: Option<string>)
    ensures r.Some? ==> !HasKey(r.value)
  {
    match FirstResolving(photoUrl, fetch)
    case Some(k) => var u := fetch(photoUrl, k).url; if HasKey(u) then None else Some(u)
    case None => if HasKey(photoUrl) then None else Some(photoUrl)
  }

  /** The pause before each retry: 1000 * k ms after attempt k threw, for
      the attempts before the last one. The sum over the attempts before n. */
  function Backoff(photoUrl: string, fetch: (string, nat) -> Attempt, n: nat): (ms: nat)
    ensures n <= 1 ==> ms == 0
    ensures n <= 2 ==> ms <= 1000
    ensures ms <= 3000
  {
    if n <= 1 then 0
    else
      var k := n - 1;
      Backoff(photoUrl, fetch, k) + (if k < MaxRetries && fetch(photoUrl, k).Threw? then 1000 * k else 0)
  }

  /** The retry loop: up to three HEAD requests, pausing after one that
      threw. Returns the result, how many requests were made and how long
      it paused. An answer that is not ok is retried without a pause. */
  method ResolvePhotoUrl(photoUrl: string, fetch: (string, nat) -> Attempt)
    returns (r: Option<string>, attempts: nat, pausedMs: nat)
    ensures r == Resolved(photoUrl, fetch)
    ensures r.Some? ==> !HasKey(r.value)
    ensures 1 <= attempts <= MaxRetries
    ensures FirstResolving(photoUrl, fetch).Some? ==> attempts == FirstResolving(photoUrl, fetch).value
    ensures FirstResolving(photoUrl, fetch).None? ==> attempts == MaxRetries
    ensures pausedMs == Backoff(photoUrl, fetch, attempts) && pausedMs <= 3000
  {
    var attempt: nat := 1;
    pausedMs := 0;
    while attempt <= MaxRetries
      invariant 1 <= attempt <= MaxRetries + 1
      invariant forall k :: 1 <= k < attempt ==> !Resolves(fetch(photoUrl, k))
      invariant pausedMs == Backoff(photoUrl, fetch, attempt)
    {
      var a := fetch(photoUrl, attempt);
      if Resolves(a) {
        attempts := attempt;
        r := if HasKey(a.url) then None else Some(a.url);
        return;
      }
      if a.Threw? && attempt < MaxRetries {
        pausedMs := pausedMs + 1000 * attempt;
      }
      attempt := attempt + 1;
    }
    assert pausedMs == Backoff(photoUrl, fetch, MaxRetries) by {
      assert !(fetch(photoUrl, MaxRetries).Threw? && MaxRetries < MaxRetries);
    }
    attempts := MaxRetries;
    r := if HasKey(photoUrl) then None else Some(photoUrl);
  }

  // ---------------------------------------------------------------------
  // Places requests

  /** A place as the details request returns it; an absent string field
      is the empty string, absent lists are empty. */
  datatype Place = Place(placeId: string, name: string, types: seq<string>, photoRefs: seq<string>,
                         url: string, address: string)

  /** The details response: a failed HTTP status, or a body with the
      Places status, the result when present and the error message. */
  datatype DetailsAnswer =
    | DetailsHttpError(httpStatus: nat)
    | DetailsBody(status: string, result: Option<Place>, errorMessage: string)

  datatype Details = Details(placeId: string, name: string, category: string, mapsUrl: string,
                             heroImage: Option<string>, address: string)

  /** A lookup either fails with the thrown error's message or finds the business. */
  datatype Outcome = Failed(message: string) | Found(details: Details)

  function ApiError(httpStatus: nat): string
  {
    "Places API error: " + NatToString(httpStatus)
  }

  const NotFoundMessage := "Business not found in Google Places"

  const PhotoBase := "https://maps.googleapis.com/maps/api/place/photo?maxwidth=800&photoreference="

  /** The photo request URL: it carries the API key. */
  function PhotoUrl(photoRef: string, apiKey: string): string
  {
    PhotoBase + photoRef + "&key=" + apiKey
  }

  lemma ContainsMiddle(a: string, b: string, c: string)
    ensures Contains(a + b + c, b)
  {
    assert (a + b + c)[|a|..|a| + |b|] == b;
    assert OccursAt(a + b + c, b, |a|);
  }

  /** A photo request URL is never acceptable as a hero image. */
  lemma PhotoUrlHasKey(photoRef: string, apiKey: string)
    ensures HasKey(PhotoUrl(photoRef, apiKey))
  {
    ContainsMiddle(PhotoBase + photoRef, "&key=", apiKey);
  }

  /** The Places details lookup for one place id. `details` stands for the
      details request, `fetch` for the photo HEAD requests. */
  function FetchPlaceDetails(placeId: string, apiKey: string, details: string -> DetailsAnswer,
                             fetch: (string, nat) -> Attempt): (r: Outcome)
    ensures details(placeId).DetailsHttpError? ==> r == Failed(ApiError(details(placeId).httpStatus))
    ensures details(placeId).DetailsBody? && (details(placeId).status != "OK" || details(placeId).result.None?)
            ==> r == Failed(OrStr(details(placeId).errorMessage, NotFoundMessage))
    ensures r.Found? <==> details(placeId).DetailsBody? && details(placeId).status == "OK" && details(placeId).result.Some?
    ensures r.Found? ==>
              var place := details(placeId).result.value;
              && r.details.placeId == place.placeId && r.details.name == place.name
              && r.details.address == place.address
              && r.details.category == (if |place.types| > 0 then FormatCategory(place.types[0]) else "Business")
              && r.details.mapsUrl == OrStr(place.url, FallbackMapsUrl(place.placeId))
              && (|place.photoRefs| == 0 ==> r.details.heroImage.None?)
              && (|place.photoRefs| > 0 ==> r.details.heroImage == Resolved(PhotoUrl(place.photoRefs[0], apiKey), fetch))
              && (r.details.heroImage.Some? ==> !HasKey(r.details.heroImage.value))
    ensures r.Failed? ==> |r.message| > 0
  {
    match details(placeId)
    case DetailsHttpError(st) => Failed(ApiError(st))
    case DetailsBody(status, result, msg) =>
      if status != "OK" || result.None? then Failed(OrStr(msg, NotFoundMessage))
      else
        var place := result.value;
        var category := if |place.types| > 0 then FormatCategory(place.types[0]) else "Business";
        var hero := if |place.photoRefs| > 0 then Resolved(PhotoUrl(place.photoRefs[0], apiKey), fetch) else None;
        Found(Details(place.placeId, place.name, category, OrStr(place.url, FallbackMapsUrl(place.placeId)),
                      hero, place.address))
  }

  /** When no photo request resolves, the hero image is left empty rather
      than the keyed request URL being stored. */
  lemma UnresolvedPhotoIsDropped(photoRef: string, apiKey: string, fetch: (string, nat) -> Attempt)
    requires forall k :: 1 <= k <= MaxRetries ==> !Resolves(fetch(PhotoUrl(photoRef, apiKey), k))
    ensures Resolved(PhotoUrl(photoRef, apiKey), fetch) == None
  {
    PhotoUrlHasKey(photoRef, apiKey);
  }

  /** The text search request: the query and the optional location bias
      (sent with a 500 m radius). */
  datatype SearchRequest = SearchRequest(query: string, bias: Option<Coords>)

  /** `parsed.searchName || 'business'`, and the bias only when both
      coordinates are truthy numbers, that is, not zero. */
  function TextQuery(parsed: Parsed): (q: SearchRequest)
    ensures |q.query| > 0
    ensures |parsed.searchName| > 0 ==> q.query == parsed.searchName
    ensures q.bias.Some? <==> parsed.coords.Some? && !IsZero(parsed.coords.value.lat) && !IsZero(parsed.coords.value.lng)
    ensures q.bias.Some? ==> q.bias == parsed.coords
  {
    var bias := if parsed.coords.Some? && !IsZero(parsed.coords.value.lat) && !IsZero(parsed.coords.value.lng)
                then parsed.coords else None;
    SearchRequest(OrStr(parsed.searchName, "business"), bias)
  }

  /** The text search response; the results are the place ids in rank order. */
  datatype SearchAnswer =
    | SearchHttpError(httpStatus: nat)
    | SearchBody(status: string, results: seq<string>, errorMessage: string)

  /** Text search, then the details of the top result. */
  function SearchPlaceByText(parsed: Parsed, apiKey: string, search: SearchRequest -> SearchAnswer,
                             details: string -> DetailsAnswer, fetch: (string, nat) -> Attempt): (r: Outcome)
    ensures var a := search(TextQuery(parsed));
            && (a.SearchHttpError? ==> r == Failed(ApiError(a.httpStatus)))
            && (a.SearchBody? && (a.status != "OK" || |a.results| == 0) ==> r == Failed(OrStr(a.errorMessage, NotFoundMessage)))
            && (a.SearchBody? && a.status == "OK" && |a.results| > 0 ==>
                  r == FetchPlaceDetails(a.results[0], apiKey, details, fetch))
    ensures r.Failed? ==> |r.message| > 0
  {
    match search(TextQuery(parsed))
    case SearchHttpError(st) => Failed(ApiError(st))
    case SearchBody(status, results, msg) =>
      if status != "OK" || |results| == 0 then Failed(OrStr(msg, NotFoundMessage))
      else FetchPlaceDetails(results[0], apiKey, details, fetch)
  }

  // ---------------------------------------------------------------------
  // The endpoint

  datatype Reply =
    | MethodNotAllowed             // 405
    | BodyUnreadable               // 500: destructuring a missing body throws
    | UrlRequired                  // 400
    | ApiKeyMissing                // 500
    | LookupFailed(message: string) // 500
    | Ok(details: Details)         // 200

  /** The POST handler. `body` is the parsed request body, `apiKey` the
      configured key ("" when unset), `decode` stands for
      decodeURIComponent. */
  function MapsHandler(httpMethod: string, body: Value, apiKey: string, decode: Value -> Option<string>,
                       search: SearchRequest -> SearchAnswer, details: string -> DetailsAnswer,
                       fetch: (string, nat) -> Attempt): (r: Reply)
    ensures r == MethodNotAllowed <==> httpMethod != "POST"
    ensures r == BodyUnreadable <==> httpMethod == "POST" && Nullish(body)
    ensures r == UrlRequired <==> httpMethod == "POST" && !Nullish(body) && !Truthy(Prop(body, "mapsUrl"))
    ensures r == ApiKeyMissing <==>
              httpMethod == "POST" && !Nullish(body) && Truthy(Prop(body, "mapsUrl")) && |apiKey| == 0
    ensures r.Ok? || r.LookupFailed? ==>
              var url := Prop(body, "mapsUrl");
              var o := match ExtractPlaceIdFromUrl(url)
                       case Some(id) => FetchPlaceDetails(id, apiKey, details, fetch)
                       case None => SearchPlaceByText(ParseMapsUrlDetails(url, decode), apiKey, search, details, fetch);
              && (r.Ok? <==> o.Found?)
              && (r.Ok? ==> r.details == o.details)
              && (r.LookupFailed? ==> r.message == o.message)
    ensures r.Ok? && r.details.heroImage.Some? ==> !HasKey(r.details.heroImage.value)
  {
    if httpMethod != "POST" then MethodNotAllowed
    else if Nullish(body) then BodyUnreadable
    else
      var url := Prop(body, "mapsUrl");
      if !Truthy(url) then UrlRequired
      else if |apiKey| == 0 then ApiKeyMissing
      else
        var outcome := match ExtractPlaceIdFromUrl(url)
                       case Some(id) => FetchPlaceDetails(id, apiKey, details, fetch)
                       case None => SearchPlaceByText(ParseMapsUrlDetails(url, decode), apiKey, search, details, fetch);
        match outcome
        case Found(d) => Ok(d)
        case Failed(msg) => LookupFailed(OrStr(msg, "Failed to fetch business details"))
  }

  /** A URL carrying a place id is looked up directly, and the text search
      is never consulted: two search services give the same reply. */
  lemma PlaceIdSkipsSearch(httpMethod: string, body: Value, apiKey: string, decode: Value -> Option<string>,
                           search1: SearchRequest -> SearchAnswer, search2: SearchRequest -> SearchAnswer,
                           details: string -> DetailsAnswer, fetch: (string, nat) -> Attempt)
    requires ExtractPlaceIdFromUrl(Prop(body, "mapsUrl")).Some?
    ensures MapsHandler(httpMethod, body, apiKey, decode, search1, details, fetch)
         == MapsHandler(httpMethod, body, apiKey, decode, search2, details, fetch)
  {
  }

  /** Coordinates on the equator or the prime meridian are dropped from
      the search: the bias needs both numbers truthy. */
  lemma ZeroCoordinateDropsBias(name: string, lng: string)
    ensures TextQuery(Parsed(name, Some(Coords("0.0", lng)))).bias == None
  {
    assert IsZero("0.0");
  }
}
