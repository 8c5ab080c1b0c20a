/** ASCII character classes and the handful of JavaScript string operations
    the application code relies on: case mapping, trim, includes/indexOf,
    split/join and decimal rendering of counters.

    The regex classes \w, \d and \s and the case maps are restricted to ASCII:
    every other character is an ordinary non-word, non-space character that
    the case maps leave alone. */
module Text {

  predicate IsDigit(c: char) { '0' <= c <= '9' }
  predicate IsLower(c: char) { 'a' <= c <= 'z' }
  predicate IsUpper(c: char) { 'A' <= c <= 'Z' }
  predicate IsAlpha(c: char) { IsLower(c) || IsUpper(c) }
  predicate IsAlnum(c: char) { IsAlpha(c) || IsDigit(c) }

  /** The regex class \w */
  predicate IsWordChar(c: char) { IsAlnum(c) || c == '_' }

  /** The ASCII part of the regex class \s, which is also the ASCII part of
      what String.prototype.trim strips: space, tab, line feed, vertical
      tab, form feed, carriage return. The non-ASCII white space both also
      match (no-break space, the byte-order mark, the Unicode space
      separators, the line and paragraph separators) is left out. */
  predicate IsSpace(c: char) { c == ' ' || ('\t' <= c <= '\r') }

  function ToLowerChar(c: char): (r: char)
    ensures IsUpper(c) ==> IsLower(r)
    ensures !IsUpper(c) ==> r == c
  {
    if IsUpper(c) then (c as int + 32) as char else c
  }

  function ToUpperChar(c: char): (r: char)
    ensures IsLower(c) ==> IsUpper(r)
    ensures !IsLower(c) ==> r == c
  {
    if IsLower(c) then (c as int - 32) as char else c
  }

  /** String.prototype.toLowerCase */
  function ToLower(s: string): (r: string)
    ensures |r| == |s|
    ensures forall i :: 0 <= i < |s| ==> r[i] == ToLowerChar(s[i])
  {
    seq(|s|, i requires 0 <= i < |s| => ToLowerChar(s[i]))
  }

  /** String.prototype.toUpperCase */
  function ToUpper(s: string): (r: string)
    ensures |r| == |s|
    ensures forall i :: 0 <= i < |s| ==> r[i] == ToUpperChar(s[i])
  {
    seq(|s|, i requires 0 <= i < |s| => ToUpperChar(s[i]))
  }

  predicate NoUpper(s: string) { forall i :: 0 <= i < |s| ==> !IsUpper(s[i]) }

  lemma ToLowerHasNoUpper(s: string)
    ensures NoUpper(ToLower(s))
  {
  }

  lemma ToLowerIdentity(s: string)
    requires NoUpper(s)
    ensures ToLower(s) == s
  {
  }

  function TrimStart(s: string): (r: string)
    ensures |r| <= |s| && r == s[|s| - |r|..]
    ensures |r| == 0 || !IsSpace(r[0])
    ensures forall i :: 0 <= i < |s| - |r| ==> IsSpace(s[i])
  {
    if |s| > 0 && IsSpace(s[0]) then TrimStart(s[1..]) else s
  }

  lemma AppendAssoc(x: string, y: string, z: string)
    ensures x + (y + z) == (x + y) + z
  {
  }

  predicate AllSpace(s: string) { forall i :: 0 <= i < |s| ==> IsSpace(s[i]) }

  /** Trimming the start of a + b with a blank a trims into b. */
  lemma {:induction false} TrimStartBlank(a: string, b: string)
    requires AllSpace(a)
    ensures TrimStart(a + b) == TrimStart(b)
    decreases |a|
  {
    if |a| == 0 {
      assert a + b == b;
    } else {
      assert (a + b)[0] == a[0] && (a + b)[1..] == a[1..] + b;
      assert AllSpace(a[1..]) by {
        forall i | 0 <= i < |a| - 1 ensures IsSpace(a[1..][i]) {
          assert a[1..][i] == a[i + 1];
        }
      }
      TrimStartBlank(a[1..], b);
    }
  }

  /** Trimming the start of a + b with a non-blank a stops inside a. */
  lemma {:induction false} TrimStartNonBlank(a: string, b: string)
    requires !AllSpace(a)
    ensures TrimStart(a + b) == TrimStart(a) + b
    decreases |a|
  {
    assert (a + b)[0] == a[0];
    if IsSpace(a[0]) {
      assert (a + b)[1..] == a[1..] + b;
      var i :| 0 <= i < |a| && !IsSpace(a[i]);
      assert a[1..][i - 1] == a[i];
      TrimStartNonBlank(a[1..], b);
    }
  }

  function TrimEnd(s: string): (r: string)
    ensures |r| <= |s| && r == s[..|r|]
    ensures |r| == 0 || !IsSpace(r[|r| - 1])
    ensures forall i :: |r| <= i < |s| ==> IsSpace(s[i])
  {
    if |s| > 0 && IsSpace(s[|s| - 1]) then TrimEnd(s[..|s| - 1]) else s
  }

  /** String.prototype.trim */
  function Trim(s: string): (r: string)
    ensures |r| <= |s|
    ensures |r| == 0 || (!IsSpace(r[0]) && !IsSpace(r[|r| - 1]))
  {
    TrimEnd(TrimStart(s))
  }

  predicate NoSpace(s: string) { forall i :: 0 <= i < |s| ==> !IsSpace(s[i]) }

  lemma TrimIdentity(s: string)
    requires NoSpace(s)
    ensures Trim(s) == s
  {
  }

  /** A string that trim leaves empty holds only white space. */
  lemma TrimEmpty(s: string)
    requires Trim(s) == ""
    ensures forall i :: 0 <= i < |s| ==> IsSpace(s[i])
  {
  }

  /** A character above U+FFFF is a surrogate pair in UTF-16. */
  predicate Astral(c: char) { c as int >= 0x10000 }

  /** The UTF-16 code units of one character. */
  function Utf16Width(c: char): (w: nat)
    ensures w == (if Astral(c) then 2 else 1)
  {
    if Astral(c) then 2 else 1
  }

  /** `.length` of a JavaScript string: its number of UTF-16 code units,
      which `substring` and the length checks count in. */
  function Utf16Length(s: string): (n: nat)
    ensures |s| <= n <= 2 * |s|
  {
    if |s| == 0 then 0 else Utf16Width(s[0]) + Utf16Length(s[1..])
  }

  /** The code units and the characters agree in number exactly when no
      character is astral. */
  lemma {:induction false} Utf16LengthPlain(s: string)
    ensures Utf16Length(s) == |s| <==> forall i :: 0 <= i < |s| ==> !Astral(s[i])
  {
    if |s| > 0 {
      Utf16LengthPlain(s[1..]);
      assert forall i :: 1 <= i < |s| ==> s[i] == s[1..][i - 1];
    }
  }

  lemma Utf16LengthCons(c: char, t: string)
    ensures Utf16Length([c] + t) == Utf16Width(c) + Utf16Length(t)
  {
    assert ([c] + t)[0] == c && ([c] + t)[1..] == t;
  }

  /** The length of a concatenation is the sum of the lengths. */
  lemma {:induction false} Utf16LengthAppend(a: string, b: string)
    ensures Utf16Length(a + b) == Utf16Length(a) + Utf16Length(b)
  {
    if |a| == 0 {
      assert a + b == b;
    } else {
      assert a + b == [a[0]] + (a[1..] + b);
      Utf16LengthCons(a[0], a[1..] + b);
      Utf16LengthCons(a[0], a[1..]);
      assert a == [a[0]] + a[1..];
      Utf16LengthAppend(a[1..], b);
    }
  }

  /** `substring(0, n)` as far as whole characters go: the longest prefix of
      s that fits into n code units (Utf16PrefixLongest). */
  function Utf16Prefix(s: string, n: nat): (p: string)
    ensures |p| <= |s| && p == s[..|p|]
    ensures Utf16Length(p) <= n
  {
    if |s| == 0 || Utf16Width(s[0]) > n then ""
    else
      var rest := Utf16Prefix(s[1..], n - Utf16Width(s[0]));
      Utf16LengthCons(s[0], rest);
      [s[0]] + rest
  }

  /** No longer prefix fits: the next character would overrun n. */
  lemma {:induction false} Utf16PrefixLongest(s: string, n: nat)
    ensures var p := Utf16Prefix(s, n);
            |p| < |s| ==> Utf16Length(s[..|p| + 1]) > n
  {
    var p := Utf16Prefix(s, n);
    if |s| > 0 && |p| < |s| {
      if Utf16Width(s[0]) > n {
        Utf16LengthCons(s[0], "");
        assert s[..1] == [s[0]] + "";
      } else {
        var t := s[1..];
        var rest := Utf16Prefix(t, n - Utf16Width(s[0]));
        Utf16PrefixLongest(t, n - Utf16Width(s[0]));
        assert s[..|p| + 1] == [s[0]] + t[..|rest| + 1];
        Utf16LengthCons(s[0], t[..|rest| + 1]);
      }
    }
  }

  /** Without astral characters the code-unit prefix is the character
      prefix. */
  lemma {:induction false} Utf16PrefixPlain(s: string, n: nat)
    requires forall i :: 0 <= i < |s| ==> !Astral(s[i])
    ensures Utf16Prefix(s, n) == s[..if n < |s| then n else |s|]
  {
    if |s| > 0 && n > 0 {
      var t := s[1..];
      assert !Astral(s[0]);
      assert forall i :: 0 <= i < |t| ==> !Astral(t[i]) by {
        forall i | 0 <= i < |t| ensures !Astral(t[i]) { assert t[i] == s[i + 1]; }
      }
      Utf16PrefixPlain(t, n - 1);
      var m := if n < |s| then n else |s|;
      assert s[..m] == [s[0]] + t[..m - 1];
    }
  }

  predicate StartsWith(s: string, p: string) { |p| <= |s| && s[..|p|] == p }

  predicate OccursAt(s: string, sub: string, i: int)
  {
    0 <= i && i + |sub| <= |s| && s[i..i + |sub|] == sub
  }

  /** String.prototype.includes */
  predicate Contains(s: string, sub: string)
  {
    exists i | 0 <= i <= |s| - |sub| :: OccursAt(s, sub, i)
  }

  /** String.prototype.indexOf: the leftmost occurrence, or -1. */
  function IndexOf(s: string, sub: string): (r: int)
    ensures -1 <= r <= |s|
    ensures r == -1 <==> !Contains(s, sub)
    ensures r >= 0 ==> OccursAt(s, sub, r)
    ensures r >= 0 ==> forall j :: 0 <= j < r ==> !OccursAt(s, sub, j)
  {
    IndexFrom(s, sub, 0)
  }

  function IndexFrom(s: string, sub: string, from: nat): (r: int)
    requires from <= |s| + 1
    ensures -1 <= r <= |s|
    ensures r == -1 <==> forall j :: from <= j <= |s| - |sub| ==> !OccursAt(s, sub, j)
    ensures r >= 0 ==> from <= r && OccursAt(s, sub, r)
    ensures r >= 0 ==> forall j :: from <= j < r ==> !OccursAt(s, sub, j)
    decreases |s| + 1 - from
  {
    if from + |sub| > |s| then -1
    else if s[from..from + |sub|] == sub then assert OccursAt(s, sub, from); from
    else IndexFrom(s, sub, from + 1)
  }

  /** Index of the first occurrence of character c, or -1. */
  function IndexOfChar(s: string, c: char): (r: int)
    ensures -1 <= r < |s|
    ensures r == -1 <==> c !in s
    ensures r >= 0 ==> s[r] == c && c !in s[..r]
  {
    if |s| == 0 then -1
    else if s[0] == c then 0
    else
      var k := IndexOfChar(s[1..], c);
      assert s[1..][..k + 1] == s[1..k + 2] by { }
      if k < 0 then -1 else k + 1
  }

  /** An occurrence with no earlier one is the one indexOf reports. */
  lemma IndexOfCharAt(s: string, c: char, i: int)
    requires 0 <= i < |s| && s[i] == c && c !in s[..i]
    ensures IndexOfChar(s, c) == i
  {
  }

  /** String.prototype.split with a one-character separator. */
  function Split(s: string, sep: char): (parts: seq<string>)
    ensures |parts| >= 1
    decreases |s|
  {
    if |s| == 0 then [""]
    else
      var tail := Split(s[1..], sep);
      if s[0] == sep then [""] + tail
      else [[s[0]] + tail[0]] + tail[1..]
  }

  /** Array.prototype.join */
  function Join(parts: seq<string>, sep: string): string
  {
    if |parts| == 0 then ""
    else if |parts| == 1 then parts[0]
    else parts[0] + sep + Join(parts[1..], sep)
  }

  /** Splitting and re-joining with the same separator gives back the input. */
  lemma {:induction false} JoinSplit(s: string, sep: char)
    ensures Join(Split(s, sep), [sep]) == s
    decreases |s|
  {
    if |s| > 0 {
      var tail := Split(s[1..], sep);
      JoinSplit(s[1..], sep);
      if s[0] == sep {
        JoinCons("", tail, [sep]);
        assert s == [sep] + s[1..];
      } else {
        JoinPrepend(s[0], tail, [sep]);
        assert s == [s[0]] + s[1..];
      }
    }
  }

  lemma JoinCons(head: string, tail: seq<string>, sep: string)
    requires |tail| >= 1
    ensures Join([head] + tail, sep) == head + sep + Join(tail, sep)
  {
    assert ([head] + tail)[1..] == tail;
  }

  /** Gluing a character onto the first piece glues it onto the joined string. */
  lemma JoinPrepend(c: char, parts: seq<string>, sep: string)
    requires |parts| >= 1
    ensures Join([[c] + parts[0]] + parts[1..], sep) == [c] + Join(parts, sep)
  {
    var glued := [[c] + parts[0]] + parts[1..];
    if |parts| > 1 {
      assert glued[1..] == parts[1..];
    }
  }

  /** No piece of a split holds the separator. */
  lemma {:induction false} SplitPartsFree(s: string, sep: char)
    ensures forall k :: 0 <= k < |Split(s, sep)| ==> sep !in Split(s, sep)[k]
    decreases |s|
  {
    if |s| > 0 {
      SplitPartsFree(s[1..], sep);
    }
  }

  /** A piece free of the separator followed by the separator splits off as
      the first piece. */
  lemma {:induction false} SplitPrefix(a: string, sep: char, b: string)
    requires sep !in a
    ensures Split(a + [sep] + b, sep) == [a] + Split(b, sep)
    decreases |a|
  {
    var s := a + [sep] + b;
    if |a| == 0 {
      assert s[1..] == b;
    } else {
      assert s[1..] == a[1..] + [sep] + b;
      SplitPrefix(a[1..], sep, b);
      assert [s[0]] + a[1..] == a;
    }
  }

  /** A string holding the separator splits into at least two pieces, and one
      that does not is its own only piece. */
  lemma {:induction false} SplitCount(s: string, sep: char)
    ensures sep in s ==> |Split(s, sep)| >= 2
    ensures sep !in s ==> Split(s, sep) == [s]
    decreases |s|
  {
    if |s| > 0 {
      SplitCount(s[1..], sep);
      assert s == [s[0]] + s[1..];
    }
  }

  /** Replace every occurrence of one character with another
      (`replace(/x/g, y)` for a one-character pattern). */
  function ReplaceChar(s: string, from: char, to: char): (r: string)
    ensures |r| == |s|
    ensures forall i :: 0 <= i < |s| ==> r[i] == (if s[i] == from then to else s[i])
  {
    seq(|s|, i requires 0 <= i < |s| => if s[i] == from then to else s[i])
  }

  function DigitChar(d: nat): (c: char)
    requires d < 10
    ensures IsDigit(c)
  {
    ('0' as int + d) as char
  }

  /** Decimal rendering of a natural number, as String(n) renders it. */
  function NatToString(n: nat): (r: string)
    ensures |r| >= 1
    ensures forall i :: 0 <= i < |r| ==> IsDigit(r[i])
    ensures n >= 10 ==> r[0] != '0'
    ensures n < 10 ==> |r| == 1
  {
    if n < 10 then [DigitChar(n)] else NatToString(n / 10) + [DigitChar(n % 10)]
  }

  /** The value of a string of decimal digits. */
  function DigitsValue(s: string): nat
    requires forall i :: 0 <= i < |s| ==> IsDigit(s[i])
  {
    if |s| == 0 then 0
    else
      assert IsDigit(s[|s| - 1]);
      10 * DigitsValue(s[..|s| - 1]) + (s[|s| - 1] as int - '0' as int)
  }

  lemma {:induction false} DigitsValueOfNatToString(n: nat)
    ensures DigitsValue(NatToString(n)) == n
  {
    if n >= 10 {
      DigitsValueOfNatToString(n / 10);
      var r := NatToString(n);
      assert r[..|r| - 1] == NatToString(n / 10);
    }
  }

  /** Rendered counters are pairwise distinct, which makes them usable as
      the keys of a map built over the counters. */
  lemma NatToStringDistinct()
    ensures forall m: nat, n: nat :: NatToString(m) == NatToString(n) ==> m == n
  {
    forall m: nat, n: nat | NatToString(m) == NatToString(n) ensures m == n {
      NatToStringInjective(m, n);
    }
  }

  /** Distinct counters render as distinct strings. */
  lemma NatToStringInjective(m: nat, n: nat)
    requires NatToString(m) == NatToString(n)
    ensures m == n
  {
    DigitsValueOfNatToString(m);
    DigitsValueOfNatToString(n);
  }
}
