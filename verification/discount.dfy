/** The discount code shown after feedback (app.js, generateDiscountCode):
    a two-letter name code followed by the expiry date as DDMMYY. The
    expiry date and the random letters used for anonymous feedback are
    inputs here. */
module Discount {
  import opened Text

  /** A calendar date as JavaScript's Date reports it: day of month 1..31,
      month 1..12, full year. */
  datatype Date = Date(day: nat, month: nat, year: nat)

  predicate ValidDate(d: Date) { 1 <= d.day <= 31 && 1 <= d.month <= 12 }

  predicate AllDigits(s: string) { forall i :: 0 <= i < |s| ==> IsDigit(s[i]) }

  /** `String(n).padStart(2, "0")` for n below 100. */
  function Pad2(n: nat): (r: string)
    requires n < 100
    ensures |r| == 2 && AllDigits(r) && DigitsValue(r) == n
  {
    if n < 10 then
      var r := "0" + NatToString(n);
      assert r[..1] == "0" && r[1] == DigitChar(n);
      assert DigitsValue("0") == 0;
      r
    else
      DigitsValueOfNatToString(n);
      NatToStringShort(n);
      NatToString(n)
  }

  /** `String(year).slice(-2)`: the last two digits, or the only digit of a
      year below 10. */
  function YearCode(year: nat): (r: string)
    ensures year >= 10 ==> |r| == 2 && AllDigits(r) && DigitsValue(r) == year % 100
    ensures year < 10 ==> r == NatToString(year)
  {
    var s := NatToString(year);
    NatToStringShort(year);
    if |s| <= 2 then
      DigitsValueOfNatToString(year);
      s
    else
      LastTwoDigits(year);
      s[|s| - 2..]
  }

  /** The number of decimal digits against the size of the number. */
  lemma {:induction false} NatToStringShort(n: nat)
    ensures n < 10 ==> |NatToString(n)| == 1
    ensures 10 <= n < 100 ==> |NatToString(n)| == 2
    ensures n >= 100 ==> |NatToString(n)| > 2
  {
    if n >= 10 {
      NatToStringShort(n / 10);
      assert NatToString(n) == NatToString(n / 10) + [DigitChar(n % 10)];
    }
  }

  lemma {:induction false} LastTwoDigits(year: nat)
    requires |NatToString(year)| > 2
    ensures var s := NatToString(year);
            AllDigits(s[|s| - 2..]) && DigitsValue(s[|s| - 2..]) == year % 100
  {
    NatToStringShort(year);
    var s := NatToString(year);
    var t := NatToString(year / 10);
    assert s == t + [DigitChar(year % 10)];
    assert year / 10 >= 10;
    assert t == NatToString(year / 100) + [DigitChar((year / 10) % 10)];
    var two := s[|s| - 2..];
    assert two == [DigitChar((year / 10) % 10), DigitChar(year % 10)];
    assert two[..1] == [two[0]];
    assert DigitsValue(two[..1]) == (year / 10) % 10 by {
      assert two[..1][..0] == [];
    }
    LastTwoDigitsValue(year);
  }

  lemma LastTwoDigitsValue(n: nat)
    ensures n % 100 == 10 * ((n / 10) % 10) + n % 10
  {
    var q, d0 := n / 10, n % 10;
    var p, d1 := q / 10, q % 10;
    assert n == 100 * p + (10 * d1 + d0);
    ModOfSplit(n, p, 10 * d1 + d0);
  }

  lemma ModOfSplit(n: nat, p: nat, r: nat)
    requires n == 100 * p + r && r < 100
    ensures n % 100 == r
  {
  }

  /** DDMMYY of the expiry date. */
  function DateCode(d: Date): (r: string)
    requires ValidDate(d)
    ensures d.year >= 10 ==> |r| == 6 && AllDigits(r)
  {
    Pad2(d.day) + Pad2(d.month) + YearCode(d.year)
  }

  /** Reading the six digits back gives day, month and the year modulo 100. */
  lemma {:induction false} DateCodeDecodes(d: Date)
    requires ValidDate(d) && d.year >= 10
    ensures var r := DateCode(d);
            && DigitsValue(r[..2]) == d.day
            && DigitsValue(r[2..4]) == d.month
            && DigitsValue(r[4..]) == d.year % 100
  {
    var r := DateCode(d);
    assert r[..2] == Pad2(d.day);
    assert r[2..4] == Pad2(d.month);
    assert r[4..] == YearCode(d.year);
  }

  /** Length of the longest prefix without white space. */
  function LeadingLen(t: string): (k: nat)
    ensures k <= |t|
    ensures k == |t| || IsSpace(t[k])
  {
    if |t| == 0 || IsSpace(t[0]) then 0 else 1 + LeadingLen(t[1..])
  }

  /** The prefix LeadingLen measures holds no white space. */
  lemma {:induction false} LeadingLenWord(t: string)
    ensures forall i :: 0 <= i < LeadingLen(t) ==> !IsSpace(t[i])
    decreases |t|
  {
    if |t| > 0 && !IsSpace(t[0]) {
      LeadingLenWord(t[1..]);
      forall i | 0 < i < LeadingLen(t) ensures !IsSpace(t[i]) {
        assert t[i] == t[1..][i - 1];
      }
    }
  }

  /** Length of the run of white space at the start. */
  function SpaceLen(t: string): (k: nat)
    ensures k <= |t|
    ensures k == |t| || !IsSpace(t[k])
  {
    if |t| == 0 || !IsSpace(t[0]) then 0 else 1 + SpaceLen(t[1..])
  }

  /** The prefix SpaceLen measures is all white space. */
  lemma {:induction false} SpaceLenRun(t: string)
    ensures forall i :: 0 <= i < SpaceLen(t) ==> IsSpace(t[i])
    decreases |t|
  {
    if |t| > 0 && IsSpace(t[0]) {
      SpaceLenRun(t[1..]);
      forall i | 0 < i < SpaceLen(t) ensures IsSpace(t[i]) {
        assert t[i] == t[1..][i - 1];
      }
    }
  }

  /** Length of the longest suffix without white space. */
  function TrailingLen(t: string): (k: nat)
    ensures k <= |t|
    ensures k == |t| || IsSpace(t[|t| - k - 1])
  {
    if |t| == 0 || IsSpace(t[|t| - 1]) then 0 else 1 + TrailingLen(t[..|t| - 1])
  }

  /** The suffix TrailingLen measures holds no white space. */
  lemma {:induction false} TrailingLenWord(t: string)
    ensures forall i :: |t| - TrailingLen(t) <= i < |t| ==> !IsSpace(t[i])
    decreases |t|
  {
    if |t| > 0 && !IsSpace(t[|t| - 1]) {
      TrailingLenWord(t[..|t| - 1]);
      forall i | |t| - TrailingLen(t) <= i < |t| - 1 ensures !IsSpace(t[i]) {
        assert t[i] == t[..|t| - 1][i];
      }
    }
  }

  /** The last word. */
  function TrailingRun(t: string): string { t[|t| - TrailingLen(t)..] }

  /** Where the piece after the first one starts: past the first word and
      the white space after it. */
  function Gap(t: string): (j: nat)
    requires LeadingLen(t) < |t|
    ensures 0 < j <= |t|
  {
    var k := LeadingLen(t);
    assert t[k..][0] == t[k];
    k + SpaceLen(t[k..])
  }

  /** The last piece of the split, by the same recursion. */
  function LastPiece(t: string): string
    decreases |t|
  {
    if LeadingLen(t) == |t| then t
    else LastPiece(t[Gap(t)..])
  }

  /** `t.split(/\s+/)`: the pieces between runs of white space. */
  function SplitWs(t: string): (parts: seq<string>)
    ensures |parts| >= 1
    decreases |t|
  {
    var k := LeadingLen(t);
    if k == |t| then [t]
    else [t[..k]] + SplitWs(t[Gap(t)..])
  }

  /** The split ends with the piece LastPiece finds. */
  lemma {:induction false} SplitWsEndsWithLastPiece(t: string)
    ensures var parts := SplitWs(t); parts[|parts| - 1] == LastPiece(t)
    decreases |t|
  {
    if LeadingLen(t) < |t| {
      var rest := t[Gap(t)..];
      SplitWsEndsWithLastPiece(rest);
      SplitWsStep(t);
      LastOfCons(SplitWs(t), t[..LeadingLen(t)], SplitWs(rest));
      LastPieceStep(t);
    } else {
      var parts := SplitWs(t);
      assert parts == [t];
      assert LastPiece(t) == t;
      assert parts[|parts| - 1] == LastPiece(t);
    }
  }

  lemma {:induction false} SplitWsStep(t: string)
    requires LeadingLen(t) < |t|
    ensures SplitWs(t) == [t[..LeadingLen(t)]] + SplitWs(t[Gap(t)..])
  {
  }

  lemma LastOfCons(parts: seq<string>, x: string, later: seq<string>)
    requires parts == [x] + later && |later| > 0
    ensures parts[|parts| - 1] == later[|later| - 1]
  {
  }

  /** The first piece is the first word. */
  lemma {:induction false} SplitWsFirst(t: string)
    ensures SplitWs(t)[0] == t[..LeadingLen(t)]
  {
  }

  /** The split yields one piece exactly when there is no white space. */
  lemma {:induction false} SplitWsSingle(t: string)
    ensures |SplitWs(t)| == 1 <==> NoSpace(t)
  {
    var k := LeadingLen(t);
    LeadingLenWord(t);
    if k < |t| {
      assert IsSpace(t[k]);
    }
  }

  /** A trailing length is the only length with its two defining properties. */
  lemma TrailingLenUnique(t: string, n: nat)
    requires n <= |t|
    requires forall i :: |t| - n <= i < |t| ==> !IsSpace(t[i])
    requires n == |t| || IsSpace(t[|t| - n - 1])
    ensures TrailingLen(t) == n
  {
    var m := TrailingLen(t);
    TrailingLenWord(t);
    if m < n {
      assert false;
    } else if m > n {
      assert false;
    }
  }

  /** Cutting a prefix that ends in white space keeps the last word. */
  lemma TrailingLenSuffix(t: string, j: nat)
    requires 0 < j < |t| && IsSpace(t[j - 1])
    ensures TrailingLen(t[j..]) == TrailingLen(t)
  {
    var rest := t[j..];
    var n := TrailingLen(rest);
    TrailingLenWord(rest);
    forall i | |t| - n <= i < |t|
      ensures !IsSpace(t[i])
    {
      assert t[i] == rest[i - j];
    }
    if n < |rest| {
      assert t[|t| - n - 1] == rest[|rest| - n - 1];
    }
    TrailingLenUnique(t, n);
  }

  /** A run of white space stops before a final non-space character. */
  lemma SpaceRunStops(u: string)
    requires |u| > 0 && !IsSpace(u[|u| - 1])
    ensures SpaceLen(u) < |u|
  {
    SpaceLenRun(u);
  }

  lemma {:induction false} LastPieceStep(t: string)
    requires LeadingLen(t) < |t|
    ensures LastPiece(t) == LastPiece(t[Gap(t)..])
  {
  }

  /** In a string that does not end in white space the last piece of the
      split is the last word. */
  lemma {:induction false} SplitWsLast(t: string)
    requires |t| > 0 && !IsSpace(t[|t| - 1])
    ensures var parts := SplitWs(t); parts[|parts| - 1] == TrailingRun(t) && |parts[|parts| - 1]| > 0
  {
    SplitWsEndsWithLastPiece(t);
    LastPieceTrailing(t);
    assert TrailingLen(t) > 0;
  }

  lemma {:induction false} LastPieceTrailing(t: string)
    requires |t| > 0 && !IsSpace(t[|t| - 1])
    ensures LastPiece(t) == TrailingRun(t)
    decreases |t|
  {
    var k := LeadingLen(t);
    if k == |t| {
      LeadingLenWord(t);
      TrailingLenUnique(t, |t|);
      assert TrailingRun(t) == t[0..];
    } else {
      var j := AfterFirstGap(t);
      LastPieceTrailing(t[j..]);
      LastPieceStep(t);
      TrailingRunSuffix(t, j);
    }
  }

  /** Cutting a prefix that ends in white space keeps the last word. */
  lemma TrailingRunSuffix(t: string, j: nat)
    requires 0 < j < |t| && IsSpace(t[j - 1])
    ensures TrailingRun(t[j..]) == TrailingRun(t)
  {
    TrailingLenSuffix(t, j);
    SuffixOfSuffix(t, j, TrailingLen(t));
  }

  /** The last n characters of a suffix are the last n of the whole. */
  lemma SuffixOfSuffix(t: string, j: nat, n: nat)
    requires j <= |t| && n <= |t| - j
    ensures t[j..][|t| - j - n..] == t[|t| - n..]
  {
    var a, b := t[j..][|t| - j - n..], t[|t| - n..];
    forall i | 0 <= i < n ensures a[i] == b[i] {
      assert a[i] == t[|t| - n + i];
    }
  }

  /** Where the second word starts, in a string with white space that does
      not end in white space. */
  lemma AfterFirstGap(t: string) returns (j: nat)
    requires |t| > 0 && !IsSpace(t[|t| - 1]) && LeadingLen(t) < |t|
    ensures j == Gap(t)
    ensures 0 < j < |t| && IsSpace(t[j - 1]) && !IsSpace(t[j..][|t| - j - 1])
  {
    var k := LeadingLen(t);
    var u := t[k..];
    assert u[0] == t[k];
    var s := SpaceLen(u);
    SpaceLenRun(u);
    j := k + s;
    assert u[|u| - 1] == t[|t| - 1];
    SpaceRunStops(u);
    assert t[j - 1] == u[s - 1];
    assert t[j..][|t| - j - 1] == t[|t| - 1];
  }

  function Min(a: int, b: int): int { if a <= b then a else b }

  /** The name code, stated on the trimmed name itself: one word gives its
      first two code units, several give the first code unit of the first
      and of the last word; upper-cased either way. */
  function Initials(t: string): string
    requires |t| > 0 && !IsSpace(t[0]) && !IsSpace(t[|t| - 1])
  {
    if NoSpace(t) then ToUpper(Utf16Prefix(t, 2))
    else
      var last := TrailingRun(t);
      ToUpper(Utf16Prefix(t, 1) + Utf16Prefix(last, 1))
  }

  /** The name code as app.js computes it, from the words of the name:
      `substring` counts UTF-16 code units. */
  function NameCode(t: string): (code: string)
    requires |t| > 0 && !IsSpace(t[0]) && !IsSpace(t[|t| - 1])
    ensures |code| <= 2 && NoLower(code)
    ensures !Astral(t[0]) ==> |code| >= 1
  {
    var parts := SplitWs(t);
    SplitWsFirst(t);
    var first := parts[0];
    var last := parts[|parts| - 1];
    assert |first| > 0;
    FirstUnit(first);
    if |parts| == 1 then ToUpper(Utf16Prefix(first, 2))
    else
      SplitWsLast(t);
      assert |last| > 0;
      ToUpper(Utf16Prefix(first, 1) + Utf16Prefix(last, 1))
  }

  /** The first code unit of a word, as far as a whole character: the first
      character unless it is astral; a longer prefix starts with it. */
  lemma FirstUnit(w: string)
    requires |w| > 0
    ensures Utf16Prefix(w, 1) == if Astral(w[0]) then "" else [w[0]]
    ensures !Astral(w[0]) ==> |Utf16Prefix(w, 2)| >= 1
  {
  }

  /** A one-word name opening with an astral character: its two code
      units are the whole code. */
  lemma AstralInitial()
    ensures Initials("\U{1F600}ab") == "\U{1F600}"
  {
    var t := "\U{1F600}ab";
    assert NoSpace(t);
    assert Utf16Prefix(t[1..], 0) == "";
    assert Utf16Prefix(t, 2) == [t[0]];
  }

  /** The word-based computation agrees with the statement on the name. */
  lemma {:induction false} NameCodeIsInitials(t: string)
    requires |t| > 0 && !IsSpace(t[0]) && !IsSpace(t[|t| - 1])
    ensures NameCode(t) == Initials(t)
  {
    if |SplitWs(t)| == 1 {
      OneWordInitials(t);
    } else {
      ManyWordInitials(t);
    }
  }

  /** A name that splits into one word is that word. */
  lemma OneWordInitials(t: string)
    requires |t| > 0 && !IsSpace(t[0]) && !IsSpace(t[|t| - 1])
    requires |SplitWs(t)| == 1
    ensures NameCode(t) == Initials(t)
  {
    SplitWsSingle(t);
    SplitWsFirst(t);
    assert SplitWs(t)[0] == t;
  }

  /** A name of several words: its first and last words start the code. */
  lemma ManyWordInitials(t: string)
    requires |t| > 0 && !IsSpace(t[0]) && !IsSpace(t[|t| - 1])
    requires |SplitWs(t)| != 1
    ensures NameCode(t) == Initials(t)
  {
    var parts := SplitWs(t);
    assert !NoSpace(t) by {
      SplitWsSingle(t);
    }
    var first := parts[0];
    var last := parts[|parts| - 1];
    assert |first| > 0 && first[0] == t[0] by {
      SplitWsFirst(t);
    }
    assert last == TrailingRun(t) && |last| > 0 by {
      SplitWsLast(t);
    }
    assert Utf16Prefix(first, 1) == Utf16Prefix(t, 1) by {
      FirstUnit(first);
      FirstUnit(t);
    }
    assert NameCode(t) == ToUpper(Utf16Prefix(first, 1) + Utf16Prefix(last, 1));
  }

  predicate NoLower(s: string) { forall i :: 0 <= i < |s| ==> !IsLower(s[i]) }

  /** generateDiscountCode. `randomPart` stands for the random letters drawn
      when no name is given. */
  function DiscountCode(name: string, randomPart: string, expiry: Date): (code: string)
    requires ValidDate(expiry)
    ensures Trim(name) == "" ==> code == randomPart + DateCode(expiry)
    ensures Trim(name) != "" ==> code == Initials(Trim(name)) + DateCode(expiry)
    ensures expiry.year >= 10 ==> |code| >= 6 && AllDigits(code[|code| - 6..])
  {
    var dateCode := DateCode(expiry);
    var t := Trim(name);
    if |t| == 0 then
      var code := randomPart + dateCode;
      assert code[|code| - |dateCode|..] == dateCode;
      code
    else
      NameCodeIsInitials(t);
      var code := NameCode(t) + dateCode;
      assert code[|code| - |dateCode|..] == dateCode;
      code
  }

  /** A two-word name gives the two initials, whatever spacing separates
      them; for characters below U+10000 these are the first characters. */
  lemma {:induction false} TwoWordInitials(first: string, gap: string, last: string)
    requires |first| > 0 && |last| > 0 && NoSpace(first) && NoSpace(last)
    requires |gap| > 0 && forall i :: 0 <= i < |gap| ==> IsSpace(gap[i])
    ensures var t := first + gap + last;
            |t| > 0 && !IsSpace(t[0]) && !IsSpace(t[|t| - 1]) &&
            Initials(t) == ToUpper(Utf16Prefix(first, 1) + Utf16Prefix(last, 1))
    ensures !Astral(first[0]) && !Astral(last[0]) ==>
              Initials(first + gap + last) == ToUpper([first[0], last[0]])
  {
    var t := first + gap + last;
    assert IsSpace(t[|first|]);
    assert t[|t| - |last|..] == last;
    forall i | |t| - |last| <= i < |t|
      ensures !IsSpace(t[i])
    {
      assert t[i] == last[i - (|t| - |last|)];
    }
    assert t[|t| - |last| - 1] == gap[|gap| - 1];
    TrailingLenUnique(t, |last|);
    assert !NoSpace(t);
    FirstUnit(t);
    FirstUnit(first);
    FirstUnit(last);
  }
}
