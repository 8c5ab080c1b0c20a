/** The database helper: the tagged-template query builder that turns
    interpolated values into numbered placeholders, the cleaning of the
    connection string for servers that need TLS, and the one lazily created
    connection pool. */
module Db {
  import opened Js
  import opened Text

  /** `queryValues` after the first k interpolated values: those that are
      not undefined, in order. */
  function Pushed(values: seq<Value>, k: nat): (d: seq<Value>)
    requires k <= |values|
    ensures |d| <= k
  {
    if k == 0 then []
    else Pushed(values, k - 1) + (if values[k - 1].Undefined? then [] else [values[k - 1]])
  }

  /** Every value that is not undefined: what the query is sent with. */
  function Defined(values: seq<Value>): seq<Value>
  {
    Pushed(values, |values|)
  }

  /** What follows an interpolated string. */
  datatype Slot = NullLiteral | Placeholder(number: nat)

  function SlotText(slot: Slot): string
  {
    match slot
    case NullLiteral => "NULL"
    case Placeholder(n) => "$" + NatToString(n)
  }

  /** The slot after the i-th string: `NULL` for undefined, otherwise the
      placeholder numbered by how many values have been pushed so far. */
  function SlotAt(values: seq<Value>, i: nat): Slot
    requires i < |values|
  {
    if values[i].Undefined? then NullLiteral else Placeholder(|Pushed(values, i + 1)|)
  }

  /** The text after the first n strings. */
  function Rendered(strings: seq<string>, values: seq<Value>, n: nat): string
    requires n <= |strings|
  {
    if n == 0 then ""
    else Rendered(strings, values, n - 1) + strings[n - 1] + (if n - 1 < |values| then SlotText(SlotAt(values, n - 1)) else "")
  }

  function Min(a: nat, b: nat): nat { if a < b then a else b }

  /** The `sql` tag's loop. */
  method BuildQuery(strings: seq<string>, values: seq<Value>) returns (text: string, queryValues: seq<Value>)
    ensures text == Rendered(strings, values, |strings|)
    ensures queryValues == Pushed(values, Min(|strings|, |values|))
  {
    text := "";
    queryValues := [];
    var i := 0;
    while i < |strings|
      invariant 0 <= i <= |strings|
      invariant text == Rendered(strings, values, i)
      invariant queryValues == Pushed(values, Min(i, |values|))
    {
      text, queryValues := AppendPiece(strings, values, i, text, queryValues);
      i := i + 1;
    }
  }

  /** One turn of the loop: the i-th string, then NULL or the next
      placeholder after pushing the value. */
  method AppendPiece(strings: seq<string>, values: seq<Value>, i: nat, text: string, queryValues: seq<Value>)
    returns (text': string, queryValues': seq<Value>)
    requires i < |strings| && text == Rendered(strings, values, i)
    requires queryValues == Pushed(values, Min(i, |values|))
    ensures text' == Rendered(strings, values, i + 1)
    ensures queryValues' == Pushed(values, Min(i + 1, |values|))
  {
    var slot := "";
    queryValues' := queryValues;
    if i < |values| {
      assert queryValues == Pushed(values, i);
      var value := values[i];
      if value != Undefined {
        queryValues' := queryValues' + [value];
        assert queryValues' == Pushed(values, i + 1);
        slot := "$" + NatToString(|queryValues'|);
      } else {
        slot := "NULL";
      }
      assert slot == SlotText(SlotAt(values, i));
    }
    text' := text + strings[i] + slot;
  }

  /** Placeholder `$n` stands for the value interpolated at its position:
      the n-th value the query is sent with is exactly that value, and later
      positions get larger numbers. */
  lemma PlaceholderBindsItsValue(values: seq<Value>, i: nat)
    requires i < |values| && !values[i].Undefined?
    ensures var n := |Pushed(values, i + 1)|;
            && 1 <= n <= |Defined(values)|
            && Defined(values)[n - 1] == values[i]
            && forall j :: i < j < |values| && !values[j].Undefined? ==> |Pushed(values, j + 1)| > n
  {
    var d := Defined(values);
    var n := |Pushed(values, i + 1)|;
    PushedPrefix(values, i + 1, |values|);
    assert d[..n][n - 1] == values[i];
    forall j | i < j < |values| && !values[j].Undefined?
      ensures |Pushed(values, j + 1)| > n
    {
      PushedPrefix(values, i + 1, j);
    }
  }

  /** The values pushed for a prefix are a prefix of those pushed later. */
  lemma {:induction false} PushedPrefix(values: seq<Value>, k: nat, j: nat)
    requires k <= j <= |values|
    ensures |Pushed(values, k)| <= |Pushed(values, j)|
    ensures Pushed(values, k) == Pushed(values, j)[..|Pushed(values, k)|]
    decreases j - k
  {
    if k < j {
      PushedPrefix(values, k, j - 1);
      var a := Pushed(values, k);
      var b := Pushed(values, j - 1);
      assert Pushed(values, j)[..|b|] == b;
    }
  }

  /** The number of `$n` slots after the first n strings. */
  function PlaceholderCount(values: seq<Value>, n: nat): nat
    requires n <= |values|
  {
    if n == 0 then 0 else PlaceholderCount(values, n - 1) + (if SlotAt(values, n - 1).Placeholder? then 1 else 0)
  }

  /** The placeholders are numbered 1, 2, 3, ... in order of appearance,
      and there are exactly as many as values the query is sent with. */
  lemma {:induction false} PlaceholdersMatchValues(values: seq<Value>, n: nat)
    requires n <= |values|
    ensures PlaceholderCount(values, n) == |Pushed(values, n)|
    ensures n > 0 && SlotAt(values, n - 1).Placeholder? ==> SlotAt(values, n - 1).number == PlaceholderCount(values, n)
    decreases n
  {
    if n > 0 {
      PlaceholdersMatchValues(values, n - 1);
    }
  }

  /** Two interpolated values that are sent never share a placeholder text. */
  lemma DistinctPlaceholders(values: seq<Value>, i: nat, j: nat)
    requires i < j < |values| && !values[i].Undefined? && !values[j].Undefined?
    ensures SlotText(SlotAt(values, i)) != SlotText(SlotAt(values, j))
  {
    PlaceholderBindsItsValue(values, i);
    var a := NatToString(|Pushed(values, i + 1)|);
    var b := NatToString(|Pushed(values, j + 1)|);
    if SlotText(SlotAt(values, i)) == SlotText(SlotAt(values, j)) {
      assert ("$" + a)[1..] == a && ("$" + b)[1..] == b;
      NatToStringInjective(|Pushed(values, i + 1)|, |Pushed(values, j + 1)|);
    }
  }

  /** isSupabase, as written: three tests, the last case-insensitive. */
  predicate IsSupabase(cs: string)
  {
    Contains(cs, "supabase.co") || Contains(cs, ".supabase.co") || Contains(ToLower(cs), "supabase")
  }

  /** The first two tests add nothing to the third. */
  lemma SupabaseIsCaseInsensitiveMatch(cs: string)
    ensures IsSupabase(cs) <==> Contains(ToLower(cs), "supabase")
  {
    SupabaseWords();
    if Contains(cs, "supabase.co") {
      var i :| 0 <= i <= |cs| - |"supabase.co"| && OccursAt(cs, "supabase.co", i);
      assert cs[i..i + 8] == cs[i..i + 11][..8];
      LowerKeepsLower(cs, "supabase", i);
    }
    if Contains(cs, ".supabase.co") {
      var i :| 0 <= i <= |cs| - |".supabase.co"| && OccursAt(cs, ".supabase.co", i);
      assert cs[i + 1..i + 9] == cs[i..i + 12][1..9];
      LowerKeepsLower(cs, "supabase", i + 1);
    }
  }

  lemma SupabaseWords()
    ensures "supabase.co"[..8] == "supabase" && ".supabase.co"[1..9] == "supabase"
    ensures |"supabase.co"| == 11 && |".supabase.co"| == 12 && NoUpper("supabase")
  {
    assert "supabase" == ['s', 'u', 'p', 'a', 'b', 'a', 's', 'e'];
    assert "supabase.co" == ['s', 'u', 'p', 'a', 'b', 'a', 's', 'e', '.', 'c', 'o'];
    assert ".supabase.co" == ['.', 's', 'u', 'p', 'a', 'b', 'a', 's', 'e', '.', 'c', 'o'];
  }

  /** An occurrence of a word without capitals survives lower-casing. */
  lemma LowerKeepsLower(s: string, w: string, i: int)
    requires 0 <= i && i + |w| <= |s| && s[i..i + |w|] == w && NoUpper(w)
    ensures Contains(ToLower(s), w)
  {
    var low := ToLower(s);
    forall k | 0 <= k < |w| ensures low[i + k] == w[k] {
      assert s[i + k] == w[k];
    }
    assert low[i..i + |w|] == w;
    assert OccursAt(low, w, i);
  }

  predicate RequiresSsl(cs: string)
  {
    Contains(cs, "sslmode=require") || Contains(cs, "sslmode=prefer") || IsSupabase(cs)
  }

  predicate Joiner(c: char) { c == '?' || c == '&' }

  /** Length of a parameter value: up to the next `&`. */
  function ValueLength(s: string): (n: nat)
    ensures n <= |s|
    ensures n < |s| ==> s[n] == '&'
  {
    var i := IndexOfChar(s, '&');
    if i < 0 then |s| else i
  }

  /** A `?key`/`&key` parameter starts at the head of s. */
  predicate ParamAt(s: string, key: string)
  {
    |s| > 0 && Joiner(s[0]) && StartsWith(s[1..], key)
  }

  /** `s.replace(/[?&]key[^&]*\/g, '')`: left to right, every `?key` or
      `&key` with its value up to the next `&` is dropped. */
  function Strip(s: string, key: string): string
    decreases |s|
  {
    if |s| == 0 then ""
    else if ParamAt(s, key) then
      var rest := s[1 + |key|..];
      Strip(rest[ValueLength(rest)..], key)
    else [s[0]] + Strip(s[1..], key)
  }

  /** No `?key` or `&key` occurs. */
  predicate Clean(s: string, key: string)
  {
    forall p :: 0 <= p < |s| ==> !ParamAt(s[p..], key)
  }

  predicate NoJoiner(w: string) { forall i :: 0 <= i < |w| ==> !Joiner(w[i]) }

  /** A stripped parameter leaves what follows its value: nothing, or `&`. */
  lemma StripSkips(s: string, key: string) returns (next: string)
    requires ParamAt(s, key)
    ensures Strip(s, key) == Strip(next, key)
    ensures |next| < |s| && (|next| == 0 || next[0] == '&')
  {
    var rest := s[1 + |key|..];
    next := rest[ValueLength(rest)..];
  }

  /** Stripping never makes a joiner-free word appear at the front. */
  lemma {:induction false} StripKeepsHead(s: string, key: string, w: string)
    requires NoJoiner(w) && StartsWith(Strip(s, key), w)
    ensures StartsWith(s, w)
    decreases |s|
  {
    if |w| > 0 {
      assert |s| > 0;
      if ParamAt(s, key) {
        var next := StripSkips(s, key);
        if |next| == 0 {
          assert false;
        } else {
          JoinerNotHead(next, w);
          StripKeepsHead(next, key, w);
          assert false;
        }
      } else {
        var tail := StripKeeps(s, key);
        ConsPrefix(s[0], tail, w);
        StripKeepsHead(s[1..], key, w[1..]);
        assert s == [s[0]] + s[1..];
        ConsPrefix(s[0], s[1..], w);
      }
    }
  }

  lemma ConsPrefix(c: char, t: string, w: string)
    requires |w| > 0
    ensures StartsWith([c] + t, w) <==> c == w[0] && StartsWith(t, w[1..])
  {
    if StartsWith([c] + t, w) {
      assert ([c] + t)[..|w|] == [c] + t[..|w| - 1];
      assert w == [w[0]] + w[1..];
    }
    if c == w[0] && StartsWith(t, w[1..]) {
      assert ([c] + t)[..|w|] == [c] + t[..|w| - 1];
    }
  }

  lemma JoinerNotHead(s: string, w: string)
    requires NoJoiner(w) && |w| > 0 && |s| > 0 && s[0] == '&'
    ensures !StartsWith(s, w)
  {
  }

  /** A character that starts no parameter is kept. */
  lemma StripKeeps(s: string, key: string) returns (tail: string)
    requires |s| > 0 && !ParamAt(s, key)
    ensures tail == Strip(s[1..], key) && Strip(s, key) == [s[0]] + tail
  {
    tail := Strip(s[1..], key);
  }

  /** After stripping a key no parameter with a joiner-free key `other`
      appears that was not there before; in particular the stripped key
      itself is gone. */
  lemma {:induction false} StripCleans(s: string, key: string, other: string)
    requires NoJoiner(key) && NoJoiner(other)
    requires other == key || Clean(s, other)
    ensures Clean(Strip(s, key), other)
    decreases |s|
  {
    if |s| > 0 {
      var out := Strip(s, key);
      if ParamAt(s, key) {
        var rest := s[1 + |key|..];
        var next := rest[ValueLength(rest)..];
        if other != key {
          forall p | 0 <= p < |next| ensures !ParamAt(next[p..], other) {
            assert next[p..] == s[|s| - |next| + p..];
          }
        }
        StripCleans(next, key, other);
      } else {
        var tail := Strip(s[1..], key);
        if other != key {
          assert !ParamAt(s[0..], other);
          assert s[0..] == s;
          forall p | 0 <= p < |s| - 1 ensures !ParamAt(s[1..][p..], other) {
            assert s[1..][p..] == s[p + 1..];
          }
        }
        StripCleans(s[1..], key, other);
        forall p | 0 <= p < |out| ensures !ParamAt(out[p..], other) {
          if p == 0 {
            if ParamAt(out, other) {
              assert out[1..] == tail;
              StripKeepsHead(s[1..], key, other);
              assert false;
            }
          } else {
            assert out[p..] == tail[p - 1..];
          }
        }
      }
    }
  }

  /** cleanConnectionString. */
  function CleanConnectionString(cs: string): (r: string)
    ensures !RequiresSsl(cs) ==> r == cs
  {
    if !RequiresSsl(cs) then cs
    else
      var c := Strip(Strip(cs, "sslmode="), "pgbouncer=");
      if Contains(cs, "pgbouncer=true") then c + (if '?' in c then "&" else "?") + "pgbouncer=true" else c
  }

  lemma KeysHaveNoJoiner()
    ensures NoJoiner("sslmode=") && NoJoiner("pgbouncer=")
  {
    assert "sslmode=" == ['s', 's', 'l', 'm', 'o', 'd', 'e', '='];
    assert "pgbouncer=" == ['p', 'g', 'b', 'o', 'u', 'n', 'c', 'e', 'r', '='];
  }

  /** When TLS is required both parameters are gone, and `pgbouncer=true`
      comes back, once, exactly when the original had it. */
  lemma CleanedParams(cs: string)
    requires RequiresSsl(cs)
    ensures var c := Strip(Strip(cs, "sslmode="), "pgbouncer=");
            && Clean(c, "sslmode=") && Clean(c, "pgbouncer=")
            && (Contains(cs, "pgbouncer=true") ==> CleanConnectionString(cs) == c + (if '?' in c then "&" else "?") + "pgbouncer=true")
            && (!Contains(cs, "pgbouncer=true") ==> CleanConnectionString(cs) == c)
  {
    KeysHaveNoJoiner();
    StripCleans(cs, "sslmode=", "sslmode=");
    StripCleans(Strip(cs, "sslmode="), "pgbouncer=", "sslmode=");
    StripCleans(Strip(cs, "sslmode="), "pgbouncer=", "pgbouncer=");
  }

  /** The pool as configured: the cleaned string, TLS on when required (and
      certificates not checked), one connection, and the longer timeouts
      for Supabase. */
  datatype Pool = Pool(connectionString: string, ssl: bool, max: nat, supabaseTimeouts: bool)

  datatype Got = NoConnectionString | Got(pool: Pool)

  /** getPool over the module's `pool` variable. */
  function GetPool(current: Option<Pool>, prismaUrl: string, postgresUrl: string): (r: (Got, Option<Pool>))
    ensures current.Some? ==> r == (Got(current.value), current)
    ensures current.None? && prismaUrl == "" && postgresUrl == "" ==> r == (NoConnectionString, None)
    ensures r.0.Got? ==> r.1 == Some(r.0.pool)
    ensures current.None? && r.0.Got? ==>
              var cs := if prismaUrl != "" then prismaUrl else postgresUrl;
              && r.0.pool.max == 1
              && r.0.pool.connectionString == CleanConnectionString(cs) && (r.0.pool.ssl <==> RequiresSsl(cs))
  {
    if current.Some? then (Got(current.value), current)
    else
      var cs := OrStr(prismaUrl, postgresUrl);
      if cs == "" then (NoConnectionString, None)
      else
        var p := Pool(CleanConnectionString(cs), RequiresSsl(cs), 1, IsSupabase(cs));
        (Got(p), Some(p))
  }

  /** closePool: the variable goes back to null. */
  function ClosePool(current: Option<Pool>): (r: Option<Pool>)
    ensures r.None?
  {
    None
  }

  /** Once created the pool is the one every later call gets, whatever the
      environment says by then; only closing it lets a new one be made. */
  lemma PoolCreatedOnce(prisma1: string, postgres1: string, prisma2: string, postgres2: string)
    requires GetPool(None, prisma1, postgres1).0.Got?
    ensures var first := GetPool(None, prisma1, postgres1);
            GetPool(first.1, prisma2, postgres2) == (first.0, first.1)
    ensures GetPool(ClosePool(GetPool(None, prisma1, postgres1).1), prisma2, postgres2) == GetPool(None, prisma2, postgres2)
  {
  }
}
