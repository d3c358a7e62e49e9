/** The string primitives the handlers rely on: JavaScript's `String.prototype.trim`
    (and the `\s` class of its regular expressions), `toLowerCase`, `includes`
    and the decimal rendering of a count inside a template literal. */
module Text {

  /** ECMAScript WhiteSpace and LineTerminator code points: what `trim` removes
      and what `\s` matches. */
  predicate IsWhitespace(c: char) {
    var n := c as int;
    n == 0x09 || n == 0x0A || n == 0x0B || n == 0x0C || n == 0x0D || n == 0x20
    || n == 0xA0 || n == 0x1680 || (0x2000 <= n <= 0x200A)
    || n == 0x2028 || n == 0x2029 || n == 0x202F || n == 0x205F || n == 0x3000 || n == 0xFEFF
  }

  predicate AllWhitespace(s: string) {
    forall i :: 0 <= i < |s| ==> IsWhitespace(s[i])
  }

  /** No whitespace at either end: what `trim` leaves behind. */
  predicate Trimmed(s: string) {
    |s| == 0 || (!IsWhitespace(s[0]) && !IsWhitespace(s[|s| - 1]))
  }

  function TrimStart(s: string): (r: string)
    ensures |r| <= |s| && r == s[|s| - |r|..]
    ensures |r| == 0 || !IsWhitespace(r[0])
  {
    if |s| > 0 && IsWhitespace(s[0]) then TrimStart(s[1..]) else s
  }

  function TrimEnd(s: string): (r: string)
    ensures |r| <= |s| && r == s[..|r|]
    ensures |r| == 0 || !IsWhitespace(r[|r| - 1])
  {
    if |s| > 0 && IsWhitespace(s[|s| - 1]) then TrimEnd(s[..|s| - 1]) else s
  }

  /** `s.trim()`: no white space is left at either end. */
  function Trim(s: string): (r: string)
    ensures Trimmed(r)
  {
    var t := TrimStart(s);
    var r := TrimEnd(t);
    assert |r| > 0 ==> r[0] == t[0];
    r
  }

  /** What `TrimStart` drops is white space. */
  lemma {:induction false} TrimStartDropsBlank(s: string)
    ensures AllWhitespace(s[..|s| - |TrimStart(s)|])
  {
    if |s| > 0 && IsWhitespace(s[0]) {
      TrimStartDropsBlank(s[1..]);
      var n := |s| - |TrimStart(s)|;
      assert forall k :: 1 <= k < n ==> s[..n][k] == s[1..][..n - 1][k - 1];
    }
  }

  /** What `TrimEnd` drops is white space. */
  lemma {:induction false} TrimEndDropsBlank(s: string)
    ensures AllWhitespace(s[|TrimEnd(s)|..])
  {
    if |s| > 0 && IsWhitespace(s[|s| - 1]) {
      var p := s[..|s| - 1];
      TrimEndDropsBlank(p);
      var n := |TrimEnd(s)|;
      assert forall k :: 0 <= k < |s| - 1 - n ==> s[n..][k] == p[n..][k];
    }
  }

  /** The trimmed string is an infix of the original with only white space on either side. */
  lemma TrimInfix(s: string)
    ensures exists i :: 0 <= i <= |s| - |Trim(s)| && Trim(s) == s[i..i + |Trim(s)|]
                        && AllWhitespace(s[..i]) && AllWhitespace(s[i + |Trim(s)|..])
  {
    var t := TrimStart(s);
    var r := TrimEnd(t);
    var i := |s| - |t|;
    TrimStartDropsBlank(s);
    TrimEndDropsBlank(t);
    assert r == s[i..i + |r|];
    assert s[i + |r|..] == t[|r|..];
  }

  lemma TrimStartOfTrimmed(s: string)
    requires |s| == 0 || !IsWhitespace(s[0])
    ensures TrimStart(s) == s
  {
  }

  lemma TrimEndOfTrimmed(s: string)
    requires |s| == 0 || !IsWhitespace(s[|s| - 1])
    ensures TrimEnd(s) == s
  {
  }

  /** Trimming changes nothing exactly when there is nothing to trim. */
  lemma TrimIdentity(s: string)
    ensures Trim(s) == s <==> Trimmed(s)
  {
    if Trimmed(s) {
      TrimStartOfTrimmed(s);
      TrimEndOfTrimmed(s);
    }
  }

  /** `trim` is idempotent. */
  lemma TrimIdempotent(s: string)
    ensures Trim(Trim(s)) == Trim(s)
  {
    TrimIdentity(Trim(s));
  }

  lemma {:induction false} TrimStartOfBlank(s: string)
    requires AllWhitespace(s)
    ensures TrimStart(s) == ""
  {
    if |s| > 0 {
      assert AllWhitespace(s[1..]) by {
        forall k | 0 <= k < |s| - 1 ensures IsWhitespace(s[1..][k]) { assert s[1..][k] == s[k + 1]; }
      }
      TrimStartOfBlank(s[1..]);
    }
  }

  /** `TrimStart` removes a blank prefix up to a non-blank character. */
  lemma {:induction false} TrimStartAfterBlank(b: string, w: string)
    requires AllWhitespace(b) && (|w| == 0 || !IsWhitespace(w[0]))
    ensures TrimStart(b + w) == w
  {
    if |b| == 0 {
      assert b + w == w;
    } else {
      assert (b + w)[0] == b[0];
      assert (b + w)[1..] == b[1..] + w;
      assert AllWhitespace(b[1..]) by {
        forall k | 0 <= k < |b| - 1 ensures IsWhitespace(b[1..][k]) { assert b[1..][k] == b[k + 1]; }
      }
      TrimStartAfterBlank(b[1..], w);
    }
  }

  /** `TrimEnd` removes a blank suffix back to a non-blank character. */
  lemma {:induction false} TrimEndBeforeBlank(w: string, a: string)
    requires AllWhitespace(a) && (|w| == 0 || !IsWhitespace(w[|w| - 1]))
    ensures TrimEnd(w + a) == w
  {
    if |a| == 0 {
      assert w + a == w;
    } else {
      var s := w + a;
      assert s[|s| - 1] == a[|a| - 1];
      assert s[..|s| - 1] == w + a[..|a| - 1];
      var front := a[..|a| - 1];
      assert AllWhitespace(front) by {
        forall k | 0 <= k < |front| ensures IsWhitespace(front[k]) { assert front[k] == a[k]; }
      }
      TrimEndBeforeBlank(w, front);
    }
  }

  /** Trimming a trimmed string padded with white space on either side gives it back. */
  lemma TrimPadded(before: string, v: string, after: string)
    requires AllWhitespace(before) && AllWhitespace(after) && Trimmed(v)
    ensures Trim(before + v + after) == v
  {
    if |v| == 0 {
      assert before + v + after == before + after;
      assert AllWhitespace(before + after) by {
        forall k | 0 <= k < |before| + |after|
          ensures IsWhitespace((before + after)[k])
        {
          if k < |before| { assert (before + after)[k] == before[k]; }
          else { assert (before + after)[k] == after[k - |before|]; }
        }
      }
      TrimStartOfBlank(before + after);
    } else {
      assert before + v + after == before + (v + after);
      assert (v + after)[0] == v[0];
      TrimStartAfterBlank(before, v + after);
      TrimEndBeforeBlank(v, after);
    }
  }

  /** `!s.trim()` holds exactly for strings made only of white space. */
  lemma TrimEmptyIffBlank(s: string)
    ensures Trim(s) == "" <==> AllWhitespace(s)
  {
    var t := TrimStart(s);
    TrimStartDropsBlank(s);
    TrimEndDropsBlank(t);
    if Trim(s) == "" {
      assert t[|TrimEnd(t)|..] == t;
      assert |t| == 0;
      assert s[..|s| - |t|] == s;
    }
    if AllWhitespace(s) {
      TrimStartOfBlank(s);
    }
  }

  /** ASCII part of `toLowerCase`. */
  function LowerChar(c: char): (d: char)
    ensures 'A' <= c <= 'Z' ==> d as int == c as int + 32
    ensures !('A' <= c <= 'Z') ==> d == c
  {
    if 'A' <= c <= 'Z' then (c as int + 32) as char else c
  }

  function ToLower(s: string): (r: string)
    ensures |r| == |s|
    ensures forall i :: 0 <= i < |s| ==> r[i] == LowerChar(s[i])
  {
    seq(|s|, i requires 0 <= i < |s| => LowerChar(s[i]))
  }

  /** `hay.includes(needle)`: `needle` occurs as a contiguous infix of `hay`. */
  predicate Contains(hay: string, needle: string) {
    exists i :: 0 <= i <= |hay| - |needle| && OccursAt(hay, needle, i)
  }

  predicate OccursAt(hay: string, needle: string, i: int) {
    0 <= i <= |hay| - |needle| && hay[i..i + |needle|] == needle
  }

  function DigitChar(d: nat): (c: char)
    requires d < 10
    ensures '0' <= c <= '9'
  {
    ('0' as int + d) as char
  }

  /** Decimal rendering of a natural number, as `${n}` prints it. */
  function NatToString(n: nat): (r: string)
    ensures |r| >= 1
    ensures forall i :: 0 <= i < |r| ==> '0' <= r[i] <= '9'
    ensures n > 0 ==> r[0] != '0'
  {
    if n < 10 then [DigitChar(n)] else NatToString(n / 10) + [DigitChar(n % 10)]
  }

  /** The value of a string of decimal digits, most significant first. */
  function DigitsValue(s: string): nat
    requires forall i :: 0 <= i < |s| ==> '0' <= s[i] <= '9'
  {
    if s == [] then 0 else DigitsValue(s[..|s| - 1]) * 10 + (s[|s| - 1] as int - '0' as int)
  }

  /** Reading back a rendered number gives the number. */
  lemma {:induction false} NatToStringRoundTrip(n: nat)
    ensures DigitsValue(NatToString(n)) == n
  {
    if n >= 10 {
      var s := NatToString(n);
      assert s[..|s| - 1] == NatToString(n / 10);
      NatToStringRoundTrip(n / 10);
    }
  }

  /** Distinct numbers render as distinct strings. */
  lemma NatToStringInjective(m: nat, n: nat)
    requires NatToString(m) == NatToString(n)
    ensures m == n
  {
    NatToStringRoundTrip(m);
    NatToStringRoundTrip(n);
  }

  /** Equal strings with a common prefix have equal remainders. */
  lemma PrefixCancel(p: string, a: string, b: string)
    requires p + a == p + b
    ensures a == b
  {
    assert a == (p + a)[|p|..];
    assert b == (p + b)[|p|..];
  }
}
