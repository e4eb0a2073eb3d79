/** String helpers the workflow relies on: JavaScript's `String.prototype.trim`, and the
    decimal rendering of a millisecond timestamp used to name a blank case. */
module Text {

  /** The characters `trim` strips: ECMAScript WhiteSpace (tab, vertical tab, form feed,
      space, no-break space, zero-width no-break space and the Unicode space separators)
      and LineTerminator (line feed, carriage return, line and paragraph separators). */
  predicate IsWhitespace(c: char) {
    var u := c as int;
    || u == 0x09 || u == 0x0A || u == 0x0B || u == 0x0C || u == 0x0D || u == 0x20
    || u == 0xA0 || u == 0x1680 || (0x2000 <= u <= 0x200A) || u == 0x2028 || u == 0x2029
    || u == 0x202F || u == 0x205F || u == 0x3000 || u == 0xFEFF
  }

  /** Every character of `s` is whitespace (vacuously so for the empty string). */
  predicate Blank(s: string) {
    forall i :: 0 <= i < |s| ==> IsWhitespace(s[i])
  }

  /** `r` is `s` with a blank prefix and a blank suffix cut off, and neither end of `r`
      is whitespace: what `trim` is meant to return. */
  ghost predicate TrimmedFrom(r: string, s: string) {
    && (r == "" || (!IsWhitespace(r[0]) && !IsWhitespace(r[|r| - 1])))
    && exists lo, hi :: 0 <= lo <= hi <= |s| && r == s[lo..hi] && Blank(s[..lo]) && Blank(s[hi..])
  }

  /** The length of the longest blank prefix of `s`. */
  function LeadingBlank(s: string): (k: nat)
    ensures k <= |s|
    ensures forall i :: 0 <= i < k ==> IsWhitespace(s[i])
    ensures k < |s| ==> !IsWhitespace(s[k])
  {
    if |s| == 0 || !IsWhitespace(s[0]) then 0
    else
      var k := LeadingBlank(s[1..]);
      assert forall i :: 1 <= i < |s| ==> s[i] == s[1..][i - 1];
      1 + k
  }

  /** The length of the longest blank suffix of `s`. */
  function TrailingBlank(s: string): (k: nat)
    ensures k <= |s|
    ensures forall i :: |s| - k <= i < |s| ==> IsWhitespace(s[i])
    ensures k < |s| ==> !IsWhitespace(s[|s| - 1 - k])
  {
    if |s| == 0 || !IsWhitespace(s[|s| - 1]) then 0
    else 1 + TrailingBlank(s[..|s| - 1])
  }

  /** `String.prototype.trim`. */
  function Trim(s: string): (r: string)
    ensures |r| <= |s|
    ensures r == "" <==> Blank(s)
    ensures TrimmedFrom(r, s)
  {
    var lo := LeadingBlank(s);
    var hi := |s| - TrailingBlank(s[lo..]);
    assert s[lo..][..hi - lo] == s[lo..hi];
    assert Blank(s[..lo]);
    assert Blank(s[hi..]) by {
      assert forall i :: hi <= i < |s| ==> s[i] == s[lo..][i - lo];
    }
    s[lo..hi]
  }

  /** Two blank prefixes that both stop at a non-blank character have the same length. */
  lemma SameStart(s: string, a: nat, b: nat)
    requires a < |s| && b < |s|
    requires Blank(s[..a]) && Blank(s[..b])
    requires !IsWhitespace(s[a]) && !IsWhitespace(s[b])
    ensures a == b
  {
  }

  /** Two blank suffixes that both start after a non-blank character have the same length. */
  lemma SameEnd(s: string, a: nat, b: nat)
    requires 0 < a <= |s| && 0 < b <= |s|
    requires Blank(s[a..]) && Blank(s[b..])
    requires !IsWhitespace(s[a - 1]) && !IsWhitespace(s[b - 1])
    ensures a == b
  {
  }

  /** A blank prefix and a blank suffix that meet cover the whole string. */
  lemma BlankAround(s: string, lo: nat, hi: nat)
    requires lo == hi <= |s| && Blank(s[..lo]) && Blank(s[hi..])
    ensures Blank(s)
  {
    forall i | 0 <= i < |s| ensures IsWhitespace(s[i]) {
      if i < lo { assert s[i] == s[..lo][i]; } else { assert s[i] == s[hi..][i - hi]; }
    }
  }

  /** Two trimmings of the same string that are both non-empty coincide: both start at
      the first non-blank character and end after the last one. */
  lemma NonEmptyTrimsAgree(s: string, r: string, lo: nat, hi: nat, t: string, lo': nat, hi': nat)
    requires lo < hi <= |s| && r == s[lo..hi] && Blank(s[..lo]) && Blank(s[hi..])
    requires lo' < hi' <= |s| && t == s[lo'..hi'] && Blank(s[..lo']) && Blank(s[hi'..])
    requires !IsWhitespace(r[0]) && !IsWhitespace(r[|r| - 1])
    requires !IsWhitespace(t[0]) && !IsWhitespace(t[|t| - 1])
    ensures r == t
  {
    assert s[lo] == r[0] && s[hi - 1] == r[|r| - 1];
    assert s[lo'] == t[0] && s[hi' - 1] == t[|t| - 1];
    SameStart(s, lo, lo');
    SameEnd(s, hi, hi');
  }

  /** Trimming is characterised by TrimmedFrom: no other string satisfies it. */
  lemma TrimmedFromIsUnique(s: string, r: string)
    requires TrimmedFrom(r, s)
    ensures r == Trim(s)
  {
    var t := Trim(s);
    var lo, hi :| 0 <= lo <= hi <= |s| && r == s[lo..hi] && Blank(s[..lo]) && Blank(s[hi..]);
    if r == "" {
      BlankAround(s, lo, hi);
    } else {
      assert s[lo] == r[0];
      var lo', hi' :| 0 <= lo' <= hi' <= |s| && t == s[lo'..hi'] && Blank(s[..lo']) && Blank(s[hi'..]);
      NonEmptyTrimsAgree(s, r, lo, hi, t, lo', hi');
    }
  }

  /** Trimming an already trimmed string changes nothing. */
  lemma TrimIdempotent(s: string)
    ensures Trim(Trim(s)) == Trim(s)
  {
    var t := Trim(s);
    if t != "" {
      assert TrimmedFrom(t, t) by {
        assert t == t[0..|t|] && t[..0] == [] && t[|t|..] == [];
      }
      TrimmedFromIsUnique(t, t);
    }
  }

  /** The ASCII digit for `d`. */
  function DigitChar(d: nat): (c: char)
    requires d < 10
    ensures '0' <= c <= '9'
  {
    (('0' as int) + d) as char
  }

  predicate IsDigits(s: string) {
    forall i :: 0 <= i < |s| ==> '0' <= s[i] <= '9'
  }

  /** Number-to-string conversion for a non-negative integer: its decimal digits,
      most significant first, without leading zeros. */
  function DecimalString(n: nat): (r: string)
    ensures |r| >= 1 && IsDigits(r)
    ensures |r| > 1 ==> r[0] != '0'
  {
    if n < 10 then [DigitChar(n)]
    else DecimalString(n / 10) + [DigitChar(n % 10)]
  }

  /** The value of a string of decimal digits. */
  function DecimalValue(s: string): nat
    requires IsDigits(s)
  {
    if s == [] then 0
    else 10 * DecimalValue(s[..|s| - 1]) + ((s[|s| - 1] as int) - ('0' as int))
  }

  /** Reading the rendered digits back gives the number that was rendered. */
  lemma {:induction false} DecimalRoundTrip(n: nat)
    ensures DecimalValue(DecimalString(n)) == n
    decreases n
  {
    var r := DecimalString(n);
    if n >= 10 {
      assert r[..|r| - 1] == DecimalString(n / 10);
      DecimalRoundTrip(n / 10);
    }
  }

  /** Distinct timestamps render to distinct strings. */
  lemma DecimalStringInjective(m: nat, n: nat)
    requires DecimalString(m) == DecimalString(n)
    ensures m == n
  {
    DecimalRoundTrip(m);
    DecimalRoundTrip(n);
  }
}
