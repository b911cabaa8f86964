/** String helpers standing for the Foundation calls the core relies on:
    `trimmingCharacters(in: .whitespaces)`, `localizedCaseInsensitiveContains`,
    `replacingOccurrences(of: "\"", with: "\"\"")` and the decimal text of an identifier.
    Case folding and white space are ASCII only. */
module Text {

  /** Space and horizontal tab, the members of `.whitespaces` this model knows. */
  predicate IsBlank(c: char) {
    c == ' ' || c == '\t'
  }

  predicate AllBlank(s: string) {
    forall i :: 0 <= i < |s| ==> IsBlank(s[i])
  }

  /** The number of blanks at the start of `s`. */
  function LeadingBlanks(s: string): (n: nat)
    ensures n <= |s|
    ensures forall i :: 0 <= i < n ==> IsBlank(s[i])
    ensures n < |s| ==> !IsBlank(s[n])
  {
    if |s| > 0 && IsBlank(s[0]) then 1 + LeadingBlanks(s[1..]) else 0
  }

  /** The number of blanks at the end of `s`. */
  function TrailingBlanks(s: string): (n: nat)
    ensures n <= |s|
    ensures forall i :: |s| - n <= i < |s| ==> IsBlank(s[i])
    ensures n < |s| ==> !IsBlank(s[|s| - 1 - n])
  {
    if |s| > 0 && IsBlank(s[|s| - 1]) then 1 + TrailingBlanks(s[..|s| - 1]) else 0
  }

  /** `trimmingCharacters(in: .whitespaces)`. The result is the slice of `s` between its
      leading and trailing blanks: it neither starts nor ends with a blank, and it is
      empty exactly when `s` is all blank. */
  function Trim(s: string): (r: string)
    ensures LeadingBlanks(s) + |r| <= |s| && r == s[LeadingBlanks(s)..LeadingBlanks(s) + |r|]
    ensures |r| > 0 ==> !IsBlank(r[0]) && !IsBlank(r[|r| - 1])
    ensures |r| == 0 <==> AllBlank(s)
  {
    var i := LeadingBlanks(s);
    if i == |s| then ""
    else
      var j := TrailingBlanks(s);
      assert !IsBlank(s[i]);
      assert j < |s| - i;
      s[i..|s| - j]
  }

  /** Trimming a trimmed string changes nothing. */
  lemma TrimIdempotent(s: string)
    ensures Trim(Trim(s)) == Trim(s)
  {
    var t := Trim(s);
    if |t| > 0 {
      assert LeadingBlanks(t) == 0;
      assert TrailingBlanks(t) == 0;
    }
  }

  function LowerChar(c: char): char {
    if 'A' <= c <= 'Z' then (c as int + 32) as char else c
  }

  function Lower(s: string): (r: string)
    ensures |r| == |s|
    ensures forall i :: 0 <= i < |s| ==> r[i] == LowerChar(s[i])
  {
    seq(|s|, i requires 0 <= i < |s| => LowerChar(s[i]))
  }

  predicate IsPrefix(p: string, s: string) {
    |p| <= |s| && s[..|p|] == p
  }

  /** `n` occurs in `h` as a contiguous run. */
  predicate IsSubstring(n: string, h: string)
    decreases |h|
  {
    IsPrefix(n, h) || (|h| > 0 && IsSubstring(n, h[1..]))
  }

  lemma {:induction false} SubstringNoLonger(n: string, h: string)
    requires IsSubstring(n, h)
    ensures |n| <= |h|
    decreases |h|
  {
    if !IsPrefix(n, h) {
      SubstringNoLonger(n, h[1..]);
    }
  }

  /** `h.localizedCaseInsensitiveContains(n)`: an empty needle is never found. */
  predicate ContainsIgnoringCase(h: string, n: string) {
    |n| > 0 && IsSubstring(Lower(n), Lower(h))
  }

  /** A needle longer than the text is never found. */
  lemma LongerNeedleNotFound(h: string, n: string)
    requires |n| > |h|
    ensures !ContainsIgnoringCase(h, n)
  {
    if ContainsIgnoringCase(h, n) {
      SubstringNoLonger(Lower(n), Lower(h));
    }
  }

  /** Case does not matter on either side. */
  lemma {:induction false} ContainsIsCaseBlind(h: string, n: string)
    ensures ContainsIgnoringCase(h, n) == ContainsIgnoringCase(Lower(h), Lower(n))
  {
    LowerIdempotent(h);
    LowerIdempotent(n);
  }

  lemma LowerIdempotent(s: string)
    ensures Lower(Lower(s)) == Lower(s)
  {
  }

  function DigitChar(d: nat): char
    requires d < 10
  {
    ('0' as int + d) as char
  }

  /** The decimal text of an identifier (standing for a UUID or object URI string). */
  function Digits(n: nat): (r: string)
    ensures |r| > 0
    ensures forall i :: 0 <= i < |r| ==> '0' <= r[i] <= '9'
    ensures n >= 10 ==> |r| >= 2
  {
    if n < 10 then [DigitChar(n)] else Digits(n / 10) + [DigitChar(n % 10)]
  }

  /** Distinct identifiers have distinct texts. */
  lemma {:induction false} DigitsInjective(a: nat, b: nat)
    requires Digits(a) == Digits(b)
    ensures a == b
  {
    if a >= 10 && b >= 10 {
      var da, db := Digits(a / 10), Digits(b / 10);
      assert Digits(a)[..|da|] == da && Digits(b)[..|db|] == db;
      assert |da| == |db|;
      DigitsInjective(a / 10, b / 10);
      assert Digits(a)[|da|] == DigitChar(a % 10) && Digits(b)[|db|] == DigitChar(b % 10);
    }
  }

  /** `replacingOccurrences(of: "\"", with: "\"\"")`: every double quote doubled. */
  function EscapeQuotes(s: string): (r: string)
    ensures |r| >= |s|
  {
    if |s| == 0 then ""
    else (if s[0] == '"' then "\"\"" else [s[0]]) + EscapeQuotes(s[1..])
  }
}
