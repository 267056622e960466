/** The few string operations the modelled code relies on. */
module Text {
  import opened Outcomes

  /** The characters that `str.isspace` and the regular expression class `\s` accept. */
  predicate IsSpace(c: char) {
    || c == ' ' || '\t' <= c <= '\r' || '\U{1C}' <= c <= '\U{1F}' || c == '\U{85}' || c == '\U{A0}'
    || c == '\U{1680}' || '\U{2000}' <= c <= '\U{200A}' || c == '\U{2028}' || c == '\U{2029}'
    || c == '\U{202F}' || c == '\U{205F}' || c == '\U{3000}'
  }

  /** Drops the longest prefix of characters satisfying `junk`. */
  function DropLeading(s: string, junk: char -> bool): (r: string)
    ensures r == "" || !junk(r[0])
    ensures |r| <= |s| && r == s[|s| - |r|..]
  {
    if s != "" && junk(s[0]) then DropLeading(s[1..], junk) else s
  }

  /** Drops the longest suffix of characters satisfying `junk`. */
  function DropTrailing(s: string, junk: char -> bool): (r: string)
    ensures r == "" || !junk(r[|r| - 1])
    ensures r <= s && forall k :: |r| <= k < |s| ==> junk(s[k])
  {
    if s != "" && junk(s[|s| - 1]) then DropTrailing(s[..|s| - 1], junk) else s
  }

  function Trim(s: string, junk: char -> bool): string {
    DropTrailing(DropLeading(s, junk), junk)
  }

  /** `str.strip()`. */
  function Strip(s: string): string { Trim(s, IsSpace) }

  predicate AllJunk(s: string, junk: char -> bool) {
    forall k :: 0 <= k < |s| ==> junk(s[k])
  }

  lemma {:induction false} DroppedIsJunk(s: string, junk: char -> bool)
    ensures AllJunk(s[..|s| - |DropLeading(s, junk)|], junk)
  {
    if s != "" && junk(s[0]) { DroppedIsJunk(s[1..], junk); }
  }

  /** What is left after trimming starts and ends with something worth keeping. */
  lemma TrimEnds(s: string, junk: char -> bool)
    ensures var t := Trim(s, junk); t == "" || (!junk(t[0]) && !junk(t[|t| - 1]))
  {
  }

  /** A text whose ends are not junk is left alone. */
  lemma TrimFixed(s: string, junk: char -> bool)
    requires s == "" || (!junk(s[0]) && !junk(s[|s| - 1]))
    ensures Trim(s, junk) == s
  {
  }

  /** Trimming twice is trimming once. */
  lemma TrimIdempotent(s: string, junk: char -> bool)
    ensures Trim(Trim(s, junk), junk) == Trim(s, junk)
  {
  }

  lemma StripEmpty()
    ensures Strip("") == ""
  {
  }

  lemma StripIdempotent(s: string)
    ensures Strip(Strip(s)) == Strip(s)
  {
  }

  /** Junk in front of a text does not change what is left after dropping leading junk. */
  lemma {:induction false} LeadingJunkIgnored(p: string, s: string, junk: char -> bool)
    requires AllJunk(p, junk)
    ensures DropLeading(p + s, junk) == DropLeading(s, junk)
  {
    if p == "" {
      assert p + s == s;
    } else {
      assert (p + s)[1..] == p[1..] + s;
      LeadingJunkIgnored(p[1..], s, junk);
    }
  }

  /** Junk behind a text does not change what is left after dropping trailing junk. */
  lemma {:induction false} TrailingJunkIgnored(s: string, q: string, junk: char -> bool)
    requires AllJunk(q, junk)
    ensures DropTrailing(s + q, junk) == DropTrailing(s, junk)
  {
    if q == "" {
      assert s + q == s;
    } else {
      assert (s + q)[..|s + q| - 1] == s + q[..|q| - 1];
      TrailingJunkIgnored(s, q[..|q| - 1], junk);
    }
  }

  /** Dropping leading junk passes over a suffix as long as the text itself is not all junk. */
  lemma {:induction false} DropLeadingAppend(s: string, q: string, junk: char -> bool)
    ensures DropLeading(s + q, junk) == if DropLeading(s, junk) == "" then DropLeading(q, junk)
      else DropLeading(s, junk) + q
  {
    if s == "" {
      assert s + q == q;
    } else if junk(s[0]) {
      assert (s + q)[1..] == s[1..] + q;
      DropLeadingAppend(s[1..], q, junk);
    }
  }

  lemma {:induction false} DropLeadingAllJunk(s: string, junk: char -> bool)
    ensures AllJunk(s, junk) <==> DropLeading(s, junk) == ""
  {
    if s != "" && junk(s[0]) {
      DropLeadingAllJunk(s[1..], junk);
      assert forall k :: 1 <= k < |s| ==> s[k] == s[1..][k - 1];
    }
  }

  /** Trimming ignores any junk put around a text. */
  lemma SurroundingJunkIgnored(p: string, s: string, q: string, junk: char -> bool)
    requires AllJunk(p, junk) && AllJunk(q, junk)
    ensures Trim(p + s + q, junk) == Trim(s, junk)
  {
    assert p + s + q == p + (s + q);
    LeadingJunkIgnored(p, s + q, junk);
    DropLeadingAppend(s, q, junk);
    DropLeadingAllJunk(q, junk);
    TrailingJunkIgnored(DropLeading(s, junk), q, junk);
    if DropLeading(s, junk) != "" {
      assert Trim(p + s + q, junk) == DropTrailing(DropLeading(s, junk) + q, junk);
    }
  }

  /** Stripping takes exactly the white space off both ends. */
  lemma StripExactly(left: string, core: string, right: string)
    requires AllJunk(left, IsSpace) && AllJunk(right, IsSpace)
    requires core == "" || (!IsSpace(core[0]) && !IsSpace(core[|core| - 1]))
    ensures Strip(left + core + right) == core
  {
    hide IsSpace;
    SurroundingJunkIgnored(left, core, right, IsSpace);
    TrimFixed(core, IsSpace);
  }

  lemma SpacesAre(c: char)
    ensures c in {' ', '\t', '\r', '\n'} ==> IsSpace(c)
    ensures 'a' <= c <= 'z' || 'A' <= c <= 'Z' || '0' <= c <= '9' || c in {'-', '_', '.', ':'} ==> !IsSpace(c)
  {
  }

  // ---- decimal numerals -------------------------------------------------------

  predicate IsDigit(c: char) { '0' <= c <= '9' }

  predicate AllDigits(s: string) { forall k :: 0 <= k < |s| ==> IsDigit(s[k]) }

  function Digit(n: nat): (c: char)
    requires n < 10
    ensures IsDigit(c)
  {
    '0' + n as char
  }

  /** `str(n)` for a natural number. */
  function Decimal(n: nat): (s: string)
    ensures s != "" && AllDigits(s)
  {
    if n < 10 then [Digit(n)] else Decimal(n / 10) + [Digit(n % 10)]
  }

  /** `int(s)` for a text of decimal digits. */
  function Numeral(s: string): nat
    requires AllDigits(s)
  {
    if s == "" then 0 else 10 * Numeral(s[..|s| - 1]) + (s[|s| - 1] as int - '0' as int)
  }

  /** Reading a numeral back gives the number that was written. */
  lemma {:induction false} NumeralOfDecimal(n: nat)
    ensures Numeral(Decimal(n)) == n
  {
    if n < 10 {
      assert [Digit(n)][..0] == "";
    } else {
      var s := Decimal(n);
      assert s[..|s| - 1] == Decimal(n / 10);
      NumeralOfDecimal(n / 10);
    }
  }

  /** Distinct numbers are written differently. */
  lemma {:induction false} DecimalInjective(m: nat, n: nat)
    requires Decimal(m) == Decimal(n)
    ensures m == n
  {
    NumeralOfDecimal(m);
    NumeralOfDecimal(n);
  }
}
