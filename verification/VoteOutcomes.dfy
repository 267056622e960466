/** Canonical votes and the typed vote outcome. */
module VoteOutcomes {
  import opened Outcomes
  import opened Teams
  import Text

  // ---- canonical votes --------------------------------------------------------

  /** The characters stripped from both ends of a vote: white space and sentence punctuation. */
  predicate IsTrimmed(c: char) {
    Text.IsSpace(c) || c in {'.', '!', '?', ',', ';', ':', '"', '\'', '`'}
  }

  /** `str.lower()` on ASCII letters. */
  function LowerChar(c: char): char {
    if 'A' <= c <= 'Z' then c - 'A' + 'a' else c
  }

  function Lower(s: string): (r: string)
    ensures |r| == |s| && forall k :: 0 <= k < |s| ==> r[k] == LowerChar(s[k])
  {
    if s == "" then "" else [LowerChar(s[0])] + Lower(s[1..])
  }

  /** Replaces every run of white space by one blank: only the last character of a run is written, as a blank. */
  function Collapse(s: string): string {
    if s == "" then ""
    else if Text.IsSpace(s[0]) && |s| > 1 && Text.IsSpace(s[1]) then Collapse(s[1..])
    else [if Text.IsSpace(s[0]) then ' ' else s[0]] + Collapse(s[1..])
  }

  /** `canonicalize_vote`, over a lower-casing. */
  function Canonical(raw: string, lower: string -> string): string {
    Text.DropTrailing(Text.DropLeading(Collapse(lower(Text.Strip(raw))), IsTrimmed), IsTrimmed)
  }

  function CanonicalVote(raw: string): string {
    Canonical(raw, s => Lower(s))
  }

  predicate AllLow(s: string, low: char -> bool) { forall k :: 0 <= k < |s| ==> low(s[k]) }

  predicate IsPadded(s: string, p: string, core: string, q: string) {
    s == p + core + q && Text.AllJunk(p, IsTrimmed) && Text.AllJunk(q, IsTrimmed)
  }

  /** What is asked of a lower-casing. A letter may become several, and what becomes of it may depend on its neighbours;
      but it writes lower-case characters only and leaves a text of those alone, and it neither touches the trimmed
      characters around a text nor makes one at its ends. */
  ghost predicate LowerCases(lower: string -> string, low: char -> bool) {
    && low(' ')
    && (forall s :: AllLow(lower(s), low))
    && (forall s :: AllLow(s, low) ==> lower(s) == s)
    && (forall s, p, core, q :: IsPadded(s, p, core, q) ==> lower(s) == p + lower(core) + q)
    && (forall s :: Text.Trim(s, IsTrimmed) == s ==> Text.Trim(lower(s), IsTrimmed) == lower(s))
  }

  lemma {:induction false} PaddedLower(s: string, p: string, core: string, q: string)
    requires IsPadded(s, p, core, q)
    ensures Lower(s) == p + Lower(core) + q
  {
    hide Lower, IsTrimmed;
    forall k | 0 <= k < |p| ensures LowerChar(p[k]) == p[k] { JunkIsLow(p[k]); }
    forall k | 0 <= k < |q| ensures LowerChar(q[k]) == q[k] { JunkIsLow(q[k]); }
    assert |Lower(s)| == |p + Lower(core) + q|;
  }

  lemma JunkIsLow(c: char)
    requires IsTrimmed(c)
    ensures LowerChar(c) == c
  {
  }

  lemma {:induction false} TrimmedLower(s: string)
    requires Text.Trim(s, IsTrimmed) == s
    ensures Text.Trim(Lower(s), IsTrimmed) == Lower(s)
  {
    Text.TrimEnds(s, IsTrimmed);
    if s != "" {
      ClassFacts(s[0]);
      ClassFacts(s[|s| - 1]);
    }
    hide Lower, IsTrimmed, Text.Trim;
    Text.TrimFixed(Lower(s), IsTrimmed);
  }

  /** That of ASCII letters is one. */
  lemma AsciiLowerCases()
    ensures LowerCases(s => Lower(s), c => LowerChar(c) == c)
  {
    hide Lower, IsTrimmed, Text.Trim, IsPadded;
    var lower, low := (s: string) => Lower(s), (c: char) => LowerChar(c) == c;
    forall s, p, core, q | IsPadded(s, p, core, q) ensures lower(s) == p + lower(core) + q {
      PaddedLower(s, p, core, q);
    }
    forall s | Text.Trim(s, IsTrimmed) == s ensures Text.Trim(lower(s), IsTrimmed) == lower(s) { TrimmedLower(s); }
  }

  /** The facts about the two character classes that the proofs below need. */
  lemma ClassFacts(c: char)
    ensures Text.IsSpace(' ') && (Text.IsSpace(c) ==> IsTrimmed(c))
    ensures Text.IsSpace(LowerChar(c)) == Text.IsSpace(c) && IsTrimmed(LowerChar(c)) == IsTrimmed(c)
    ensures LowerChar(' ') == ' ' && LowerChar(LowerChar(c)) == LowerChar(c)
  {
  }

  lemma {:induction false} CollapseOfJunk(s: string)
    requires Text.AllJunk(s, IsTrimmed)
    ensures Text.AllJunk(Collapse(s), IsTrimmed)
  {
    hide Text.IsSpace, IsTrimmed;
    if s != "" {
      ClassFacts(s[0]);
      ClassFacts(' ');
      CollapseOfJunk(s[1..]);
    }
  }

  /** Collapsing starts with the first character, or with a blank in place of white space. */
  lemma {:induction false} CollapseHead(s: string)
    requires s != ""
    ensures Collapse(s) != "" && Collapse(s)[0] == if Text.IsSpace(s[0]) then ' ' else s[0]
  {
    hide Text.IsSpace, IsTrimmed;
    if Text.IsSpace(s[0]) && |s| > 1 && Text.IsSpace(s[1]) {
      CollapseHead(s[1..]);
    }
  }

  lemma {:induction false} CollapseCommutesWithLeading(s: string)
    ensures Text.DropLeading(Collapse(s), IsTrimmed) == Collapse(Text.DropLeading(s, IsTrimmed))
  {
    hide Text.IsSpace, IsTrimmed;
    if s != "" {
      ClassFacts(s[0]);
      ClassFacts(' ');
      CollapseHead(s);
      if IsTrimmed(s[0]) {
        CollapseCommutesWithLeading(s[1..]);
        if !(Text.IsSpace(s[0]) && |s| > 1 && Text.IsSpace(s[1])) {
          assert Collapse(s)[1..] == Collapse(s[1..]);
        }
      }
    }
  }

  /** A text that does not end in white space collapses independently of what follows it. */
  lemma {:induction false} CollapseAppend(s: string, q: string)
    requires s == "" || !Text.IsSpace(s[|s| - 1])
    ensures Collapse(s + q) == Collapse(s) + Collapse(q)
  {
    hide Text.IsSpace, IsTrimmed;
    if s == "" {
      assert s + q == q;
    } else {
      assert (s + q)[1..] == s[1..] + q;
      CollapseAppend(s[1..], q);
    }
  }

  /** Collapsing keeps the last character of a text that does not end in white space. */
  lemma {:induction false} CollapseKeepsLast(s: string)
    requires s != "" && !Text.IsSpace(s[|s| - 1])
    ensures Collapse(s) != "" && Collapse(s)[|Collapse(s)| - 1] == s[|s| - 1]
  {
    hide Text.IsSpace, IsTrimmed;
    if |s| > 1 {
      CollapseKeepsLast(s[1..]);
    }
  }

  lemma {:induction false} CollapseCommutesWithTrailing(s: string)
    ensures Text.DropTrailing(Collapse(s), IsTrimmed) == Collapse(Text.DropTrailing(s, IsTrimmed))
  {
    hide Text.IsSpace, IsTrimmed;
    var kept := Text.DropTrailing(s, IsTrimmed);
    var junk := s[|kept|..];
    assert s == kept + junk;
    if kept != "" {
      ClassFacts(kept[|kept| - 1]);
    }
    CollapseAppend(kept, junk);
    CollapseOfJunk(junk);
    Text.TrailingJunkIgnored(Collapse(kept), Collapse(junk), IsTrimmed);
    if kept != "" {
      CollapseKeepsLast(kept);
    }
  }

  /** Dropping leading white space first makes no difference to dropping leading trimmed characters. */
  lemma {:induction false} SpacesAreTrimmed(s: string)
    ensures Text.DropLeading(Text.DropLeading(s, Text.IsSpace), IsTrimmed) == Text.DropLeading(s, IsTrimmed)
  {
    hide Text.IsSpace, IsTrimmed;
    if s != "" && Text.IsSpace(s[0]) {
      ClassFacts(s[0]);
      SpacesAreTrimmed(s[1..]);
    }
  }

  lemma {:induction false} TrailingSpacesAreTrimmed(s: string)
    ensures Text.Trim(Text.DropTrailing(s, Text.IsSpace), IsTrimmed) == Text.Trim(s, IsTrimmed)
  {
    hide Text.IsSpace, IsTrimmed, Text.Trim;
    if s != "" && Text.IsSpace(s[|s| - 1]) {
      var init, last := s[..|s| - 1], [s[|s| - 1]];
      ClassFacts(last[0]);
      TrailingSpacesAreTrimmed(init);
      assert "" + init + last == s;
      Text.SurroundingJunkIgnored("", init, last, IsTrimmed);
    }
  }

  /** Stripping white space first makes no difference to trimming. */
  lemma StripThenTrim(s: string)
    ensures Text.Trim(Text.Strip(s), IsTrimmed) == Text.Trim(s, IsTrimmed)
  {
    hide Text.IsSpace, IsTrimmed, Text.DropLeading, Text.DropTrailing;
    SpacesAreTrimmed(s);
    TrailingSpacesAreTrimmed(Text.DropLeading(s, Text.IsSpace));
  }

  lemma TrimSplits(s: string) returns (p: string, q: string)
    ensures IsPadded(s, p, Text.Trim(s, IsTrimmed), q)
  {
    hide IsTrimmed, Text.DropLeading, Text.DropTrailing;
    var behind := Text.DropLeading(s, IsTrimmed);
    Text.DroppedIsJunk(s, IsTrimmed);
    p := s[..|s| - |behind|];
    q := behind[|Text.DropTrailing(behind, IsTrimmed)|..];
  }

  lemma LowerCommutesWithTrim(s: string, lower: string -> string, low: char -> bool)
    requires LowerCases(lower, low)
    ensures Text.Trim(lower(s), IsTrimmed) == lower(Text.Trim(s, IsTrimmed))
  {
    hide Text.Trim, IsTrimmed;
    var p, q := TrimSplits(s);
    var core := Text.Trim(s, IsTrimmed);
    Text.TrimIdempotent(s, IsTrimmed);
    Text.SurroundingJunkIgnored(p, lower(core), q, IsTrimmed);
  }

  /** What canonicalisation means: the text without its surrounding white space and punctuation, in lower case,
      with every inner run of white space written as one blank. */
  lemma CanonicalMeaning(raw: string, lower: string -> string, low: char -> bool)
    requires LowerCases(lower, low)
    ensures Canonical(raw, lower) == Collapse(lower(Text.Trim(raw, IsTrimmed)))
  {
    var t := Text.Strip(raw);
    CollapseCommutesWithLeading(lower(t));
    CollapseCommutesWithTrailing(Text.DropLeading(lower(t), IsTrimmed));
    LowerCommutesWithTrim(t, lower, low);
    StripThenTrim(raw);
  }

  /** Equivalent wording: white space and punctuation around a vote never change it. */
  lemma SurroundingsIgnored(p: string, s: string, q: string, lower: string -> string, low: char -> bool)
    requires LowerCases(lower, low) && Text.AllJunk(p, IsTrimmed) && Text.AllJunk(q, IsTrimmed)
    ensures Canonical(p + s + q, lower) == Canonical(s, lower)
  {
    CanonicalMeaning(p + s + q, lower, low);
    CanonicalMeaning(s, lower, low);
    Text.SurroundingJunkIgnored(p, s, q, IsTrimmed);
  }

  /** Letter case never changes a vote. */
  lemma CaseIgnored(s: string, lower: string -> string, low: char -> bool)
    requires LowerCases(lower, low)
    ensures Canonical(lower(s), lower) == Canonical(s, lower)
  {
    CanonicalMeaning(s, lower, low);
    CanonicalMeaning(lower(s), lower, low);
    LowerCommutesWithTrim(s, lower, low);
    hide Text.Trim, Canonical, IsTrimmed;
  }

  lemma {:induction false} CollapseIdempotent(s: string)
    ensures Collapse(Collapse(s)) == Collapse(s)
  {
    hide Text.IsSpace, IsTrimmed;
    ClassFacts(' ');
    if s != "" {
      CollapseIdempotent(s[1..]);
      if !(Text.IsSpace(s[0]) && |s| > 1 && Text.IsSpace(s[1])) {
        assert Collapse(s)[1..] == Collapse(s[1..]);
        if |s| > 1 { CollapseHead(s[1..]); }
      }
    }
  }

  lemma {:induction false} CollapseKeepsLow(s: string, low: char -> bool)
    requires AllLow(s, low) && low(' ')
    ensures AllLow(Collapse(s), low)
  {
    hide Text.IsSpace;
    if s != "" { CollapseKeepsLow(s[1..], low); }
  }

  /** Canonicalising a canonical vote changes nothing. */
  lemma CanonicalIdempotent(raw: string, lower: string -> string, low: char -> bool)
    requires LowerCases(lower, low)
    ensures Canonical(Canonical(raw, lower), lower) == Canonical(raw, lower)
  {
    var v := Canonical(raw, lower);
    var core := Text.Trim(raw, IsTrimmed);
    CanonicalMeaning(raw, lower, low);
    CanonicalMeaning(v, lower, low);
    Text.TrimIdempotent(Collapse(lower(Text.Strip(raw))), IsTrimmed);
    assert Text.Trim(v, IsTrimmed) == v;
    hide Text.Trim, Canonical, IsTrimmed, Text.Strip, Collapse;
    CollapseKeepsLow(lower(core), low);
    CollapseIdempotent(lower(core));
  }

  /** Collapsing writes every run of white space, however long, as one blank and leaves the rest. */
  lemma {:induction false} CollapseExactly(kept: string, spaces: string, rest: string)
    requires forall k :: 0 <= k < |kept| ==> !Text.IsSpace(kept[k])
    requires spaces != "" && Text.AllJunk(spaces, Text.IsSpace) && (rest == "" || !Text.IsSpace(rest[0]))
    ensures Collapse(kept) == kept && Collapse(kept + spaces + rest) == kept + " " + Collapse(rest)
  {
    hide Text.IsSpace, IsTrimmed;
    var s := kept + spaces + rest;
    if kept != "" {
      assert s[1..] == kept[1..] + spaces + rest && s[0] == kept[0];
      CollapseExactly(kept[1..], spaces, rest);
      assert [kept[0]] + (kept[1..] + " " + Collapse(rest)) == kept + " " + Collapse(rest);
    } else if |spaces| > 1 {
      assert s[1..] == "" + spaces[1..] + rest && s[0] == spaces[0] && s[1] == spaces[1];
      CollapseExactly("", spaces[1..], rest);
    } else {
      assert s[1..] == rest && s[0] == spaces[0];
    }
  }

  predicate IsLetter(c: char) { 'a' <= c <= 'z' || 'A' <= c <= 'Z' }

  predicate IsSurrounding(c: char) {
    c in {' ', '\t', '\r', '\n', '.', '!', '?', ',', ';', ':', '"', '\'', '`'}
  }

  lemma LettersStay(c: char)
    ensures IsSurrounding(c) ==> IsTrimmed(c)
    ensures IsLetter(c) ==> !IsTrimmed(c) && 'a' <= LowerChar(c) <= 'z'
    ensures IsLetter(c) ==> LowerChar(c) == if 'A' <= c <= 'Z' then c - 'A' + 'a' else c
  {
  }

  /** Of a vote as the tally takes it: surrounded by white space and any of the listed punctuation, in capitals or not,
      it is the one word in small letters. */
  lemma {:induction false} OneWordVote(left: string, word: string, right: string)
    requires forall k :: 0 <= k < |left| ==> IsSurrounding(left[k])
    requires forall k :: 0 <= k < |right| ==> IsSurrounding(right[k])
    requires forall k :: 0 <= k < |word| ==> IsLetter(word[k])
    ensures var vote := CanonicalVote(left + word + right);
      && |vote| == |word|
      && forall k :: 0 <= k < |word| ==>
           vote[k] == if 'A' <= word[k] <= 'Z' then word[k] - 'A' + 'a' else word[k]
  {
    forall c { LettersStay(c); }
    hide IsTrimmed, LowerChar, IsLetter, IsSurrounding, Text.Trim, Canonical, LowerCases;
    AsciiLowerCases();
    CanonicalMeaning(left + word + right, s => Lower(s), c => LowerChar(c) == c);
    Text.SurroundingJunkIgnored(left, word, right, IsTrimmed);
    Text.TrimFixed(word, IsTrimmed);
    NoSpaceCollapse(Lower(word));
  }

  lemma {:induction false} NoSpaceCollapse(s: string)
    requires forall k :: 0 <= k < |s| ==> 'a' <= s[k] <= 'z'
    ensures Collapse(s) == s
  {
    if s != "" { NoSpaceCollapse(s[1..]); }
  }
}
