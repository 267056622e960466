/** Tool names on the wire: cleaning, disambiguation, and the way back. */
module ToolNames {
  import opened Collections
  import opened Outcomes
  import Text

  // ---- cleaning one name ---------------------------------------------------------------

  predicate IsAllowed(c: char) {
    'a' <= c <= 'z' || 'A' <= c <= 'Z' || '0' <= c <= '9' || c == '_' || c == '-'
  }

  predicate AllAllowed(s: string) {
    forall k :: 0 <= k < |s| ==> IsAllowed(s[k])
  }

  function DropDisallowed(s: string): (r: string)
    ensures |r| <= |s|
  {
    if s == "" || IsAllowed(s[0]) then s else DropDisallowed(s[1..])
  }

  /** Every run of characters outside the alphabet becomes one underscore. */
  function Replaced(s: string): (r: string)
    ensures AllAllowed(r)
    decreases |s|
  {
    if s == "" then ""
    else if IsAllowed(s[0]) then [s[0]] + Replaced(s[1..])
    else "_" + Replaced(DropDisallowed(s[1..]))
  }

  predicate IsUnderscore(c: char) { c == '_' }

  const FALLBACK := "tool"
  const DIGIT_PREFIX := "tool_"

  /** `provider_tool_name`. */
  function ProviderName(name: string): string {
    var stripped := Text.Trim(Replaced(name), IsUnderscore);
    var cleaned := if stripped == "" then FALLBACK else stripped;
    var prefixed := if Text.IsDigit(cleaned[0]) then DIGIT_PREFIX + cleaned else cleaned;
    if AllAllowed(prefixed) then prefixed else FALLBACK
  }

  /** A name every provider accepts. */
  predicate IsProviderName(s: string) {
    s != "" && AllAllowed(s) && !Text.IsDigit(s[0])
  }

  lemma TrimAllowed(s: string)
    requires AllAllowed(s)
    ensures AllAllowed(Text.Trim(s, IsUnderscore))
  {
  }

  lemma PrefixAccepted(cleaned: string)
    requires cleaned != "" && AllAllowed(cleaned) && cleaned[0] != '_' && cleaned[|cleaned| - 1] != '_'
    ensures var prefixed := if Text.IsDigit(cleaned[0]) then DIGIT_PREFIX + cleaned else cleaned;
      IsProviderName(prefixed) && prefixed[0] != '_' && prefixed[|prefixed| - 1] != '_'
  {
  }

  /** Whatever a tool is called, the cleaned name is acceptable and carries no underscore at either end. */
  lemma ProviderNameAccepted(name: string)
    ensures IsProviderName(ProviderName(name))
    ensures ProviderName(name)[0] != '_' && ProviderName(name)[|ProviderName(name)| - 1] != '_'
  {
    hide Replaced;
    TrimAllowed(Replaced(name));
    Text.TrimEnds(Replaced(name), IsUnderscore);
    hide Text.Trim, IsAllowed;
    var stripped := Text.Trim(Replaced(name), IsUnderscore);
    assert AllAllowed(FALLBACK) by { FallbackAllowed(); }
    PrefixAccepted(if stripped == "" then FALLBACK else stripped);
  }

  lemma FallbackAllowed()
    ensures AllAllowed(FALLBACK)
  {
  }

  lemma {:induction false} ReplacedFixed(s: string)
    requires AllAllowed(s)
    ensures Replaced(s) == s
  {
    if s != "" {
      ReplacedFixed(s[1..]);
    }
  }

  /** A name that needs no cleaning is sent as it is; so cleaning twice is cleaning once. */
  lemma CleanNameKept(s: string)
    requires IsProviderName(s) && s[0] != '_' && s[|s| - 1] != '_'
    ensures ProviderName(s) == s
  {
    ReplacedFixed(s);
    Text.TrimFixed(s, IsUnderscore);
  }

  lemma CleaningIdempotent(name: string)
    ensures ProviderName(ProviderName(name)) == ProviderName(name)
  {
    ProviderNameAccepted(name);
    CleanNameKept(ProviderName(name));
  }

  // ---- what cleaning does -----------------------------------------------------------------

  predicate NoneAllowed(s: string) { forall k :: 0 <= k < |s| ==> !IsAllowed(s[k]) }

  predicate AllUnderscores(s: string) { forall k :: 0 <= k < |s| ==> s[k] == '_' }

  lemma {:induction false} DropsJunk(junk: string, rest: string)
    requires NoneAllowed(junk) && (rest == "" || IsAllowed(rest[0]))
    ensures DropDisallowed(junk + rest) == rest
  {
    hide IsAllowed;
    if junk == "" {
      assert junk + rest == rest;
    } else {
      assert (junk + rest)[1..] == junk[1..] + rest && (junk + rest)[0] == junk[0];
      DropsJunk(junk[1..], rest);
    }
  }

  /** Allowed characters stay, and a run of others, however long, becomes one underscore. */
  lemma {:induction false} ReplacedExactly(kept: string, junk: string, rest: string)
    requires AllAllowed(kept) && junk != "" && NoneAllowed(junk) && (rest == "" || IsAllowed(rest[0]))
    ensures Replaced(kept + junk + rest) == kept + "_" + Replaced(rest)
    ensures Replaced(kept) == kept
  {
    hide IsAllowed;
    ReplacedFixed(kept);
    var s := kept + junk + rest;
    if kept == "" {
      assert s == junk + rest && s[1..] == junk[1..] + rest && s[0] == junk[0];
      DropsJunk(junk[1..], rest);
    } else {
      assert s[1..] == kept[1..] + junk + rest && s[0] == kept[0];
      ReplacedExactly(kept[1..], junk, rest);
      assert [kept[0]] + (kept[1..] + "_" + Replaced(rest)) == kept + "_" + Replaced(rest);
    }
  }

  /** What is sent is the text so replaced, without the underscores around it; a leading digit is prefixed, and a text
      of which nothing is left is called a tool. */
  lemma {:induction false} CleanedExactly(name: string, left: string, core: string, right: string)
    requires Replaced(name) == left + core + right && AllUnderscores(left) && AllUnderscores(right)
    requires core == "" || (core[0] != '_' && core[|core| - 1] != '_')
    ensures ProviderName(name)
         == if core == "" then "tool" else if '0' <= core[0] <= '9' then "tool_" + core else core
  {
    hide Replaced, Text.Trim, IsAllowed;
    Text.SurroundingJunkIgnored(left, core, right, IsUnderscore);
    Text.TrimFixed(core, IsUnderscore);
    forall k | 0 <= k < |core| ensures IsAllowed(core[k]) { assert Replaced(name)[|left| + k] == core[k]; }
    FallbackAllowed();
    PrefixAccepted(if core == "" then FALLBACK else core);
  }

  // ---- disambiguation ---------------------------------------------------------------------

  function Suffixed(candidate: string, suffix: nat): string {
    candidate + "_" + Text.Decimal(suffix)
  }

  lemma SuffixedInjective(candidate: string, i: nat, j: nat)
    requires Suffixed(candidate, i) == Suffixed(candidate, j)
    ensures i == j
  {
    hide Text.Decimal;
    assert Suffixed(candidate, i)[|candidate| + 1..] == Text.Decimal(i);
    assert Suffixed(candidate, j)[|candidate| + 1..] == Text.Decimal(j);
    Text.DecimalInjective(i, j);
  }

  lemma SuffixedAccepted(candidate: string, suffix: nat)
    requires IsProviderName(candidate)
    ensures IsProviderName(Suffixed(candidate, suffix)) && Suffixed(candidate, suffix) != candidate
  {
  }

  /** The names tried before `suffix`. */
  ghost function Tried(candidate: string, suffix: nat): set<string> {
    {candidate} + set j: nat | 2 <= j < suffix :: Suffixed(candidate, j)
  }

  lemma TriedNone(candidate: string)
    ensures Tried(candidate, 2) == {candidate}
  {
  }

  lemma TriedGrows(candidate: string, suffix: nat)
    requires IsProviderName(candidate) && suffix >= 2
    ensures Tried(candidate, suffix + 1) == Tried(candidate, suffix) + {Suffixed(candidate, suffix)}
    ensures Suffixed(candidate, suffix) !in Tried(candidate, suffix)
  {
    SuffixedAccepted(candidate, suffix);
    hide Suffixed, IsProviderName;
    forall j: nat | Suffixed(candidate, j) == Suffixed(candidate, suffix) ensures j == suffix {
      SuffixedInjective(candidate, j, suffix);
    }
  }

  /** They are all different, so a finite set of used names cannot cover them for long. */
  lemma {:induction false} TriedCount(candidate: string, suffix: nat)
    requires IsProviderName(candidate) && suffix >= 2
    ensures |Tried(candidate, suffix)| == suffix - 1
  {
    hide Tried, Suffixed, IsProviderName;
    if suffix == 2 {
      TriedNone(candidate);
    } else {
      TriedCount(candidate, suffix - 1);
      TriedGrows(candidate, suffix - 1);
    }
  }

  /** The candidate itself, or the first suffixed form that is free. */
  ghost predicate FirstFree(candidate: string, used: set<string>, unique: string) {
    && unique !in used
    && (unique == candidate || exists suffix: nat ::
      suffix >= 2 && unique == Suffixed(candidate, suffix) && Tried(candidate, suffix) <= used)
  }

  method FreeName(candidate: string, used: set<string>) returns (unique: string)
    requires IsProviderName(candidate)
    ensures FirstFree(candidate, used, unique) && IsProviderName(unique)
  {
    hide Tried, Suffixed, IsProviderName;
    unique := candidate;
    var suffix := 2;
    while unique in used
      invariant suffix >= 2 && IsProviderName(unique)
      invariant if suffix == 2 then unique == candidate else unique == Suffixed(candidate, suffix - 1)
      invariant suffix > 2 ==> Tried(candidate, suffix - 1) <= used
      decreases |used| + 3 - suffix
    {
      assert Tried(candidate, suffix) <= used by {
        if suffix == 2 { TriedNone(candidate); } else { TriedGrows(candidate, suffix - 1); }
      }
      TriedCount(candidate, suffix);
      SubsetSize(Tried(candidate, suffix), used);
      SuffixedAccepted(candidate, suffix);
      unique := Suffixed(candidate, suffix);
      suffix := suffix + 1;
    }
    if suffix > 2 {
      assert unique == Suffixed(candidate, suffix - 1) && suffix - 1 >= 2;
    }
  }

  ghost predicate Injective(names: map<string, string>) {
    forall m, n :: m in names && n in names && names[m] == names[n] ==> m == n
  }

  /** What is sent for every tool in turn: its cleaned name, or the first suffixed form of it that no tool before uses.
      */
  ghost predicate SentFor(tools: seq<string>, sent: seq<string>) {
    |sent| == |tools| && forall k :: 0 <= k < |tools| ==>
      FirstFree(ProviderName(tools[k]), Elements(sent[..k]), sent[k])
  }

  /** Place `k` is the last at which the name stands. */
  predicate LastPlace(tools: seq<string>, name: string, k: nat) {
    k < |tools| && tools[k] == name && forall j :: k < j < |tools| ==> tools[j] != name
  }

  /** Of a name listed more than once the last entry counts. */
  ghost predicate LastOf(tools: seq<string>, sent: seq<string>, names: map<string, string>)
    requires |sent| == |tools|
  {
    && (forall n :: n in names <==> n in tools)
    && forall n, k: nat :: n in names && LastPlace(tools, n, k) ==> names[n] == sent[k]
  }

  lemma SentOneMore(tools: seq<string>, sent: seq<string>, name: string, unique: string, names: map<string, string>)
    requires SentFor(tools, sent) && LastOf(tools, sent, names)
    requires FirstFree(ProviderName(name), Elements(sent), unique)
    ensures SentFor(tools + [name], sent + [unique])
    ensures LastOf(tools + [name], sent + [unique], names[name := unique])
  {
    hide FirstFree, ProviderName;
    assert forall j :: 0 <= j <= |sent| ==> (sent + [unique])[..j] == sent[..j];
    assert sent[..|sent|] == sent;
    forall n, k: nat | n in names[name := unique] && LastPlace(tools + [name], n, k)
      ensures names[name := unique][n] == (sent + [unique])[k]
    {
      if k < |tools| {
        assert (tools + [name])[|tools|] == name && forall j :: 0 <= j < |tools| ==> (tools + [name])[j] == tools[j];
        assert LastPlace(tools, n, k);
      }
    }
  }

  lemma SentUnique(tools: seq<string>, sent: seq<string>)
    requires SentFor(tools, sent)
    ensures Distinct(sent)
  {
    hide ProviderName, Suffixed, Tried;
    forall i, j | 0 <= i < j < |sent| ensures sent[i] != sent[j] { assert sent[i] == sent[..j][i]; }
  }

  lemma {:induction false} LastPlaceExists(tools: seq<string>, name: string) returns (k: nat)
    requires name in tools
    ensures LastPlace(tools, name, k)
  {
    var init := tools[..|tools| - 1];
    if tools[|init|] == name {
      k := |init|;
    } else {
      assert name in init;
      k := LastPlaceExists(init, name);
      assert forall j :: k < j < |init| ==> tools[j] == init[j];
    }
  }

  lemma NamesDiffer(tools: seq<string>, sent: seq<string>, names: map<string, string>)
    requires SentFor(tools, sent) && LastOf(tools, sent, names)
    ensures Injective(names)
  {
    SentUnique(tools, sent);
    hide SentFor, LastPlace, LastOf, Distinct;
    forall m, n | m in names && n in names && names[m] == names[n] ensures m == n {
      var i := NameSent(tools, sent, names, m);
      var j := NameSent(tools, sent, names, n);
      SamePlace(sent, i, j);
    }
  }

  lemma NameSent(tools: seq<string>, sent: seq<string>, names: map<string, string>, name: string) returns (k: nat)
    requires |sent| == |tools| && LastOf(tools, sent, names) && name in names
    ensures k < |tools| && tools[k] == name && names[name] == sent[k]
  {
    k := LastPlaceExists(tools, name);
    PlaceOf(tools, name, k);
  }

  lemma SamePlace(s: seq<string>, i: nat, j: nat)
    requires Distinct(s) && i < |s| && j < |s| && s[i] == s[j]
    ensures i == j
  {
  }

  lemma PlaceOf(tools: seq<string>, name: string, k: nat)
    requires LastPlace(tools, name, k)
    ensures k < |tools| && tools[k] == name
  {
  }

  lemma NamesAccepted(tools: seq<string>, sent: seq<string>, names: map<string, string>)
    requires SentFor(tools, sent) && LastOf(tools, sent, names)
    ensures forall n :: n in names ==> IsProviderName(names[n])
  {
    hide FirstFree, LastPlace, IsProviderName;
    forall n | n in names ensures IsProviderName(names[n]) {
      var k := NameSent(tools, sent, names, n);
      SentAccepted(tools[k], Elements(sent[..k]), sent[k]);
    }
  }

  lemma SentAccepted(name: string, used: set<string>, unique: string)
    requires FirstFree(ProviderName(name), used, unique)
    ensures IsProviderName(unique)
  {
    ProviderNameAccepted(name);
    hide ProviderName, Suffixed, Tried;
    if unique != ProviderName(name) {
      var suffix: nat :| suffix >= 2 && unique == Suffixed(ProviderName(name), suffix)
        && Tried(ProviderName(name), suffix) <= used;
      SuffixedAccepted(ProviderName(name), suffix);
    }
  }

  /** `provider_tool_name_map`: ends on every list of tools, and gives each tool name an accepted name of its own. */
  method ProviderToolNameMap(tools: seq<string>) returns (names: map<string, string>, ghost sent: seq<string>)
    ensures forall n :: n in names <==> n in tools
    ensures Injective(names) && forall n :: n in names ==> IsProviderName(names[n])
    ensures SentFor(tools, sent) && LastOf(tools, sent, names)
  {
    hide ProviderName, FirstFree, SentFor, LastOf;
    var used: set<string> := {};
    names, sent := map[], [];
    NothingSent();
    for k := 0 to |tools|
      invariant |sent| == k && used == Elements(sent)
      invariant SentFor(tools[..k], sent) && LastOf(tools[..k], sent, names)
    {
      ProviderNameAccepted(tools[k]);
      var unique := FreeName(ProviderName(tools[k]), used);
      SentOneMore(tools[..k], sent, tools[k], unique, names);
      assert tools[..k + 1] == tools[..k] + [tools[k]];
      assert Elements(sent + [unique]) == used + {unique};
      used := used + {unique};
      sent := sent + [unique];
      names := names[tools[k] := unique];
    }
    assert tools[..|tools|] == tools;
    NamesDiffer(tools, sent, names);
    NamesAccepted(tools, sent, names);
    LastOfKeys(tools, sent, names);
  }

  lemma NothingSent()
    ensures SentFor([], []) && LastOf([], [], map[])
  {
  }

  lemma LastOfKeys(tools: seq<string>, sent: seq<string>, names: map<string, string>)
    requires |sent| == |tools| && LastOf(tools, sent, names)
    ensures forall n :: n in names <==> n in tools
  {
  }

  // ---- the way back ----------------------------------------------------------------------------

  /** `reverse_tool_name_map`. */
  function Reversed(names: map<string, string>): map<string, string>
    requires Injective(names)
  {
    map n | n in names :: names[n] := n
  }

  /** The name a call is sent under, declared or not. */
  function OnWire(names: map<string, string>, name: string): string {
    if name in names then names[name] else ProviderName(name)
  }

  /** The name a received call stands for. */
  function FromWire(reversed: map<string, string>, name: string): string {
    if name in reversed then reversed[name] else name
  }

  /** Every declared tool call comes back under its own name. */
  lemma DeclaredRoundTrip(names: map<string, string>, name: string)
    requires Injective(names) && name in names
    ensures FromWire(Reversed(names), OnWire(names, name)) == name
  {
  }

  /** A call of a tool that is not declared comes back under its own name exactly when the name needs no cleaning and no
      declared tool is sent under it; otherwise it comes back as something else, perhaps as a declared tool. */
  lemma UndeclaredRoundTrip(names: map<string, string>, name: string)
    requires Injective(names) && name !in names
    ensures FromWire(Reversed(names), OnWire(names, name)) == name
        <==> ProviderName(name) == name && forall n :: n in names ==> names[n] != name
  {
  }
}
