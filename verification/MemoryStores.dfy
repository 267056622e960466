/** The two append-only memory stores, and the write authority in front of them. */
module MemoryStores {
  import opened Outcomes
  import Text

  /** A memory scope together with the id of what it belongs to. */
  datatype Place = Place(scope: string, scopeId: string)

  datatype Meta = Meta(writeClass: string, version: nat, idempotency: Option<string>)

  datatype Row = Row(place: Place, key: string, value: string, meta: Meta)

  // ---- keys of appended entries ------------------------------------------------------------

  function Composite(base: string, index: nat): string { base + "." + Text.Decimal(index) }

  /** The regular expression `^base\.(\d+)$`. */
  predicate Matches(key: string, base: string) {
    |key| > |base| + 1 && key[..|base|] == base && key[|base|] == '.' && Text.AllDigits(key[|base| + 1..])
  }

  function IndexOf(key: string, base: string): nat
    requires Matches(key, base)
  {
    Text.Numeral(key[|base| + 1..])
  }

  lemma CompositeMatches(base: string, index: nat)
    ensures Matches(Composite(base, index), base) && IndexOf(Composite(base, index), base) == index
  {
    hide Text.Decimal, Text.Numeral;
    var key := Composite(base, index);
    assert key[|base| + 1..] == Text.Decimal(index) && key[..|base|] == base;
    Text.NumeralOfDecimal(index);
  }

  /** What stands behind the last dot is the index, so an appended key belongs to one base key only. */
  lemma CompositeBase(base: string, index: nat, other: string)
    ensures Matches(Composite(base, index), other) <==> other == base
  {
    hide Text.Decimal;
    var key := Composite(base, index);
    CompositeMatches(base, index);
    assert key[|base|] == '.' && forall k :: |base| < k < |key| ==> Text.IsDigit(key[k]);
    if Matches(key, other) {
      assert forall k :: |other| < k < |key| ==> key[k] == key[|other| + 1..][k - |other| - 1];
      assert |other| == |base|;
      assert key[..|base|] == base;
    }
  }

  lemma CompositeInjective(base: string, index: nat, other: string, index': nat)
    requires Composite(base, index) == Composite(other, index')
    ensures base == other && index == index'
  {
    hide Text.Decimal, Text.Numeral;
    CompositeBase(base, index, other);
    CompositeMatches(other, index');
    CompositeMatches(base, index);
  }

  // ---- the intended log -----------------------------------------------------------------------

  datatype Append = Append(place: Place, base: string, value: string, meta: Meta)

  predicate SameLog(a: Append, place: Place, base: string) { a.place == place && a.base == base }

  /** How often something was appended under this base key. */
  function Count(history: seq<Append>, place: Place, base: string): nat {
    if history == [] then 0
    else Count(history[..|history| - 1], place, base) + if SameLog(history[|history| - 1], place, base) then 1 else 0
  }

  /** Append number `n` under a base key is filed as `base.n`. */
  function Rows(history: seq<Append>): (r: seq<Row>)
    ensures |r| == |history|
  {
    if history == [] then []
    else
      var a := history[|history| - 1];
      var earlier := history[..|history| - 1];
      Rows(earlier) + [Row(a.place, Composite(a.base, Count(earlier, a.place, a.base)), a.value, a.meta)]
  }

  lemma {:induction false} RowAt(history: seq<Append>, p: nat)
    requires p < |history|
    ensures var a := history[p];
      Rows(history)[p] == Row(a.place, Composite(a.base, Count(history[..p], a.place, a.base)), a.value, a.meta)
  {
    hide Composite;
    if p == |history| - 1 {
      assert history[..p] == history[..|history| - 1];
    } else {
      var init := history[..|history| - 1];
      RowAt(init, p);
      assert init[..p] == history[..p];
    }
  }

  lemma {:induction false} CountGrows(history: seq<Append>, place: Place, base: string, p: nat)
    requires p < |history| && SameLog(history[p], place, base)
    ensures Count(history[..p], place, base) < Count(history, place, base)
  {
    var init := history[..|history| - 1];
    if p == |history| - 1 {
      assert history[..p] == init;
    } else {
      CountGrows(init, place, base, p);
      assert init[..p] == history[..p];
    }
  }

  /** The last append under a base key that has any. */
  lemma {:induction false} LastAppend(history: seq<Append>, place: Place, base: string) returns (p: nat)
    requires Count(history, place, base) > 0
    ensures p < |history| && SameLog(history[p], place, base)
    ensures Count(history[..p], place, base) == Count(history, place, base) - 1
  {
    var init := history[..|history| - 1];
    if SameLog(history[|history| - 1], place, base) {
      p := |init|;
      assert history[..p] == init;
    } else {
      p := LastAppend(init, place, base);
      assert init[..p] == history[..p];
    }
  }

  // ---- the next index ----------------------------------------------------------------------------

  ghost predicate RowsBound(rows: seq<Row>, place: Place, base: string, n: nat) {
    forall p :: 0 <= p < |rows| && rows[p].place == place && Matches(rows[p].key, base) ==>
      IndexOf(rows[p].key, base) < n
  }

  ghost predicate RowsReach(rows: seq<Row>, place: Place, base: string, n: nat) {
    n > 0 ==> exists p ::
      0 <= p < |rows| && rows[p].place == place && Matches(rows[p].key, base) && IndexOf(rows[p].key, base) == n - 1
  }

  /** One more than the greatest index on record, or 0. */
  ghost predicate IsNextIndex(rows: seq<Row>, place: Place, base: string, n: nat) {
    RowsBound(rows, place, base, n) && RowsReach(rows, place, base, n)
  }

  lemma NextIndexUnique(rows: seq<Row>, place: Place, base: string, m: nat, n: nat)
    requires IsNextIndex(rows, place, base, m) && IsNextIndex(rows, place, base, n)
    ensures m == n
  {
  }

  /** After any appends, the next index found by looking at the keys is the number of appends so far. */
  lemma {:induction false} NextIndexIsCount(history: seq<Append>, place: Place, base: string)
    ensures IsNextIndex(Rows(history), place, base, Count(history, place, base))
  {
    hide Composite, Matches, IndexOf, Rows;
    forall p | 0 <= p < |history| && Rows(history)[p].place == place && Matches(Rows(history)[p].key, base)
      ensures IndexOf(Rows(history)[p].key, base) < Count(history, place, base)
    {
      RowAt(history, p);
      var a := history[p];
      CompositeBase(a.base, Count(history[..p], a.place, a.base), base);
      CompositeMatches(base, Count(history[..p], place, base));
      CountGrows(history, place, base, p);
    }
    if Count(history, place, base) > 0 {
      var p := LastAppend(history, place, base);
      RowAt(history, p);
      CompositeMatches(base, Count(history, place, base) - 1);
      assert Rows(history)[p].place == place;
    }
  }

  /** The key of the next append is not taken. */
  lemma {:induction false} NextKeyFree(history: seq<Append>, place: Place, base: string)
    ensures forall p :: 0 <= p < |history| && Rows(history)[p].place == place ==>
      Rows(history)[p].key != Composite(base, Count(history, place, base))
  {
    hide Composite, Matches, Rows;
    forall p | 0 <= p < |history| && Rows(history)[p].place == place
      ensures Rows(history)[p].key != Composite(base, Count(history, place, base))
    {
      RowAt(history, p);
      var a := history[p];
      if Rows(history)[p].key == Composite(base, Count(history, place, base)) {
        CompositeInjective(a.base, Count(history[..p], a.place, a.base), base, Count(history, place, base));
        CountGrows(history, place, base, p);
      }
    }
  }

  predicate HasKey(rows: seq<Row>, place: Place, key: string) {
    exists p :: 0 <= p < |rows| && rows[p].place == place && rows[p].key == key
  }

  lemma {:induction false} AppendRow(history: seq<Append>, a: Append)
    ensures Rows(history + [a]) == Rows(history) + [Row(a.place, Composite(a.base, Count(history, a.place, a.base)),
      a.value, a.meta)]
    ensures forall place, base ::
      Count(history + [a], place, base) == Count(history, place, base) + if SameLog(a, place, base) then 1 else 0
    ensures !HasKey(Rows(history), a.place, Composite(a.base, Count(history, a.place, a.base)))
  {
    assert (history + [a])[..|history|] == history;
    NextKeyFree(history, a.place, a.base);
  }

  /** The row takes the place of one under the same key. */
  ghost predicate Overwritten(before: seq<Row>, after: seq<Row>, row: Row) {
    exists p :: 0 <= p < |before| && before[p].place == row.place && before[p].key == row.key
      && after == before[p := row]
  }

  /** Once entries have been deleted the two stores go on handing out the same key exactly as long as the latest entry
      under the base key is still there: the counter remembers deleted entries, the greatest index does not. */
  lemma {:induction false} AgreeAfterDeletes(history: seq<Append>, kept: seq<Row>, place: Place, base: string)
    requires forall r :: r in kept ==> r in Rows(history)
    ensures var n := Count(history, place, base);
      IsNextIndex(kept, place, base, n) <==> n == 0 || HasKey(kept, place, Composite(base, n - 1))
  {
    hide Composite, Matches, IndexOf, Rows, Count;
    var n := Count(history, place, base);
    NextIndexIsCount(history, place, base);
    forall p | 0 <= p < |kept| ensures exists q :: 0 <= q < |history| && Rows(history)[q] == kept[p] {
      assert kept[p] in Rows(history);
    }
    assert RowsBound(kept, place, base, n);
    if n > 0 {
      CompositeMatches(base, n - 1);
      forall p | 0 <= p < |kept| && kept[p].place == place && Matches(kept[p].key, base)
        && IndexOf(kept[p].key, base) == n - 1
        ensures kept[p].key == Composite(base, n - 1)
      {
        var q :| 0 <= q < |history| && Rows(history)[q] == kept[p];
        RowAt(history, q);
        var a := history[q];
        CompositeBase(a.base, Count(history[..q], a.place, a.base), base);
        CompositeMatches(base, Count(history[..q], place, base));
      }
    }
  }

  // ---- the stores ------------------------------------------------------------------------------------

  /** Dictionary-backed: an append counter per base key; `put` overwrites. */
  class InMemoryMemoryStore {
    var rows: seq<Row>
    var counters: map<(Place, string), nat>
    ghost var history: seq<Append>

    ghost predicate Valid()
      reads this
    {
      rows == Rows(history) && forall place, base :: Counter(place, base) == Count(history, place, base)
    }

    function Counter(place: Place, base: string): nat
      reads this
    {
      if (place, base) in counters then counters[(place, base)] else 0
    }

    constructor ()
      ensures Valid() && history == []
    {
      rows, counters, history := [], map[], [];
    }

    method Put(row: Row)
      modifies this`rows
      ensures !HasKey(old(rows), row.place, row.key) ==> rows == old(rows) + [row]
      ensures HasKey(old(rows), row.place, row.key) ==> Overwritten(old(rows), rows, row)
    {
      for p := 0 to |rows|
        invariant rows == old(rows) && forall q :: 0 <= q < p ==> rows[q].place != row.place || rows[q].key != row.key
      {
        if rows[p].place == row.place && rows[p].key == row.key {
          rows := rows[p := row];
          return;
        }
      }
      rows := rows + [row];
    }

    /** Hands out `base.n` for the n-th append under a base key, and overwrites nothing. */
    method Append(a: Append) returns (row: Row)
      requires Valid()
      modifies this
      ensures Valid() && history == old(history) + [a]
      ensures row == Row(a.place, Composite(a.base, Count(old(history), a.place, a.base)), a.value, a.meta)
      ensures rows == old(rows) + [row]
    {
      hide Composite, Rows;
      AppendRow(history, a);
      var index := Counter(a.place, a.base);
      counters := counters[(a.place, a.base) := index + 1];
      row := Row(a.place, Composite(a.base, index), a.value, a.meta);
      Put(row);
      history := history + [a];
    }

    /** Rows of a place whose key starts with the prefix, oldest first. */
    method Scan(place: Place, prefix: string) returns (found: seq<Row>)
      ensures found == Scanned(rows, place, prefix)
    {
      found := [];
      for p := 0 to |rows|
        invariant found == Scanned(rows[..p], place, prefix)
      {
        assert rows[..p + 1][..p] == rows[..p];
        if rows[p].place == place && prefix <= rows[p].key {
          found := found + [rows[p]];
        }
      }
      assert rows[..|rows|] == rows;
    }
  }

  function Scanned(rows: seq<Row>, place: Place, prefix: string): seq<Row> {
    if rows == [] then []
    else
      var last := rows[|rows| - 1];
      Scanned(rows[..|rows| - 1], place, prefix) + if last.place == place && prefix <= last.key then [last] else []
  }

  /** `_next_append_index`: one more than the greatest index found. */
  method NextAppendIndex(keys: seq<string>, base: string) returns (n: nat)
    ensures forall p :: 0 <= p < |keys| && Matches(keys[p], base) ==> IndexOf(keys[p], base) < n
    ensures n > 0 ==> exists p :: 0 <= p < |keys| && Matches(keys[p], base) && IndexOf(keys[p], base) == n - 1
  {
    hide Matches, IndexOf;
    n := 0;
    for p := 0 to |keys|
      invariant forall q :: 0 <= q < p && Matches(keys[q], base) ==> IndexOf(keys[q], base) < n
      invariant n > 0 ==> exists q :: 0 <= q < p && Matches(keys[q], base) && IndexOf(keys[q], base) == n - 1
    {
      if Matches(keys[p], base) && IndexOf(keys[p], base) >= n {
        n := IndexOf(keys[p], base) + 1;
      }
    }
  }

  /** Table-backed: the next index is read off the stored keys; inserting a taken key is an error. */
  class SqliteMemoryStore {
    var rows: seq<Row>
    ghost var history: seq<Append>

    ghost predicate Valid()
      reads this
    {
      rows == Rows(history)
    }

    constructor ()
      ensures Valid() && history == []
    {
      rows, history := [], [];
    }

    /** The keys of one place; the `like` filter of the query lets every key through that can match. */
    method KeysOf(place: Place) returns (keys: seq<string>)
      ensures forall n, base :: KeysBound(keys, base, n) <==> RowsBound(rows, place, base, n)
      ensures forall n, base :: KeysReach(keys, base, n) <==> RowsReach(rows, place, base, n)
    {
      hide Matches, IndexOf;
      keys := [];
      for p := 0 to |rows|
        invariant forall k :: k in keys <==> exists q :: 0 <= q < p && rows[q].place == place && rows[q].key == k
      {
        if rows[p].place == place { keys := keys + [rows[p].key]; }
      }
      KeysAreRows(rows, place, keys);
    }

    /** Hands out the same keys as the counting store, and the insert never meets a taken key. */
    method Append(a: Append) returns (row: Row)
      requires Valid()
      modifies this
      ensures Valid() && history == old(history) + [a]
      ensures row == Row(a.place, Composite(a.base, Count(old(history), a.place, a.base)), a.value, a.meta)
      ensures rows == old(rows) + [row]
    {
      hide Composite, Rows, Matches, IndexOf, Count;
      AppendRow(history, a);
      NextIndexIsCount(history, a.place, a.base);
      var keys := KeysOf(a.place);
      var index := NextAppendIndex(keys, a.base);
      assert KeysBound(keys, a.base, index) && KeysReach(keys, a.base, index);
      NextIndexUnique(rows, a.place, a.base, index, Count(history, a.place, a.base));
      row := Row(a.place, Composite(a.base, index), a.value, a.meta);
      assert !HasKey(rows, a.place, row.key);
      rows := rows + [row];
      history := history + [a];
    }
  }

  ghost predicate KeysBound(keys: seq<string>, base: string, n: nat) {
    forall p :: 0 <= p < |keys| && Matches(keys[p], base) ==> IndexOf(keys[p], base) < n
  }

  ghost predicate KeysReach(keys: seq<string>, base: string, n: nat) {
    n > 0 ==> exists p :: 0 <= p < |keys| && Matches(keys[p], base) && IndexOf(keys[p], base) == n - 1
  }

  lemma KeysAreRows(rows: seq<Row>, place: Place, keys: seq<string>)
    requires forall k :: k in keys <==> exists q :: 0 <= q < |rows| && rows[q].place == place && rows[q].key == k
    ensures forall n, base :: KeysBound(keys, base, n) <==> RowsBound(rows, place, base, n)
    ensures forall n, base :: KeysReach(keys, base, n) <==> RowsReach(rows, place, base, n)
  {
    hide Matches, IndexOf;
    forall n: nat, base ensures KeysBound(keys, base, n) <==> RowsBound(rows, place, base, n)
      ensures KeysReach(keys, base, n) <==> RowsReach(rows, place, base, n)
    {
      forall q | 0 <= q < |rows| && rows[q].place == place ensures rows[q].key in keys {}
      forall p | 0 <= p < |keys|
        ensures exists q :: 0 <= q < |rows| && rows[q].place == place && rows[q].key == keys[p]
      {
        assert keys[p] in keys;
      }
      if RowsReach(rows, place, base, n) && n > 0 {
        var q :| 0 <= q < |rows| && rows[q].place == place && Matches(rows[q].key, base)
          && IndexOf(rows[q].key, base) == n - 1;
        assert rows[q].key in keys;
        var p :| 0 <= p < |keys| && keys[p] == rows[q].key;
      }
    }
  }
}
