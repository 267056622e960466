/** The write authority: versioned appends of runtime-influencing memory, deduplicated by idempotency key. */
module MemoryAuthorities {
  import opened Outcomes
  import opened MemoryStores
  import Text

  datatype WriteClass = Telemetry | PromptAffecting | GateAffecting | RecoveryAffecting

  function ClassName(c: WriteClass): string {
    match c
    case Telemetry => "telemetry"
    case PromptAffecting => "prompt_affecting"
    case GateAffecting => "gate_affecting"
    case RecoveryAffecting => "recovery_affecting"
  }

  datatype Request = Request(place: Place, key: string, value: string, idempotency: Option<string>)

  /** The first scanned entry written under this idempotency key. */
  function FindWritten(rows: seq<Row>, place: Place, key: string, idempotency: string): Option<Row> {
    if rows == [] then None
    else
      var earlier := FindWritten(rows[..|rows| - 1], place, key, idempotency);
      var last := rows[|rows| - 1];
      if earlier.Some? then earlier
      else if last.place == place && key <= last.key && last.meta.idempotency == Some(idempotency) then Some(last)
        else None
  }

  lemma {:induction false} FindWrittenIff(rows: seq<Row>, place: Place, key: string, idempotency: string)
    ensures FindWritten(rows, place, key, idempotency).Some? <==>
            exists p :: 0 <= p < |rows| && rows[p].place == place && key <= rows[p].key
              && rows[p].meta.idempotency == Some(idempotency)
  {
    if rows != [] {
      var init := rows[..|rows| - 1];
      FindWrittenIff(init, place, key, idempotency);
      if FindWritten(init, place, key, idempotency).Some? {
        var p :| 0 <= p < |init| && init[p].place == place && key <= init[p].key
          && init[p].meta.idempotency == Some(idempotency);
        assert rows[p] == init[p];
      }
      if exists p ::
        0 <= p < |rows| && rows[p].place == place && key <= rows[p].key
          && rows[p].meta.idempotency == Some(idempotency) {
        var p :| 0 <= p < |rows| && rows[p].place == place && key <= rows[p].key
          && rows[p].meta.idempotency == Some(idempotency);
        if p < |init| { assert init[p] == rows[p]; }
      }
    }
  }

  /** The entry found is the earliest one. */
  lemma {:induction false} FoundIsFirst(rows: seq<Row>, place: Place, key: string, idempotency: string)
    returns (p: nat)
    requires FindWritten(rows, place, key, idempotency).Some?
    ensures p < |rows| && FindWritten(rows, place, key, idempotency) == Some(rows[p])
    ensures rows[p].place == place && key <= rows[p].key && rows[p].meta.idempotency == Some(idempotency)
    ensures forall q :: 0 <= q < p ==>
      !(rows[q].place == place && key <= rows[q].key && rows[q].meta.idempotency == Some(idempotency))
  {
    var init := rows[..|rows| - 1];
    if FindWritten(init, place, key, idempotency).Some? {
      p := FoundIsFirst(init, place, key, idempotency);
      assert forall q :: 0 <= q < |init| ==> rows[q] == init[q];
    } else {
      p := |init|;
      FindWrittenIff(init, place, key, idempotency);
      assert forall q :: 0 <= q < |init| ==> rows[q] == init[q];
    }
  }

  /** A write that finds its idempotency key is a replay. */
  predicate IsReplay(history: seq<Append>, r: Request) {
    r.idempotency.Some? && FindWritten(Rows(history), r.place, r.key, r.idempotency.value).Some?
  }

  function Written(history: seq<Append>, r: Request, meta: Meta): seq<Append> {
    if IsReplay(history, r) then history else history + [Append(r.place, r.key, r.value, meta)]
  }

  class MemoryWriteAuthority {
    const store: InMemoryMemoryStore
    var versions: map<(Place, string), nat>     // the next version of a key

    constructor (store: InMemoryMemoryStore)
      ensures this.store == store && versions == map[]
    {
      this.store := store;
      versions := map[];
    }

    function NextVersion(place: Place, key: string): nat
      reads this
    {
      if (place, key) in versions then versions[(place, key)] else 0
    }

    method FindByIdempotencyKey(place: Place, key: string, idempotency: string) returns (found: Option<Row>)
      ensures found == FindWritten(store.rows, place, key, idempotency)
    {
      var entries := store.Scan(place, key);
      FirstOfScan(store.rows, place, key, idempotency);
      found := None;
      for p := 0 to |entries|
        invariant found == None && FirstWith(entries[..p], idempotency) == None
      {
        assert entries[..p + 1][..p] == entries[..p];
        if entries[p].meta.idempotency == Some(idempotency) {
          FirstWithPrefix(entries, idempotency, p);
          return Some(entries[p]);
        }
      }
      assert entries[..|entries|] == entries;
    }

    /** Telemetry is refused; a replay returns the entry already there and stores nothing; anything else is appended
        with its class and version. */
    method Append(r: Request, writeClass: WriteClass) returns (row: Result<Row>)
      requires store.Valid()
      modifies this, store
      ensures store.Valid()
      ensures row.Err? <==> writeClass == Telemetry
      ensures row.Err? ==> row == Err(ValueError) && store.history == old(store.history)
      ensures var meta := Meta(ClassName(writeClass), old(NextVersion(r.place, r.key)), r.idempotency);
        row.Ok? ==> store.history == Written(old(store.history), r, meta)
      ensures row.Ok? && old(!IsReplay(store.history, r)) ==>
        row.value.place == r.place && row.value.value == r.value && row.value.meta.idempotency == r.idempotency
        && row.value.meta.version == old(if (r.place, r.key) in versions then versions[(r.place, r.key)] else 0)
        && row.value.meta.writeClass == (if writeClass == PromptAffecting then "prompt_affecting"
                                         else if writeClass == GateAffecting then "gate_affecting"
                                         else "recovery_affecting")
      ensures row.Ok? && old(IsReplay(store.history, r)) ==> store.rows == old(store.rows)
      ensures row.Ok? && old(IsReplay(store.history, r)) ==>
        Some(row.value) == FindWritten(old(store.rows), r.place, r.key, r.idempotency.value)
      ensures row.Ok? && old(!IsReplay(store.history, r)) ==>
        row.value == store.rows[|store.rows| - 1] && NextVersion(r.place, r.key) == old(NextVersion(r.place, r.key)) + 1
    {
      hide Rows, FindWritten, Composite;
      if writeClass == Telemetry { return Err(ValueError); }
      if r.idempotency.Some? {
        var existing := FindByIdempotencyKey(r.place, r.key, r.idempotency.value);
        if existing.Some? { return Ok(existing.value); }
      }
      var version := NextVersion(r.place, r.key);
      var entry := store.Append(MemoryStores.Append(r.place, r.key, r.value,
        Meta(ClassName(writeClass), version, r.idempotency)));
      versions := versions[(r.place, r.key) := version + 1];
      row := Ok(entry);
    }
  }

  function FirstWith(rows: seq<Row>, idempotency: string): Option<Row> {
    if rows == [] then None
    else
      var earlier := FirstWith(rows[..|rows| - 1], idempotency);
      if earlier.Some? then earlier
      else if rows[|rows| - 1].meta.idempotency == Some(idempotency) then Some(rows[|rows| - 1]) else None
  }

  lemma {:induction false} FirstOfScan(rows: seq<Row>, place: Place, key: string, idempotency: string)
    ensures FirstWith(Scanned(rows, place, key), idempotency) == FindWritten(rows, place, key, idempotency)
  {
    if rows != [] {
      FirstOfScan(rows[..|rows| - 1], place, key, idempotency);
      var earlier := Scanned(rows[..|rows| - 1], place, key);
      assert (earlier + [rows[|rows| - 1]])[..|earlier|] == earlier;
      assert earlier + [] == earlier;
    }
  }

  lemma {:induction false} FirstWithPrefix(rows: seq<Row>, idempotency: string, p: nat)
    requires p < |rows| && FirstWith(rows[..p], idempotency) == None && rows[p].meta.idempotency == Some(idempotency)
    ensures FirstWith(rows, idempotency) == Some(rows[p])
  {
    var init := rows[..|rows| - 1];
    if p < |init| {
      assert init[..p] == rows[..p];
      FirstWithPrefix(init, idempotency, p);
    } else {
      assert rows[..p] == init;
    }
  }

  // ---- replays -----------------------------------------------------------------------------------

  /** Two deliveries of one write. */
  predicate SameWrite(a: Request, b: Request) {
    a.place == b.place && a.key == b.key && a.idempotency == b.idempotency && a.idempotency.Some?
  }

  function WriteAll(history: seq<Append>, requests: seq<(Request, Meta)>): seq<Append> {
    if requests == [] then history
    else
      var (r, meta) := requests[|requests| - 1];
      Written(WriteAll(history, requests[..|requests| - 1]), r, meta)
  }

  /** What `Append` stamps on an entry carries the idempotency key of its request. */
  predicate Stamped(requests: seq<(Request, Meta)>) {
    forall k :: 0 <= k < |requests| ==> requests[k].1.idempotency == requests[k].0.idempotency
  }

  /** A write makes every later delivery of it a replay. */
  lemma WrittenIsReplay(history: seq<Append>, r: Request, meta: Meta, again: Request)
    requires meta.idempotency == r.idempotency && SameWrite(r, again)
    ensures IsReplay(Written(history, r, meta), again)
  {
  }

  lemma KeyExtendsBase(base: string, index: nat)
    ensures base <= Composite(base, index)
  {
  }

  lemma ReplayStays(history: seq<Append>, r: Request, meta: Meta, again: Request)
    requires IsReplay(history, again)
    ensures IsReplay(Written(history, r, meta), again)
  {
  }

  lemma {:induction false} AllWrittenAreReplays(history: seq<Append>, requests: seq<(Request, Meta)>, k: nat,
                                                again: Request)
    requires Stamped(requests) && k < |requests| && SameWrite(requests[k].0, again)
    ensures IsReplay(WriteAll(history, requests), again)
  {
    hide IsReplay, Written;
    var init := requests[..|requests| - 1];
    var (r, meta) := requests[|requests| - 1];
    if k == |init| {
      WrittenIsReplay(WriteAll(history, init), r, meta, again);
    } else {
      AllWrittenAreReplays(history, init, k, again);
      ReplayStays(WriteAll(history, init), r, meta, again);
    }
  }

  predicate AreReplaysOf(replays: seq<(Request, Meta)>, requests: seq<(Request, Meta)>) {
    forall j :: 0 <= j < |replays| ==> exists k :: 0 <= k < |requests| && SameWrite(requests[k].0, replays[j].0)
  }

  /** Delivering any of the writes again, in any order and any number of times, leaves the store as it is. */
  lemma {:induction false} ReplaysChangeNothing(history: seq<Append>, requests: seq<(Request, Meta)>,
                                                replays: seq<(Request, Meta)>)
    requires Stamped(requests) && AreReplaysOf(replays, requests)
    ensures WriteAll(WriteAll(history, requests), replays) == WriteAll(history, requests)
  {
    hide IsReplay;
    if replays != [] {
      var init := replays[..|replays| - 1];
      assert AreReplaysOf(init, requests) by {
        forall j | 0 <= j < |init| ensures exists k :: 0 <= k < |requests| && SameWrite(requests[k].0, init[j].0) {
          assert init[j] == replays[j];
        }
      }
      ReplaysChangeNothing(history, requests, init);
      var last := replays[|init|].0;
      var k :| 0 <= k < |requests| && SameWrite(requests[k].0, last);
      AllWrittenAreReplays(history, requests, k, last);
    }
  }

  // ---- where the deduplication reaches too far -------------------------------------------------------

  /** The write was recorded under its own base key. */
  ghost predicate OwnRecord(history: seq<Append>, r: Request) {
    exists p :: 0 <= p < |history| && SameLog(history[p], r.place, r.key)
      && history[p].meta.idempotency == r.idempotency
  }

  /** Append number `p` was recorded in the same place under another base key, in an entry whose key starts with the key
      of the request, and with its idempotency key. */
  predicate Shadows(history: seq<Append>, p: nat, r: Request) {
    && p < |history| && history[p].place == r.place && history[p].base != r.key
    && r.key <= Composite(history[p].base, Count(history[..p], r.place, history[p].base))
    && history[p].meta.idempotency == r.idempotency
  }

  /** The dedupe scan looks at every key that starts with the base key. So a write is dropped exactly if it was recorded
      under its own base key, or if an append under another one shadows it. */
  lemma DropsOnlyOwn(history: seq<Append>, r: Request)
    requires r.idempotency.Some?
    ensures IsReplay(history, r) <==> OwnRecord(history, r) || exists p: nat :: Shadows(history, p, r)
  {
    hide Rows, Composite, Count;
    FindWrittenIff(Rows(history), r.place, r.key, r.idempotency.value);
    forall p | 0 <= p < |history|
      ensures var row := Rows(history)[p];
        row.place == r.place && r.key <= row.key && row.meta.idempotency == r.idempotency
        <==>
        (SameLog(history[p], r.place, r.key) && history[p].meta.idempotency == r.idempotency) || Shadows(history, p, r)
    {
      RowAt(history, p);
      if SameLog(history[p], r.place, r.key) { KeyExtendsBase(r.key, Count(history[..p], r.place, r.key)); }
    }
  }

  /** `n + 1` appends under one base key, the last one with an idempotency key. */
  function Appends(place: Place, base: string, value: string, writeClass: string, n: nat,
                   idempotency: string): (r: seq<Append>)
    ensures |r| == n + 1 && forall p :: 0 <= p <= n ==>
      r[p] == Append(place, base, value, Meta(writeClass, p, if p == n then Some(idempotency) else None))
  {
    seq(n + 1, p requires 0 <= p <= n =>
      Append(place, base, value, Meta(writeClass, p, if p == n then Some(idempotency) else None)))
  }

  lemma {:induction false} AllCounted(history: seq<Append>, place: Place, base: string)
    requires forall p :: 0 <= p < |history| ==> SameLog(history[p], place, base)
    ensures Count(history, place, base) == |history|
  {
    if history != [] { AllCounted(history[..|history| - 1], place, base); }
  }

  /** Two different base keys get into each other's way whenever one of them starts an entry key of the other: a number
      of appends under `other` makes the first write under `key` look like a replay. */
  lemma FirstWriteDropped(place: Place, key: string, other: string, n: nat, writeClass: string, value: string,
                          idempotency: string)
    requires other != key && key <= Composite(other, n)
    ensures var history := Appends(place, other, value, writeClass, n, idempotency);
      var r := Request(place, key, value, Some(idempotency));
      IsReplay(history, r) && !OwnRecord(history, r)
  {
    var history := Appends(place, other, value, writeClass, n, idempotency);
    var r := Request(place, key, value, Some(idempotency));
    AllCounted(history[..n], place, other);
    assert Shadows(history, n, r);
    DropsOnlyOwn(history, r);
  }

  ghost predicate Uses(history: seq<Append>, place: Place, bases: set<string>) {
    forall p :: 0 <= p < |history| && history[p].place == place ==> history[p].base in bases
  }

  /** With these base keys in use, no write under `key` is dropped that was not recorded before. */
  ghost predicate FirstWritesSafe(place: Place, key: string, bases: set<string>) {
    forall history: seq<Append>, value: string, idempotency: string :: Uses(history, place, bases) ==>
      var r := Request(place, key, value, Some(idempotency));
      IsReplay(history, r) ==> OwnRecord(history, r)
  }

  /** Next to another base key, first writes under `key` are safe if and only if no entry key of the other starts with
      it. */
  lemma KeysApart(place: Place, key: string, other: string)
    requires other != key
    ensures FirstWritesSafe(place, key, {key, other}) <==> forall n: nat :: !(key <= Composite(other, n))
  {
    hide IsReplay, OwnRecord, Composite, Count;
    if forall n: nat :: !(key <= Composite(other, n)) {
      forall history: seq<Append>, value: string, idempotency: string | Uses(history, place, {key, other})
        ensures var r := Request(place, key, value, Some(idempotency)); IsReplay(history, r) ==> OwnRecord(history, r)
      {
        DropsOnlyOwn(history, Request(place, key, value, Some(idempotency)));
      }
    } else {
      var n: nat :| key <= Composite(other, n);
      FirstWriteDropped(place, key, other, n, "", "", "");
      assert Uses(Appends(place, other, "", "", n, ""), place, {key, other});
    }
  }
}
