/** The versioned session store, the effects a worker has on a session, and their interleavings. */
module SessionStores {
  import opened Outcomes
  import opened InteractionKeys
  import Text

  /** What the shared counters and ledgers of a session hold; `rest` is everything else about it. */
  datatype Content = Content(repairsUsed: nat, processedKeys: set<string>, log: seq<LogEvent>, rest: string)

  function NewContent(rest: string): Content { Content(0, {}, [], rest) }

  /** A change one service call makes to the session it fetched. */
  datatype Effect =
    | Reserve(limit: int)
    | Claim(key: string)
    | Record(event: LogEvent)
    | Other(change: string -> string)

  /** The changed content, or nothing if the call finds that there is nothing to do and stores nothing. */
  function Perform(c: Content, e: Effect): Option<Content> {
    match e
    case Reserve(limit) => if limit <= 0 || c.repairsUsed >= limit then None
      else Some(c.(repairsUsed := c.repairsUsed + 1))
    case Claim(key) => if key == "" || key in c.processedKeys then None
      else Some(c.(processedKeys := c.processedKeys + {key}))
    case Record(event) =>
      if Key(event) in c.processedKeys then None
      else Some(c.(log := c.log + [event], processedKeys := c.processedKeys + {Key(event)}))
    case Other(change) => Some(c.(rest := change(c.rest)))
  }

  datatype Stored = Stored(version: nat, content: Content)

  /** `_assert_expected_version`. */
  predicate VersionMatches(version: nat, stored: Option<Stored>) {
    if stored.None? then version == 0 else stored.value.version == version
  }

  /** A worker's own copy of a session; `put` bumps its version as well. */
  class LocalSession {
    const id: string
    var version: nat
    var content: Content

    constructor (id: string, version: nat, content: Content)
      ensures this.id == id && this.version == version && this.content == content
    {
      this.id := id;
      this.version := version;
      this.content := content;
    }
  }

  class SessionStore {
    var sessions: map<string, Stored>

    constructor ()
      ensures sessions == map[]
    {
      sessions := map[];
    }

    function Lookup(id: string): Option<Stored>
      reads this
    {
      if id in sessions then Some(sessions[id]) else None
    }

    /** Stores a copy under the next version, unless somebody else has stored one since this copy was fetched. */
    method Put(session: LocalSession) returns (ok: bool)
      modifies this, session`version
      ensures ok <==> VersionMatches(old(session.version), old(Lookup(session.id)))
      ensures session.version == if ok then old(session.version) + 1 else old(session.version)
      ensures sessions == if ok then old(sessions)[session.id := Stored(session.version, session.content)]
        else old(sessions)
    {
      var current := Lookup(session.id);
      if !VersionMatches(session.version, current) { return false; }
      session.version := session.version + 1;
      sessions := sessions[session.id := Stored(session.version, session.content)];
      ok := true;
    }

    /** A fresh copy: changing it does not change the store. */
    method Get(id: string) returns (r: Option<LocalSession>)
      ensures r.Some? <==> id in sessions
      ensures r.Some? ==> fresh(r.value) && r.value.id == id && Stored(r.value.version, r.value.content) == sessions[id]
    {
      if id !in sessions { return None; }
      var copy := new LocalSession(id, sessions[id].version, sessions[id].content);
      r := Some(copy);
    }

    /** `reserve_auto_repair_attempt`, undisturbed. */
    method ReserveAutoRepairAttempt(id: string, limit: int) returns (reserved: bool)
      requires id in sessions
      modifies this
      ensures reserved <==> old(sessions)[id].content.repairsUsed < limit
      ensures sessions == if !reserved then old(sessions)
        else
          var was := old(sessions)[id];
          old(sessions)[id := Stored(was.version + 1, was.content.(repairsUsed := was.content.repairsUsed + 1))]
    {
      if limit <= 0 { return false; }
      var local := Get(id);
      var session := local.value;
      if session.content.repairsUsed >= limit { return false; }
      session.content := session.content.(repairsUsed := session.content.repairsUsed + 1);
      reserved := Put(session);
    }

    /** `claim_idempotency_key`, undisturbed. */
    method ClaimIdempotencyKey(id: string, key: string) returns (claimed: Result<bool>)
      requires id in sessions
      modifies this
      ensures key == "" <==> claimed == Err(ValueError)
      ensures key != "" ==> claimed == Ok(key !in old(sessions)[id].content.processedKeys)
      ensures sessions == if claimed != Ok(true) then old(sessions)
        else
          var was := old(sessions)[id];
          old(sessions)[id := Stored(was.version + 1,
            was.content.(processedKeys := was.content.processedKeys + {key}))]
    {
      if key == "" { return Err(ValueError); }
      var local := Get(id);
      var session := local.value;
      if key in session.content.processedKeys { return Ok(false); }
      session.content := session.content.(processedKeys := session.content.processedKeys + {key});
      var ok := Put(session);
      claimed := Ok(ok);
    }

    /** `record_interaction_event`, undisturbed: the record is appended unless its event is on record already. */
    method RecordInteractionEvent(id: string, event: LogEvent)
      requires id in sessions
      modifies this
      ensures sessions == if Key(event) in old(sessions)[id].content.processedKeys then old(sessions)
        else
          var was := old(sessions)[id];
          old(sessions)[id := Stored(was.version + 1,
            was.content.(log := was.content.log + [event], processedKeys := was.content.processedKeys + {Key(event)}))]
    {
      var local := Get(id);
      var session := local.value;
      if Key(event) in session.content.processedKeys { return; }
      session.content := session.content.(log := session.content.log + [event],
        processedKeys := session.content.processedKeys + {Key(event)});
      var _ := Put(session);
    }
  }

  // ---- any number of workers -------------------------------------------------------------

  /** A worker's copy, with the state it was fetched from (or last put as) and what was done to it since. */
  datatype Copy = Copy(version: nat, base: Content, pending: seq<Effect>, content: Content)

  /** A successful put. */
  datatype Commit = Commit(worker: nat, base: Content, effects: seq<Effect>, result: Content)

  datatype World = World(stored: Option<Stored>, copies: map<nat, Copy>, commits: seq<Commit>)

  datatype Event =
    | Create(worker: nat, rest: string)     // a new session object, not stored yet
    | Fetch(worker: nat)
    | Change(worker: nat, effect: Effect)   // a change of the worker's own copy
    | Store(worker: nat)

  const EMPTY := World(None, map[], [])

  function Next(w: World, e: Event): World {
    match e
    case Create(worker, rest) => w.(copies := w.copies[worker := Copy(0, NewContent(rest), [], NewContent(rest))])
    case Fetch(worker) =>
      if w.stored.None? then w
      else w.(copies := w.copies[worker := Copy(w.stored.value.version, w.stored.value.content, [],
        w.stored.value.content)])
    case Change(worker, effect) =>
      if worker !in w.copies then w
      else
        var c := w.copies[worker];
        var after := Perform(c.content, effect);
        if after.None? then
          w else w.(copies := w.copies[worker := c.(pending := c.pending + [effect], content := after.value)])
    case Store(worker) =>
      if worker !in w.copies || !VersionMatches(w.copies[worker].version, w.stored) then w
      else
        var c := w.copies[worker];
        World(Some(Stored(c.version + 1, c.content)),
              w.copies[worker := Copy(c.version + 1, c.content, [], c.content)],
              w.commits + [Commit(worker, c.base, c.pending, c.content)])
  }

  function After(events: seq<Event>): World {
    if events == [] then EMPTY else Next(After(events[..|events| - 1]), events[|events| - 1])
  }

  /** Any number of workers on one session of a store, each with a copy of its own; `world` is what the interleaving
      model says of them. */
  class Workers {
    const store: SessionStore
    const id: string
    var copies: map<nat, LocalSession>
    ghost var world: World

    /** Store and copies are as the model has them, and no two workers share a copy. */
    ghost predicate Valid()
      reads this, store, copies.Values
    {
      && store.Lookup(id) == world.stored
      && copies.Keys == world.copies.Keys
      && (forall k :: k in copies ==> copies[k].id == id && Mirrors(copies[k], world.copies[k]))
      && (forall j, k :: j in copies && k in copies && j != k ==> copies[j] != copies[k])
    }

    static predicate Mirrors(session: LocalSession, copy: Copy)
      reads session
    {
      session.version == copy.version && session.content == copy.content
    }

    constructor (store: SessionStore, id: string)
      requires id !in store.sessions
      ensures this.store == store && this.id == id && Valid() && world == EMPTY
    {
      this.store := store;
      this.id := id;
      copies := map[];
      world := EMPTY;
    }

    /** A new copy takes the place of the one the worker had. */
    method Adopt(worker: nat, session: LocalSession, ghost copy: Copy)
      requires Valid() && session !in copies.Values && session.id == id && Mirrors(session, copy)
      modifies this`copies, this`world
      ensures Valid() && world == old(world).(copies := old(world).copies[worker := copy])
      ensures copies == old(copies)[worker := session]
    {
      copies := copies[worker := session];
      world := world.(copies := world.copies[worker := copy]);
    }

    method Change(worker: nat, effect: Effect)
      requires Valid()
      modifies this`world, copies.Values
      ensures Valid() && world == Next(old(world), Event.Change(worker, effect))
      ensures store.sessions == old(store.sessions)
    {
      hide Perform;
      if worker in copies {
        var after := Perform(copies[worker].content, effect);
        if after.Some? { copies[worker].content := after.value; }
      }
      world := Next(world, Event.Change(worker, effect));
    }

    method Put(worker: nat)
      requires Valid()
      modifies this`world, store, copies.Values
      ensures Valid() && world == Next(old(world), Store(worker))
      ensures store.sessions - {id} == old(store.sessions) - {id}
    {
      if worker in copies { var _ := store.Put(copies[worker]); }
      world := Next(world, Store(worker));
    }

    /** Every event of the model, done by the store and the workers' own copies. */
    method Act(e: Event)
      requires Valid()
      modifies this`copies, this`world, store, copies.Values
      ensures Valid() && world == Next(old(world), e)
      ensures store.sessions - {id} == old(store.sessions) - {id}
      ensures forall o :: o in copies.Values && o !in old(copies.Values) ==> fresh(o)
    {
      match e {
        case Create(worker, rest) =>
          var session := new LocalSession(id, 0, NewContent(rest));
          Adopt(worker, session, Copy(0, NewContent(rest), [], NewContent(rest)));
        case Fetch(worker) =>
          var fetched := store.Get(id);
          if fetched.Some? {
            var session := fetched.value;
            Adopt(worker, session, Copy(session.version, session.content, [], session.content));
          }
        case Change(worker, effect) => Change(worker, effect);
        case Store(worker) => Put(worker);
      }
    }
  }

  /** So everything said of the interleavings is said of the store. */
  method Interleave(store: SessionStore, id: string, events: seq<Event>) returns (workers: Workers)
    requires id !in store.sessions
    modifies store
    ensures workers.store == store && workers.id == id && workers.Valid() && workers.world == After(events)
    ensures store.sessions - {id} == old(store.sessions) - {id}
  {
    workers := new Workers(store, id);
    for k := 0 to |events|
      invariant workers.store == store && workers.id == id && fresh(workers) && fresh(workers.copies.Values)
      invariant workers.Valid() && workers.world == After(events[..k])
      invariant store.sessions - {id} == old(store.sessions) - {id}
    {
      assert events[..k + 1][..k] == events[..k];
      workers.Act(events[k]);
    }
    assert events[..|events|] == events;
  }

  /** All effects in order, provided each of them finds something to do. */
  function PerformAll(c: Content, effects: seq<Effect>): Option<Content> {
    if effects == [] then Some(c)
    else
      var before := PerformAll(c, effects[..|effects| - 1]);
      if before.None? then None else Perform(before.value, effects[|effects| - 1])
  }

  predicate IsNew(c: Content) { c == NewContent(c.rest) }

  /** The state a copy of this version was taken from. */
  predicate TakenFrom(version: nat, base: Content, commits: seq<Commit>) {
    version <= |commits| && if version == 0 then IsNew(base) else base == commits[version - 1].result
  }

  /** Every commit was computed from exactly the state committed just before it. */
  ghost predicate SerialHistory(commits: seq<Commit>) {
    forall i :: 0 <= i < |commits| ==>
      TakenFrom(i, commits[i].base, commits) && PerformAll(commits[i].base, commits[i].effects)
        == Some(commits[i].result)
  }

  ghost predicate Consistent(w: World) {
    && SerialHistory(w.commits)
    && (if w.stored.None? then w.commits == []
        else w.commits != [] && w.stored.value == Stored(|w.commits|, w.commits[|w.commits| - 1].result))
    && forall k :: k in w.copies ==>
         var c := w.copies[k];
           TakenFrom(c.version, c.base, w.commits) && PerformAll(c.base, c.pending) == Some(c.content)
  }

  lemma {:induction false} PerformOneMore(c: Content, effects: seq<Effect>, e: Effect)
    ensures PerformAll(c, effects + [e]) == if PerformAll(c, effects).None? then None
      else Perform(PerformAll(c, effects).value, e)
  {
  }

  lemma HistoryGrows(commits: seq<Commit>, more: Commit)
    requires SerialHistory(commits) && TakenFrom(|commits|, more.base, commits)
    requires PerformAll(more.base, more.effects) == Some(more.result)
    ensures SerialHistory(commits + [more])
    ensures forall version, base :: TakenFrom(version, base, commits) ==> TakenFrom(version, base, commits + [more])
  {
    hide PerformAll;
  }

  lemma StepConsistent(w: World, e: Event)
    requires Consistent(w)
    ensures Consistent(Next(w, e))
  {
    hide Perform, SerialHistory;
    if e.Change? && e.worker in w.copies {
      PerformOneMore(w.copies[e.worker].base, w.copies[e.worker].pending, e.effect);
    }
    if e.Store? && e.worker in w.copies && VersionMatches(w.copies[e.worker].version, w.stored) {
      var c := w.copies[e.worker];
      HistoryGrows(w.commits, Commit(e.worker, c.base, c.pending, c.content));
    }
  }

  /** No lost updates: however the fetches, changes and puts of any number of workers interleave, the successful puts
      carry versions 1, 2, 3, ... and each was computed from exactly the state the one before it committed. */
  lemma {:induction false} NoLostUpdates(events: seq<Event>)
    ensures Consistent(After(events))
  {
    hide Consistent, Next;
    if events == [] {
      EmptyConsistent();
    } else {
      NoLostUpdates(events[..|events| - 1]);
      StepConsistent(After(events[..|events| - 1]), events[|events| - 1]);
    }
  }

  lemma EmptyConsistent()
    ensures Consistent(EMPTY)
  {
  }

  /** The effects of all commits, in the order they were committed. */
  function Committed(commits: seq<Commit>): seq<Effect> {
    if commits == [] then [] else Committed(commits[..|commits| - 1]) + commits[|commits| - 1].effects
  }

  lemma {:induction false} PerformInARow(c: Content, first: seq<Effect>, second: seq<Effect>)
    ensures PerformAll(c, first + second) == if PerformAll(c, first).None? then None
      else PerformAll(PerformAll(c, first).value, second)
  {
    if second == [] {
      assert first + second == first;
    } else {
      var init := second[..|second| - 1];
      assert (first + second)[..|first + second| - 1] == first + init;
      PerformInARow(c, first, init);
    }
  }

  lemma HistoryPrefix(commits: seq<Commit>)
    requires SerialHistory(commits) && commits != []
    ensures SerialHistory(commits[..|commits| - 1])
    ensures var last := commits[|commits| - 1];
      && PerformAll(last.base, last.effects) == Some(last.result)
      && if |commits| == 1 then IsNew(last.base) else last.base == commits[|commits| - 2].result
  {
  }

  /** The stored session is the left fold of all successful changes over the session as it was created. */
  lemma {:induction false} StoredIsFold(commits: seq<Commit>)
    requires SerialHistory(commits) && commits != []
    ensures PerformAll(commits[0].base, Committed(commits)) == Some(commits[|commits| - 1].result)
    ensures IsNew(commits[0].base)
  {
    HistoryPrefix(commits);
    hide PerformAll, SerialHistory;
    var init := commits[..|commits| - 1];
    var last := commits[|commits| - 1];
    if init == [] {
      assert Committed(commits) == last.effects;
    } else {
      StoredIsFold(init);
      PerformInARow(commits[0].base, Committed(init), last.effects);
    }
  }

  // ---- exactly once --------------------------------------------------------------------------

  function Reservations(effects: seq<Effect>): nat {
    if effects == [] then 0 else Reservations(effects[..|effects| - 1]) + if effects[|effects| - 1].Reserve? then 1
      else 0
  }

  function Logged(effects: seq<Effect>): seq<LogEvent> {
    if effects == [] then []
    else Logged(effects[..|effects| - 1]) + if effects[|effects| - 1].Record? then [effects[|effects| - 1].event]
      else []
  }

  /** The ledger key an effect takes, if any. */
  function KeyTaken(e: Effect): Option<string> {
    match e
    case Claim(key) => Some(key)
    case Record(event) => Some(Key(event))
    case _ => None
  }

  ghost predicate KeysTakenOnce(effects: seq<Effect>) {
    forall i, j :: 0 <= i < j < |effects| && KeyTaken(effects[i]).Some? ==> KeyTaken(effects[i]) != KeyTaken(effects[j])
  }

  /** Effects that all found something to do are counted and logged one by one. */
  lemma {:induction false} FoldCounts(c: Content, effects: seq<Effect>)
    requires IsNew(c) && PerformAll(c, effects).Some?
    ensures var d := PerformAll(c, effects).value; d.repairsUsed == Reservations(effects) && d.log == Logged(effects)
  {
    hide Key;
    if effects != [] {
      FoldCounts(c, effects[..|effects| - 1]);
    }
  }

  /** The keys taken so far are in the ledger. */
  ghost predicate KeysProcessed(effects: seq<Effect>, processed: set<string>) {
    forall i :: 0 <= i < |effects| && KeyTaken(effects[i]).Some? ==> KeyTaken(effects[i]).value in processed
  }

  /** An effect only finds something to do while its key is free, and takes it. */
  lemma PerformTakesKey(c: Content, e: Effect)
    requires Perform(c, e).Some?
    ensures KeyTaken(e).Some? ==>
      KeyTaken(e).value !in c.processedKeys && KeyTaken(e).value in Perform(c, e).value.processedKeys
    ensures c.processedKeys <= Perform(c, e).value.processedKeys
  {
  }

  lemma {:induction false} FoldKeys(c: Content, effects: seq<Effect>)
    requires PerformAll(c, effects).Some?
    ensures KeysTakenOnce(effects) && KeysProcessed(effects, PerformAll(c, effects).value.processedKeys)
  {
    hide Key, Perform, KeyTaken;
    if effects != [] {
      var init := effects[..|effects| - 1];
      FoldKeys(c, init);
      PerformTakesKey(PerformAll(c, init).value, effects[|init|]);
      assert forall i :: 0 <= i < |init| ==> effects[i] == init[i];
    }
  }

  ghost predicate ReserveWithin(effects: seq<Effect>, limit: nat) {
    forall i :: 0 <= i < |effects| && effects[i].Reserve? ==> effects[i].limit <= limit
  }

  lemma {:induction false} FoldWithinLimit(c: Content, effects: seq<Effect>, limit: nat)
    requires IsNew(c) && PerformAll(c, effects).Some?
    requires ReserveWithin(effects, limit)
    ensures PerformAll(c, effects).value.repairsUsed <= limit
  {
    if effects != [] {
      FoldWithinLimit(c, effects[..|effects| - 1], limit);
    }
  }

  ghost predicate LogHasNoDuplicate(log: seq<LogEvent>) {
    forall i, j :: 0 <= i < j < |log| ==> Key(log[i]) != Key(log[j])
  }

  ghost predicate NoEventTwice(log: seq<LogEvent>) {
    forall i, j :: 0 <= i < j < |log| ==> !SameEvent(log[i], log[j])
  }

  /** Two records of one event would carry one key. */
  lemma NoKeyTwice(log: seq<LogEvent>)
    requires LogHasNoDuplicate(log)
    ensures NoEventTwice(log)
  {
  }

  lemma {:induction false} LoggedEffect(effects: seq<Effect>, m: nat) returns (i: nat)
    requires m < |Logged(effects)|
    ensures i < |effects| && effects[i] == Record(Logged(effects)[m])
  {
    hide Key;
    var init := effects[..|effects| - 1];
    if m < |Logged(init)| {
      i := LoggedEffect(init, m);
    } else {
      i := |init|;
    }
  }

  lemma {:induction false} LoggedOnce(effects: seq<Effect>)
    requires KeysTakenOnce(effects)
    ensures LogHasNoDuplicate(Logged(effects))
  {
    hide Key;
    if effects != [] {
      var init := effects[..|effects| - 1];
      LoggedOnce(init);
      forall m | 0 <= m < |Logged(init)| && effects[|init|].Record?
        ensures Key(Logged(init)[m]) != Key(effects[|init|].event)
      {
        var i := LoggedEffect(init, m);
        assert effects[i] == init[i] && KeyTaken(effects[i]) != KeyTaken(effects[|init|]);
      }
    }
  }

  /** Exactly once under concurrency: over every interleaving, the successful reservations are as many as the stored
      counter says, and no more than the limit they all used; no key is claimed or recorded twice; and the log holds at
      most one record per key, so at most one per logical event. */
  lemma {:induction false} ExactlyOnce(events: seq<Event>, limit: nat)
    requires After(events).stored.Some?
    requires ReserveWithin(Committed(After(events).commits), limit)
    ensures var effects, content := Committed(After(events).commits), After(events).stored.value.content;
      && content.repairsUsed == Reservations(effects) <= limit
      && KeysTakenOnce(effects)
      && content.log == Logged(effects)
      && LogHasNoDuplicate(content.log) && NoEventTwice(content.log)
  {
    hide After, PerformAll, LogHasNoDuplicate, KeysTakenOnce, Committed, ReserveWithin;
    NoLostUpdates(events);
    var w := After(events);
    StoredIsFold(w.commits);
    FoldCounts(w.commits[0].base, Committed(w.commits));
    FoldKeys(w.commits[0].base, Committed(w.commits));
    FoldWithinLimit(w.commits[0].base, Committed(w.commits), limit);
    LoggedOnce(Committed(w.commits));
    NoKeyTwice(w.stored.value.content.log);
  }

  // ---- never refused without need ----------------------------------------------------------

  /** Whatever interleaving a worker's copy comes from, a change finds nothing to do exactly if the limit is reached in
      the copy, or the key, which must not be blank to be claimed, is in the ledger of the copy; otherwise it does just
      what it is for. */
  lemma {:induction false} ChangesExactly(events: seq<Event>, worker: nat, limit: int, key: string, event: LogEvent)
    requires worker in After(events).copies
    ensures var w := After(events); var c := w.copies[worker].content;
      && ContentAfter(events, worker, Reserve(limit))
           == (if c.repairsUsed < limit then c.(repairsUsed := c.repairsUsed + 1) else c)
      && ContentAfter(events, worker, Claim(key))
           == (if key != "" && key !in c.processedKeys then c.(processedKeys := c.processedKeys + {key}) else c)
      && ContentAfter(events, worker, Record(event))
           == (if Key(event) !in c.processedKeys then
                 c.(log := c.log + [event], processedKeys := c.processedKeys + {Key(event)})
               else c)
  {
    hide Key;
    AfterMore(events, Change(worker, Reserve(limit)));
    AfterMore(events, Change(worker, Claim(key)));
    AfterMore(events, Change(worker, Record(event)));
    hide After;
  }

  /** What the worker's copy holds when a change is its next event. */
  function ContentAfter(events: seq<Event>, worker: nat, effect: Effect): Content {
    var w := After(events + [Change(worker, effect)]);
    if worker in w.copies then w.copies[worker].content else NewContent("")
  }

  lemma {:induction false} AfterMore(events: seq<Event>, e: Event)
    ensures After(events + [e]) == Next(After(events), e)
  {
    assert (events + [e])[..|events|] == events;
  }

  /** What a worker does to a session between fetching and putting it is committed whenever nobody else has put the
      session in between, whatever the others fetch and change meanwhile: a reservation within the limit goes through.
      */
  lemma {:induction false} UndisturbedCommits(events: seq<Event>, worker: nat, effect: Effect, others: seq<Event>)
    requires After(events).stored.Some? && Perform(After(events).stored.value.content, effect).Some?
    requires forall k :: 0 <= k < |others| ==> others[k].worker != worker && !others[k].Store?
    ensures var was := After(events).stored.value;
      After(events + [Fetch(worker), Change(worker, effect)] + others + [Store(worker)]).stored
      == Some(Stored(was.version + 1, Perform(was.content, effect).value))
  {
    hide Perform;
    var fetched := events + [Fetch(worker)];
    var changed := events + [Fetch(worker), Change(worker, effect)];
    assert changed == fetched + [Change(worker, effect)];
    AfterMore(events, Fetch(worker));
    AfterMore(fetched, Change(worker, effect));
    OthersLeaveAlone(changed, worker, others);
    AfterMore(changed + others, Store(worker));
    hide After;
  }

  lemma {:induction false} OthersLeaveAlone(events: seq<Event>, worker: nat, others: seq<Event>)
    requires worker in After(events).copies
    requires forall k :: 0 <= k < |others| ==> others[k].worker != worker && !others[k].Store?
    ensures var w, v := After(events), After(events + others);
      v.stored == w.stored && worker in v.copies && v.copies[worker] == w.copies[worker]
  {
    if others == [] {
      assert events + others == events;
    } else {
      var init, last := others[..|others| - 1], others[|others| - 1];
      OthersLeaveAlone(events, worker, init);
      assert events + others == events + init + [last];
      AfterMore(events + init, last);
      hide After, Perform;
    }
  }
}
