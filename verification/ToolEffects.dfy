/** Tool rounds with a local result cache in front of the durable effect ledger. */
module ToolEffects {
  import opened Outcomes

  /** One requested call; `fingerprint` is the effect fingerprint of its metadata, empty when it has none. */
  datatype Call = Call(id: string, name: string, fingerprint: string)

  datatype Answer = Answer(content: string, isError: bool)

  datatype Block = Block(callId: string, content: string, isError: bool)

  /** The first successful result recorded for a fingerprint, and the call it came from. */
  datatype Entry = Entry(sourceId: string, content: string)

  type Entries = map<string, Entry>

  /** What a tool answers may depend on everything run before it. */
  type Tools = (Call, seq<Call>) -> Answer

  // ---- with the ledger alone -----------------------------------------------------------

  /** Durable state: the ledger, and every tool run so far. */
  datatype World = World(ledger: Entries, ran: seq<Call>)

  predicate Reusable(w: World, call: Call) {
    call.fingerprint != "" && call.fingerprint in w.ledger
  }

  function Serve(tools: Tools, w: World, call: Call): (World, Block) {
    if Reusable(w, call) then (w, Block(call.id, w.ledger[call.fingerprint].content, false))
    else
      var a := tools(call, w.ran);
      var ledger := if call.fingerprint != "" && !a.isError then
        w.ledger[call.fingerprint := Entry(call.id, a.content)] else w.ledger;
      (World(ledger, w.ran + [call]), Block(call.id, a.content, a.isError))
  }

  /** The worker dies after running the tool, before anything is recorded. */
  function Tear(w: World, call: Call): World {
    if Reusable(w, call) then w else w.(ran := w.ran + [call])
  }

  /** What happens to a session's tools over any number of worker lives. */
  datatype Step = Served(call: Call) | Restarted | Torn(call: Call)

  function Advance(tools: Tools, w: World, step: Step): World {
    match step
    case Served(call) => Serve(tools, w, call).0
    case Restarted => w
    case Torn(call) => Tear(w, call)
  }

  function Replies(tools: Tools, w: World, step: Step): seq<Block> {
    if step.Served? then [Serve(tools, w, step.call).1] else []
  }

  function WorldAfter(tools: Tools, w: World, steps: seq<Step>): World {
    if steps == [] then w else Advance(tools, WorldAfter(tools, w, steps[..|steps| - 1]), steps[|steps| - 1])
  }

  function AllReplies(tools: Tools, w: World, steps: seq<Step>): seq<Block> {
    if steps == [] then []
    else
      var init := steps[..|steps| - 1];
      AllReplies(tools, w, init) + Replies(tools, WorldAfter(tools, w, init), steps[|steps| - 1])
  }

  lemma {:induction false} StepsAppend(tools: Tools, w: World, steps: seq<Step>, k: nat)
    requires k < |steps|
    ensures WorldAfter(tools, w, steps[..k + 1]) == Advance(tools, WorldAfter(tools, w, steps[..k]), steps[k])
    ensures AllReplies(tools, w, steps[..k + 1]) == AllReplies(tools, w, steps[..k]) + Replies(tools,
      WorldAfter(tools, w, steps[..k]), steps[k])
  {
    assert steps[..k + 1][..k] == steps[..k];
  }

  /** Recorded results stay: an entry is never changed or removed, and a recorded effect is never run again. */
  lemma {:induction false} RecordedForGood(tools: Tools, w: World, steps: seq<Step>, fingerprint: string)
    requires fingerprint != "" && fingerprint in w.ledger
    ensures var t := WorldAfter(tools, w, steps);
      && fingerprint in t.ledger && t.ledger[fingerprint] == w.ledger[fingerprint]
      && w.ran <= t.ran && forall k :: |w.ran| <= k < |t.ran| ==> t.ran[k].fingerprint != fingerprint
  {
    if steps != [] {
      RecordedForGood(tools, w, steps[..|steps| - 1], fingerprint);
    }
  }

  /** Whatever happens in between, every later call with a recorded fingerprint gets the first recorded content. */
  lemma {:induction false} ReusesFirstResult(tools: Tools, w: World, steps: seq<Step>, call: Call)
    requires call.fingerprint != "" && call.fingerprint in w.ledger
    ensures var (t, block) := Serve(tools, WorldAfter(tools, w, steps), call);
      block == Block(call.id, w.ledger[call.fingerprint].content, false) && t == WorldAfter(tools, w, steps)
  {
    RecordedForGood(tools, w, steps, call.fingerprint);
  }

  /** Step `k` serves a call with this fingerprint, and the worker is told that it succeeded. */
  predicate SucceedsAt(tools: Tools, w: World, steps: seq<Step>, k: nat, fingerprint: string) {
    && k < |steps| && steps[k].Served? && steps[k].call.fingerprint == fingerprint
    && !Serve(tools, WorldAfter(tools, w, steps[..k]), steps[k].call).1.isError
  }

  /** The first success of an effect, and what was recorded of it. */
  predicate FirstSuccess(tools: Tools, w: World, steps: seq<Step>, k: nat, fingerprint: string, entry: Entry) {
    && SucceedsAt(tools, w, steps, k, fingerprint)
    && (forall m: nat :: m < k ==> !SucceedsAt(tools, w, steps, m, fingerprint))
    && entry == Entry(steps[k].call.id, tools(steps[k].call, WorldAfter(tools, w, steps[..k]).ran).content)
  }

  lemma SucceedsInPrefix(tools: Tools, w: World, steps: seq<Step>, n: nat, k: nat, fingerprint: string)
    requires k < n <= |steps|
    ensures SucceedsAt(tools, w, steps[..n], k, fingerprint) == SucceedsAt(tools, w, steps, k, fingerprint)
  {
    assert steps[..n][..k] == steps[..k];
  }

  /** The ledger holds exactly the effects that succeeded: a failed call, a restart or a death leaves nothing in it, and
      an entry is the result of the first success. */
  lemma {:induction false} RecordedExactly(tools: Tools, w: World, steps: seq<Step>, fingerprint: string)
    requires fingerprint != "" && fingerprint !in w.ledger
    ensures var ledger := WorldAfter(tools, w, steps).ledger;
      if fingerprint in ledger then exists k: nat :: FirstSuccess(tools, w, steps, k, fingerprint, ledger[fingerprint])
      else forall k: nat :: !SucceedsAt(tools, w, steps, k, fingerprint)
  {
    if steps != [] {
      var last := |steps| - 1;
      var init, before := steps[..last], WorldAfter(tools, w, steps[..last]);
      RecordedExactly(tools, w, init, fingerprint);
      forall k: nat | k < last { SucceedsInPrefix(tools, w, steps, last, k, fingerprint); }
      if fingerprint in before.ledger {
        var k: nat :| FirstSuccess(tools, w, init, k, fingerprint, before.ledger[fingerprint]);
        assert init[..k] == steps[..k];
        assert FirstSuccess(tools, w, steps, k, fingerprint, before.ledger[fingerprint]);
      } else if SucceedsAt(tools, w, steps, last, fingerprint) {
        assert FirstSuccess(tools, w, steps, last, fingerprint, WorldAfter(tools, w, steps).ledger[fingerprint]);
      }
    }
  }

  // ---- with the local cache ---------------------------------------------------------------

  /** Every local entry is the durable entry. */
  ghost predicate Agrees(cache: Entries, ledger: Entries) {
    forall f :: f in cache ==> f in ledger && cache[f] == ledger[f]
  }

  class EffectLedger {
    var entries: Entries

    constructor ()
      ensures entries == map[]
    {
      entries := map[];
    }

    /** `lookup_tool_effect_result`. */
    method Lookup(fingerprint: string) returns (r: Option<Entry>)
      ensures r == if fingerprint != "" && fingerprint in entries then Some(entries[fingerprint]) else None
    {
      if fingerprint == "" || fingerprint !in entries { return None; }
      r := Some(entries[fingerprint]);
    }

    /** `record_tool_effect_result`: the first result stays. */
    method Record(fingerprint: string, entry: Entry)
      modifies this
      ensures entries == if fingerprint == "" || fingerprint in old(entries) then old(entries)
        else old(entries)[fingerprint := entry]
    {
      if fingerprint == "" || fingerprint in entries { return; }
      entries := entries[fingerprint := entry];
    }
  }

  /** One exchange of a drained conversation: what the model asked for and what the tools answered. */
  datatype Exchange = Exchange(calls: seq<Call>, blocks: seq<Block>)

  class AgentToolLoop {
    const ledger: EffectLedger
    const tools: Tools
    var ran: seq<Call>          // every tool run so far, over all workers

    constructor (ledger: EffectLedger, tools: Tools)
      ensures this.ledger == ledger && this.tools == tools && ran == []
    {
      this.ledger := ledger;
      this.tools := tools;
      ran := [];
    }

    ghost function State(): World
      reads this, ledger
    {
      World(ledger.entries, ran)
    }

    /** One call: local cache, then durable ledger, then the tool itself. */
    method ExecuteCall(call: Call, cache: Entries) returns (block: Block, known: Entries)
      requires Agrees(cache, ledger.entries)
      modifies this`ran, ledger
      ensures (State(), block) == Serve(tools, old(State()), call) && Agrees(known, ledger.entries)
    {
      known := cache;
      var reused := if call.fingerprint != "" && call.fingerprint in cache then Some(cache[call.fingerprint]) else None;
      if reused.None? && call.fingerprint != "" {
        reused := ledger.Lookup(call.fingerprint);
        if reused.Some? {
          known := known[call.fingerprint := reused.value];
        }
      }
      if reused.Some? {
        block := Block(call.id, reused.value.content, false);
      } else {
        var answer := tools(call, ran);
        ran := ran + [call];
        block := Block(call.id, answer.content, answer.isError);
        if call.fingerprint != "" && !answer.isError {
          known := known[call.fingerprint := Entry(call.id, answer.content)];
          ledger.Record(call.fingerprint, Entry(call.id, answer.content));
        }
      }
    }

    /** A worker that dies between running the tool and recording its result; its cache dies with it. */
    method ExecuteTorn(call: Call, cache: Entries)
      requires Agrees(cache, ledger.entries)
      modifies this`ran, ledger
      ensures State() == Tear(old(State()), call)
    {
      if call.fingerprint != "" && call.fingerprint in cache { return; }
      var durable := ledger.Lookup(call.fingerprint);
      if durable.Some? { return; }
      ran := ran + [call];
    }

    /** `execute_tool_round`: an unauthorized call refuses the whole round before anything runs. */
    method ExecuteToolRound(calls: seq<Call>, allowed: set<string>, cache: Entries)
      returns (r: Result<seq<Block>>, known: Entries)
      requires Agrees(cache, ledger.entries)
      modifies this`ran, ledger
      ensures Agrees(known, ledger.entries)
      ensures r.Ok? <==> forall k :: 0 <= k < |calls| ==> calls[k].name in allowed
      ensures r.Err? ==> r == Err(RuntimeError) && State() == old(State())
      ensures r.Ok? ==>
        r.value == AllReplies(tools, old(State()), Serving(calls))
          && State() == WorldAfter(tools, old(State()), Serving(calls))
    {
      known := cache;
      for k := 0 to |calls|
        invariant forall j :: 0 <= j < k ==> calls[j].name in allowed
      {
        if calls[k].name !in allowed { return Err(RuntimeError), known; }
      }
      var blocks := [];
      ghost var start := State();
      ghost var steps := Serving(calls);
      for k := 0 to |calls|
        invariant Agrees(known, ledger.entries)
        invariant blocks == AllReplies(tools, start, steps[..k]) && State() == WorldAfter(tools, start, steps[..k])
      {
        StepsAppend(tools, start, steps, k);
        var block;
        block, known := ExecuteCall(calls[k], known);
        blocks := blocks + [block];
      }
      assert steps[..|calls|] == steps;
      r := Ok(blocks);
    }

    /** Any number of worker lives: the cache starts empty in each of them and is lost at its end. The replies, the
        ledger and the tools run are those of a worker that asks the ledger every time. */
    method ServeLives(steps: seq<Step>) returns (blocks: seq<Block>)
      modifies this`ran, ledger
      ensures blocks == AllReplies(tools, old(State()), steps)
      ensures State() == WorldAfter(tools, old(State()), steps)
    {
      var cache: Entries := map[];
      blocks := [];
      ghost var start := State();
      for k := 0 to |steps|
        invariant Agrees(cache, ledger.entries)
        invariant blocks == AllReplies(tools, start, steps[..k]) && State() == WorldAfter(tools, start, steps[..k])
      {
        StepsAppend(tools, start, steps, k);
        match steps[k] {
          case Served(call) =>
            var block;
            block, cache := ExecuteCall(call, cache);
            blocks := blocks + [block];
          case Restarted =>
            cache := map[];
          case Torn(call) =>
            ExecuteTorn(call, cache);
            cache := map[];
        }
      }
      assert steps[..|steps|] == steps;
    }

    /** `drain_tool_calls`: rounds of calls until the model asks for none, or the rounds are used up. */
    method DrainToolCalls(first: seq<Call>, model: seq<Exchange> -> seq<Call>, allowed: set<string>, maxRounds: nat)
      returns (r: Result<seq<Exchange>>)
      modifies this`ran, ledger
      ensures r == Drained(tools, old(State()), [], first, model, allowed, maxRounds).0
      ensures State() == Drained(tools, old(State()), [], first, model, allowed, maxRounds).1
    {
      hide AllReplies, WorldAfter, Serving;
      var cache: Entries := map[];
      var exchanges: seq<Exchange> := [];
      var calls := first;
      var round := 0;
      while round < maxRounds && calls != []
        invariant round <= maxRounds && Agrees(cache, ledger.entries)
        invariant Drained(tools, State(), exchanges, calls, model, allowed, maxRounds - round)
               == Drained(tools, old(State()), [], first, model, allowed, maxRounds)
      {
        var blocks;
        blocks, cache := ExecuteToolRound(calls, allowed, cache);
        if blocks.Err? { return Err(blocks.error); }
        exchanges := exchanges + [Exchange(calls, blocks.value)];
        calls := model(exchanges);
        round := round + 1;
      }
      r := Ok(exchanges);
    }
  }

  function Serving(calls: seq<Call>): (r: seq<Step>)
    ensures |r| == |calls| && forall k :: 0 <= k < |calls| ==> r[k] == Served(calls[k])
  {
    seq(|calls|, k requires 0 <= k < |calls| => Served(calls[k]))
  }

  /** The conversation a worker would have that asks the ledger before every call. */
  ghost function Drained(tools: Tools, w: World, exchanges: seq<Exchange>, calls: seq<Call>,
                         model: seq<Exchange> -> seq<Call>, allowed: set<string>,
                           rounds: nat): (Result<seq<Exchange>>, World)
    decreases rounds
  {
    if rounds == 0 || calls == [] then (Ok(exchanges), w)
    else if exists k :: 0 <= k < |calls| && calls[k].name !in allowed then (Err(RuntimeError), w)
    else
      var more := exchanges + [Exchange(calls, AllReplies(tools, w, Serving(calls)))];
      Drained(tools, WorldAfter(tools, w, Serving(calls)), more, model(more), model, allowed, rounds - 1)
  }

  /** What every step of a session's tools does. A call whose effect is recorded gets the recorded content as a success,
      and nothing is run or changed; any other is answered by the tool itself, which is run once more, and is recorded,
      under the call, exactly if it succeeded and has a fingerprint. A death loses the answer, not the run. */
  lemma {:induction false} StepsExactly(tools: Tools, w: World, steps: seq<Step>, k: nat)
    requires k < |steps|
    ensures var was, after := WorldAfter(tools, w, steps[..k]), WorldAfter(tools, w, steps[..k + 1]);
      var replies := AllReplies(tools, w, steps[..k]);
      match steps[k]
      case Restarted => after == was && AllReplies(tools, w, steps[..k + 1]) == replies
      case Torn(call) =>
        && AllReplies(tools, w, steps[..k + 1]) == replies && after.ledger == was.ledger
        && after.ran == was.ran + if call.fingerprint != "" && call.fingerprint in was.ledger then [] else [call]
      case Served(call) =>
        if call.fingerprint != "" && call.fingerprint in was.ledger then
          && after == was
          && AllReplies(tools, w, steps[..k + 1])
             == replies + [Block(call.id, was.ledger[call.fingerprint].content, false)]
        else
          var answer := tools(call, was.ran);
          && AllReplies(tools, w, steps[..k + 1]) == replies + [Block(call.id, answer.content, answer.isError)]
          && after.ran == was.ran + [call]
          && after.ledger == if call.fingerprint == "" || answer.isError then was.ledger
                             else was.ledger[call.fingerprint := Entry(call.id, answer.content)]
  {
    StepsAppend(tools, w, steps, k);
    hide WorldAfter, AllReplies;
  }

  /** Everything called so far, in order. */
  function CallsOf(exchanges: seq<Exchange>): seq<Call> {
    if exchanges == [] then [] else CallsOf(exchanges[..|exchanges| - 1]) + exchanges[|exchanges| - 1].calls
  }

  function BlocksOf(exchanges: seq<Exchange>): seq<Block> {
    if exchanges == [] then [] else BlocksOf(exchanges[..|exchanges| - 1]) + exchanges[|exchanges| - 1].blocks
  }

  /** What the model asks for after these exchanges. */
  function AskedFor(first: seq<Call>, model: seq<Exchange> -> seq<Call>, exchanges: seq<Exchange>): seq<Call> {
    if exchanges == [] then first else model(exchanges)
  }

  /** The exchanges of a conversation: each round serves what the model asked for by then, all of it authorized, and the
      answers are those the calls get one after another over the whole conversation. */
  ghost predicate Conversation(tools: Tools, w: World, first: seq<Call>, model: seq<Exchange> -> seq<Call>,
                               allowed: set<string>, exchanges: seq<Exchange>)
  {
    && (forall k :: 0 <= k < |exchanges| ==>
         && exchanges[k].calls == AskedFor(first, model, exchanges[..k]) != []
         && forall j :: 0 <= j < |exchanges[k].calls| ==> exchanges[k].calls[j].name in allowed)
    && BlocksOf(exchanges) == AllReplies(tools, w, Serving(CallsOf(exchanges)))
  }

  /** A drained conversation ends when the model asks for nothing more or the rounds are used up, or is cut off by an
      unauthorized call, of which nothing is run. */
  ghost predicate DrainedTo(tools: Tools, w: World, first: seq<Call>, model: seq<Exchange> -> seq<Call>,
                            allowed: set<string>, maxRounds: nat, exchanges: seq<Exchange>, r: Result<seq<Exchange>>,
                            after: World)
  {
    && Conversation(tools, w, first, model, allowed, exchanges) && |exchanges| <= maxRounds
    && after == WorldAfter(tools, w, Serving(CallsOf(exchanges)))
    && var asked := AskedFor(first, model, exchanges);
       if |exchanges| == maxRounds || asked == [] then r == Ok(exchanges)
       else r == Err(RuntimeError) && exists j :: 0 <= j < |asked| && asked[j].name !in allowed
  }

  lemma {:induction false} StepsInARow(tools: Tools, w: World, a: seq<Step>, b: seq<Step>)
    ensures WorldAfter(tools, w, a + b) == WorldAfter(tools, WorldAfter(tools, w, a), b)
    ensures AllReplies(tools, w, a + b) == AllReplies(tools, w, a) + AllReplies(tools, WorldAfter(tools, w, a), b)
  {
    hide Advance, Replies;
    if b == [] {
      assert a + b == a;
    } else {
      var init := b[..|b| - 1];
      StepsInARow(tools, w, a, init);
      assert (a + b)[..|a + b| - 1] == a + init;
    }
  }

  lemma {:induction false} ServingInARow(tools: Tools, w: World, a: seq<Call>, b: seq<Call>)
    ensures WorldAfter(tools, w, Serving(a + b)) == WorldAfter(tools, WorldAfter(tools, w, Serving(a)), Serving(b))
    ensures AllReplies(tools, w, Serving(a + b))
         == AllReplies(tools, w, Serving(a)) + AllReplies(tools, WorldAfter(tools, w, Serving(a)), Serving(b))
  {
    assert Serving(a + b) == Serving(a) + Serving(b);
    hide Serving, WorldAfter, AllReplies;
    StepsInARow(tools, w, Serving(a), Serving(b));
  }

  lemma {:induction false} ServingNothing(tools: Tools, w: World)
    ensures WorldAfter(tools, w, Serving([])) == w && AllReplies(tools, w, Serving([])) == []
  {
  }

  lemma {:induction false} ConversationGrows(tools: Tools, w: World, first: seq<Call>,
                                             model: seq<Exchange> -> seq<Call>, allowed: set<string>,
                                               done: seq<Exchange>)
    returns (more: seq<Exchange>)
    requires Conversation(tools, w, first, model, allowed, done)
    requires var asked := AskedFor(first, model, done);
      asked != [] && forall j :: 0 <= j < |asked| ==> asked[j].name in allowed
    ensures var now, asked := WorldAfter(tools, w, Serving(CallsOf(done))), AskedFor(first, model, done);
      && more == done + [Exchange(asked, AllReplies(tools, now, Serving(asked)))]
      && Conversation(tools, w, first, model, allowed, more)
      && WorldAfter(tools, w, Serving(CallsOf(more))) == WorldAfter(tools, now, Serving(asked))
  {
    var now, asked := WorldAfter(tools, w, Serving(CallsOf(done))), AskedFor(first, model, done);
    more := done + [Exchange(asked, AllReplies(tools, now, Serving(asked)))];
    ServingInARow(tools, w, CallsOf(done), asked);
    hide AllReplies, WorldAfter, Serving, AskedFor;
    assert more[..|done|] == done;
    assert forall k :: 0 <= k < |done| ==> more[..k] == done[..k];
  }

  /** Draining keeps to this, from any point of the conversation on. */
  lemma {:induction false} DrainedFrom(tools: Tools, w: World, first: seq<Call>, model: seq<Exchange> -> seq<Call>,
                                       allowed: set<string>, done: seq<Exchange>, rounds: nat)
    returns (exchanges: seq<Exchange>)
    requires Conversation(tools, w, first, model, allowed, done)
    ensures var now := WorldAfter(tools, w, Serving(CallsOf(done)));
      var (r, after) := Drained(tools, now, done, AskedFor(first, model, done), model, allowed, rounds);
      DrainedTo(tools, w, first, model, allowed, |done| + rounds, exchanges, r, after)
    decreases rounds
  {
    hide Conversation, AllReplies, WorldAfter, Serving, CallsOf;
    var asked := AskedFor(first, model, done);
    exchanges := done;
    if rounds > 0 && asked != [] && forall j :: 0 <= j < |asked| ==> asked[j].name in allowed {
      var more := ConversationGrows(tools, w, first, model, allowed, done);
      assert AskedFor(first, model, more) == model(more);
      exchanges := DrainedFrom(tools, w, first, model, allowed, more, rounds - 1);
      hide DrainedTo;
    }
  }

  /** Draining, from the start. */
  lemma {:induction false} DrainedExactly(tools: Tools, w: World, first: seq<Call>, model: seq<Exchange> -> seq<Call>,
                                          allowed: set<string>, maxRounds: nat)
    returns (exchanges: seq<Exchange>)
    ensures var (r, after) := Drained(tools, w, [], first, model, allowed, maxRounds);
      DrainedTo(tools, w, first, model, allowed, maxRounds, exchanges, r, after)
  {
    ServingNothing(tools, w);
    exchanges := DrainedFrom(tools, w, first, model, allowed, [], maxRounds);
    hide Drained, DrainedTo;
  }
}
