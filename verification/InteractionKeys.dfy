/** The idempotency key of an interaction log record. */
module InteractionKeys {
  import opened Outcomes
  import Text

  /** The logical identity of an interaction event; its random record id, preview and time are not part of it. */
  datatype LogEvent = LogEvent(interaction: string, kind: string, execution: string, turn: Option<nat>,
    actor: Option<string>)

  function TurnPart(turn: Option<nat>): string {
    if turn.None? then "-" else Text.Decimal(turn.value)
  }

  /** `record.actor or "-"`. */
  function ActorPart(actor: Option<string>): string {
    if actor.None? || actor.value == "" then "-" else actor.value
  }

  /** `interaction_idempotency_key`. */
  function Key(e: LogEvent): string {
    "interaction:" + (e.interaction + (":" + (e.kind + (":"
      + (e.execution + (":" + (TurnPart(e.turn) + (":" + ActorPart(e.actor)))))))))
  }

  /** No actor is given, or none that a key could tell from it. */
  predicate Nobody(actor: Option<string>) { actor.None? || actor.value == "" || actor.value == "-" }

  /** Two records of one logical event. */
  predicate SameEvent(a: LogEvent, b: LogEvent) {
    && a.interaction == b.interaction && a.kind == b.kind && a.execution == b.execution && a.turn == b.turn
    && (a.actor == b.actor || (Nobody(a.actor) && Nobody(b.actor)))
  }

  lemma ActorPartInjective(a: Option<string>, b: Option<string>)
    ensures ActorPart(a) == ActorPart(b) <==> a == b || (Nobody(a) && Nobody(b))
  {
  }

  predicate ColonFree(s: string) { ':' !in s }

  lemma SplitAtColon(a: string, x: string, b: string, y: string)
    requires ColonFree(a) && ColonFree(b) && a + (":" + x) == b + (":" + y)
    ensures a == b && x == y
  {
    var left, right := a + (":" + x), b + (":" + y);
    assert left[|a|] == ':' && right[|b|] == ':';
    assert forall k :: 0 <= k < |a| ==> left[k] == a[k] && left[k] in a;
    assert forall k :: 0 <= k < |b| ==> right[k] == b[k] && right[k] in b;
    assert |a| == |b|;
    assert left[..|a|] == a && right[..|b|] == b;
    assert left[|a| + 1..] == x && right[|b| + 1..] == y;
  }

  lemma TurnPartStart(turn: Option<nat>)
    ensures TurnPart(turn) != "" && (TurnPart(turn)[0] == '-' <==> turn.None?)
  {
  }

  lemma TurnPartInjective(a: Option<nat>, b: Option<nat>)
    requires TurnPart(a) == TurnPart(b)
    ensures a == b
  {
    TurnPartStart(a);
    TurnPartStart(b);
    hide Text.Decimal;
    if a.Some? && b.Some? { Text.DecimalInjective(a.value, b.value); }
  }

  lemma TurnPartColonFree(turn: Option<nat>)
    ensures ColonFree(TurnPart(turn))
  {
  }

  /** Equal keys mean the same logical event, as long as no id in front of the turn contains the separator. */
  lemma KeyIdentifies(a: LogEvent, b: LogEvent)
    requires ColonFree(a.interaction) && ColonFree(a.kind) && ColonFree(a.execution)
    requires ColonFree(b.interaction) && ColonFree(b.kind) && ColonFree(b.execution)
    ensures Key(a) == Key(b) <==> SameEvent(a, b)
  {
    hide TurnPart, ActorPart, ColonFree, Nobody;
    ActorPartInjective(a.actor, b.actor);
    if Key(a) == Key(b) {
      var turnA, turnB := TurnPart(a.turn) + (":" + ActorPart(a.actor)), TurnPart(b.turn) + (":" + ActorPart(b.actor));
      var restA, restB := a.execution + (":" + turnA), b.execution + (":" + turnB);
      var kindA, kindB := a.kind + (":" + restA), b.kind + (":" + restB);
      assert Key(a)[|"interaction:"|..] == a.interaction + (":" + kindA);
      assert Key(b)[|"interaction:"|..] == b.interaction + (":" + kindB);
      SplitAtColon(a.interaction, kindA, b.interaction, kindB);
      SplitAtColon(a.kind, restA, b.kind, restB);
      SplitAtColon(a.execution, turnA, b.execution, turnB);
      TurnPartColonFree(a.turn);
      TurnPartColonFree(b.turn);
      SplitAtColon(TurnPart(a.turn), ActorPart(a.actor), TurnPart(b.turn), ActorPart(b.actor));
      TurnPartInjective(a.turn, b.turn);
    }
  }

  /** The longer id goes on, behind the shorter one, with what could be the turn of a key. */
  ghost predicate GoesOnWithTurn(long: string, short: string) {
    short + ":" <= long && var behind := long[|short| + 1..]; exists turn :: StartsWithTurn(behind, turn)
  }

  /** The text is the turn part of a key, or goes on behind it with the separator. */
  predicate StartsWithTurn(s: string, turn: Option<nat>) {
    TurnPart(turn) <= s && (s == TurnPart(turn) || s[|TurnPart(turn)|] == ':')
  }

  ghost predicate Collide(a: LogEvent, b: LogEvent) {
    Key(a) == Key(b) && !SameEvent(a, b)
  }

  /** Some event of one execution shares its key with a different event of the other. */
  ghost predicate ExecutionsCollide(interaction: string, kind: string, execution: string, other: string) {
    exists a: LogEvent, b: LogEvent :: Collide(a, b)
      && a.interaction == b.interaction == interaction && a.kind == b.kind == kind && a.execution == execution
        && b.execution == other
  }

  lemma ExtensionCollides(interaction: string, kind: string, execution: string, turn: Option<nat>, rest: string,
                          later: Option<nat>, actor: Option<string>)
    requires rest == "" || rest[0] == ':'
    ensures var a := LogEvent(interaction, kind, execution + (":" + (TurnPart(turn) + rest)), later, actor);
      var b := LogEvent(interaction, kind, execution, turn,
        Some((rest + (":" + (TurnPart(later) + (":" + ActorPart(actor)))))[1..]));
      Collide(a, b)
  {
    hide TurnPart;
    var tail := rest + (":" + (TurnPart(later) + (":" + ActorPart(actor))));
    assert tail == ":" + tail[1..];
    assert (execution + (":" + (TurnPart(turn) + rest))) + (":" + (TurnPart(later) + (":" + ActorPart(actor))))
        == execution + (":" + (TurnPart(turn) + tail));
  }

  /** What stands behind the kind in a key. */
  function Tail(e: LogEvent): string { e.execution + (":" + (TurnPart(e.turn) + (":" + ActorPart(e.actor)))) }

  lemma TailsEqual(a: LogEvent, b: LogEvent)
    requires a.interaction == b.interaction && a.kind == b.kind
    ensures Key(a) == Key(b) <==> Tail(a) == Tail(b)
  {
    hide TurnPart, ActorPart;
    var front := "interaction:" + (a.interaction + (":" + (a.kind + ":")));
    assert Key(a) == front + Tail(a) && Key(b) == front + Tail(b);
    assert Key(a)[|front|..] == Tail(a) && Key(b)[|front|..] == Tail(b);
  }

  /** Up to the first separator. */
  lemma {:induction false} FirstColon(s: string) returns (head: string, rest: string)
    ensures ColonFree(head) && s == head + rest && (rest == "" || rest[0] == ':')
  {
    if s == "" || s[0] == ':' {
      head, rest := "", s;
    } else {
      head, rest := FirstColon(s[1..]);
      head := [s[0]] + head;
    }
  }

  lemma GoesOn(long: string, short: string, behind: string, after: string, turn: Option<nat>, actor: string)
    requires long == short + (":" + behind) && behind + (":" + after) == TurnPart(turn) + (":" + actor)
    ensures GoesOnWithTurn(long, short)
  {
    hide TurnPart;
    var head, rest := FirstColon(behind);
    var more := rest + (":" + after);
    assert head + more == behind + (":" + after);
    assert more == ":" + more[1..];
    TurnPartColonFree(turn);
    SplitAtColon(head, more[1..], TurnPart(turn), actor);
    assert StartsWithTurn(behind, turn);
    assert long[|short| + 1..] == behind;
  }

  lemma LongerGoesOn(a: LogEvent, b: LogEvent)
    requires Tail(a) == Tail(b) && |a.execution| > |b.execution|
    ensures GoesOnWithTurn(a.execution, b.execution)
  {
    hide TurnPart, ActorPart, GoesOnWithTurn;
    var n := |b.execution|;
    assert Tail(a)[..n] == a.execution[..n] && Tail(b)[..n] == b.execution;
    assert Tail(a)[n] == a.execution[n] && Tail(b)[n] == ':';
    var behind := a.execution[n + 1..];
    assert a.execution == b.execution + (":" + behind);
    var after := TurnPart(a.turn) + (":" + ActorPart(a.actor));
    assert Tail(a)[n + 1..] == behind + (":" + after);
    assert Tail(b)[n + 1..] == TurnPart(b.turn) + (":" + ActorPart(b.actor));
    GoesOn(a.execution, b.execution, behind, after, b.turn, ActorPart(b.actor));
  }

  lemma SameLengthSameEvent(a: LogEvent, b: LogEvent)
    requires a.interaction == b.interaction && a.kind == b.kind && Tail(a) == Tail(b) && |a.execution| == |b.execution|
    ensures SameEvent(a, b)
  {
    hide TurnPart, ActorPart, Nobody;
    ActorPartInjective(a.actor, b.actor);
    var n := |a.execution|;
    assert Tail(a)[..n] == a.execution && Tail(b)[..n] == b.execution;
    assert Tail(a)[n + 1..] == TurnPart(a.turn) + (":" + ActorPart(a.actor));
    assert Tail(b)[n + 1..] == TurnPart(b.turn) + (":" + ActorPart(b.actor));
    TurnPartColonFree(a.turn);
    TurnPartColonFree(b.turn);
    SplitAtColon(TurnPart(a.turn), ActorPart(a.actor), TurnPart(b.turn), ActorPart(b.actor));
    TurnPartInjective(a.turn, b.turn);
  }

  /** Without any proviso on the ids: different events of two executions share a key if and only if one execution id
      goes on, behind the other, with what could be a turn. */
  lemma CollideIff(interaction: string, kind: string, execution: string, other: string)
    ensures ExecutionsCollide(interaction, kind, execution, other)
       <==> GoesOnWithTurn(execution, other) || GoesOnWithTurn(other, execution)
  {
    hide TurnPart, ActorPart, Key, GoesOnWithTurn, SameEvent, Tail;
    if ExecutionsCollide(interaction, kind, execution, other) {
      var a: LogEvent, b: LogEvent :| Collide(a, b)
        && a.interaction == b.interaction == interaction && a.kind == b.kind == kind && a.execution == execution
          && b.execution == other;
      TailsEqual(a, b);
      if |execution| == |other| {
        SameLengthSameEvent(a, b);
      } else if |execution| > |other| {
        LongerGoesOn(a, b);
      } else {
        LongerGoesOn(b, a);
      }
    }
    if GoesOnWithTurn(execution, other) { Collides(interaction, kind, execution, other); }
    if GoesOnWithTurn(other, execution) { Collides(interaction, kind, other, execution); }
  }

  lemma Collides(interaction: string, kind: string, long: string, short: string)
    requires GoesOnWithTurn(long, short)
    ensures ExecutionsCollide(interaction, kind, long, short) && ExecutionsCollide(interaction, kind, short, long)
  {
    hide TurnPart, ActorPart, Key;
    var behind := long[|short| + 1..];
    var turn :| StartsWithTurn(behind, turn);
    var rest := long[|short| + 1 + |TurnPart(turn)|..];
    assert long == short + (":" + (TurnPart(turn) + rest));
    ExtensionCollides(interaction, kind, short, turn, rest, None, None);
  }

  /** An interaction id that ends with a separator and a kind gets in the way of the one without them. */
  lemma InteractionsCollide(interaction: string, kind: string, other: string, execution: string, turn: Option<nat>,
                            actor: Option<string>)
    ensures Collide(LogEvent(interaction + (":" + kind), other, execution, turn, actor),
                    LogEvent(interaction, kind, other + (":" + execution), turn, actor))
  {
    hide TurnPart, ActorPart;
    var rest := ":" + (execution + (":" + (TurnPart(turn) + (":" + ActorPart(actor)))));
    assert (interaction + (":" + kind)) + (":" + (other + rest))
      == interaction + (":" + (kind + (":" + (other + rest))));
    assert (other + (":" + execution)) + (":" + (TurnPart(turn) + (":" + ActorPart(actor)))) == other + rest;
  }
}
