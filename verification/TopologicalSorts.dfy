/** The scheduling order of a workflow, and the detection of dependency cycles. */
module TopologicalSorts {
  import opened Collections
  import opened Outcomes
  import opened Graphs
  import opened UpstreamContexts
  import opened WorkflowGraphs

  // ---- counting requirements -------------------------------------------------------------

  function Occurrences(needs: seq<string>, key: string): nat {
    if needs == [] then 0 else Occurrences(needs[..|needs| - 1], key) + if needs[|needs| - 1] == key then 1 else 0
  }

  /** Requirements not met by `done`, counted with repetition. */
  function Missing(needs: seq<string>, done: set<string>): nat {
    if needs == [] then 0 else Missing(needs[..|needs| - 1], done) + if needs[|needs| - 1] in done then 0 else 1
  }

  function Outstanding(bp: Blueprint, key: string, done: set<string>): nat {
    if bp == [] then 0
    else
      Outstanding(bp[..|bp| - 1], key, done) + if bp[|bp| - 1].key == key then Missing(bp[|bp| - 1].needs, done) else 0
  }

  /** How often `key` is named by the requirements of `child`. */
  function Weight(bp: Blueprint, key: string, child: string): nat {
    if bp == [] then 0
    else Weight(bp[..|bp| - 1], key, child) + if bp[|bp| - 1].key == child then Occurrences(bp[|bp| - 1].needs, key)
      else 0
  }

  lemma {:induction false} MissingDrops(needs: seq<string>, done: set<string>, key: string)
    requires key !in done
    ensures Missing(needs, done) == Missing(needs, done + {key}) + Occurrences(needs, key)
  {
    if needs != [] { MissingDrops(needs[..|needs| - 1], done, key); }
  }

  /** Finishing a node meets as many requirements of a child as name it. */
  lemma {:induction false} OutstandingDrops(bp: Blueprint, child: string, done: set<string>, key: string)
    requires key !in done
    ensures Outstanding(bp, child, done) == Outstanding(bp, child, done + {key}) + Weight(bp, key, child)
  {
    if bp != [] {
      OutstandingDrops(bp[..|bp| - 1], child, done, key);
      MissingDrops(bp[|bp| - 1].needs, done, key);
    }
  }

  lemma {:induction false} NoneMissing(needs: seq<string>, done: set<string>)
    ensures Missing(needs, done) == 0 <==> forall n :: n in needs ==> n in done
  {
    if needs != [] {
      var init := needs[..|needs| - 1];
      NoneMissing(init, done);
      assert forall n :: n in needs <==> n in init || n == needs[|needs| - 1];
    }
  }

  lemma {:induction false} NoneOutstanding(bp: Blueprint, key: string, done: set<string>)
    ensures Outstanding(bp, key, done) == 0 <==> forall n :: Edge(bp, n, key) ==> n in done
  {
    if bp != [] {
      var init, last := bp[..|bp| - 1], bp[|bp| - 1];
      NoneOutstanding(init, key, done);
      NoneMissing(last.needs, done);
      forall n ensures Edge(bp, n, key) <==> Edge(init, n, key) || (last.key == key && n in last.needs) {
        EdgeSplit(bp, n, key);
      }
    }
  }

  lemma EdgeSplit(bp: Blueprint, n: string, key: string)
    requires bp != []
    ensures var init, last := bp[..|bp| - 1], bp[|bp| - 1];
      Edge(bp, n, key) <==> Edge(init, n, key) || (last.key == key && n in last.needs)
  {
  }

  function Repeated(key: string, times: nat): seq<string> {
    seq(times, _ => key)
  }

  /** The downstream list of `key`: every child once for each requirement that names `key`. */
  function Downstream(bp: Blueprint, key: string): seq<string> {
    if bp == [] then []
    else Downstream(bp[..|bp| - 1], key) + Repeated(bp[|bp| - 1].key, Occurrences(bp[|bp| - 1].needs, key))
  }

  lemma {:induction false} RepeatedCount(key: string, times: nat, child: string)
    ensures multiset(Repeated(key, times))[child] == if child == key then times else 0
  {
    if times > 0 {
      RepeatedCount(key, times - 1, child);
      assert Repeated(key, times) == Repeated(key, times - 1) + [key];
    } else {
      assert Repeated(key, 0) == [];
    }
  }

  lemma {:induction false} DownstreamWeight(bp: Blueprint, key: string, child: string)
    ensures multiset(Downstream(bp, key))[child] == Weight(bp, key, child)
  {
    if bp != [] {
      DownstreamWeight(bp[..|bp| - 1], key, child);
      RepeatedCount(bp[|bp| - 1].key, Occurrences(bp[|bp| - 1].needs, key), child);
    }
  }

  lemma {:induction false} DownstreamKeys(bp: Blueprint, key: string)
    ensures forall c :: c in Downstream(bp, key) ==> c in Keys(bp)
  {
    if bp != [] {
      var init := bp[..|bp| - 1];
      DownstreamKeys(init, key);
      assert forall i :: 0 <= i < |init| ==> init[i] == bp[i];
      assert bp[|init|].key in Keys(bp);
    }
  }

  // ---- the ready list ---------------------------------------------------------------------------

  /** `declared_index`: the last place at which a key is declared. */
  function Declared(bp: Blueprint, key: string): (r: int)
    ensures -1 <= r < |bp| && (r >= 0 ==> bp[r].key == key) && (key in Keys(bp) ==> r >= 0)
  {
    if bp == [] then -1 else if bp[|bp| - 1].key == key then |bp| - 1
    else
      assert forall i :: 0 <= i < |bp| - 1 ==> bp[..|bp| - 1][i] == bp[i];
      Declared(bp[..|bp| - 1], key)
  }

  ghost predicate InDeclaredOrder(bp: Blueprint, ready: seq<string>) {
    forall i, j :: 0 <= i < j < |ready| ==> Declared(bp, ready[i]) < Declared(bp, ready[j])
  }

  /** `ready.insert(idx, child)`, in front of the first node declared later. */
  method InsertReady(bp: Blueprint, ready: seq<string>, child: string) returns (r: seq<string>)
    requires InDeclaredOrder(bp, ready) && child !in ready && child in Keys(bp) && forall k :: k in ready ==>
      k in Keys(bp)
    ensures InDeclaredOrder(bp, r) && forall k :: k in r <==> k in ready || k == child
  {
    hide Declared, Keys;
    var i := 0;
    while i < |ready| && Declared(bp, ready[i]) <= Declared(bp, child)
      invariant 0 <= i <= |ready| && forall j :: 0 <= j < i ==> Declared(bp, ready[j]) <= Declared(bp, child)
    {
      i := i + 1;
    }
    forall j | 0 <= j < i ensures Declared(bp, ready[j]) != Declared(bp, child) {
      assert ready[j] in ready;
      DeclaredDiffers(bp, ready[j], child);
    }
    r := ready[..i] + [child] + ready[i..];
    assert forall k :: k in ready <==> k in ready[..i] || k in ready[i..];
  }

  lemma {:induction false} DeclaredDiffers(bp: Blueprint, a: string, b: string)
    requires a in Keys(bp) && b in Keys(bp) && a != b
    ensures Declared(bp, a) != Declared(bp, b)
  {
  }

  // ---- the sort -----------------------------------------------------------------------------------

  /** Node `k` can come next: everything it needs is in `done`, itself not yet. */
  ghost predicate CanFollow(bp: Blueprint, done: seq<string>, k: string) {
    k in Keys(bp) && k !in done && forall n :: Edge(bp, n, k) ==> n in done
  }

  /** Each node is the first declared one of those that could come next. */
  ghost predicate FirstDeclaredFirst(bp: Blueprint, order: seq<string>) {
    forall j :: 0 <= j < |order| ==>
      CanFollow(bp, order[..j], order[j]) && forall k :: CanFollow(bp, order[..j], k) ==>
        Declared(bp, order[j]) <= Declared(bp, k)
  }

  ghost predicate Degrees(bp: Blueprint, inDegree: map<string, nat>, order: seq<string>) {
    inDegree.Keys == Keys(bp) && forall k :: k in inDegree ==> inDegree[k] == Outstanding(bp, k, Elements(order))
  }

  /** The ready list holds exactly what can come next, in declared order. */
  ghost predicate ReadyIs(bp: Blueprint, ready: seq<string>, order: seq<string>) {
    InDeclaredOrder(bp, ready) && forall k :: k in ready <==> CanFollow(bp, order, k)
  }

  method StartReady(bp: Blueprint) returns (inDegree: map<string, nat>, ready: seq<string>)
    ensures Degrees(bp, inDegree, []) && ReadyIs(bp, ready, [])
  {
    hide Outstanding, Edge;
    inDegree := map k | k in Keys(bp) :: Outstanding(bp, k, {});
    assert Elements([]) == {};
    ready := [];
    for i := 0 to |bp|
      invariant InDeclaredOrder(bp, ready)
      invariant inDegree.Keys == Keys(bp)
      invariant forall k :: k in ready <==>
        k in inDegree && inDegree[k] == 0 && exists j :: 0 <= j < i && bp[j].key == k
    {
      var k := bp[i].key;
      assert k in Keys(bp);
      if inDegree[k] == 0 && k !in ready {
        ready := InsertReady(bp, ready, k);
      }
    }
    forall k | k in Keys(bp) ensures inDegree[k] == 0 <==> forall n :: Edge(bp, n, k) ==> n in {} {
      NoneOutstanding(bp, k, {});
    }
  }

  /** The degrees with the requirements in `met` already taken off. */
  ghost predicate Owes(bp: Blueprint, inDegree: map<string, nat>, done: set<string>, met: seq<string>) {
    inDegree.Keys == Keys(bp) && forall k :: k in inDegree ==>
      inDegree[k] + multiset(met)[k] == Outstanding(bp, k, done)
  }

  ghost predicate ReadyOf(bp: Blueprint, ready: seq<string>, inDegree: map<string, nat>, order: seq<string>,
                          current: string) {
    InDeclaredOrder(bp, ready) && forall k :: k in ready <==>
      k in inDegree && inDegree[k] == 0 && k !in order && k != current
  }

  /** Takes one requirement off a child, and queues the child when it was the last one. */
  method Discharge(bp: Blueprint, degrees: map<string, nat>, queue: seq<string>, ghost order: seq<string>,
                   ghost current: string, child: string, ghost met: seq<string>)
    returns (inDegree: map<string, nat>, ready: seq<string>)
    requires Owes(bp, degrees, Elements(order), met) && ReadyOf(bp, queue, degrees, order, current) && child in Keys(bp)
    requires Outstanding(bp, child, Elements(order)) > multiset(met)[child] && child !in order && child != current
    ensures Owes(bp, inDegree, Elements(order), met + [child]) && ReadyOf(bp, ready, inDegree, order, current)
  {
    hide Outstanding, Declared, Keys, InDeclaredOrder;
    inDegree, ready := degrees[child := degrees[child] - 1], queue;
    if inDegree[child] == 0 {
      ready := InsertReady(bp, ready, child);
    }
  }

  /** One turn of the loop: the children of `current` lose a requirement for each time they name it. */
  method Finish(bp: Blueprint, degrees: map<string, nat>, rest: seq<string>, ghost order: seq<string>, current: string)
    returns (inDegree: map<string, nat>, ready: seq<string>)
    requires Degrees(bp, degrees, order) && ReadyIs(bp, [current] + rest, order) && NeedsInside(bp, order)
    ensures Degrees(bp, inDegree, order + [current]) && ReadyIs(bp, ready, order + [current])
    ensures NeedsInside(bp, order + [current])
  {
    hide Outstanding, Downstream, Weight, Edge, Declared, Keys, NeedsInside, CanFollow, InDeclaredOrder;
    ghost var done := Elements(order);
    assert Elements(order + [current]) == done + {current};
    CurrentIsNew(bp, rest, order, current);
    NeedsStayInside(bp, order, current);
    NothingOwed(bp, order);
    var children := Downstream(bp, current);
    DownstreamKeys(bp, current);
    inDegree, ready := degrees, rest;
    for i := 0 to |children|
      invariant Owes(bp, inDegree, done, children[..i]) && ReadyOf(bp, ready, inDegree, order, current)
    {
      assert children[i] in children;
      assert children[..i + 1] == children[..i] + [children[i]];
      StillOwed(bp, children, i, current, done);
      ChildIsNotDone(bp, order, current, children[i]);
      inDegree, ready := Discharge(bp, inDegree, ready, order, current, children[i], children[..i]);
    }
    assert children[..|children|] == children;
    forall k | k in inDegree ensures inDegree[k] == Outstanding(bp, k, done + {current}) {
      DownstreamWeight(bp, current, k);
      OutstandingDrops(bp, k, done, current);
    }
    ReadyAfter(bp, inDegree, ready, order, current);
  }

  /** Whatever a listed node needs is listed. */
  ghost predicate NeedsInside(bp: Blueprint, order: seq<string>) {
    forall k, n :: k in order && Edge(bp, n, k) ==> n in order
  }

  lemma NeedsStayInside(bp: Blueprint, order: seq<string>, current: string)
    requires NeedsInside(bp, order) && CanFollow(bp, order, current)
    ensures NeedsInside(bp, order + [current])
  {
  }

  lemma {:induction false} NothingOwed(bp: Blueprint, order: seq<string>)
    requires NeedsInside(bp, order)
    ensures forall k :: k in order ==> Outstanding(bp, k, Elements(order)) == 0
  {
    hide Edge, Outstanding;
    forall k | k in order ensures Outstanding(bp, k, Elements(order)) == 0 { NoneOutstanding(bp, k, Elements(order)); }
  }

  lemma {:induction false} CurrentIsNew(bp: Blueprint, rest: seq<string>, order: seq<string>, current: string)
    requires ReadyIs(bp, [current] + rest, order)
    ensures CanFollow(bp, order, current) && current !in Elements(order) && current !in rest
    ensures InDeclaredOrder(bp, rest)
    ensures forall k :: k in rest <==>
      k in Keys(bp) && k != current && k !in order && Outstanding(bp, k, Elements(order)) == 0
  {
    hide Edge, Keys, Declared;
    var ready := [current] + rest;
    assert current == ready[0];
    assert forall i :: 0 <= i < |rest| ==> rest[i] == ready[i + 1];
    forall k
      ensures k in rest <==> k in Keys(bp) && k != current && k !in order && Outstanding(bp, k, Elements(order)) == 0
    {
      NoneOutstanding(bp, k, Elements(order));
      assert k in ready <==> k == current || k in rest;
    }
  }

  /** A child yet to be looked at still has the requirement that will be taken off. */
  lemma {:induction false} StillOwed(bp: Blueprint, children: seq<string>, i: nat, current: string, done: set<string>)
    requires children == Downstream(bp, current) && i < |children| && current !in done
    ensures Outstanding(bp, children[i], done) > multiset(children[..i])[children[i]]
  {
    hide Downstream, Outstanding, Weight;
    var child := children[i];
    DownstreamWeight(bp, current, child);
    OutstandingDrops(bp, child, done, current);
    assert children == children[..i] + [child] + children[i + 1..];
  }

  lemma {:induction false} ChildIsNotDone(bp: Blueprint, order: seq<string>, current: string, child: string)
    requires Outstanding(bp, child, Elements(order)) > 0 && CanFollow(bp, order, current)
    requires forall k :: k in order ==> Outstanding(bp, k, Elements(order)) == 0
    ensures child !in order && child != current
  {
    hide Outstanding, Edge;
    NoneOutstanding(bp, current, Elements(order));
  }

  lemma {:induction false} ReadyAfter(bp: Blueprint, inDegree: map<string, nat>, ready: seq<string>,
                                      order: seq<string>, current: string)
    requires inDegree.Keys == Keys(bp) && InDeclaredOrder(bp, ready)
    requires forall k :: k in inDegree ==> inDegree[k] == Outstanding(bp, k, Elements(order + [current]))
    requires forall k :: k in ready <==> k in inDegree && inDegree[k] == 0 && k !in order && k != current
    ensures ReadyIs(bp, ready, order + [current])
  {
    hide Outstanding, Edge, Keys, Declared;
    var more := order + [current];
    forall k ensures k in ready <==> CanFollow(bp, more, k) {
      NoneOutstanding(bp, k, Elements(more));
      assert k in more <==> k in order || k == current;
    }
  }

  // ---- cycles ---------------------------------------------------------------------------------------

  /** The ancestors of `x` inside `stuck`. */
  ghost function AncestorsIn(bp: Blueprint, stuck: set<string>, x: string): set<string> {
    set a | a in stuck && Ancestor(bp, a, x)
  }

  /** Every stuck node waits for another stuck node. */
  ghost predicate AllStuck(bp: Blueprint, stuck: set<string>) {
    forall x :: x in stuck ==> exists n :: n in stuck && Edge(bp, n, x)
  }

  lemma FewerAncestors(bp: Blueprint, stuck: set<string>, n: string, x: string)
    requires n in stuck && Edge(bp, n, x) && !Ancestor(bp, n, n)
    ensures |AncestorsIn(bp, stuck, n)| < |AncestorsIn(bp, stuck, x)|
  {
    hide Descendant, Edge, Ancestor;
    AncestorStep(bp, n, x, x);
    assert n in AncestorsIn(bp, stuck, x) && n !in AncestorsIn(bp, stuck, n);
    forall b | b in AncestorsIn(bp, stuck, n) ensures b in AncestorsIn(bp, stuck, x) { AncestorOfNeed(bp, b, n, x); }
    SubsetSize(AncestorsIn(bp, stuck, n), AncestorsIn(bp, stuck, x));
  }

  /** Among nodes that all wait for one another some lie on a cycle: follow requirements while the set of ancestors
      shrinks; where it does not, the requirement is its own ancestor. */
  lemma {:induction false} StuckOnCycle(bp: Blueprint, stuck: set<string>, x: string) returns (a: string)
    requires AllStuck(bp, stuck) && x in stuck
    ensures a in stuck && OnCycle(bp, a)
    decreases |AncestorsIn(bp, stuck, x)|
  {
    hide Descendant, Edge, Ancestor, AncestorsIn;
    var n :| n in stuck && Edge(bp, n, x);
    if Ancestor(bp, n, n) {
      a := n;
    } else {
      FewerAncestors(bp, stuck, n, x);
      a := StuckOnCycle(bp, stuck, n);
    }
  }

  lemma AncestorOfNeed(bp: Blueprint, b: string, n: string, x: string)
    requires Ancestor(bp, b, n) && Edge(bp, n, x)
    ensures Ancestor(bp, b, x)
  {
    hide Descendant;
    ChildIsDescendant(bp, {b}, n, x);
  }

  lemma DistinctSplit(bp: Blueprint)
    requires bp != []
    ensures var init := bp[..|bp| - 1]; DistinctKeys(bp) <==> DistinctKeys(init) && bp[|bp| - 1].key !in Keys(init)
  {
  }

  /** No key is declared twice exactly when there are as many keys as nodes. */
  lemma {:induction false} KeysCount(bp: Blueprint)
    ensures |Keys(bp)| <= |bp| && (|Keys(bp)| == |bp| <==> DistinctKeys(bp))
  {
    if bp == [] {
      assert Keys(bp) == {};
    } else {
      KeysGrow(bp);
      DistinctSplit(bp);
      hide Keys, DistinctKeys;
      KeysCount(bp[..|bp| - 1]);
    }
  }

  lemma KeysGrow(bp: Blueprint)
    requires bp != []
    ensures var init := bp[..|bp| - 1]; Keys(bp) == Keys(init) + {bp[|bp| - 1].key}
  {
  }

  /** `WorkflowGraph._topological`: refuses unknown requirements, and otherwise finds the order exactly when no key is
      declared twice and nothing depends on itself. The order starts with nodes that need nothing, goes on with nodes
      whose needs are met, and takes the first declared one whenever several could come next. */
  method TopologicalOrder(bp: Blueprint) returns (r: Result<seq<string>>)
    ensures r.Ok? <==> RequirementsKnown(bp) && DistinctKeys(bp) && forall a :: !OnCycle(bp, a)
    ensures r.Ok? ==> Topological(bp, r.value) && FirstDeclaredFirst(bp, r.value)
    ensures r.Err? ==> r.error == ValueError
  {
    hide OnCycle, Edge, Declared, Keys, RequirementsKnown, DistinctKeys;
    var known := AllKnown(bp);
    if !known { return Err(ValueError); }
    var inDegree, ready := StartReady(bp);
    var order: seq<string> := [];
    while ready != []
      invariant Degrees(bp, inDegree, order) && ReadyIs(bp, ready, order) && NeedsInside(bp, order)
      invariant Distinct(order) && Elements(order) <= Keys(bp) && FirstDeclaredFirst(bp, order)
      decreases Keys(bp) - Elements(order)
    {
      var current := ready[0];
      assert [current] + ready[1..] == ready;
      Appended(bp, ready, order);
      inDegree, ready := Finish(bp, inDegree, ready[1..], order, current);
      order := order + [current];
    }
    SequenceSize(order);
    KeysCount(bp);
    if |order| != |bp| {
      NoOrder(bp, order);
      return Err(ValueError);
    }
    Sorted(bp, order);
    r := Ok(order);
  }

  method AllKnown(bp: Blueprint) returns (known: bool)
    ensures known == RequirementsKnown(bp)
  {
    var keys := Keys(bp);
    for i := 0 to |bp|
      invariant forall j, n :: 0 <= j < i && n in bp[j].needs ==> n in keys
    {
      for q := 0 to |bp[i].needs|
        invariant forall p :: 0 <= p < q ==> bp[i].needs[p] in keys
      {
        if bp[i].needs[q] !in keys { return false; }
      }
    }
    known := true;
  }

  lemma {:induction false} OrderExtends(bp: Blueprint, order: seq<string>, current: string)
    requires FirstDeclaredFirst(bp, order) && CanFollow(bp, order, current)
    requires forall k :: CanFollow(bp, order, k) ==> Declared(bp, current) <= Declared(bp, k)
    ensures FirstDeclaredFirst(bp, order + [current])
  {
    hide CanFollow, Declared;
    var more := order + [current];
    forall j | 0 <= j < |more|
      ensures CanFollow(bp, more[..j], more[j]) && forall k :: CanFollow(bp, more[..j], k) ==>
        Declared(bp, more[j]) <= Declared(bp, k)
    {
      if j < |order| { assert more[..j] == order[..j] && more[j] == order[j]; } else { assert more[..j] == order; }
    }
  }

  lemma {:induction false} FirstIsReady(bp: Blueprint, ready: seq<string>, order: seq<string>)
    requires ready != [] && ReadyIs(bp, ready, order)
    ensures CanFollow(bp, order, ready[0]) && forall k :: CanFollow(bp, order, k) ==>
      Declared(bp, ready[0]) <= Declared(bp, k)
  {
  }

  lemma Appended(bp: Blueprint, ready: seq<string>, order: seq<string>)
    requires ready != [] && ReadyIs(bp, ready, order) && Distinct(order) && Elements(order) <= Keys(bp)
    requires FirstDeclaredFirst(bp, order)
    ensures var more := order + [ready[0]];
      && Distinct(more) && Elements(order) < Elements(more) <= Keys(bp) && FirstDeclaredFirst(bp, more)
  {
    FirstIsReady(bp, ready, order);
    OrderExtends(bp, order, ready[0]);
    hide Edge, Keys, FirstDeclaredFirst, ReadyIs, Declared;
    var more := order + [ready[0]];
    assert Elements(more) == Elements(order) + {ready[0]} && ready[0] !in Elements(order);
  }

  lemma Leftover(a: set<string>, b: set<string>) returns (x: string)
    requires a <= b && |a| != |b|
    ensures x in b - a
  {
    assert a != b;
    x :| x in b && x !in a;
  }

  /** When the ready list runs dry early, a key is declared twice or some node lies on a cycle. */
  lemma NoOrder(bp: Blueprint, order: seq<string>)
    requires ReadyIs(bp, [], order) && RequirementsKnown(bp) && Distinct(order) && Elements(order) <= Keys(bp)
    requires |order| != |bp|
    requires |Elements(order)| == |order| && (|Keys(bp)| == |bp| <==> DistinctKeys(bp))
    ensures DistinctKeys(bp) ==> exists a :: OnCycle(bp, a)
  {
    hide OnCycle, Keys, DistinctKeys;
    if DistinctKeys(bp) {
      var stuck := Keys(bp) - Elements(order);
      var x := Leftover(Elements(order), Keys(bp));
      forall y | y in stuck ensures exists n :: n in stuck && Edge(bp, n, y) {
        assert !CanFollow(bp, order, y);
        var n :| Edge(bp, n, y) && n !in order;
        assert n in Keys(bp);
      }
      var a := StuckOnCycle(bp, stuck, x);
    }
  }

  /** A full order is topological, and rules out duplicates and cycles. */
  lemma Sorted(bp: Blueprint, order: seq<string>)
    requires Distinct(order) && Elements(order) <= Keys(bp) && |order| == |bp| && FirstDeclaredFirst(bp, order)
    requires |Elements(order)| == |order| && |Keys(bp)| <= |bp| && (|Keys(bp)| == |bp| <==> DistinctKeys(bp))
    ensures Topological(bp, order) && DistinctKeys(bp) && forall a :: !OnCycle(bp, a)
  {
    hide Edge, Declared, OnCycle, Keys, DistinctKeys;
    SubsetSize(Elements(order), Keys(bp));
    assert AfterNeeds(bp, order);
    forall a ensures !OnCycle(bp, a) {
      if a in order { OrderExcludesCycles(bp, order, a); } else { OutsideNoCycle(bp, a); }
    }
  }

  lemma OutsideNoCycle(bp: Blueprint, a: string)
    requires a !in Keys(bp)
    ensures !OnCycle(bp, a)
  {
    hide Descendant, Keys;
    if OnCycle(bp, a) { DescendantIsNode(bp, {a}, a); }
  }
}
