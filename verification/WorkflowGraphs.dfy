/** Scheduling over a workflow blueprint: which nodes may run next. */
module WorkflowGraphs {
  import opened Outcomes
  import opened States
  import opened Sessions
  import opened Graphs
  import opened Revisions

  /** Every node once, each after everything it needs. */
  ghost predicate Topological(bp: Blueprint, order: seq<string>) {
    && (forall k :: k in order <==> k in Keys(bp))
    && (forall i, j :: 0 <= i < j < |order| ==> order[i] != order[j])
    && (forall j, r :: 0 <= j < |order| && Edge(bp, r, order[j]) ==> r in order[..j])
  }

  predicate IsReady(bp: Blueprint, nodes: seq<Node>, key: string) {
    && (var p := Find(nodes, key); p.Some? && nodes[p.value].status == NodeQueued)
    && forall i :: 0 <= i < |bp| && bp[i].key == key ==> forall r :: r in bp[i].needs ==> IsCompleted(nodes, r)
  }

  /** `ready_nodes`: queued nodes all of whose requirements are completed, in topological order. */
  function ReadyNodes(bp: Blueprint, order: seq<string>, nodes: seq<Node>): (r: seq<string>)
    ensures forall k :: k in r <==> k in order && IsReady(bp, nodes, k)
  {
    if order == [] then []
    else
      ReadyNodes(bp, order[..|order| - 1], nodes)
      + if IsReady(bp, nodes, order[|order| - 1]) then [order[|order| - 1]] else []
  }

  /** The node is queued, and everything it requires is completed. */
  ghost predicate CanRun(bp: Blueprint, nodes: seq<Node>, key: string) {
    && (exists p :: 0 <= p < |nodes| && nodes[p].key == key && nodes[p].status == NodeQueued)
    && forall r :: Edge(bp, r, key) ==> IsCompleted(nodes, r)
  }

  lemma ReadyIff(bp: Blueprint, nodes: seq<Node>, key: string)
    requires UniqueKeys(nodes)
    ensures IsReady(bp, nodes, key) <==> CanRun(bp, nodes, key)
  {
    forall p | 0 <= p < |nodes| { FindUnique(nodes, p); }
    hide Find, IsCompleted;
    if CanRun(bp, nodes, key) {
      forall i, r | 0 <= i < |bp| && bp[i].key == key && r in bp[i].needs ensures IsCompleted(nodes, r) {
        assert Edge(bp, r, key);
      }
    }
  }

  /** The first ready node is the first in the order that can run. */
  ghost predicate FirstToRun(bp: Blueprint, order: seq<string>, nodes: seq<Node>, key: string) {
    exists j :: 0 <= j < |order| && order[j] == key && CanRun(bp, nodes, key)
      && forall i :: 0 <= i < j ==> !CanRun(bp, nodes, order[i])
  }

  /** Ready are exactly the nodes of the order that can run, the first of them in front. */
  lemma {:induction false} ReadyExactly(bp: Blueprint, order: seq<string>, nodes: seq<Node>)
    requires UniqueKeys(nodes)
    ensures forall k :: k in ReadyNodes(bp, order, nodes) <==> k in order && CanRun(bp, nodes, k)
    ensures ReadyNodes(bp, order, nodes) != [] ==> FirstToRun(bp, order, nodes, ReadyNodes(bp, order, nodes)[0])
  {
    hide CanRun, IsReady;
    forall k ensures IsReady(bp, nodes, k) <==> CanRun(bp, nodes, k) { ReadyIff(bp, nodes, k); }
    if order != [] {
      var init := order[..|order| - 1];
      ReadyExactly(bp, init, nodes);
      if ReadyNodes(bp, init, nodes) != [] {
        var key := ReadyNodes(bp, init, nodes)[0];
        var j :| 0 <= j < |init| && init[j] == key && forall i :: 0 <= i < j ==> !CanRun(bp, nodes, init[i]);
        assert order[j] == key && forall i :: 0 <= i < j ==> order[i] == init[i];
      } else if IsReady(bp, nodes, order[|init|]) {
        assert forall i :: 0 <= i < |init| ==> init[i] in init && order[i] == init[i];
      }
    }
  }

  lemma NeedsComeEarlier(bp: Blueprint, order: seq<string>, j: nat)
    requires Topological(bp, order) && j < |order|
    ensures forall i :: 0 <= i < |bp| && bp[i].key == order[j] ==> forall r :: r in bp[i].needs ==> r in order[..j]
  {
  }

  /** Every node of the workflow is there, and queued or completed. */
  ghost predicate Unhindered(bp: Blueprint, nodes: seq<Node>) {
    forall k :: k in Keys(bp) ==> var p := Find(nodes, k);
      p.Some? && nodes[p.value].status in {NodeQueued, NodeCompleted}
  }

  /** When nothing is ready although every node of the workflow is queued or completed, all of them are completed. */
  lemma {:induction false} NothingReady(bp: Blueprint, order: seq<string>, nodes: seq<Node>, j: nat)
    requires Topological(bp, order) && ReadyNodes(bp, order, nodes) == [] && Unhindered(bp, nodes)
    requires j <= |order|
    ensures forall i :: 0 <= i < j ==> IsCompleted(nodes, order[i])
  {
    hide Find, Keys;
    if j > 0 {
      NothingReady(bp, order, nodes, j - 1);
      var k := order[j - 1];
      assert k in order && !IsReady(bp, nodes, k);
      var p := Find(nodes, k).value;
      NeedsComeEarlier(bp, order, j - 1);
      assert nodes[p].status == NodeCompleted ==> IsCompleted(nodes, k);
      hide IsCompleted;
      assert forall r :: r in order[..j - 1] ==> IsCompleted(nodes, r);
    }
  }

  /** With nothing ready, the workflow is completed if and only if every node is queued or completed. */
  lemma {:induction false} CompletedIff(bp: Blueprint, order: seq<string>, nodes: seq<Node>)
    requires Topological(bp, order) && UniqueKeys(nodes) && ReadyNodes(bp, order, nodes) == []
    ensures (forall k :: k in Keys(bp) ==> IsCompleted(nodes, k)) <==> Unhindered(bp, nodes)
  {
    hide Find, Keys, ReadyNodes;
    if Unhindered(bp, nodes) {
      NothingReady(bp, order, nodes, |order|);
      forall k | k in Keys(bp) ensures IsCompleted(nodes, k) { assert k in order; }
    }
    if forall k :: k in Keys(bp) ==> IsCompleted(nodes, k) {
      forall k | k in Keys(bp)
        ensures var p := Find(nodes, k); p.Some? && nodes[p.value].status in {NodeQueued, NodeCompleted}
      {
        var p :| 0 <= p < |nodes| && nodes[p].key == k && nodes[p].status == NodeCompleted;
        FindUnique(nodes, p);
      }
    }
  }

  /** A queue of fresh nodes that is not empty always has a node to start with. */
  lemma {:induction false} SomethingReady(bp: Blueprint, order: seq<string>, nodes: seq<Node>)
    requires Topological(bp, order) && order != [] && UniqueKeys(nodes)
    requires forall k :: k in order ==> Find(nodes, k).Some?
    requires forall p :: 0 <= p < |nodes| ==> nodes[p].status == NodeQueued
    ensures ReadyNodes(bp, order, nodes) != []
  {
    hide Find, Keys, IsCompleted, ReadyNodes;
    assert order[0] in order;
    NeedsComeEarlier(bp, order, 0);
    assert forall r :: r !in order[..0];
    assert IsReady(bp, nodes, order[0]);
    assert order[0] in ReadyNodes(bp, order, nodes);
  }
}
