/** Live revision of a running workflow: which nodes are requeued, which go stale, and what stays. */
module Revisions {
  import opened Outcomes
  import opened Ordering
  import opened States
  import opened Sessions
  import opened Graphs

  datatype Revision = Revision(current: Blueprint, revised: Blueprint, changed: seq<string>)

  // ---- the intended result -----------------------------------------------------------

  ghost function Added(rev: Revision): set<string> { Keys(rev.revised) - Keys(rev.current) }

  ghost function Removed(rev: Revision): set<string> { Keys(rev.current) - Keys(rev.revised) }

  function Changed(rev: Revision): set<string> { set k | k in rev.changed }

  /** The changed nodes, and everything downstream of what changed or went away. */
  ghost function Requeue(rev: Revision): set<string> {
    Changed(rev) + Descendants(rev.current, Changed(rev) + Removed(rev)) - Removed(rev)
  }

  predicate ValidRevision(rev: Revision) {
    && ValidBlueprint(rev.current) && ValidBlueprint(rev.revised)
    && Changed(rev) <= Keys(rev.current) * Keys(rev.revised)
  }

  /** A node the revision has to touch is in a status it must not be taken out of. */
  ghost predicate Blocks(n: Node, rev: Revision) {
    || (n.key in Added(rev) + Requeue(rev) && n.status in {NodeRunning, NodeFailed})
    || (n.key in Removed(rev) && n.status in {NodeRunning, PendingGate, NodeFailed})
  }

  /** A pending gate is left to its decision; every other touched node starts over or goes stale. */
  ghost function RevisedNode(n: Node, rev: Revision): Node {
    if n.key in Added(rev) + Requeue(rev) then (if n.status == PendingGate then n else n.(status := NodeQueued))
    else if n.key in Removed(rev) then n.(status := Stale)
    else n
  }

  ghost predicate Blocked(nodes: seq<Node>, rev: Revision) {
    exists p :: 0 <= p < |nodes| && Blocks(nodes[p], rev)
  }

  ghost function RevisedNodes(nodes: seq<Node>, rev: Revision): (r: seq<Node>)
    ensures |r| == |nodes| && forall p :: 0 <= p < |nodes| ==> r[p] == RevisedNode(nodes[p], rev)
  {
    seq(|nodes|, p requires 0 <= p < |nodes| => RevisedNode(nodes[p], rev))
  }

  /** The nodes the session knows about, and a fresh one for every added key it does not. */
  ghost function WithAdded(s: Session, rev: Revision): (r: seq<Node>)
    ensures |s.nodes| <= |r|
  {
    AppendNew(s.nodes, Sorted(Added(rev)))
  }

  ghost function Revised(s: Session, rev: Revision): Result<Session> {
    if !ValidRevision(rev) then Err(ValueError)
    else if Blocked(s.nodes, rev) then Err(InvalidTransition)
    else Ok(s.(nodes := RevisedNodes(WithAdded(s, rev), rev)))
  }

  // ---- the stepwise form ---------------------------------------------------------------

  /** `requeue_node_for_revision`. */
  function RequeuedForRevision(n: Node): (r: Result<Node>)
    ensures r == if n.status in {NodeRunning, NodeFailed} then Err(InvalidTransition)
                 else Ok(if n.status == PendingGate then n else n.(status := NodeQueued))
  {
    if n.status == NodeQueued then Ok(n)
    else if n.status == NodeRunning then Err(InvalidTransition)
    else if n.status == PendingGate then Ok(n)
    else if n.status == NodeFailed then Err(InvalidTransition)
    else if n.status == NeedsRevision then Moved(n, NodeQueued)
    else
      var stale := if n.status != Stale then Moved(n, Stale) else Ok(n);
      if stale.Err? then stale else Moved(stale.value, NodeQueued)
  }

  /** `mark_node_stale_for_revision`. */
  function StaledForRevision(n: Node): (r: Result<Node>)
    ensures r == if n.status in {NodeRunning, PendingGate, NodeFailed} then Err(InvalidTransition)
      else Ok(n.(status := Stale))
  {
    if n.status == Stale then Ok(n)
    else if n.status in {NodeRunning, PendingGate} then Err(InvalidTransition)
    else
      var queued := if n.status == NeedsRevision then Moved(n, NodeQueued) else Ok(n);
      if queued.Err? || queued.value.status == NodeFailed then Err(InvalidTransition) else Moved(queued.value, Stale)
  }

  /** The change leaves the key alone, or refuses the move. */
  ghost predicate KeepsKey(change: Node -> Result<Node>) {
    forall n :: if change(n).Ok? then change(n).value.key == n.key else change(n).error == InvalidTransition
  }

  lemma RevisionKeepsKeys()
    ensures KeepsKey(RequeuedForRevision) && KeepsKey(StaledForRevision)
  {
  }

  /** The nodes with a key in `keys`, changed; the others as they were. */
  ghost predicate ChangedWhere(before: seq<Node>, after: seq<Node>, keys: set<string>, change: Node -> Result<Node>) {
    |after| == |before|
    && forall p :: 0 <= p < |before| ==> if before[p].key in keys then change(before[p]) == Ok(after[p])
      else after[p] == before[p]
  }

  ghost predicate Refused(nodes: seq<Node>, keys: set<string>, change: Node -> Result<Node>) {
    exists p :: 0 <= p < |nodes| && nodes[p].key in keys && change(nodes[p]) == Err(InvalidTransition)
  }

  /** `for key in sorted(keys)`: change the node if the session has it. */
  method ForEachKey(nodes: seq<Node>, keys: set<string>, change: Node -> Result<Node>) returns (r: Result<seq<Node>>)
    requires UniqueKeys(nodes) && KeepsKey(change)
    ensures r.Ok? ==> ChangedWhere(nodes, r.value, keys, change)
    ensures r.Err? ==> r.error == InvalidTransition && Refused(nodes, keys, change)
  {
    hide Sorted, Find;
    var order := Sorted(keys);
    var current := nodes;
    for k := 0 to |order|
      invariant ChangedWhere(nodes, current, Pick(order, k), change)
    {
      SortedDistinct(keys, k);
      assert Pick(order, k + 1) == Pick(order, k) + {order[k]};
      var p := Find(current, order[k]);
      if p.Some? {
        var n := change(current[p.value]);
        if n.Err? { return Err(n.error); }
        current := current[p.value := n.value];
      }
    }
    assert Pick(order, |order|) == keys;
    r := Ok(current);
  }

  function Pick(order: seq<string>, k: nat): set<string>
    requires k <= |order|
  {
    set i | 0 <= i < k :: order[i]
  }

  lemma {:induction false} SortedDistinct(keys: set<string>, k: nat)
    requires k < |Sorted(keys)|
    ensures Sorted(keys)[k] !in Pick(Sorted(keys), k)
  {
    hide Sorted;
    SortedAscends(keys);
  }

  lemma {:induction false} FindSameKeys(before: seq<Node>, after: seq<Node>, k: string)
    requires |before| == |after| && forall p :: 0 <= p < |before| ==> before[p].key == after[p].key
    ensures Find(before, k) == Find(after, k)
  {
  }

  /** `for key in sorted(added)`: requeue the node if the session has it, create it otherwise. */
  method RequeueOrCreate(nodes: seq<Node>, keys: set<string>) returns (r: Result<seq<Node>>)
    requires UniqueKeys(nodes)
    ensures r.Ok? ==> ChangedWhere(AppendNew(nodes, Sorted(keys)), r.value, keys, RequeuedForRevision)
    ensures r.Err? ==> r.error == InvalidTransition && Refused(nodes, keys, RequeuedForRevision)
  {
    hide Sorted, Find, AppendNew, RequeuedForRevision;
    var order := Sorted(keys);
    var current := nodes;
    AppendNone(nodes);
    for k := 0 to |order|
      invariant ChangedWhere(AppendNew(nodes, order[..k]), current, Pick(order, k), RequeuedForRevision)
    {
      SortedDistinct(keys, k);
      assert Pick(order, k + 1) == Pick(order, k) + {order[k]};
      ghost var grown := AppendNew(nodes, order[..k]);
      AppendOne(nodes, order, k);
      AppendNewUnique(nodes, order[..k]);
      FindSameKeys(grown, current, order[k]);
      var p := Find(current, order[k]);
      if p.Some? {
        var n := RequeuedForRevision(current[p.value]);
        if n.Err? {
          RefusedIsOld(nodes, order[..k], p.value);
          return Err(n.error);
        }
        current := current[p.value := n.value];
      } else {
        current := current + [FreshNode(order[k])];
      }
    }
    assert Pick(order, |order|) == keys && order[..|order|] == order;
    r := Ok(current);
  }

  lemma {:induction false} AppendNone(nodes: seq<Node>)
    ensures AppendNew(nodes, []) == nodes
  {
  }

  lemma {:induction false} AppendOne(nodes: seq<Node>, order: seq<string>, k: nat)
    requires k < |order|
    ensures var earlier := AppendNew(nodes, order[..k]);
      AppendNew(nodes, order[..k + 1]) == if Find(earlier, order[k]).Some? then earlier
        else earlier + [FreshNode(order[k])]
  {
    assert order[..k + 1][..k] == order[..k];
  }

  /** Only a node the session already had can refuse to be requeued. */
  lemma {:induction false} RefusedIsOld(nodes: seq<Node>, keys: seq<string>, p: nat)
    requires p < |AppendNew(nodes, keys)| && RequeuedForRevision(AppendNew(nodes, keys)[p]).Err?
    ensures p < |nodes| && AppendNew(nodes, keys)[p] == nodes[p]
  {
  }

  lemma WithAddedTail(s: Session, rev: Revision, p: nat)
    requires p < |WithAdded(s, rev)|
    ensures p < |s.nodes| ==> WithAdded(s, rev)[p] == s.nodes[p]
    ensures p >= |s.nodes| ==>
      WithAdded(s, rev)[p] == FreshNode(WithAdded(s, rev)[p].key) && WithAdded(s, rev)[p].key in Added(rev)
  {
  }

  /** No key is touched twice. */
  lemma TouchedOnce(rev: Revision)
    requires ValidRevision(rev)
    ensures Added(rev) !! Removed(rev) && Requeue(rev) <= Keys(rev.current) - Removed(rev)
  {
  }

  lemma KeysKept(before: seq<Node>, after: seq<Node>, keys: set<string>, change: Node -> Result<Node>)
    requires ChangedWhere(before, after, keys, change) && KeepsKey(change) && UniqueKeys(before)
    ensures UniqueKeys(after)
  {
  }

  lemma FirstRefusal(s: Session, rev: Revision)
    requires Refused(s.nodes, Added(rev), RequeuedForRevision)
    ensures Blocked(s.nodes, rev)
  {
  }

  /** A node that was not added is the session's own. */
  lemma BlockedAt(s: Session, rev: Revision, p: nat)
    requires p < |WithAdded(s, rev)| && WithAdded(s, rev)[p].key !in Added(rev) && Blocks(WithAdded(s, rev)[p], rev)
    ensures Blocked(s.nodes, rev)
  {
    hide Blocks, WithAdded, Added;
    WithAddedTail(s, rev, p);
  }

  lemma SecondRefusal(s: Session, rev: Revision, first: seq<Node>)
    requires ValidRevision(rev)
    requires ChangedWhere(WithAdded(s, rev), first, Added(rev), RequeuedForRevision)
    requires Refused(first, Removed(rev), StaledForRevision)
    ensures Blocked(s.nodes, rev)
  {
    AddedNotRequeued(rev);
    hide Added, Removed, Requeue, WithAdded, ValidRevision, RequeuedForRevision, Blocks;
    var p :| 0 <= p < |first| && first[p].key in Removed(rev) && StaledForRevision(first[p]) == Err(InvalidTransition);
    hide StaledForRevision;
    PassRefused(rev, WithAdded(s, rev)[p], first[p], first[p]);
    BlockedAt(s, rev, p);
  }

  lemma ThirdRefusal(s: Session, rev: Revision, first: seq<Node>, second: seq<Node>)
    requires ValidRevision(rev)
    requires ChangedWhere(WithAdded(s, rev), first, Added(rev), RequeuedForRevision)
    requires ChangedWhere(first, second, Removed(rev), StaledForRevision)
    requires Refused(second, Requeue(rev), RequeuedForRevision)
    ensures Blocked(s.nodes, rev)
  {
    AddedNotRequeued(rev);
    hide Added, Removed, Requeue, WithAdded, ValidRevision, StaledForRevision, Blocks;
    var p :| 0 <= p < |second| && second[p].key in Requeue(rev)
      && RequeuedForRevision(second[p]) == Err(InvalidTransition);
    hide RequeuedForRevision;
    PassRefused(rev, WithAdded(s, rev)[p], first[p], second[p]);
    BlockedAt(s, rev, p);
  }

  /** A node refused by the second or third pass reached it unchanged. */
  lemma PassRefused(rev: Revision, n: Node, n1: Node, n2: Node)
    requires Added(rev) !! Removed(rev) && Requeue(rev) !! Removed(rev) && Requeue(rev) !! Added(rev)
    requires if n.key in Added(rev) then RequeuedForRevision(n) == Ok(n1) else n1 == n
    requires || (n1.key in Removed(rev) && StaledForRevision(n1) == Err(InvalidTransition))
             || ((if n1.key in Removed(rev) then StaledForRevision(n1) == Ok(n2) else n2 == n1)
                 && n2.key in Requeue(rev) && RequeuedForRevision(n2) == Err(InvalidTransition))
    ensures n.key !in Added(rev) && Blocks(n, rev)
  {
  }

  lemma AddedNotRequeued(rev: Revision)
    requires ValidRevision(rev)
    ensures Added(rev) !! Removed(rev) && Requeue(rev) !! Removed(rev) && Requeue(rev) !! Added(rev)
  {
  }

  /** `apply_workflow_revision`: three passes over the touched keys amount to the intended result, and the only moves
      ever refused are the ones out of an active or failed status. */
  method ApplyRevision(s: Session, rev: Revision) returns (r: Result<Session>)
    requires UniqueKeys(s.nodes)
    ensures r == Revised(s, rev)
  {
    hide AppendNew, Sorted, Descendants, Descendant, ChangedWhere, Refused, Blocked, RevisedNodes, UniqueKeys, KeepsKey;
    RevisionKeepsKeys();
    if !ValidRevision(rev) { return Err(ValueError); }
    hide ValidRevision;
    var removed := Keys(rev.current) - Keys(rev.revised);
    var added := Keys(rev.revised) - Keys(rev.current);
    var descendants := DescendantKeys(rev.current, Changed(rev) + removed, Sorted(Changed(rev) + removed));
    var requeue := Changed(rev) + descendants - removed;
    assert added == Added(rev) && removed == Removed(rev) && requeue == Requeue(rev);
    hide Added, Removed, Requeue;
    AppendNewUnique(s.nodes, Sorted(added));
    var first := RequeueOrCreate(s.nodes, added);
    if first.Err? {
      FirstRefusal(s, rev);
      return Err(first.error);
    }
    KeysKept(WithAdded(s, rev), first.value, added, RequeuedForRevision);
    var second := ForEachKey(first.value, removed, StaledForRevision);
    if second.Err? {
      SecondRefusal(s, rev, first.value);
      return Err(second.error);
    }
    KeysKept(first.value, second.value, removed, StaledForRevision);
    var third := ForEachKey(second.value, requeue, RequeuedForRevision);
    if third.Err? {
      ThirdRefusal(s, rev, first.value, second.value);
      return Err(third.error);
    }
    PassesCompose(s, rev, first.value, second.value, third.value);
    r := Ok(s.(nodes := third.value));
  }

  lemma PassesComposeAt(rev: Revision, n: Node, n1: Node, n2: Node, n3: Node)
    requires Added(rev) !! Removed(rev) && Requeue(rev) !! Removed(rev) && Requeue(rev) !! Added(rev)
    requires if n.key in Added(rev) then RequeuedForRevision(n) == Ok(n1) else n1 == n
    requires if n1.key in Removed(rev) then StaledForRevision(n1) == Ok(n2) else n2 == n1
    requires if n2.key in Requeue(rev) then RequeuedForRevision(n2) == Ok(n3) else n3 == n2
    ensures n3 == RevisedNode(n, rev) && !Blocks(n, rev)
  {
  }

  lemma PassesCompose(s: Session, rev: Revision, first: seq<Node>, second: seq<Node>, third: seq<Node>)
    requires ValidRevision(rev)
    requires ChangedWhere(WithAdded(s, rev), first, Added(rev), RequeuedForRevision)
    requires ChangedWhere(first, second, Removed(rev), StaledForRevision)
    requires ChangedWhere(second, third, Requeue(rev), RequeuedForRevision)
    ensures third == RevisedNodes(WithAdded(s, rev), rev) && !Blocked(s.nodes, rev)
  {
    TouchedOnce(rev);
    hide AppendNew, Sorted, Requeue, Added, Removed, ValidRevision, RequeuedForRevision, StaledForRevision, WithAdded;
    var nodes := WithAdded(s, rev);
    forall p | 0 <= p < |nodes| ensures third[p] == RevisedNode(nodes[p], rev) && !Blocks(nodes[p], rev) {
      PassesComposeAt(rev, nodes[p], first[p], second[p], third[p]);
    }
    forall p | 0 <= p < |s.nodes| ensures !Blocks(s.nodes[p], rev) {
      WithAddedTail(s, rev, p);
    }
  }

  // ---- what exactly is touched --------------------------------------------------------------

  predicate InBoth(rev: Revision, k: string) { k in Keys(rev.current) && k in Keys(rev.revised) }

  /** The node is kept, and was listed as changed, or depends in the current workflow, directly or not, on a node that
      was listed as changed or is removed. */
  ghost predicate Concerned(rev: Revision, k: string) {
    InBoth(rev, k) && (k in rev.changed || exists root ::
      StartsRevision(rev, root) && Descendant(rev.current, {root}, k))
  }

  predicate StartsRevision(rev: Revision, k: string) {
    k in rev.changed || (k in Keys(rev.current) && k !in Keys(rev.revised))
  }

  lemma DescendantOfOne(bp: Blueprint, roots: set<string>, k: string)
    ensures Descendant(bp, roots, k) <==> exists root :: root in roots && Descendant(bp, {root}, k)
  {
    if Descendant(bp, roots, k) {
      var path :| Path(bp, path) && |path| >= 2 && path[0] in roots && path[|path| - 1] == k;
      assert Path(bp, path) && path[0] in {path[0]};
      assert Descendant(bp, {path[0]}, k);
    }
    if exists root :: root in roots && Descendant(bp, {root}, k) {
      var root :| root in roots && Descendant(bp, {root}, k);
      var path :| Path(bp, path) && |path| >= 2 && path[0] in {root} && path[|path| - 1] == k;
      assert path[0] in roots;
    }
  }

  /** Requeued are exactly the kept nodes that are concerned. */
  lemma RequeuedExactly(rev: Revision, k: string)
    requires ValidRevision(rev)
    ensures k in Requeue(rev) <==> Concerned(rev, k)
    ensures k in Added(rev) <==> k in Keys(rev.revised) && k !in Keys(rev.current)
    ensures k in Removed(rev) <==> k in Keys(rev.current) && k !in Keys(rev.revised)
  {
    hide Descendant, Path;
    var roots := Changed(rev) + Removed(rev);
    DescendantOfOne(rev.current, roots, k);
    assert forall root :: root in roots <==> StartsRevision(rev, root);
    if Descendant(rev.current, roots, k) { DescendantIsNode(rev.current, roots, k); }
  }

  /** The node is in the way of the revision: it is new or concerned but running or failed, or it is to be removed but
      running, waiting for a decision or failed. */
  ghost predicate InTheWay(rev: Revision, n: Node) {
    || (n.key in Keys(rev.revised) && n.key !in Keys(rev.current) && n.status in {NodeRunning, NodeFailed})
    || (Concerned(rev, n.key) && n.status in {NodeRunning, NodeFailed})
    || (n.key in Keys(rev.current) && n.key !in Keys(rev.revised) && n.status in {NodeRunning, PendingGate, NodeFailed})
  }

  /** The status of a node after the revision. */
  ghost predicate StatusRevised(rev: Revision, n: Node, status: NodeStatus) {
    if Concerned(rev, n.key) || (n.key in Keys(rev.revised) && n.key !in Keys(rev.current)) then
      status == if n.status == PendingGate then PendingGate else NodeQueued
    else if n.key in Keys(rev.current) && n.key !in Keys(rev.revised) then status == Stale
    else status == n.status
  }

  /** Exactly when a revision is refused, and what it changes: nothing but the status of nodes that are added, removed
      or concerned; every other node is exactly the node it was, and nodes the session does not have yet start afresh.
      */
  lemma {:induction false} RevisionExact(s: Session, rev: Revision)
    ensures var r := Revised(s, rev);
      if !(ValidBlueprint(rev.current) && ValidBlueprint(rev.revised) && forall k :: k in rev.changed ==>
        InBoth(rev, k)) then
        r == Err(ValueError)
      else if exists p :: 0 <= p < |s.nodes| && InTheWay(rev, s.nodes[p]) then r == Err(InvalidTransition)
      else
        && r.Ok? && r.value.status == s.status && |s.nodes| <= |r.value.nodes|
        && (forall p :: 0 <= p < |s.nodes| ==>
             && r.value.nodes[p] == s.nodes[p].(status := r.value.nodes[p].status)
             && StatusRevised(rev, s.nodes[p], r.value.nodes[p].status))
        && (forall p :: |s.nodes| <= p < |r.value.nodes| ==>
             var n := r.value.nodes[p];
             n == Node(n.key, NodeQueued, [], []) && n.key in Keys(rev.revised) && n.key !in Keys(rev.current))
        && (forall k :: k in Keys(rev.revised) && k !in Keys(rev.current) ==> Find(r.value.nodes, k).Some?)
  {
    ValidExactly(rev);
    hide ValidRevision, ValidBlueprint, InBoth;
    if ValidRevision(rev) {
      forall n: Node ensures Blocks(n, rev) <==> InTheWay(rev, n) { RequeuedExactly(rev, n.key); }
      if Revised(s, rev).Ok? { RevisedExactly(s, rev); }
    }
    hide Blocks, InTheWay, StatusRevised, Find;
  }

  lemma RevisedAt(s: Session, rev: Revision, p: nat)
    requires ValidRevision(rev) && Revised(s, rev).Ok? && p < |Revised(s, rev).value.nodes|
    ensures var m := Revised(s, rev).value.nodes[p];
      if p < |s.nodes| then m == s.nodes[p].(status := m.status) && StatusRevised(rev, s.nodes[p], m.status)
      else m == FreshNode(m.key) && m.key in Added(rev)
  {
    hide ValidRevision, Added, AppendNew, Blocked, StatusRevised, RevisedNode;
    var n := WithAdded(s, rev)[p];
    WithAddedTail(s, rev, p);
    RevisedNodeExactly(rev, n);
  }

  lemma {:induction false} AddedFound(s: Session, rev: Revision, k: string)
    requires Revised(s, rev).Ok? && k in Added(rev)
    ensures Find(Revised(s, rev).value.nodes, k).Some?
  {
    hide Added, Sorted, AppendNew, Find, Blocked, RevisedNode;
    AddedAreThere(s.nodes, Sorted(Added(rev)));
    assert forall n :: RevisedNode(n, rev).key == n.key by { RevisedKeys(rev); }
    FindSameKeys(WithAdded(s, rev), Revised(s, rev).value.nodes, k);
  }

  lemma RevisedKeys(rev: Revision)
    ensures forall n :: RevisedNode(n, rev).key == n.key
  {
    hide Added, Removed, Requeue;
  }

  lemma RevisedExactly(s: Session, rev: Revision)
    requires ValidRevision(rev) && Revised(s, rev).Ok?
    ensures var t := Revised(s, rev).value;
      && t.status == s.status && |s.nodes| <= |t.nodes|
      && (forall p :: 0 <= p < |s.nodes| ==>
           t.nodes[p] == s.nodes[p].(status := t.nodes[p].status) && StatusRevised(rev, s.nodes[p], t.nodes[p].status))
      && (forall p :: |s.nodes| <= p < |t.nodes| ==>
           var n := t.nodes[p];
           n == Node(n.key, NodeQueued, [], []) && n.key in Keys(rev.revised) && n.key !in Keys(rev.current))
      && (forall k :: k in Keys(rev.revised) && k !in Keys(rev.current) ==> Find(t.nodes, k).Some?)
  {
    var t := Revised(s, rev).value;
    assert |s.nodes| <= |t.nodes| && t.status == s.status;
    hide ValidRevision, Revised, Find, StatusRevised, Keys;
    forall p | 0 <= p < |t.nodes|
      ensures if p < |s.nodes| then
                t.nodes[p] == s.nodes[p].(status := t.nodes[p].status)
                && StatusRevised(rev, s.nodes[p], t.nodes[p].status)
              else t.nodes[p] == FreshNode(t.nodes[p].key) && t.nodes[p].key in Added(rev)
    {
      RevisedAt(s, rev, p);
    }
    forall k | k in Keys(rev.revised) && k !in Keys(rev.current) ensures Find(t.nodes, k).Some? {
      AddedFound(s, rev, k);
    }
  }

  lemma RevisedNodeExactly(rev: Revision, n: Node)
    requires ValidRevision(rev)
    ensures var m := RevisedNode(n, rev); m == n.(status := m.status) && StatusRevised(rev, n, m.status)
    ensures n == FreshNode(n.key) && n.key in Added(rev) ==> RevisedNode(n, rev) == n
  {
    RequeuedExactly(rev, n.key);
    hide Concerned, Requeue, Added, Removed, Keys;
  }

  lemma ValidExactly(rev: Revision)
    ensures ValidRevision(rev) <==>
      ValidBlueprint(rev.current) && ValidBlueprint(rev.revised) && forall k :: k in rev.changed ==> InBoth(rev, k)
  {
    hide ValidBlueprint, Keys;
    assert forall k :: k in Changed(rev) <==> k in rev.changed;
  }

  lemma {:induction false} AddedAreThere(nodes: seq<Node>, keys: seq<string>)
    ensures forall k :: k in keys ==> Find(AppendNew(nodes, keys), k).Some?
  {
    hide Find;
    if keys != [] {
      var earlier, last := AppendNew(nodes, keys[..|keys| - 1]), keys[|keys| - 1];
      AddedAreThere(nodes, keys[..|keys| - 1]);
      forall k | k in keys ensures Find(AppendNew(nodes, keys), k).Some? {
        FoundAfterAppend(earlier, FreshNode(last), k);
      }
    }
  }

  // ---- completion stays dependency-closed -----------------------------------------------

  predicate IsCompleted(nodes: seq<Node>, key: string) {
    exists p :: 0 <= p < |nodes| && nodes[p].key == key && nodes[p].status == NodeCompleted
  }

  /** Whatever a completed node requires is completed. */
  ghost predicate CompletionClosed(nodes: seq<Node>, bp: Blueprint) {
    forall k, r :: Edge(bp, r, k) && IsCompleted(nodes, k) ==> IsCompleted(nodes, r)
  }

  /** A kept node that is not requeued may only need what it already depended on, directly or not. */
  ghost predicate NeedsCovered(rev: Revision) {
    forall k, r :: Edge(rev.revised, r, k) && k in Keys(rev.current) && k !in Requeue(rev) ==>
      r == k || Descendant(rev.current, {r}, k)
  }

  /** In particular it is enough to list as changed every kept node whose requirements changed. */
  lemma ListingChangesCovers(rev: Revision)
    requires ValidRevision(rev)
    requires forall k, r :: Edge(rev.revised, r, k) && k in Keys(rev.current) && k !in Changed(rev) ==>
      Edge(rev.current, r, k)
    ensures NeedsCovered(rev)
  {
    hide Descendant;
    TouchedOnce(rev);
    forall k, r | Edge(rev.revised, r, k) && k in Keys(rev.current) && k !in Requeue(rev)
      ensures Descendant(rev.current, {r}, k)
    {
      assert k !in Changed(rev) by { ChangedIsRequeued(rev, k); }
      ChildIsDescendant(rev.current, {r}, r, k);
    }
  }

  lemma ChangedIsRequeued(rev: Revision, k: string)
    requires ValidRevision(rev)
    ensures k in Changed(rev) ==> k in Requeue(rev)
  {
  }

  lemma {:induction false} AncestorsCompleted(nodes: seq<Node>, bp: Blueprint, path: seq<string>)
    requires CompletionClosed(nodes, bp) && Path(bp, path) && path != []
    requires IsCompleted(nodes, path[|path| - 1])
    ensures IsCompleted(nodes, path[0])
  {
    if |path| > 1 {
      assert Edge(bp, path[|path| - 2], path[|path| - 1]);
      AncestorsCompleted(nodes, bp, path[..|path| - 1]);
    }
  }

  lemma AncestorCompleted(nodes: seq<Node>, bp: Blueprint, r: string, k: string)
    requires CompletionClosed(nodes, bp) && Descendant(bp, {r}, k) && IsCompleted(nodes, k)
    ensures IsCompleted(nodes, r)
  {
    var path :| Path(bp, path) && |path| >= 2 && path[0] in {r} && path[|path| - 1] == k;
    AncestorsCompleted(nodes, bp, path);
  }

  lemma RootIsNode(bp: Blueprint, r: string, k: string)
    requires ValidBlueprint(bp) && Descendant(bp, {r}, k)
    ensures r in Keys(bp)
  {
    var path :| Path(bp, path) && |path| >= 2 && path[0] in {r} && path[|path| - 1] == k;
    assert Edge(bp, path[0], path[1]);
  }

  /** Requeueing is closed downstream: above a node that is not requeued nothing is, unless it was removed. */
  lemma NotRequeuedAbove(rev: Revision, r: string, k: string)
    requires ValidRevision(rev) && k !in Requeue(rev) && k !in Removed(rev)
    requires Descendant(rev.current, {r}, k)
    ensures r !in Requeue(rev)
  {
    hide Descendant;
    var roots := Changed(rev) + Removed(rev);
    DescendantIsNode(rev.current, {r}, k);
    if r in Requeue(rev) {
      DescendantOfDescendant(rev.current, roots, r, k);
      DescendantIsNode(rev.current, roots, k);
    }
  }

  /** The completed nodes after a revision are the completed nodes before it that it did not touch. */
  lemma CompletedAfter(s: Session, rev: Revision, k: string)
    requires Revised(s, rev).Ok?
    ensures IsCompleted(Revised(s, rev).value.nodes, k)
        <==> IsCompleted(s.nodes, k) && k !in Added(rev) + Removed(rev) + Requeue(rev)
  {
    hide Added, Removed, Requeue, Blocked, ValidRevision, WithAdded;
    var nodes, after := WithAdded(s, rev), Revised(s, rev).value.nodes;
    forall p | 0 <= p < |nodes| { WithAddedTail(s, rev, p); }
    if IsCompleted(s.nodes, k) && k !in Added(rev) + Removed(rev) + Requeue(rev) {
      var p :| 0 <= p < |s.nodes| && s.nodes[p].key == k && s.nodes[p].status == NodeCompleted;
      assert after[p] == s.nodes[p];
    }
    if IsCompleted(after, k) {
      var p :| 0 <= p < |after| && after[p].key == k && after[p].status == NodeCompleted;
      assert after[p] == nodes[p] && p < |s.nodes|;
    }
  }

  /** A successful revision keeps completion closed under requirements, provided unlisted nodes need nothing new. */
  lemma ClosureKept(s: Session, rev: Revision)
    requires Revised(s, rev).Ok? && CompletionClosed(s.nodes, rev.current) && NeedsCovered(rev)
    ensures CompletionClosed(Revised(s, rev).value.nodes, rev.revised)
  {
    hide Revised, Requeue, Descendant, IsCompleted;
    var after := Revised(s, rev).value.nodes;
    RevisedIsValid(s, rev);
    forall k, r | Edge(rev.revised, r, k) && IsCompleted(after, k) ensures IsCompleted(after, r) {
      CompletedAfter(s, rev, k);
      if r != k {
        NotRequeuedAbove(rev, r, k);
        RootIsNode(rev.current, r, k);
        AncestorCompleted(s.nodes, rev.current, r, k);
        CompletedAfter(s, rev, r);
      }
    }
  }

  lemma RevisedIsValid(s: Session, rev: Revision)
    requires Revised(s, rev).Ok?
    ensures ValidRevision(rev)
  {
  }

  // ---- and the proviso is needed ----------------------------------------------------------

  /** A session in which exactly `k` and what it depends on is completed. */
  ghost function CompletedUpTo(bp: Blueprint, k: string): Session {
    var keys := Sorted(Keys(bp));
    Session(SessionRunning, seq(|keys|, p requires 0 <= p < |keys| =>
      Node(keys[p], if keys[p] == k || Descendant(bp, {keys[p]}, k) then NodeCompleted else NodeQueued, [], [])))
  }

  lemma CompletedUpToIs(bp: Blueprint, k: string, r: string)
    ensures IsCompleted(CompletedUpTo(bp, k).nodes, r) <==> r in Keys(bp) && (r == k || Descendant(bp, {r}, k))
  {
    hide Descendant, Sorted;
    var keys, nodes := Sorted(Keys(bp)), CompletedUpTo(bp, k).nodes;
    if r in Keys(bp) && (r == k || Descendant(bp, {r}, k)) {
      assert r in keys;
      var p :| 0 <= p < |keys| && keys[p] == r;
      assert nodes[p].key == r && nodes[p].status == NodeCompleted;
    }
    if IsCompleted(nodes, r) {
      var p :| 0 <= p < |nodes| && nodes[p].key == r && nodes[p].status == NodeCompleted;
      assert keys[p] in keys;
    }
  }

  lemma CompletedUpToCloses(bp: Blueprint, k: string)
    requires ValidBlueprint(bp)
    ensures CompletionClosed(CompletedUpTo(bp, k).nodes, bp) && UniqueKeys(CompletedUpTo(bp, k).nodes)
  {
    hide Descendant, IsCompleted, Sorted;
    forall c, r | Edge(bp, r, c) && IsCompleted(CompletedUpTo(bp, k).nodes, c)
      ensures IsCompleted(CompletedUpTo(bp, k).nodes, r)
    {
      CompletedUpToIs(bp, k, c);
      CompletedUpToIs(bp, k, r);
      ChildIsDescendant(bp, {r}, r, c);
      if c != k { DescendantOfDescendant(bp, {r}, c, k); }
    }
    SortedAscends(Keys(bp));
  }

  /** For every revision that breaks the proviso there is a session, closed before it, that is not closed after it. */
  lemma ProvisoNeeded(rev: Revision) returns (s: Session)
    requires ValidRevision(rev) && !NeedsCovered(rev)
    ensures UniqueKeys(s.nodes) && CompletionClosed(s.nodes, rev.current)
    ensures Revised(s, rev).Ok? && !CompletionClosed(Revised(s, rev).value.nodes, rev.revised)
  {
    hide Descendant, Requeue, IsCompleted;
    var k, r :| Edge(rev.revised, r, k) && k in Keys(rev.current) && k !in Requeue(rev) && r != k
      && !Descendant(rev.current, {r}, k);
    s := CompletedUpTo(rev.current, k);
    CompletedUpToCloses(rev.current, k);
    assert Revised(s, rev).Ok? by {
      assert forall p :: 0 <= p < |s.nodes| ==> s.nodes[p].status in {NodeCompleted, NodeQueued};
    }
    hide Revised, CompletedUpTo;
    CompletedUpToIs(rev.current, k, k);
    CompletedUpToIs(rev.current, k, r);
    CompletedAfter(s, rev, k);
    CompletedAfter(s, rev, r);
    assert k in Keys(rev.revised);
  }
}
