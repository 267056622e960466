/** What a node's agent is told about the work upstream of it: a depth-first walk along requirements. */
module UpstreamContexts {
  import opened Collections
  import opened Outcomes
  import opened States
  import opened Sessions
  import opened Graphs

  /** `node_spec(key).requires`, of the first spec with this key. */
  function Needs(bp: Blueprint, key: string): (r: seq<string>)
    ensures DistinctKeys(bp) ==> forall n :: n in r <==> Edge(bp, n, key)
  {
    if bp == [] then []
    else if bp[0].key == key then bp[0].needs
    else
      assert forall n :: Edge(bp, n, key) <==> Edge(bp[1..], n, key) by { EdgeInTail(bp, key); }
      Needs(bp[1..], key)
  }

  lemma EdgeInTail(bp: Blueprint, key: string)
    requires bp != [] && bp[0].key != key
    ensures forall n :: Edge(bp, n, key) <==> Edge(bp[1..], n, key)
  {
  }

  /** `a` is required by `key`, directly or not. */
  ghost predicate Ancestor(bp: Blueprint, a: string, key: string) { Descendant(bp, {a}, key) }

  lemma AncestorStep(bp: Blueprint, n: string, a: string, key: string)
    requires Edge(bp, n, a) && (a == key || Ancestor(bp, a, key))
    ensures Ancestor(bp, n, key)
  {
    hide Descendant;
    ChildIsDescendant(bp, {n}, n, a);
    if a != key { DescendantOfDescendant(bp, {n}, a, key); }
  }

  ghost predicate OnCycle(bp: Blueprint, a: string) { Ancestor(bp, a, a) }

  ghost predicate AcyclicAbove(bp: Blueprint, root: string) {
    forall a :: Ancestor(bp, a, root) ==> !OnCycle(bp, a)
  }

  /** Every key stands behind everything it needs. */
  ghost predicate AfterNeeds(bp: Blueprint, ordered: seq<string>) {
    forall j, n :: 0 <= j < |ordered| && Edge(bp, n, ordered[j]) ==> n in ordered[..j]
  }

  /** The state of the walk while `key` is being visited on behalf of `root`: what has been seen but not yet listed is
      being visited, and depends on `key`. */
  ghost predicate Walking(bp: Blueprint, root: string, key: string, seen: set<string>, ordered: seq<string>) {
    && ValidBlueprint(bp) && (key == root || Ancestor(bp, key, root))
    && Distinct(ordered) && Elements(ordered) <= seen <= Keys(bp)
    && (forall x :: x in seen ==> Ancestor(bp, x, root))
    && (forall x :: x in seen - Elements(ordered) ==> x == key || Ancestor(bp, key, x))
    && (forall x, n :: x in ordered && Edge(bp, n, x) ==> n in seen)
    && (AcyclicAbove(bp, root) ==> AfterNeeds(bp, ordered))
  }

  /** What a visit adds: everything `key` needs has been seen, and what was seen on the way has been listed. */
  ghost predicate Visited(bp: Blueprint, root: string, seen: set<string>, ordered: seq<string>, seen': set<string>,
                          ordered': seq<string>) {
    && seen <= seen' && ordered <= ordered' && seen' - Elements(ordered') == seen - Elements(ordered)
  }

  lemma SeenIsListed(bp: Blueprint, root: string, key: string, seen: set<string>, ordered: seq<string>, n: string)
    requires Walking(bp, root, key, seen, ordered) && Edge(bp, n, key) && n in seen && AcyclicAbove(bp, root)
    ensures n in ordered
  {
    hide Descendant, Keys;
    AncestorStep(bp, n, key, root);
    if n !in ordered {
      AncestorStep(bp, n, key, n);
    }
  }

  /** Starting the visit of a new requirement. */
  lemma VisitStarts(bp: Blueprint, root: string, key: string, seen: set<string>, ordered: seq<string>, n: string)
    requires Walking(bp, root, key, seen, ordered) && Edge(bp, n, key) && n !in seen
    ensures Walking(bp, root, n, seen + {n}, ordered) && n in Keys(bp)
  {
    hide Descendant;
    AncestorStep(bp, n, key, root);
    forall x | x in seen - Elements(ordered) ensures Ancestor(bp, n, x) {
      AncestorStep(bp, n, key, x);
    }
    assert n in Keys(bp);
    hide Keys;
  }

  /** Listing the requirement once its own visit is over. */
  lemma VisitEnds(bp: Blueprint, root: string, key: string, before: set<string>, start: seq<string>,
                  seen: set<string>, ordered: seq<string>, n: string)
    requires Walking(bp, root, key, before, start) && Edge(bp, n, key) && n !in before
    requires Walking(bp, root, n, seen, ordered) && Visited(bp, root, before + {n}, start, seen, ordered)
    requires forall m :: Edge(bp, m, n) ==> m in seen
    requires AcyclicAbove(bp, root) ==> forall m :: Edge(bp, m, n) ==> m in ordered
    ensures Walking(bp, root, key, seen, ordered + [n]) && Visited(bp, root, before, start, seen, ordered + [n])
  {
    hide Descendant, Keys, Edge, Ancestor, AcyclicAbove;
    var more := ordered + [n];
    assert Elements(more) == Elements(ordered) + {n};
    assert n in (before + {n}) - Elements(start);
    assert n !in ordered;
    assert (before + {n}) - Elements(start) == (before - Elements(start)) + {n};
    assert seen - Elements(more) == (seen - Elements(ordered)) - {n} == before - Elements(start);
    if AcyclicAbove(bp, root) {
      forall j, m | 0 <= j < |more| && Edge(bp, m, more[j]) ensures m in more[..j] {
        if j < |ordered| { assert more[..j] == ordered[..j]; } else { assert more[..j] == ordered; }
      }
    }
  }

  /** The recursive walk. It ends on every graph, cyclic ones included, because every visit marks a new key. */
  method Visit(bp: Blueprint, ghost root: string, key: string, seen: set<string>, ordered: seq<string>)
    returns (seen': set<string>, ordered': seq<string>)
    requires Walking(bp, root, key, seen, ordered)
    ensures Walking(bp, root, key, seen', ordered') && Visited(bp, root, seen, ordered, seen', ordered')
    ensures forall n :: Edge(bp, n, key) ==> n in seen'
    ensures AcyclicAbove(bp, root) ==> forall n :: Edge(bp, n, key) ==> n in ordered'
    decreases Keys(bp) - seen
  {
    hide Walking, Edge, AcyclicAbove, Keys;
    assert DistinctKeys(bp) by { WalkingIsValid(bp, root, key, seen, ordered); }
    var needs := Needs(bp, key);
    seen', ordered' := seen, ordered;
    for k := 0 to |needs|
      invariant Walking(bp, root, key, seen', ordered') && Visited(bp, root, seen, ordered, seen', ordered')
      invariant forall j :: 0 <= j < k ==> needs[j] in seen'
      invariant AcyclicAbove(bp, root) ==> forall j :: 0 <= j < k ==> needs[j] in ordered'
    {
      var req := needs[k];
      assert Edge(bp, req, key);
      if req in seen' {
        if AcyclicAbove(bp, root) { SeenIsListed(bp, root, key, seen', ordered', req); }
      } else {
        ghost var before, start := seen', ordered';
        VisitStarts(bp, root, key, seen', ordered', req);
        seen', ordered' := Visit(bp, root, req, seen' + {req}, ordered');
        VisitEnds(bp, root, key, before, start, seen', ordered', req);
        ordered' := ordered' + [req];
      }
    }
  }

  lemma WalkingIsValid(bp: Blueprint, root: string, key: string, seen: set<string>, ordered: seq<string>)
    requires Walking(bp, root, key, seen, ordered)
    ensures DistinctKeys(bp) && seen <= Keys(bp)
  {
  }

  // ---- the whole walk --------------------------------------------------------------------------

  lemma {:induction false} AncestorsSeen(bp: Blueprint, key: string, seen: set<string>, path: seq<string>)
    requires forall n :: Edge(bp, n, key) ==> n in seen
    requires forall x, n :: x in seen && Edge(bp, n, x) ==> n in seen
    requires Path(bp, path) && |path| >= 2 && (path[|path| - 1] == key || path[|path| - 1] in seen)
    ensures path[0] in seen
  {
    var init := path[..|path| - 1];
    assert Edge(bp, path[|path| - 2], path[|path| - 1]);
    if |init| >= 2 {
      assert Path(bp, init);
      AncestorsSeen(bp, key, seen, init);
    }
  }

  lemma {:induction false} PositionsAscend(bp: Blueprint, ordered: seq<string>, path: seq<string>, last: nat)
    requires AfterNeeds(bp, ordered) && Path(bp, path) && |path| >= 2
    requires last < |ordered| && ordered[last] == path[|path| - 1]
    ensures path[0] in ordered[..last]
  {
    var init := path[..|path| - 1];
    assert Edge(bp, path[|path| - 2], path[|path| - 1]);
    var p :| 0 <= p < last && ordered[p] == path[|path| - 2];
    if |init| >= 2 {
      assert Path(bp, init);
      PositionsAscend(bp, ordered, init, p);
      assert ordered[..p] <= ordered[..last];
    }
  }

  lemma OrderExcludesCycles(bp: Blueprint, ordered: seq<string>, a: string)
    requires Distinct(ordered) && AfterNeeds(bp, ordered) && a in ordered
    ensures !OnCycle(bp, a)
  {
    var last :| 0 <= last < |ordered| && ordered[last] == a;
    forall path | Path(bp, path) && |path| >= 2 && path[0] in {a} && path[|path| - 1] == a ensures false {
      PositionsAscend(bp, ordered, path, last);
    }
  }

  /** The walk lists exactly the proper ancestors of the node, each once; and it lists every key behind all its own
      requirements if and only if no ancestor lies on a dependency cycle. */
  method UpstreamOrder(bp: Blueprint, key: string) returns (ordered: seq<string>)
    requires ValidBlueprint(bp)
    ensures Distinct(ordered)
    ensures forall a :: a in ordered <==> Ancestor(bp, a, key)
    ensures AfterNeeds(bp, ordered) <==> AcyclicAbove(bp, key)
  {
    var seen;
    seen, ordered := Visit(bp, key, key, {}, []);
    NothingLeftOver(seen, Elements(ordered));
    forall a | Ancestor(bp, a, key) ensures a in ordered {
      var path :| Path(bp, path) && |path| >= 2 && path[0] in {a} && path[|path| - 1] == key;
      AncestorsSeen(bp, key, seen, path);
    }
    if AfterNeeds(bp, ordered) {
      forall a | Ancestor(bp, a, key) ensures !OnCycle(bp, a) { OrderExcludesCycles(bp, ordered, a); }
    }
  }

  /** One upstream node as the agent sees it: no status means the session has no such node. */
  datatype Upstream = Upstream(key: string, status: Option<NodeStatus>, output: Output)

  function UpstreamOf(s: Session, key: string): Upstream {
    var p := Find(s.nodes, key);
    if p.None? then Upstream(key, None, map[])
    else
      var n := s.nodes[p.value];
      Upstream(key, Some(n.status), if n.attempts == [] then map[] else Latest(n).output)
  }

  predicate IsFirstWith(s: Session, key: string, p: int) {
    0 <= p < |s.nodes| && s.nodes[p].key == key && forall q :: 0 <= q < p ==> s.nodes[q].key != key
  }

  /** The entry shows the status of the session's node and what its latest attempt put out, or that there is no node. */
  ghost predicate Shows(s: Session, e: Upstream) {
    && ((forall p :: 0 <= p < |s.nodes| ==> s.nodes[p].key != e.key) ==> e.status == None && e.output == map[])
    && (forall p :: IsFirstWith(s, e.key, p) ==>
         var attempts := s.nodes[p].attempts;
         && e.status == Some(s.nodes[p].status)
         && e.output == if attempts == [] then map[] else attempts[|attempts| - 1].output)
  }

  lemma {:induction false} UpstreamShows(s: Session, key: string)
    ensures UpstreamOf(s, key).key == key && Shows(s, UpstreamOf(s, key))
  {
  }

  /** One entry for every proper ancestor of the node; on an acyclic part of the workflow each stands behind its own
      requirements. */
  ghost predicate IsContext(s: Session, bp: Blueprint, key: string, context: seq<Upstream>) {
    && (forall k :: 0 <= k < |context| ==> Shows(s, context[k]))
    && (forall i, j :: 0 <= i < j < |context| ==> context[i].key != context[j].key)
    && (forall a :: Ancestor(bp, a, key) <==> exists k :: 0 <= k < |context| && context[k].key == a)
    && (AcyclicAbove(bp, key) ==> forall j, n :: 0 <= j < |context| && Edge(bp, n, context[j].key) ==>
          exists i :: 0 <= i < j && context[i].key == n)
  }

  /** One entry per key, in order. */
  method Describe(s: Session, ordered: seq<string>) returns (context: seq<Upstream>)
    ensures |context| == |ordered|
    ensures forall k :: 0 <= k < |ordered| ==> context[k].key == ordered[k] && Shows(s, context[k])
  {
    hide UpstreamOf, Shows;
    context := [];
    for k := 0 to |ordered|
      invariant |context| == k
      invariant forall j :: 0 <= j < k ==> context[j].key == ordered[j] && Shows(s, context[j])
    {
      UpstreamShows(s, ordered[k]);
      context := context + [UpstreamOf(s, ordered[k])];
    }
  }

  lemma ContextOfOrder(s: Session, bp: Blueprint, key: string, ordered: seq<string>, context: seq<Upstream>)
    requires |context| == |ordered|
    requires forall k :: 0 <= k < |ordered| ==> context[k].key == ordered[k] && Shows(s, context[k])
    requires Distinct(ordered) && (forall a :: a in ordered <==> Ancestor(bp, a, key))
    requires AcyclicAbove(bp, key) ==> AfterNeeds(bp, ordered)
    ensures IsContext(s, bp, key, context)
  {
    hide Shows, Edge, Ancestor, AcyclicAbove;
    forall a | a in ordered ensures exists k :: 0 <= k < |context| && context[k].key == a {
      var k :| 0 <= k < |ordered| && ordered[k] == a;
      assert context[k].key == a;
    }
    if AcyclicAbove(bp, key) {
      forall j, n | 0 <= j < |context| && Edge(bp, n, context[j].key)
        ensures exists i :: 0 <= i < j && context[i].key == n
      {
        assert n in ordered[..j];
        var i :| 0 <= i < j && ordered[i] == n;
        assert context[i].key == n;
      }
    }
  }

  /** `upstream_context`; there is none of a node the blueprint does not have. */
  method UpstreamContext(s: Session, bp: Blueprint, key: string) returns (r: Result<seq<Upstream>>)
    requires ValidBlueprint(bp)
    ensures if key in Keys(bp) then r.Ok? && IsContext(s, bp, key, r.value) else r == Err(KeyError)
  {
    if key !in Keys(bp) { return Err(KeyError); }
    hide Shows, Edge, Ancestor, AcyclicAbove, AfterNeeds, IsContext;
    var ordered := UpstreamOrder(bp, key);
    var context := Describe(s, ordered);
    ContextOfOrder(s, bp, key, ordered, context);
    r := Ok(context);
  }
}
