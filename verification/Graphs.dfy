/** Workflow blueprints as dependency graphs. */
module Graphs {
  import opened Outcomes

  /** `needs` are the keys of the nodes that have to be completed first. */
  datatype Spec = Spec(key: string, needs: seq<string>)

  type Blueprint = seq<Spec>

  function Keys(bp: Blueprint): (r: set<string>)
    ensures forall k :: k in r <==> exists i :: 0 <= i < |bp| && bp[i].key == k
  {
    set i | 0 <= i < |bp| :: bp[i].key
  }

  predicate DistinctKeys(bp: Blueprint) {
    forall i, j :: 0 <= i < j < |bp| ==> bp[i].key != bp[j].key
  }

  predicate RequirementsKnown(bp: Blueprint) {
    forall i, r :: 0 <= i < |bp| && r in bp[i].needs ==> r in Keys(bp)
  }

  /** `validate_blueprint`. */
  predicate ValidBlueprint(bp: Blueprint) {
    DistinctKeys(bp) && RequirementsKnown(bp)
  }

  /** `child` requires `parent`. */
  predicate Edge(bp: Blueprint, parent: string, child: string) {
    exists i :: 0 <= i < |bp| && bp[i].key == child && parent in bp[i].needs
  }

  /** A walk along requirement edges, away from what is required. */
  ghost predicate Path(bp: Blueprint, path: seq<string>) {
    forall i :: 0 < i < |path| ==> Edge(bp, path[i - 1], path[i])
  }

  /** `key` can be reached from one of the roots over at least one edge. */
  ghost predicate Descendant(bp: Blueprint, roots: set<string>, key: string) {
    exists path :: Path(bp, path) && |path| >= 2 && path[0] in roots && path[|path| - 1] == key
  }

  ghost function Descendants(bp: Blueprint, roots: set<string>): (r: set<string>)
    ensures forall k :: k in r ==> Descendant(bp, roots, k)
  {
    set k | k in Keys(bp) && Descendant(bp, roots, k)
  }

  /** Every descendant is the key of a node. */
  lemma DescendantIsNode(bp: Blueprint, roots: set<string>, key: string)
    requires Descendant(bp, roots, key)
    ensures key in Keys(bp) && key in Descendants(bp, roots)
  {
    var path :| Path(bp, path) && |path| >= 2 && path[0] in roots && path[|path| - 1] == key;
    assert Edge(bp, path[|path| - 2], path[|path| - 1]);
  }

  /** What a root requires is not implied, but children of roots and of descendants are descendants. */
  lemma ChildIsDescendant(bp: Blueprint, roots: set<string>, parent: string, child: string)
    requires Edge(bp, parent, child) && (parent in roots || Descendant(bp, roots, parent))
    ensures Descendant(bp, roots, child)
  {
    if parent in roots {
      var path := [parent, child];
      assert Path(bp, path) && path[0] in roots && path[|path| - 1] == child;
    } else {
      var path :| Path(bp, path) && |path| >= 2 && path[0] in roots && path[|path| - 1] == parent;
      var longer := path + [child];
      assert Path(bp, longer) && longer[0] in roots && longer[|longer| - 1] == child;
    }
  }

  /** Two walks joined at `via`. */
  lemma DescendantOfDescendant(bp: Blueprint, roots: set<string>, via: string, key: string)
    requires via in roots || Descendant(bp, roots, via)
    requires Descendant(bp, {via}, key)
    ensures Descendant(bp, roots, key)
  {
    var path :| Path(bp, path) && |path| >= 2 && path[0] in {via} && path[|path| - 1] == key;
    WalkOn(bp, roots, path);
  }

  lemma {:induction false} WalkOn(bp: Blueprint, roots: set<string>, path: seq<string>)
    requires Path(bp, path) && |path| >= 2
    requires path[0] in roots || Descendant(bp, roots, path[0])
    ensures Descendant(bp, roots, path[|path| - 1])
  {
    var init := path[..|path| - 1];
    assert Edge(bp, path[|path| - 2], path[|path| - 1]);
    if |init| >= 2 {
      assert Path(bp, init);
      WalkOn(bp, roots, init);
    }
    ChildIsDescendant(bp, roots, init[|init| - 1], path[|path| - 1]);
  }

  /** The adjacency list of `key`: one entry for every requirement that names it. */
  function Children(bp: Blueprint, key: string): (r: seq<string>)
    ensures forall c :: c in r <==> Edge(bp, key, c)
  {
    if bp == [] then []
    else
      var rest := Children(bp[..|bp| - 1], key);
      ChildrenStep(bp, key, rest);
      rest + if key in bp[|bp| - 1].needs then [bp[|bp| - 1].key] else []
  }

  lemma ChildrenStep(bp: Blueprint, key: string, rest: seq<string>)
    requires bp != [] && forall c :: c in rest <==> Edge(bp[..|bp| - 1], key, c)
    ensures forall c :: Edge(bp, key, c) <==> c in rest || (key in bp[|bp| - 1].needs && c == bp[|bp| - 1].key)
  {
  }

  /** Nodes whose children have all been looked at. */
  ghost predicate Explored(bp: Blueprint, seen: set<string>, found: set<string>) {
    forall p, c :: p in seen && Edge(bp, p, c) ==> c in found
  }

  lemma {:induction false} ExploredReachesAll(bp: Blueprint, roots: set<string>, found: set<string>, path: seq<string>)
    requires Explored(bp, roots + found, found)
    requires Path(bp, path) && |path| >= 2 && path[0] in roots
    ensures path[|path| - 1] in found
  {
    var init := path[..|path| - 1];
    assert Edge(bp, path[|path| - 2], path[|path| - 1]);
    if |init| >= 2 {
      assert Path(bp, init);
      ExploredReachesAll(bp, roots, found, init);
    }
  }

  /** `descendant_keys`: breadth-first closure. It ends on every finite graph, cyclic ones included, and finds exactly
      what can be reached over at least one edge. */
  method DescendantKeys(bp: Blueprint, roots: set<string>, start: seq<string>) returns (descendants: set<string>)
    requires forall k :: k in start <==> k in roots
    ensures descendants == Descendants(bp, roots)
    ensures forall k :: k in descendants <==> Descendant(bp, roots, k)
  {
    descendants := {};
    var frontier := start;
    while frontier != []
      invariant descendants <= Keys(bp) && forall k :: k in descendants ==> Descendant(bp, roots, k)
      invariant forall k :: k in frontier ==> k in roots || k in descendants
      invariant Explored(bp, (roots + descendants) - InQueue(frontier), descendants)
      decreases Keys(bp) - descendants, |frontier|
    {
      var current := frontier[0];
      assert [current] + frontier[1..] == frontier;
      descendants, frontier := VisitChildren(bp, roots, current, descendants, frontier[1..]);
    }
    forall k | Descendant(bp, roots, k) ensures k in descendants {
      var path :| Path(bp, path) && |path| >= 2 && path[0] in roots && path[|path| - 1] == k;
      assert (roots + descendants) - InQueue(frontier) == roots + descendants;
      ExploredReachesAll(bp, roots, descendants, path);
    }
    forall k | k in descendants ensures k in Descendants(bp, roots) { DescendantIsNode(bp, roots, k); }
  }

  function InQueue(frontier: seq<string>): set<string> { set k | k in frontier }

  /** One step of the search: the children of `current` that are new are found and queued. */
  method VisitChildren(bp: Blueprint, ghost roots: set<string>, current: string, found: set<string>, queue: seq<string>)
    returns (descendants: set<string>, frontier: seq<string>)
    requires found <= Keys(bp) && forall k :: k in found ==> Descendant(bp, roots, k)
    requires current in roots || current in found
    requires forall k :: k in queue ==> k in roots || k in found
    requires Explored(bp, (roots + found) - InQueue([current] + queue), found)
    ensures found <= descendants <= Keys(bp) && forall k :: k in descendants ==> Descendant(bp, roots, k)
    ensures forall k :: k in frontier ==> k in roots || k in descendants
    ensures Explored(bp, (roots + descendants) - InQueue(frontier), descendants)
    ensures descendants == found ==> frontier == queue
  {
    descendants, frontier := found, queue;
    var children := Children(bp, current);
    for i := 0 to |children|
      invariant found <= descendants <= Keys(bp) && forall k :: k in descendants ==> Descendant(bp, roots, k)
      invariant forall k :: k in frontier <==> k in queue || k in descendants - found
      invariant forall j :: 0 <= j < i ==> children[j] in descendants
      invariant descendants == found ==> frontier == queue
    {
      var child := children[i];
      if child !in descendants {
        assert child in children;
        ChildIsDescendant(bp, roots, current, child);
        DescendantIsNode(bp, roots, child);
        descendants := descendants + {child};
        frontier := frontier + [child];
      }
    }
    forall p, c | p in (roots + descendants) - InQueue(frontier) && Edge(bp, p, c) ensures c in descendants {
      if p == current {
        assert c in children;
      } else {
        assert p in (roots + found) - InQueue([current] + queue);
      }
    }
  }
}
