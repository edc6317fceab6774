/** When every producer that an action asks for is found and waited for: the exact condition. */
module DroppedEdges {
  import opened Wrappers
  import opened BuildGraph
  import opened ActionDag
  import opened Lowering
  import opened ActionCycles
  import opened DeclaredCycles
  import opened WholeBuild
  import D = Discovery

  /** Whatever an action of a found declaration asks for is found. */
  ghost predicate AskedFound(g: Graph, found: set<Entity>) {
    forall e, d :: e in found && Uses(g, e, d) ==> d in found
  }

  /** A found run target's command has no generated path whose action is not found. */
  ghost predicate RunPathsFound(g: Graph, found: set<Entity>) {
    forall t: nat, r: nat :: T(t) in found && RunsPathOf(g, t, r) ==> G(r) in found
  }

  /** Discovery finds every producer asked for if and only if it finds those of the plain paths in run commands. */
  lemma AskedIsFound(g: Graph, found: set<Entity>)
    requires Received(g) && forall x :: x in found ==> Known(g, x) && D.Closed(g, found, x)
    ensures AskedFound(g, found) <==> RunPathsFound(g, found)
  {
    hide Received, D.Closed, WorksOf, WorkRequests, RunsPathOf;
    if RunPathsFound(g, found) {
      forall e, d | e in found && Uses(g, e, d) ensures d in found {
        AskedUnlessOverlooked(g, found, e, d);
      }
    }
    if AskedFound(g, found) {
      forall t: nat, r: nat | T(t) in found && RunsPathOf(g, t, r) ensures G(r) in found {
        RunPathIsAsked(g, t, r);
        assert Uses(g, T(t), G(r));
      }
    }
  }

  lemma AskedUnlessOverlooked(g: Graph, found: set<Entity>, e: Entity, d: Entity)
    requires Received(g) && forall x :: x in found ==> Known(g, x) && D.Closed(g, found, x)
    requires e in found && Uses(g, e, d) && RunPathsFound(g, found)
    ensures d in found
  {
    hide Received, D.Closed, WorksOf, WorkRequests;
    var w :| w in WorksOf(g, e) && KnownWork(g, w) && Need(d) in WorkRequests(g, w);
    NothingElseOverlooked(g, found, e, w, d);
    if Overlooked(g, w, d) {
      WorkOwner(g, e, w);
      RunsOfRunTarget(g, e, w);
      assert RunsPathOf(g, w.target, d.genrule);
    }
  }

  lemma RunsOfRunTarget(g: Graph, e: Entity, w: Work)
    requires Known(g, e) && w in WorksOf(g, e) && w.RunCommand?
    ensures e == T(w.target) && g.targets[w.target].kind == RunTarget
  {
    hide OwnCompiles, BorrowedCompiles;
  }

  /** Every node waits for every producer it asks for. */
  ghost predicate AskedAwaited(g: Graph, heads: HeadMap, nodes: seq<Node>) {
    forall n: nat, d :: Asked(g, nodes, n, d) ==> d in heads && Edge(nodes, heads[d], n)
  }

  ghost predicate Asked(g: Graph, nodes: seq<Node>, n: nat, d: Entity) {
    n < |nodes| && KnownWork(g, nodes[n].work) && Need(d) in WorkRequests(g, nodes[n].work)
  }

  lemma FoundIsClosed(g: Graph, root: D.Root, heads: HeadMap, e: Entity)
    requires D.Accepted(g, root) && forall x :: x in heads <==> D.Needed(g, root, x)
    requires e in heads && Known(g, e)
    ensures D.Closed(g, heads.Keys, e)
  {
    hide D.Requests, D.Needed, D.Reaches;
    assert !D.BlockedAt(g, root, e);
    forall q | q in D.Requests(g, e) ensures q.Need? && q.entity in heads.Keys {
      if q.Need? {
        assert D.Step(g, e, q.entity);
        D.StepIsNeeded(g, root, e, q.entity);
      }
    }
  }

  /** In the graph of an accepted build no edge is dropped if and only if the generated paths in the commands of
      its run targets come from actions that the build needs anyway. */
  lemma NoEdgeDropped(g: Graph, root: D.Root, heads: HeadMap, nodes: seq<Node>)
    requires Received(g) && Accepted(g, root) && Lowered(g, root, heads, nodes)
    ensures AskedAwaited(g, heads, nodes) <==> RunPathsFound(g, heads.Keys)
  {
    hide Received, NodesOk, BlocksOk, Wanted, D.Needed, D.Accepted, D.Closed, Asked, Uses, RunPathsFound;
    forall e | e in heads ensures Known(g, e) && D.Closed(g, heads.Keys, e) {
      assert Fits(g, e);
      FoundIsClosed(g, root, heads, e);
    }
    AskedIsFound(g, heads.Keys);
    hide Fits;
    if AskedFound(g, heads.Keys) {
      forall n: nat, d | Asked(g, nodes, n, d) ensures d in heads && Edge(nodes, heads[d], n) {
        FoundIsAwaited(g, root, heads, nodes, n, d);
      }
    }
    if AskedAwaited(g, heads, nodes) {
      forall e, d | e in heads && Uses(g, e, d) ensures d in heads {
        var n := UserNode(g, root, heads, nodes, e, d);
      }
    }
  }

  lemma UserNode(g: Graph, root: D.Root, heads: HeadMap, nodes: seq<Node>, e: Entity, d: Entity) returns (n: nat)
    requires Lowered(g, root, heads, nodes) && e in heads && Uses(g, e, d)
    ensures Asked(g, nodes, n, d)
  {
    hide NodesOk, Wanted, D.Needed, Fits, WorksOf, WorkRequests, BlocksOk;
    var w :| w in WorksOf(g, e) && KnownWork(g, w) && Need(d) in WorkRequests(g, w);
    n := NodeOf(g, heads, nodes, e, w);
  }

  lemma FoundIsAwaited(g: Graph, root: D.Root, heads: HeadMap, nodes: seq<Node>, n: nat, d: Entity)
    requires Lowered(g, root, heads, nodes) && AskedFound(g, heads.Keys) && Asked(g, nodes, n, d)
    ensures d in heads && Edge(nodes, heads[d], n)
  {
    hide BlocksOk, Wanted, D.Needed, WorksOf, WorkRequests, TargetFits, AsksRefused;
    var w := nodes[n].work;
    assert Uses(g, Owner(w), d);
    assert Fits(g, d) && (heads[d] == n ==> AsksItself(g, d));
    AskedIsEdge(g, heads, nodes, d, n);
  }
}
