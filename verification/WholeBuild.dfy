/** A whole build: discovery, lowering and execution, and which outcome it has. */
module WholeBuild {
  import opened Wrappers
  import opened BuildGraph
  import opened ActionDag
  import opened Lowering
  import opened ActionCycles
  import opened DeclaredCycles
  import D = Discovery
  import R = Scheduler

  datatype BuildOutcome = Rejected | Ran(outcome: R.Outcome)

  /** What a build asks of the declarations before anything runs: discovery accepts the root, and every needed
      declaration can have its C++ strategies, names nothing refused and does not name itself. */
  ghost predicate Accepted(g: Graph, root: D.Root) {
    D.Accepted(g, root) && forall e :: D.Needed(g, root, e) ==> Fits(g, e)
  }

  /** The requests of a found declaration can be met unless it names itself or something refused. */
  lemma MetAsDeclared(g: Graph, heads: HeadMap, nodes: seq<Node>, e: Entity)
    requires NodesOk(g, heads, nodes) && BlocksOk(g, heads, nodes) && AllKnown(g, Works(nodes))
    requires e in heads && Known(g, e) && D.Closed(g, heads.Keys, e)
    ensures EntityMet(g, heads, Works(nodes), e) <==> !AsksItself(g, e) && !AsksRefused(g, e)
  {
    hide BlocksOk, WorksOf, WorkRequests, D.Closed;
    var works := Works(nodes);
    if AsksRefused(g, e) {
      var w :| w in WorksOf(g, e) && KnownWork(g, w) && Refuse in WorkRequests(g, w);
      var n := NodeOf(g, heads, nodes, e, w);
      WorkOwner(g, e, w);
      assert works[n] == w && !Met(heads, Refuse, n) && !NodeMet(g, heads, works, n);
    }
    if AsksItself(g, e) {
      var w :| w in WorksOf(g, e) && IsHead(w) && KnownWork(g, w) && Need(e) in WorkRequests(g, w);
      OneHead(g, heads, nodes, e, w);
      assert works[heads[e]] == w && !Met(heads, Need(e), heads[e]) && !NodeMet(g, heads, works, heads[e]);
    }
    if !AsksItself(g, e) && !AsksRefused(g, e) {
      forall n: nat, q | n < |works| && Owner(works[n]) == e && q in WorkRequests(g, works[n])
        ensures Met(heads, q, n)
      {
        MetIfFit(g, heads, nodes, e, n, q);
      }
    }
  }

  lemma WorkOwner(g: Graph, e: Entity, w: Work)
    requires Known(g, e) && w in WorksOf(g, e)
    ensures Owner(w) == e
  {
    hide WorksOf;
    WorksFacts(g, e);
  }

  lemma MetIfFit(g: Graph, heads: HeadMap, nodes: seq<Node>, e: Entity, n: nat, q: Request)
    requires NodesOk(g, heads, nodes) && e in heads && Known(g, e) && D.Closed(g, heads.Keys, e)
    requires !AsksItself(g, e) && !AsksRefused(g, e)
    requires n < |nodes| && Owner(nodes[n].work) == e && KnownWork(g, nodes[n].work) && q in WorkRequests(g, nodes[n].work)
    ensures Met(heads, q, n)
  {
    hide WorksOf, WorkRequests, D.Closed;
    var w := nodes[n].work;
    assert w in WorksOf(g, e) && q.Need?;
    if q.entity.S? {
      StagesFound(g, heads.Keys, e, w, q.entity.stage);
    }
    assert q.entity in heads && heads[q.entity] == n ==> AsksItself(g, e);
  }

  /** All requests of the created nodes can be met exactly when the declarations are acceptable. */
  lemma AllMetAsDeclared(g: Graph, root: D.Root, heads: HeadMap, nodes: seq<Node>)
    requires NodesOk(g, heads, nodes) && BlocksOk(g, heads, nodes) && AllKnown(g, Works(nodes))
    requires D.Accepted(g, root) && forall e :: e in heads <==> D.Needed(g, root, e)
    requires forall e :: e in heads ==> Known(g, e) && D.Closed(g, heads.Keys, e)
    requires forall t: nat :: T(t) in heads ==> TargetFits(g.targets[t])
    ensures (forall e :: e in heads ==> EntityMet(g, heads, Works(nodes), e)) <==> Accepted(g, root)
  {
    hide NodesOk, BlocksOk, D.Needed, D.Closed, D.Accepted, EntityMet, TargetFits, AsksItself, AsksRefused, AllKnown, Works;
    forall e | e in heads
      ensures EntityMet(g, heads, Works(nodes), e) <==> Fits(g, e)
    {
      MetAsDeclared(g, heads, nodes, e);
    }
  }

  lemma UnfitIsRejected(g: Graph, root: D.Root, t: nat)
    requires t < |g.targets| && D.Needed(g, root, T(t)) && !TargetFits(g.targets[t])
    ensures !Accepted(g, root)
  {
    hide D.Needed, D.Accepted, TargetFits;
    assert !Fits(g, T(t));
  }

  /** Discovery and lowering: the action graph of everything the root needs, before anything runs. */
  method Prepare(g: Graph, root: D.Root) returns (ok: bool, low: Lowerer)
    ensures fresh(low) && fresh(low.sched) && fresh(low.sched.slots) && low.g == g
    ensures ok <==> Accepted(g, root)
    ensures ok ==> Lowered(g, root, low.heads, low.sched.nodes) && R.Unstarted(low.sched.nodes)
    ensures ok ==> low.sched.ready == [] && low.sched.readyHead == 0 && low.sched.answers == []
    ensures ok ==> low.sched.active == 0 && low.sched.completed == 0 && low.sched.log == []
  {
    hide D.Needed, D.Closed, D.Accepted, Wanted, NodesOk, BlocksOk, R.Unstarted, Fresh, TargetFits, EntityMet;
    hide AsksItself, AsksRefused, Fits, Accepted, AllKnown, Lowered, Works, Pairs;
    low := new Lowerer(g);
    var finder := new D.Finder(g);
    ok := finder.Discover(root);
    if !ok {
      NotDiscovered(g, root);
      return;
    }
    ok := low.CreateNodes(finder);
    if !ok {
      ghost var t: nat :| T(t) in finder.Found() && !TargetFits(g.targets[t]);
      assert Known(g, T(t));
      UnfitIsRejected(g, root, t);
      return;
    }
    ghost var created := low.sched.nodes;
    assert low.heads.Keys == finder.Found();
    ReadyToConnect(g, root, low.heads, created);
    ok := low.ConnectAll(finder);
    if ok {
      BlocksByWorks(g, low.heads, created, low.sched.nodes);
      LoweredSoFar(g, root, low.heads, low.sched.nodes);
    }
  }

  lemma ReadyToConnect(g: Graph, root: D.Root, heads: HeadMap, nodes: seq<Node>)
    requires Fresh(nodes) && NodesOk(g, heads, nodes) && BlocksOk(g, heads, nodes)
    requires D.Accepted(g, root) && forall e :: e in heads <==> D.Needed(g, root, e)
    requires forall e :: e in heads ==> Known(g, e) && D.Closed(g, heads.Keys, e)
    requires forall t: nat :: T(t) in heads ==> TargetFits(g.targets[t])
    ensures R.Unstarted(nodes) && Pairs(nodes) == {} && AllKnown(g, Works(nodes))
    ensures (forall e :: e in heads ==> EntityMet(g, heads, Works(nodes), e)) <==> Accepted(g, root)
  {
    hide NodesOk, BlocksOk, D.Needed, D.Closed, D.Accepted, Accepted, EntityMet, TargetFits, AllKnown, Works, Fresh, R.Unstarted;
    NoEdgesYet(nodes);
    NodesKnown(g, heads, nodes);
    AllMetAsDeclared(g, root, heads, nodes);
  }

  lemma NotDiscovered(g: Graph, root: D.Root)
    requires !D.Accepted(g, root)
    ensures !Accepted(g, root)
  {}

  lemma LoweredSoFar(g: Graph, root: D.Root, heads: HeadMap, nodes: seq<Node>)
    requires NodesOk(g, heads, nodes) && BlocksOk(g, heads, nodes) && Accepted(g, root)
    requires forall e :: e in heads <==> D.Needed(g, root, e)
    requires forall d: nat, u: nat :: Edge(nodes, d, u) <==> Wanted(g, heads, nodes, d, u)
    ensures Lowered(g, root, heads, nodes)
  {
    hide NodesOk, BlocksOk, D.Needed, Wanted, Fits;
  }

  /** The whole build. It is rejected exactly when the declarations are not acceptable, fails exactly when the
      environment reports an error, and otherwise finishes or stalls as the declarations decide. */
  method Build(g: Graph, root: D.Root, jobs: int) returns (outcome: BuildOutcome, low: Lowerer)
    ensures outcome == Rejected <==> !Accepted(g, root)
    ensures outcome.Ran? ==> low.g == g && Lowered(g, root, low.heads, low.sched.nodes)
    ensures outcome.Ran? ==> R.LogSafe(low.sched.nodes, low.sched.log) && R.Justly(low.sched.nodes, low.sched.log, low.sched.answers)
    ensures outcome.Ran? ==> R.Told(low.sched.answers, outcome == Ran(R.Failed))
    ensures outcome == Ran(R.Finished) ==> forall e :: e in low.heads ==> R.Ended(low.heads[e]) in low.sched.log
    ensures outcome == Ran(R.Finished) && Received(g) ==> !Circular(g, root) && TargetsOrdered(g, root)
    ensures outcome == Ran(R.Stalled) ==> Circular(g, root) || !TargetsOrdered(g, root)
    ensures outcome != Ran(R.NoFreeSlot)
  {
    hide Lowered, R.Unstarted, R.LogSafe, R.Justly, R.Told, Acyclic, Circular, TargetsOrdered, SameGraph, Accepted;
    var ok;
    ok, low := Prepare(g, root);
    if !ok {
      return Rejected, low;
    }
    ghost var linked := low.sched.nodes;
    var result := low.sched.Execute(jobs);
    outcome := Ran(result);
    LoweredStays(g, root, low.heads, linked, low.sched.nodes);
    if result == R.Stalled {
      StallIsDeclared(g, root, low.heads, low.sched.nodes);
    }
    if result == R.Finished {
      LoweredHeads(g, root, low.heads, low.sched.nodes);
      if Received(g) {
        AcyclicAsDeclared(g, root, low.heads, low.sched.nodes);
      }
    }
  }

  /** A stalled run is explained by its declarations. */
  lemma StallIsDeclared(g: Graph, root: D.Root, heads: HeadMap, nodes: seq<Node>)
    requires Lowered(g, root, heads, nodes)
    requires exists c :: IsCycle(nodes, c)
    ensures Circular(g, root) || !TargetsOrdered(g, root)
  {
    hide Lowered, Circular, TargetsOrdered, IsCycle;
    CycleIsDeclared(g, root, heads, nodes);
  }

  lemma LoweredHeads(g: Graph, root: D.Root, heads: HeadMap, nodes: seq<Node>)
    requires Lowered(g, root, heads, nodes)
    ensures forall e :: e in heads ==> heads[e] < |nodes|
  {
    hide BlocksOk, D.Needed, Wanted, Fits;
    HeadsInRange(g, heads, nodes);
  }
}
