/** When the actions of a build wait for each other in a circle, the declarations say why. */
module ActionCycles {
  import opened Wrappers
  import opened BuildGraph
  import opened CxxUnity
  import opened ActionDag
  import opened Lowering
  import D = Discovery

  // ---- declared circularity --------------------------------------------------------------

  /** Some node of `u` names something that `d` produces. */
  ghost predicate Uses(g: Graph, u: Entity, d: Entity) {
    Known(g, u) && exists w :: w in WorksOf(g, u) && KnownWork(g, w) && Need(d) in WorkRequests(g, w)
  }

  /** From `u`, that many uses lead to `d`, all of them by needed declarations. */
  ghost predicate UsesIn(g: Graph, root: D.Root, u: Entity, d: Entity, steps: nat)
    decreases steps
  {
    if steps == 0 then u == d
    else D.Needed(g, root, u) && exists m :: Uses(g, u, m) && UsesIn(g, root, m, d, steps - 1)
  }

  /** A needed declaration that, through one or more needed ones, uses itself. */
  ghost predicate Circular(g: Graph, root: D.Root) {
    exists e, steps: nat :: steps > 0 && UsesIn(g, root, e, e, steps)
  }

  /** Two compiles of one target that are each a module interface with the same source index. */
  predicate Clash(g: Graph, a: Work, b: Work) {
    && InterfaceWork(g, a) && InterfaceWork(g, b) && a.target == b.target && a.source == b.source
    && a.target < |g.targets| && g.targets[a.target].modules
  }

  ghost predicate InterfacesOrdered(g: Graph, nodes: seq<Node>) {
    forall i, j :: 0 <= i < j < |nodes| ==> !Clash(g, nodes[i].work, nodes[j].work)
  }

  /** No two module interfaces compiled inside one target, its own or a library's, have the same source index. */
  ghost predicate TargetOrdered(g: Graph, t: nat)
    requires t < |g.targets|
  {
    var works := WorksOf(g, T(t));
    forall i, j :: 0 <= i < j < |works| ==> !Clash(g, works[i], works[j])
  }

  ghost predicate TargetsOrdered(g: Graph, root: D.Root) {
    forall t: nat :: t < |g.targets| && D.Needed(g, root, T(t)) ==> TargetOrdered(g, t)
  }

  // ---- acyclicity ----------------------------------------------------------------------------

  /** Order inside one target: precompiled header, interfaces by index, other compiles, head. */
  function Rank(g: Graph, w: Work): (int, int) {
    if w.Pch? then (0, 0)
    else if InterfaceWork(g, w) then (1, w.source)
    else if w.Compile? then (2, 0)
    else (3, 0)
  }

  predicate Before(a: (int, int), b: (int, int)) {
    a.0 < b.0 || (a.0 == b.0 && a.1 < b.1)
  }

  /** From `d` to `u`: either uses lead from the owner of `u` back to the owner of `d`, or both share it and `d` ranks first. */
  ghost predicate Leads(g: Graph, root: D.Root, nodes: seq<Node>, d: nat, u: nat) {
    && d < |nodes| && u < |nodes|
    && var dw, uw := nodes[d].work, nodes[u].work;
       || (Owner(dw) == Owner(uw) && Before(Rank(g, dw), Rank(g, uw)))
       || exists steps: nat :: steps > 0 && UsesIn(g, root, Owner(uw), Owner(dw), steps)
  }

  lemma {:induction false} UsesJoin(g: Graph, root: D.Root, a: Entity, b: Entity, c: Entity, m: nat, n: nat)
    requires UsesIn(g, root, a, b, m) && UsesIn(g, root, b, c, n)
    ensures UsesIn(g, root, a, c, m + n)
    decreases m
  {
    hide Uses, D.Needed;
    if m > 0 {
      var x :| Uses(g, a, x) && UsesIn(g, root, x, b, m - 1);
      UsesJoin(g, root, x, b, c, m - 1, n);
      assert UsesIn(g, root, x, c, m + n - 1);
    }
  }

  lemma LeadsJoin(g: Graph, root: D.Root, nodes: seq<Node>, a: nat, b: nat, c: nat)
    requires Leads(g, root, nodes, a, b) && Leads(g, root, nodes, b, c)
    ensures Leads(g, root, nodes, a, c)
  {
    hide UsesIn, Rank;
    var aw, bw, cw := nodes[a].work, nodes[b].work, nodes[c].work;
    if !(Owner(aw) == Owner(bw) && Before(Rank(g, aw), Rank(g, bw))) && !(Owner(bw) == Owner(cw) && Before(Rank(g, bw), Rank(g, cw))) {
      var m: nat :| m > 0 && UsesIn(g, root, Owner(bw), Owner(aw), m);
      var n: nat :| n > 0 && UsesIn(g, root, Owner(cw), Owner(bw), n);
      UsesJoin(g, root, Owner(cw), Owner(bw), Owner(aw), n, m);
      assert UsesIn(g, root, Owner(cw), Owner(aw), n + m);
    }
  }

  lemma WantedLeads(g: Graph, root: D.Root, heads: HeadMap, nodes: seq<Node>, d: nat, u: nat)
    requires NodesOk(g, heads, nodes) && InterfacesOrdered(g, nodes) && Wanted(g, heads, nodes, d, u)
    requires forall e :: e in heads ==> D.Needed(g, root, e)
    ensures Leads(g, root, nodes, d, u)
  {
    hide WorksOf, WorkRequests, D.Needed;
    var dw, uw := nodes[d].work, nodes[u].work;
    if Inside(g, dw, uw) {
    } else {
      var e :| Need(e) in WorkRequests(g, uw) && e in heads && heads[e] == d;
      assert Uses(g, Owner(uw), e);
      assert UsesIn(g, root, e, e, 0);
      assert UsesIn(g, root, Owner(uw), e, 1);
    }
  }

  lemma {:induction false} WalkLeads(g: Graph, root: D.Root, heads: HeadMap, nodes: seq<Node>, walk: seq<nat>, k: nat)
    requires NodesOk(g, heads, nodes) && InterfacesOrdered(g, nodes)
    requires forall e :: e in heads ==> D.Needed(g, root, e)
    requires forall d: nat, u: nat :: Edge(nodes, d, u) ==> Wanted(g, heads, nodes, d, u)
    requires IsWalk(nodes, walk) && 0 < k < |walk|
    ensures Leads(g, root, nodes, walk[0], walk[k])
  {
    hide Leads, Wanted, InterfacesOrdered, NodesOk, D.Needed;
    assert Edge(nodes, walk[k - 1], walk[k - 1 + 1]);
    WantedLeads(g, root, heads, nodes, walk[k - 1], walk[k]);
    if k > 1 {
      WalkLeads(g, root, heads, nodes, walk, k - 1);
      LeadsJoin(g, root, nodes, walk[0], walk[k - 1], walk[k]);
    }
  }

  /** A cycle among actions is a circle among the declarations they come from, unless interfaces clash. */
  lemma ActionCycleIsDeclared(g: Graph, root: D.Root, heads: HeadMap, nodes: seq<Node>, c: seq<nat>)
    requires NodesOk(g, heads, nodes) && InterfacesOrdered(g, nodes)
    requires forall e :: e in heads ==> D.Needed(g, root, e)
    requires forall d: nat, u: nat :: Edge(nodes, d, u) ==> Wanted(g, heads, nodes, d, u)
    requires IsCycle(nodes, c)
    ensures Circular(g, root)
  {
    hide Wanted, InterfacesOrdered, NodesOk, UsesIn, D.Needed;
    WalkLeads(g, root, heads, nodes, c, |c| - 1);
  }

  // ---- what the declarations decide ----------------------------------------------------------

  /** A node's place among the works of its declaration. */
  lemma PlaceInBlock(g: Graph, heads: HeadMap, nodes: seq<Node>, n: nat) returns (first: int)
    requires NodesOk(g, heads, nodes) && BlocksOk(g, heads, nodes) && n < |nodes|
    ensures var e := Owner(nodes[n].work);
            && e in heads && Known(g, e) && first == heads[e] + 1 - |WorksOf(g, e)|
            && 0 <= n - first < |WorksOf(g, e)| && WorksOf(g, e)[n - first] == nodes[n].work
  {
    hide WorksOf;
    var e := Owner(nodes[n].work);
    assert BlockOk(g, heads, nodes, e);
    var works := WorksOf(g, e);
    first := heads[e] + 1 - |works|;
    assert nodes[first + (n - first)].work == works[n - first];
  }

  lemma SameBlock(g: Graph, heads: HeadMap, nodes: seq<Node>, i: nat, j: nat)
    requires NodesOk(g, heads, nodes) && BlocksOk(g, heads, nodes)
    requires i < j < |nodes| && Clash(g, nodes[i].work, nodes[j].work)
    ensures nodes[i].work.Compile? && nodes[i].work.target < |g.targets|
    ensures T(nodes[i].work.target) in heads && !TargetOrdered(g, nodes[i].work.target)
  {
    hide WorksOf, Clash, NodesOk, BlocksOk, TargetOrdered, Owner;
    ClashOwners(g, nodes[i].work, nodes[j].work);
    var t := nodes[i].work.target;
    var first := PlaceInBlock(g, heads, nodes, i);
    var same := PlaceInBlock(g, heads, nodes, j);
    ClashingPlaces(g, t, i - first, j - first);
  }

  lemma ClashingPlaces(g: Graph, t: nat, k: nat, m: nat)
    requires t < |g.targets| && k < m < |WorksOf(g, T(t))|
    requires Clash(g, WorksOf(g, T(t))[k], WorksOf(g, T(t))[m])
    ensures !TargetOrdered(g, t)
  {
    hide WorksOf, Clash;
  }

  lemma ClashOwners(g: Graph, a: Work, b: Work)
    requires Clash(g, a, b)
    ensures a.Compile? && b.Compile? && a.target < |g.targets| && Owner(a) == Owner(b) == T(a.target)
  {}

  lemma BlockClash(g: Graph, heads: HeadMap, nodes: seq<Node>, t: nat)
    requires BlocksOk(g, heads, nodes) && T(t) in heads && t < |g.targets| && !TargetOrdered(g, t)
    ensures !InterfacesOrdered(g, nodes)
  {
    hide WorksOf, Clash;
    assert BlockOk(g, heads, nodes, T(t));
    var works := WorksOf(g, T(t));
    var i, j :| 0 <= i < j < |works| && Clash(g, works[i], works[j]);
    var first := heads[T(t)] + 1 - |works|;
    assert nodes[first + i].work == works[i] && nodes[first + j].work == works[j];
  }

  /** Positions among the nodes and positions among a target's works clash together. */
  lemma OrderedAsDeclared(g: Graph, root: D.Root, heads: HeadMap, nodes: seq<Node>)
    requires NodesOk(g, heads, nodes) && BlocksOk(g, heads, nodes)
    requires forall e :: e in heads <==> D.Needed(g, root, e)
    ensures InterfacesOrdered(g, nodes) <==> TargetsOrdered(g, root)
  {
    hide NodesOk, BlocksOk, TargetOrdered, D.Needed, WorksOf, Clash;
    if !TargetsOrdered(g, root) {
      var t: nat :| t < |g.targets| && D.Needed(g, root, T(t)) && !TargetOrdered(g, t);
      BlockClash(g, heads, nodes, t);
    }
    if !InterfacesOrdered(g, nodes) {
      var i: nat, j: nat :| i < j < |nodes| && Clash(g, nodes[i].work, nodes[j].work);
      SameBlock(g, heads, nodes, i, j);
    }
  }

  /** Two clashing interfaces wait for each other. */
  lemma ClashIsCycle(g: Graph, heads: HeadMap, nodes: seq<Node>, i: nat, j: nat)
    requires NodesOk(g, heads, nodes)
    requires forall d: nat, u: nat :: Edge(nodes, d, u) <==> Wanted(g, heads, nodes, d, u)
    requires i < j < |nodes| && Clash(g, nodes[i].work, nodes[j].work)
    ensures IsCycle(nodes, [i, j, i])
  {
    hide WorksOf, WorkRequests;
    NodesKnown(g, heads, nodes);
    assert KnownWork(g, Works(nodes)[i]) && KnownWork(g, Works(nodes)[j]);
    assert Inside(g, nodes[i].work, nodes[j].work) && Inside(g, nodes[j].work, nodes[i].work);
    assert Edge(nodes, i, j) && Edge(nodes, j, i);
  }

  /** A cycle is explained by the declarations, whatever they are. */
  lemma CycleIsDeclared(g: Graph, root: D.Root, heads: HeadMap, nodes: seq<Node>)
    requires Lowered(g, root, heads, nodes)
    ensures !Acyclic(nodes) ==> Circular(g, root) || !TargetsOrdered(g, root)
  {
    hide NodesOk, BlocksOk, Wanted, Fits, D.Needed, Circular, TargetsOrdered, InterfacesOrdered, IsCycle;
    OrderedAsDeclared(g, root, heads, nodes);
    if !Acyclic(nodes) && InterfacesOrdered(g, nodes) {
      var c :| IsCycle(nodes, c);
      ActionCycleIsDeclared(g, root, heads, nodes, c);
    }
  }
}
