/** And when the declarations say so, the actions do: the exact condition. */
module DeclaredCycles {
  import opened Wrappers
  import opened BuildGraph
  import opened CxxUnity
  import opened ActionDag
  import opened Lowering
  import opened ActionCycles
  import D = Discovery

  // ---- a declared circle is a cycle ---------------------------------------------------------------

  ghost predicate Joins(nodes: seq<Node>, walk: seq<nat>, from: nat, to: nat) {
    |walk| >= 2 && IsWalk(nodes, walk) && walk[0] == from && walk[|walk| - 1] == to
  }

  lemma JoinsOn(nodes: seq<Node>, w: seq<nat>, v: seq<nat>, a: nat, b: nat, c: nat)
    requires Joins(nodes, w, a, b) && Joins(nodes, v, b, c)
    ensures |v| >= 2 && Joins(nodes, w + v[1..], a, c)
  {
    var all := w + v[1..];
    forall i | 0 <= i < |all| - 1 ensures Edge(nodes, all[i], all[i + 1]) {
      if i < |w| - 1 {
        assert Edge(nodes, w[i], w[i + 1]);
      } else {
        assert Edge(nodes, v[i + 1 - |w|], v[i + 2 - |w|]);
      }
    }
  }

  lemma EdgeJoins(nodes: seq<Node>, a: nat, b: nat)
    requires Edge(nodes, a, b)
    ensures Joins(nodes, [a, b], a, b)
  {}

  /** Every work of a found declaration has a node. */
  lemma NodeOf(g: Graph, heads: HeadMap, nodes: seq<Node>, e: Entity, w: Work) returns (n: nat)
    requires BlocksOk(g, heads, nodes) && e in heads && Known(g, e) && w in WorksOf(g, e)
    ensures n < |nodes| && nodes[n].work == w
  {
    hide WorksOf;
    assert BlockOk(g, heads, nodes, e);
    var works := WorksOf(g, e);
    var k :| 0 <= k < |works| && works[k] == w;
    n := heads[e] + 1 - |works| + k;
  }

  /** A node waits for the head of every other declaration it asks for. */
  lemma AskedIsEdge(g: Graph, heads: HeadMap, nodes: seq<Node>, d: Entity, n: nat)
    requires NodesOk(g, heads, nodes) && d in heads && n < |nodes| && KnownWork(g, nodes[n].work)
    requires forall a: nat, b: nat :: Edge(nodes, a, b) <==> Wanted(g, heads, nodes, a, b)
    requires Need(d) in WorkRequests(g, nodes[n].work) && heads[d] != n
    ensures Edge(nodes, heads[d], n)
  {
    hide WorksOf, WorkRequests;
    assert Wanted(g, heads, nodes, heads[d], n);
  }

  lemma CompileToHead(g: Graph, heads: HeadMap, nodes: seq<Node>, t: nat, n: nat)
    requires NodesOk(g, heads, nodes) && T(t) in heads
    requires forall a: nat, b: nat :: Edge(nodes, a, b) <==> Wanted(g, heads, nodes, a, b)
    requires n < |nodes| && nodes[n].work.Compile? && nodes[n].work.target == t
    ensures Edge(nodes, n, heads[T(t)])
  {
    hide WorksOf, WorkRequests;
    if g.targets[t].IsPassive() {
      PassiveHeads(g, t, nodes[n].work);
    }
    NativeHead(g, nodes[heads[T(t)]].work, t);
    NodesKnown(g, heads, nodes);
    assert KnownWork(g, Works(nodes)[heads[T(t)]]);
    assert Inside(g, nodes[n].work, nodes[heads[T(t)]].work);
    assert Wanted(g, heads, nodes, n, heads[T(t)]);
  }

  /** A precompiled header is waited for by some own compile, and so by the target's head. */
  lemma PchToHead(g: Graph, heads: HeadMap, nodes: seq<Node>, t: nat, p: nat) returns (c: nat)
    requires NodesOk(g, heads, nodes) && BlocksOk(g, heads, nodes) && T(t) in heads
    requires forall a: nat, b: nat :: Edge(nodes, a, b) <==> Wanted(g, heads, nodes, a, b)
    requires p < |nodes| && nodes[p].work == Pch(t) && TargetFits(g.targets[t]) && TargetReceived(g.targets[t])
    ensures Edge(nodes, p, c) && Edge(nodes, c, heads[T(t)])
  {
    hide WorksOf, WorkRequests;
    var target := g.targets[t];
    if target.IsPassive() {
      PassiveHeads(g, t, nodes[p].work);
    }
    NodesKnown(g, heads, nodes);
    assert KnownWork(g, Works(nodes)[p]);
    var i := StrategyCompiles(target);
    hide BlocksOk;
    c := OwnCompileNode(g, heads, nodes, t, i);
    CompileToHead(g, heads, nodes, t, c);
    assert KnownWork(g, Works(nodes)[c]);
    assert Inside(g, nodes[p].work, nodes[c].work);
    assert Wanted(g, heads, nodes, p, c);
  }

  /** The head is the only head among a declaration's works. */
  lemma OneHead(g: Graph, heads: HeadMap, nodes: seq<Node>, e: Entity, w: Work)
    requires NodesOk(g, heads, nodes) && e in heads && Known(g, e) && w in WorksOf(g, e) && IsHead(w)
    ensures nodes[heads[e]].work == w
  {
    hide WorksOf;
    WorksFacts(g, e);
    var works := WorksOf(g, e);
    assert nodes[heads[e]].work in works;
  }

  lemma NotHead(g: Graph, w: Work, e: Entity)
    requires Known(g, e) && w in WorksOf(g, e) && !IsHead(w)
    ensures e.T? && (w.Compile? || w == Pch(e.target))
  {
    hide WorksOf;
    WorksFacts(g, e);
  }

  /** If one declaration uses another, the first one's head waits, at some remove, for the other's. */
  lemma UseJoins(g: Graph, root: D.Root, heads: HeadMap, nodes: seq<Node>, u: Entity, d: Entity) returns (walk: seq<nat>)
    requires Lowered(g, root, heads, nodes) && Received(g)
    requires Uses(g, u, d) && u in heads && d in heads
    ensures Joins(nodes, walk, heads[d], heads[u])
  {
    hide D.Needed, NodesOk, BlocksOk, Wanted, WorksOf, WorkRequests, TargetFits, AsksRefused, Joins, TargetReceived;
    assert Fits(g, u);
    var w :| w in WorksOf(g, u) && KnownWork(g, w) && Need(d) in WorkRequests(g, w);
    if IsHead(w) {
      assert d != u;
      OneHead(g, heads, nodes, u, w);
      DistinctHeads(g, heads, nodes, u, d);
      HeadIsHead(g, heads, nodes, u);
      AskedIsEdge(g, heads, nodes, d, heads[u]);
      EdgeJoins(nodes, heads[d], heads[u]);
      walk := [heads[d], heads[u]];
    } else {
      NotHead(g, w, u);
      var n := NodeOf(g, heads, nodes, u, w);
      HeadIsHead(g, heads, nodes, d);
      AskedIsEdge(g, heads, nodes, d, n);
      EdgeJoins(nodes, heads[d], n);
      if w.Compile? {
        WorkTarget(g, u, w);
        CompileToHead(g, heads, nodes, u.target, n);
        EdgeJoins(nodes, n, heads[u]);
        JoinsOn(nodes, [heads[d], n], [n, heads[u]], heads[d], n, heads[u]);
        walk := [heads[d], n] + [n, heads[u]][1..];
      } else {
        assert TargetReceived(g.targets[u.target]);
        var c := PchToHead(g, heads, nodes, u.target, n);
        EdgeJoins(nodes, n, c);
        EdgeJoins(nodes, c, heads[u]);
        JoinsOn(nodes, [n, c], [c, heads[u]], n, c, heads[u]);
        JoinsOn(nodes, [heads[d], n], [n, c] + [c, heads[u]][1..], heads[d], n, heads[u]);
        walk := [heads[d], n] + ([n, c] + [c, heads[u]][1..])[1..];
      }
    }
  }

  lemma WorkTarget(g: Graph, e: Entity, w: Work)
    requires Known(g, e) && w in WorksOf(g, e) && w.Compile?
    ensures e == T(w.target)
  {
    hide WorksOf;
    WorksFacts(g, e);
  }

  lemma HeadIsHead(g: Graph, heads: HeadMap, nodes: seq<Node>, e: Entity)
    requires NodesOk(g, heads, nodes) && e in heads
    ensures heads[e] < |nodes| && IsHead(nodes[heads[e]].work) && Owner(nodes[heads[e]].work) == e
  {
    hide WorksOf;
  }

  lemma DistinctHeads(g: Graph, heads: HeadMap, nodes: seq<Node>, a: Entity, b: Entity)
    requires NodesOk(g, heads, nodes) && a in heads && b in heads && a != b
    ensures heads[a] != heads[b]
  {
    hide WorksOf;
  }

  lemma {:induction false} UsesJoinHeads(g: Graph, root: D.Root, heads: HeadMap, nodes: seq<Node>, u: Entity, d: Entity, steps: nat)
    returns (walk: seq<nat>)
    requires Lowered(g, root, heads, nodes) && Received(g)
    requires steps > 0 && UsesIn(g, root, u, d, steps) && u in heads && d in heads
    ensures Joins(nodes, walk, heads[d], heads[u])
    decreases steps
  {
    hide D.Needed, NodesOk, BlocksOk, Wanted, Uses, Fits, Joins, Received;
    var m :| Uses(g, u, m) && UsesIn(g, root, m, d, steps - 1);
    assert m in heads by {
      assert steps == 1 ==> m == d;
      assert steps > 1 ==> D.Needed(g, root, m);
    }
    walk := UseJoins(g, root, heads, nodes, u, m);
    if steps > 1 {
      var first := UsesJoinHeads(g, root, heads, nodes, m, d, steps - 1);
      JoinsOn(nodes, first, walk, heads[d], heads[m], heads[u]);
      walk := first + walk[1..];
    }
  }

  lemma CircleIsCycle(g: Graph, root: D.Root, heads: HeadMap, nodes: seq<Node>)
    requires Lowered(g, root, heads, nodes) && Received(g) && Circular(g, root)
    ensures !Acyclic(nodes)
  {
    hide NodesOk, BlocksOk, Wanted, Fits, Received;
    var e, steps: nat :| steps > 0 && UsesIn(g, root, e, e, steps);
    assert e in heads;
    hide UsesIn, D.Needed;
    var walk := UsesJoinHeads(g, root, heads, nodes, e, e, steps);
    assert IsCycle(nodes, walk);
  }

  /** The exact condition: the actions of a lowered graph can all run in some order if and only if no needed
      declaration uses itself and no two module interfaces inside one needed target share a source index. */
  lemma AcyclicAsDeclared(g: Graph, root: D.Root, heads: HeadMap, nodes: seq<Node>)
    requires Lowered(g, root, heads, nodes) && Received(g)
    ensures Acyclic(nodes) <==> !Circular(g, root) && TargetsOrdered(g, root)
  {
    hide NodesOk, BlocksOk, Wanted, Fits, D.Needed, Received, Circular, TargetsOrdered, Clash, IsCycle;
    CycleIsDeclared(g, root, heads, nodes);
    if Circular(g, root) {
      CircleIsCycle(g, root, heads, nodes);
    }
    OrderedAsDeclared(g, root, heads, nodes);
    if !InterfacesOrdered(g, nodes) {
      var i: nat, j: nat :| i < j < |nodes| && Clash(g, nodes[i].work, nodes[j].work);
      ClashIsCycle(g, heads, nodes, i, j);
    }
  }

  // ---- named declarations are waited for -----------------------------------------------------------

  /** The labels through which a target names other declarations. */
  predicate Names(t: Target, name: string) {
    name in t.objects || name in t.deps || name in t.privateDeps
  }

  /** The target of that name, or else the generated action. */
  function Denoted(g: Graph, name: string): (e: Option<Entity>)
    ensures e.Some? ==> Known(g, e.value) && !e.value.S?
  {
    match FindTarget(g, name)
    case Some(t) => Some(T(t))
    case None =>
      match FindGenrule(g, name)
      case Some(r) => Some(G(r))
      case None => None
  }

  lemma DenotedIsLocal(g: Graph, name: string)
    requires Received(g) && Denoted(g, name).Some?
    ensures !External(name)
  {
    hide ObjectsReceived;
    assert FromRoot(name);
  }

  lemma {:induction false} NamedIsEdge(g: Graph, names: seq<string>, name: string, d: Entity)
    requires name in names && !External(name) && Denoted(g, name) == Some(d)
    ensures Need(d) in LabelEdges(g, names)
  {
    hide FindTarget, FindGenrule, External;
    if names[0] != name {
      NamedIsEdge(g, names[1..], name, d);
    }
  }

  lemma {:induction false} NamedIsWalked(g: Graph, names: seq<string>, external: bool, name: string, o: nat)
    requires name in names && FindTarget(g, name) == Some(o)
    ensures Need(T(o)) in D.LabelRequests(g, names, external)
  {
    hide FindTarget, FindGenrule, External;
    if names[0] != name {
      NamedIsWalked(g, names[1..], external, name, o);
    }
  }

  lemma {:induction false} NamedIsGenerated(g: Graph, names: seq<string>, name: string, r: nat)
    requires name in names && !External(name) && FindGenrule(g, name) == Some(r)
    ensures Need(G(r)) in D.DepGenruleRequests(g, names)
  {
    hide FindTarget, FindGenrule, External;
    if names[0] != name {
      NamedIsGenerated(g, names[1..], name, r);
    }
  }

  lemma ObjectIsTarget(g: Graph, t: nat, name: string)
    requires Received(g) && t < |g.targets| && name in g.targets[t].objects
    ensures FindTarget(g, name).Some?
  {
    hide FindTarget, TargetReceived;
    var k :| 0 <= k < |g.targets[t].objects| && g.targets[t].objects[k] == name;
    assert ObjectsReceived(g, g.targets[t]) && IsObjectLibrary(g, g.targets[t].objects[k]);
  }

  lemma NamedIsRequested(g: Graph, t: nat, name: string, d: Entity)
    requires Received(g) && t < |g.targets| && Names(g.targets[t], name) && Denoted(g, name) == Some(d)
    ensures Need(d) in D.Requests(g, T(t))
  {
    DenotedIsLocal(g, name);
    hide Received, FindTarget, FindGenrule, External, ListRequests, ConsumedRequests;
    hide D.LabelRequests, D.DepGenruleRequests, D.RunInputRequests;
    var target := g.targets[t];
    if name in target.objects {
      ObjectIsTarget(g, t, name);
      NamedIsWalked(g, target.objects, false, name, d.target);
    } else {
      var names := if name in target.deps then target.deps else target.privateDeps;
      if d.T? {
        NamedIsWalked(g, names, true, name, d.target);
      } else {
        NamedIsGenerated(g, names, name, d.genrule);
      }
    }
  }

  lemma NamedIsAsked(g: Graph, t: Target, name: string, d: Entity)
    requires Names(t, name) && Denoted(g, name) == Some(d) && !External(name)
    ensures Need(d) in HeadRequests(g, t)
  {
    hide Denoted, LabelEdges, ListRequests, RunInputEdges, ConsumedRequests, External;
    if name in t.objects {
      NamedIsEdge(g, t.objects, name, d);
    } else if name in t.deps {
      NamedIsEdge(g, t.deps, name, d);
    } else {
      NamedIsEdge(g, t.privateDeps, name, d);
    }
  }

  /** A target waits for every declaration it names. */
  lemma DependencyAwaited(g: Graph, root: D.Root, heads: HeadMap, nodes: seq<Node>, t: nat, name: string, d: Entity)
    requires Lowered(g, root, heads, nodes) && Received(g) && T(t) in heads && t < |g.targets|
    requires Names(g.targets[t], name) && Denoted(g, name) == Some(d)
    ensures d in heads && Edge(nodes, heads[d], heads[T(t)])
  {
    hide D.Needed, NodesOk, BlocksOk, Wanted, WorksOf, WorkRequests, HeadRequests, TargetFits, AsksRefused, Names, Denoted;
    hide D.Requests, External, Received;
    NamedIsRequested(g, t, name, d);
    assert D.Step(g, T(t), d);
    D.StepIsNeeded(g, root, T(t), d);
    DenotedIsLocal(g, name);
    NamedIsAsked(g, g.targets[t], name, d);
    HeadIsHead(g, heads, nodes, T(t));
    HeadWork(g, heads, nodes, t);
    assert Fits(g, T(t));
    if d != T(t) {
      DistinctHeads(g, heads, nodes, d, T(t));
    }
    AskedIsEdge(g, heads, nodes, d, heads[T(t)]);
  }

  lemma HeadWork(g: Graph, heads: HeadMap, nodes: seq<Node>, t: nat)
    requires NodesOk(g, heads, nodes) && T(t) in heads && t < |g.targets|
    ensures heads[T(t)] < |nodes|
    ensures var w := nodes[heads[T(t)]].work;
            && KnownWork(g, w) && IsHead(w) && w in WorksOf(g, T(t)) && WorkRequests(g, w) == HeadRequests(g, g.targets[t])
  {
    hide WorksOf, HeadRequests;
    NodesKnown(g, heads, nodes);
    assert KnownWork(g, Works(nodes)[heads[T(t)]]);
    HeadRequestsOf(g, nodes[heads[T(t)]].work);
  }
}
