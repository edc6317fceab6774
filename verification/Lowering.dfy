/** From the discovered declarations to the action graph: its nodes and its edges. */
module Lowering {
  import opened Wrappers
  import opened BuildGraph
  import opened CxxUnity
  import opened ActionDag
  import D = Discovery
  import R = Scheduler

  // ---- nodes -----------------------------------------------------------------------

  function Owner(w: Work): Entity {
    match w
    case Generate(r, _) => G(r)
    case Stage(s) => S(s)
    case _ => T(w.target)
  }

  /** The node that stands for a declaration as a whole. */
  predicate IsHead(w: Work) {
    !w.Pch? && !w.Compile?
  }

  /** Own sources that get a compile node: unity followers are compiled by their leader. */
  predicate CompilesOwn(t: Target, i: nat) {
    i < |t.sources| && RequiresCompile(t.sources[i]) && (SourceInfo(t, i).Some? ==> SourceInfo(t, i).value.1)
  }

  function OwnCompiles(g: Graph, t: nat, n: nat): (s: seq<Work>)
    requires t < |g.targets| && n <= |g.targets[t].sources|
    ensures forall w :: w in s <==> w.Compile? && w.target == t && w.owner == t && w.source < n && CompilesOwn(g.targets[t], w.source)
  {
    if n == 0 then []
    else OwnCompiles(g, t, n - 1) + (if CompilesOwn(g.targets[t], n - 1) then [Compile(t, t, n - 1)] else [])
  }

  function BorrowedFrom(g: Graph, t: nat, o: nat, n: nat): (s: seq<Work>)
    requires t < |g.targets| && o < |g.targets| && n <= |g.targets[o].sources|
    ensures forall w :: w in s <==> w.Compile? && w.target == t && w.owner == o && w.source < n && RequiresCompile(g.targets[o].sources[w.source])
  {
    if n == 0 then []
    else BorrowedFrom(g, t, o, n - 1) + (if RequiresCompile(g.targets[o].sources[n - 1]) then [Compile(t, o, n - 1)] else [])
  }

  /** An object library that is compiled anew inside each target that lists it. */
  function Borrowed(g: Graph, name: string): (o: Option<nat>)
    ensures o.Some? ==> o.value < |g.targets| && FindTarget(g, name) == o
  {
    var o := FindTarget(g, name);
    if o.Some? && g.targets[o.value].consumerContext then o else None
  }

  function BorrowedCompiles(g: Graph, t: nat, names: seq<string>): (s: seq<Work>)
    requires t < |g.targets|
    ensures forall w :: w in s ==>
              && w.Compile? && w.target == t && w.owner < |g.targets|
              && w.source < |g.targets[w.owner].sources|
              && exists name :: name in names && Borrowed(g, name) == Some(w.owner)
  {
    if names == [] then []
    else
      (match Borrowed(g, names[0])
       case Some(o) => BorrowedFrom(g, t, o, |g.targets[o].sources|)
       case None => [])
      + BorrowedCompiles(g, t, names[1..])
  }

  /** The nodes of one declaration, in creation order; the last one is its head. */
  function WorksOf(g: Graph, e: Entity): seq<Work>
    requires Known(g, e)
  {
    match e
    case G(r) => [Generate(r, g.genrules[r].configHeader)]
    case S(s) => [Stage(s)]
    case T(t) =>
      var target := g.targets[t];
      match target.kind
      case GroupTarget => [Group(t)]
      case RunTarget => [RunCommand(t)]
      case InterfaceTarget => [Metadata(t)]
      case ImportedTarget => [Metadata(t)]
      case ToolTarget => [Metadata(t)]
      case _ =>
        (if target.pch.Some? then [Pch(t)] else [])
        + (if target.consumerContext then [] else OwnCompiles(g, t, |target.sources|))
        + BorrowedCompiles(g, t, target.objects)
        + [if target.kind == ObjectLibrary then ObjectLib(t) else Final(t)]
  }

  // ---- what a node waits for ------------------------------------------------------------

  /** A label that becomes an edge: to a target, else to a generated action, else none. */
  function LabelEdge(g: Graph, name: string): (r: seq<Request>)
    ensures forall q :: q in r ==> q.Need? && Known(g, q.entity)
  {
    if External(name) then []
    else
      match FindTarget(g, name)
      case Some(t) => [Need(T(t))]
      case None =>
        match FindGenrule(g, name)
        case Some(r) => [Need(G(r))]
        case None => []
  }

  function LabelEdges(g: Graph, names: seq<string>): (r: seq<Request>)
    ensures forall q :: q in r ==> q.Need? && Known(g, q.entity)
  {
    if names == [] then [] else LabelEdge(g, names[0]) + LabelEdges(g, names[1..])
  }

  function RunInputEdge(g: Graph, item: Item): (r: seq<Request>)
    ensures forall q :: q in r && q.Need? ==> Known(g, q.entity)
  {
    match item
    case BadStageDir => [Refuse]
    case StageDir(name) => (match FindStage(g, name) case None => [Refuse] case Some(s) => [Need(S(s))])
    case _ => ItemRequests(g, item, None)
  }

  function RunInputEdges(g: Graph, items: seq<Item>): (r: seq<Request>)
    ensures forall q :: q in r && q.Need? ==> Known(g, q.entity)
  {
    if items == [] then [] else RunInputEdge(g, items[0]) + RunInputEdges(g, items[1..])
  }

  /** What the head of a target waits for outside the target. */
  function HeadRequests(g: Graph, t: Target): (r: seq<Request>)
    ensures forall q :: q in r && q.Need? ==> Known(g, q.entity)
  {
    LabelEdges(g, t.objects) + LabelEdges(g, t.deps) + LabelEdges(g, t.privateDeps)
    + (if t.kind == RunTarget then ListRequests(g, t.runCommand, None) + RunInputEdges(g, t.runInputs) else [])
    + (if t.IsPassive() then []
       else ConsumedRequests(g, t) + ListRequests(g, t.linkUsage, None) + ListRequests(g, t.linkInputs, None))
  }

  predicate KnownWork(g: Graph, w: Work) {
    Known(g, Owner(w)) && (w.Compile? ==> w.owner < |g.targets|) && (w.Pch? ==> g.targets[w.target].pch.Some?)
  }

  function WorkRequests(g: Graph, w: Work): (r: seq<Request>)
    requires KnownWork(g, w)
    ensures forall q :: q in r && q.Need? ==> Known(g, q.entity)
  {
    match w
    case Generate(r, _) => D.GenruleRequests(g, r)
    case Stage(s) => ListRequests(g, g.stages[s].srcs, None)
    case Pch(t) => ItemRequests(g, g.targets[t].pch.value, None) + ListRequests(g, g.targets[t].compileUsage, None)
    case Compile(t, o, _) => CompileConsumedRequests(g, g.targets[o]) + ListRequests(g, g.targets[t].compileUsage, None)
    case _ => HeadRequests(g, g.targets[w.target])
  }

  predicate InterfaceWork(g: Graph, w: Work) {
    w.Compile? && w.owner < |g.targets| && IsInterface(g.targets[w.owner], w.source)
  }

  predicate ImplementationWork(g: Graph, w: Work) {
    w.Compile? && w.owner < |g.targets| && IsImplementation(g.targets[w.owner], w.source)
  }

  predicate CxxWork(g: Graph, w: Work) {
    InterfaceWork(g, w) || ImplementationWork(g, w)
  }

  predicate LinkEdge(d: Work, u: Work) {
    d.Compile? && (u.Final? || u.ObjectLib?)
  }

  predicate PchEdge(g: Graph, d: Work, u: Work) {
    d.Pch? && CxxWork(g, u)
  }

  predicate ModuleEdge(g: Graph, d: Work, u: Work) {
    && InterfaceWork(g, d) && CxxWork(g, u)
    && d.target < |g.targets| && g.targets[d.target].modules
    && !(InterfaceWork(g, u) && u.source < d.source)
  }

  /** Edges between two different nodes of one target. */
  predicate Inside(g: Graph, d: Work, u: Work) {
    Owner(d) == Owner(u) && (LinkEdge(d, u) || PchEdge(g, d, u) || ModuleEdge(g, d, u))
  }

  // ---- the graph as a relation ---------------------------------------------------------

  /** Where each declaration's head node is, once created. */
  type HeadMap = map<Entity, nat>

  ghost predicate Wanted(g: Graph, heads: HeadMap, nodes: seq<Node>, d: nat, u: nat) {
    && d < |nodes| && u < |nodes| && d != u && KnownWork(g, nodes[u].work)
    && ( || Inside(g, nodes[d].work, nodes[u].work)
         || exists e :: Need(e) in WorkRequests(g, nodes[u].work) && e in heads && heads[e] == d)
  }

  /** Every node is one of its declaration's nodes, and the head map points at heads. */
  ghost predicate NodesOk(g: Graph, heads: HeadMap, nodes: seq<Node>) {
    && (forall n :: 0 <= n < |nodes| ==> Known(g, Owner(nodes[n].work)) && nodes[n].work in WorksOf(g, Owner(nodes[n].work)))
    && (forall e :: e in heads ==> Known(g, e) && heads[e] < |nodes| && Owner(nodes[heads[e]].work) == e && IsHead(nodes[heads[e]].work))
    && (forall n :: 0 <= n < |nodes| && IsHead(nodes[n].work) ==> Owner(nodes[n].work) in heads && heads[Owner(nodes[n].work)] == n)
    && (forall n :: 0 <= n < |nodes| ==> Owner(nodes[n].work) in heads)
  }

  // ---- edges as a set of pairs -----------------------------------------------------------------

  ghost function Pairs(nodes: seq<Node>): (p: set<(nat, nat)>)
    ensures forall d: nat, u: nat :: (d, u) in p <==> Edge(nodes, d, u)
  {
    set u: nat, d: nat | u < |nodes| && d in nodes[u].deps :: (d, u)
  }

  function Works(nodes: seq<Node>): seq<Work> {
    seq(|nodes|, i requires 0 <= i < |nodes| => nodes[i].work)
  }

  /** The producers of the requests that have a node, each paired with the user. */
  ghost function RequestPairs(heads: HeadMap, requests: seq<Request>, user: nat): set<(nat, nat)> {
    set q | q in requests && q.Need? && q.entity in heads :: (heads[q.entity], user)
  }

  // ---- which requests can be met ------------------------------------------------------------------

  /** A refused request, one for a stage without a node, and one whose producer is the user itself cannot be met. */
  ghost predicate Met(heads: HeadMap, q: Request, user: nat) {
    && q.Need? && (q.entity.S? ==> q.entity in heads)
    && (q.entity in heads ==> heads[q.entity] != user)
  }

  ghost predicate AllMet(heads: HeadMap, requests: seq<Request>, user: nat) {
    forall q :: q in requests ==> Met(heads, q, user)
  }

  ghost predicate NodeMet(g: Graph, heads: HeadMap, works: seq<Work>, n: nat)
    requires n < |works| && KnownWork(g, works[n])
  {
    AllMet(heads, WorkRequests(g, works[n]), n)
  }

  /** All requests of the nodes of one declaration can be met. */
  ghost predicate EntityMet(g: Graph, heads: HeadMap, works: seq<Work>, e: Entity)
    requires AllKnown(g, works)
  {
    forall n: nat :: n < |works| && Owner(works[n]) == e ==> NodeMet(g, heads, works, n)
  }

  predicate PchOf(works: seq<Work>, j: nat, t: nat) {
    j < |works| && works[j] == Pch(t)
  }

  predicate CompileOf(works: seq<Work>, j: nat, t: nat) {
    j < |works| && works[j].Compile? && works[j].target == t
  }

  ghost function CompilePairs(g: Graph, heads: HeadMap, works: seq<Work>, t: nat, final: nat, n: nat): set<(nat, nat)>
    requires n <= |works| && forall j :: 0 <= j < n ==> KnownWork(g, works[j])
  {
    if n == 0 then {}
    else
      CompilePairs(g, heads, works, t, final, n - 1)
      + (if CompileOf(works, n - 1, t) then {(n - 1, final)} + RequestPairs(heads, WorkRequests(g, works[n - 1]), n - 1) else {})
  }

  ghost function Fan(works: seq<Work>, t: nat, d: nat, want: Work -> bool, m: nat): set<(nat, nat)> {
    set k: nat | k < m && k != d && CompileOf(works, k, t) && want(works[k]) :: (d, k)
  }

  ghost function PchPairs(g: Graph, heads: HeadMap, works: seq<Work>, t: nat, n: nat): set<(nat, nat)>
    requires n <= |works| && forall j :: 0 <= j < n ==> KnownWork(g, works[j])
  {
    if n == 0 then {}
    else
      PchPairs(g, heads, works, t, n - 1)
      + (if works[n - 1] == Pch(t)
         then RequestPairs(heads, WorkRequests(g, works[n - 1]), n - 1) + Fan(works, t, n - 1, k => CxxWork(g, k), |works|)
         else {})
  }

  ghost function ModulePairs(g: Graph, works: seq<Work>, t: nat, n: nat): set<(nat, nat)>
    requires n <= |works|
  {
    if n == 0 then {}
    else
      ModulePairs(g, works, t, n - 1)
      + (if CompileOf(works, n - 1, t) && InterfaceWork(g, works[n - 1])
         then Fan(works, t, n - 1, k => ModuleEdge(g, works[n - 1], k), |works|)
         else {})
  }

  /** Everything the users owned by one declaration wait for. */
  ghost predicate WantedPair(g: Graph, heads: HeadMap, nodes: seq<Node>, e: Entity, d: nat, u: nat) {
    u < |nodes| && Owner(nodes[u].work) == e && Wanted(g, heads, nodes, d, u)
  }

  /** A target with actions of its own has to be able to use the C++ strategies it asks for. */
  ghost predicate TargetFits(t: Target) {
    t.IsPassive() || StrategiesOk(t)
  }

  class Lowerer {
    const g: Graph
    const sched: R.Executor
    var heads: HeadMap

    constructor (graph: Graph)
      ensures g == graph && heads == map[] && fresh(sched) && fresh(sched.slots)
      ensures sched.nodes == [] && sched.ready == [] && sched.readyHead == 0
      ensures sched.active == 0 && sched.completed == 0 && sched.log == [] && sched.answers == []
    {
      g := graph;
      heads := map[];
      sched := new R.Executor();
    }

    // ---- nodes --------------------------------------------------------------------

    method Add(w: Work) returns (n: nat)
      requires Fresh(sched.nodes)
      modifies sched`nodes
      ensures Fresh(sched.nodes) && n == |old(sched.nodes)| && |sched.nodes| == n + 1
      ensures Works(sched.nodes) == old(Works(sched.nodes)) + [w]
    {
      n := sched.AddNode(w);
      assert Works(sched.nodes) == old(Works(sched.nodes)) + [w];
    }

    method AddOwnCompiles(t: nat)
      requires t < |g.targets| && Fresh(sched.nodes)
      modifies sched`nodes
      ensures Fresh(sched.nodes)
      ensures Works(sched.nodes) == old(Works(sched.nodes)) + OwnCompiles(g, t, |g.targets[t].sources|)
    {
      var target := g.targets[t];
      ghost var start := Works(sched.nodes);
      for i := 0 to |target.sources|
        invariant Fresh(sched.nodes) && Works(sched.nodes) == start + OwnCompiles(g, t, i)
      {
        var info := UnitySourceInfo(target, i);
        if info.Some? && !info.value.1 {
          continue;
        }
        if !RequiresCompile(target.sources[i]) {
          continue;
        }
        var n := Add(Compile(t, t, i));
      }
    }

    method AddBorrowedFrom(t: nat, o: nat)
      requires t < |g.targets| && o < |g.targets| && Fresh(sched.nodes)
      modifies sched`nodes
      ensures Fresh(sched.nodes)
      ensures Works(sched.nodes) == old(Works(sched.nodes)) + BorrowedFrom(g, t, o, |g.targets[o].sources|)
    {
      ghost var start := Works(sched.nodes);
      for j := 0 to |g.targets[o].sources|
        invariant Fresh(sched.nodes) && Works(sched.nodes) == start + BorrowedFrom(g, t, o, j)
      {
        if RequiresCompile(g.targets[o].sources[j]) {
          var n := Add(Compile(t, o, j));
        }
      }
    }

    method AddBorrowedCompiles(t: nat, names: seq<string>)
      requires t < |g.targets| && Fresh(sched.nodes)
      modifies sched`nodes
      ensures Fresh(sched.nodes)
      ensures Works(sched.nodes) == old(Works(sched.nodes)) + BorrowedCompiles(g, t, names)
    {
      hide BorrowedFrom, BorrowedCompiles;
      ghost var start := Works(sched.nodes);
      BorrowedStep(g, t, names, |names|);
      assert names[0..] == names;
      for i := 0 to |names|
        invariant Fresh(sched.nodes)
        invariant Works(sched.nodes) + BorrowedCompiles(g, t, names[i..]) == start + BorrowedCompiles(g, t, names)
      {
        BorrowedStep(g, t, names, i);
        var o := FindTarget(g, names[i]);
        if o.None? || !g.targets[o.value].consumerContext {
          continue;
        }
        AddBorrowedFrom(t, o.value);
      }
    }

    /** A target with actions of its own: precompiled header, compiles, final action. */
    method CreateNativeNodes(t: nat) returns (n: nat)
      requires t < |g.targets| && !g.targets[t].IsPassive() && Fresh(sched.nodes)
      modifies sched`nodes
      ensures Fresh(sched.nodes) && n == |sched.nodes| - 1
      ensures Works(sched.nodes) == old(Works(sched.nodes)) + WorksOf(g, T(t))
    {
      hide OwnCompiles, BorrowedCompiles, WorksOf, Fresh;
      var target := g.targets[t];
      ghost var start := Works(sched.nodes);
      if target.pch.Some? {
        n := Add(Pch(t));
      }
      ghost var afterPch := Works(sched.nodes);
      if !target.consumerContext {
        AddOwnCompiles(t);
      }
      ghost var afterOwn := Works(sched.nodes);
      AddBorrowedCompiles(t, target.objects);
      n := Add(if target.kind == ObjectLibrary then ObjectLib(t) else Final(t));
      NativeWorks(g, t, start, afterPch, afterOwn);
    }

    /** The nodes of one target, unless it asks for a C++ strategy it cannot have. */
    method CreateTargetNodes(t: nat) returns (ok: bool)
      requires t < |g.targets| && Fresh(sched.nodes)
      modifies sched`nodes, this`heads
      ensures ok <==> TargetFits(g.targets[t])
      ensures ok ==> Fresh(sched.nodes)
      ensures ok ==> Works(sched.nodes) == old(Works(sched.nodes)) + WorksOf(g, T(t))
      ensures ok ==> heads == old(heads)[T(t) := |sched.nodes| - 1]
    {
      hide OwnCompiles, BorrowedCompiles, Fresh, StrategiesOk;
      var target := g.targets[t];
      var n;
      if target.IsPassive() {
        n := Add(if target.kind == GroupTarget then Group(t) else if target.kind == RunTarget then RunCommand(t) else Metadata(t));
      } else {
        ok := ValidateStrategies(target);
        if !ok {
          return;
        }
        n := CreateNativeNodes(t);
      }
      heads := heads[T(t) := n];
      return true;
    }

    /** Nodes for the found declarations: targets in discovery order, then generated actions, then stages. */
    method CreateNodes(found: D.Finder) returns (ok: bool)
      requires found.g == g && found.Valid() && sched.nodes == [] && heads == map[]
      modifies sched`nodes, this`heads
      ensures ok <==> forall t: nat :: T(t) in found.Found() ==> TargetFits(g.targets[t])
      ensures ok ==> Fresh(sched.nodes) && NodesOk(g, heads, sched.nodes) && BlocksOk(g, heads, sched.nodes)
      ensures ok ==> forall e :: e in heads <==> e in found.Found()
    {
      NothingCreated(g);
      hide NodesOk, BlocksOk, WorksOf, TargetFits;
      for i := 0 to |found.targets|
        invariant Creating() && forall e :: e in heads <==> e.T? && e.target in found.targets[..i]
        invariant forall t: nat :: t in found.targets[..i] ==> t < |g.targets| && TargetFits(g.targets[t])
      {
        var t := found.targets[i];
        assert t in found.targets && found.Has(T(t));
        ghost var before, map0 := sched.nodes, heads;
        ok := CreateTargetNodes(t);
        if !ok {
          return;
        }
        CreationKeepsNodes(g, map0, before, T(t), sched.nodes);
        CreationKeepsBlocks(g, map0, before, T(t), sched.nodes);
        assert found.targets[..i + 1] == found.targets[..i] + [t];
      }
      assert found.targets[..|found.targets|] == found.targets;
      CreateGenrules(found);
      CreateStages(found);
      return true;
    }

    ghost predicate Creating()
      reads this, sched
    {
      Fresh(sched.nodes) && NodesOk(g, heads, sched.nodes) && BlocksOk(g, heads, sched.nodes)
    }

    method CreateGenrules(found: D.Finder)
      requires found.g == g && found.Valid() && Creating()
      requires forall e :: e in heads <==> found.Has(e) && e.T?
      modifies sched`nodes, this`heads
      ensures Creating() && forall e :: e in heads <==> found.Has(e) && !e.S?
    {
      hide NodesOk, BlocksOk, WorksOf;
      for r := 0 to |g.genrules|
        invariant Creating() && forall e :: e in heads <==> found.Has(e) && !e.S? && (e.G? ==> e.genrule < r)
      {
        if found.genruleNeeded[r] {
          ghost var before, map0 := sched.nodes, heads;
          var n := Add(Generate(r, g.genrules[r].configHeader));
          heads := heads[G(r) := n];
          SingleWork(g, G(r));
          CreationKeepsNodes(g, map0, before, G(r), sched.nodes);
          CreationKeepsBlocks(g, map0, before, G(r), sched.nodes);
        }
      }
    }

    method CreateStages(found: D.Finder)
      requires found.g == g && found.Valid() && Creating()
      requires forall e :: e in heads <==> found.Has(e) && !e.S?
      modifies sched`nodes, this`heads
      ensures Creating() && forall e :: e in heads <==> found.Has(e)
    {
      hide NodesOk, BlocksOk, WorksOf;
      for s := 0 to |g.stages|
        invariant Creating() && forall e :: e in heads <==> found.Has(e) && (e.S? ==> e.stage < s)
      {
        if found.stageNeeded[s] {
          ghost var before, map0 := sched.nodes, heads;
          var n := Add(Stage(s));
          heads := heads[S(s) := n];
          SingleWork(g, S(s));
          CreationKeepsNodes(g, map0, before, S(s), sched.nodes);
          CreationKeepsBlocks(g, map0, before, S(s), sched.nodes);
        }
      }
    }

    // ---- edges --------------------------------------------------------------------

    ghost predicate Ready()
      reads this, sched
    {
      R.Unstarted(sched.nodes) && NodesOk(g, heads, sched.nodes)
    }

    method Link(d: nat, u: nat) returns (ok: bool)
      requires Ready() && d < |sched.nodes| && u < |sched.nodes|
      modifies sched`nodes
      ensures Ready() && Works(sched.nodes) == old(Works(sched.nodes)) && |sched.nodes| == |old(sched.nodes)|
      ensures ok <==> d != u
      ensures ok ==> Pairs(sched.nodes) == old(Pairs(sched.nodes)) + {(d, u)}
    {
      hide NodesOk, Works;
      ghost var before := sched.nodes;
      ok := sched.AddEdge(d, u);
      if ok {
        R.EdgeAdded(before, d, u);
        SameWorks(g, heads, before, sched.nodes);
      }
    }

    /** One edge per request whose producer has a node; fails on the first request that cannot be met. */
    method Connect(requests: seq<Request>, user: nat) returns (ok: bool)
      requires Ready() && user < |sched.nodes|
      modifies sched`nodes
      ensures Ready() && Works(sched.nodes) == old(Works(sched.nodes)) && |sched.nodes| == |old(sched.nodes)|
      ensures ok <==> AllMet(heads, requests, user)
      ensures ok ==> Pairs(sched.nodes) == old(Pairs(sched.nodes)) + RequestPairs(heads, requests, user)
    {
      hide NodesOk, R.Unstarted, Works;
      ghost var start := Pairs(sched.nodes);
      for i := 0 to |requests|
        invariant Ready() && Works(sched.nodes) == old(Works(sched.nodes)) && |sched.nodes| == |old(sched.nodes)|
        invariant Pairs(sched.nodes) == start + RequestPairs(heads, requests[..i], user)
        invariant forall k :: 0 <= k < i ==> Met(heads, requests[k], user)
      {
        RequestPairsStep(heads, requests, i, user);
        assert requests[i] in requests;
        match requests[i] {
          case Refuse => return false;
          case Need(e) =>
            if e in heads {
              HeadInRange(g, heads, sched.nodes, e);
              ok := Link(heads[e], user);
              if !ok {
                return false;
              }
            } else if e.S? {
              return false;
            }
        }
      }
      assert requests[..|requests|] == requests;
      return true;
    }

    /** Every compile node of a target feeds its head and waits for generated sources, headers and usage inputs. */
    method ConnectCompiles(t: nat, final: nat) returns (ok: bool)
      requires Ready() && t < |g.targets| && final < |sched.nodes| && IsHead(sched.nodes[final].work)
      modifies sched`nodes
      ensures Ready() && Works(sched.nodes) == old(Works(sched.nodes)) && |sched.nodes| == |old(sched.nodes)|
      ensures AllKnown(g, Works(sched.nodes))
      ensures ok <==> forall j: nat :: CompileOf(Works(sched.nodes), j, t) ==> NodeMet(g, heads, Works(sched.nodes), j)
      ensures ok ==> Pairs(sched.nodes) == old(Pairs(sched.nodes)) + CompilePairs(g, heads, Works(sched.nodes), t, final, |sched.nodes|)
    {
      hide NodesOk, R.Unstarted, WorkRequests, RequestPairs, AllMet, CompilePairs, Works, Pairs;
      ghost var start, works := Pairs(sched.nodes), Works(sched.nodes);
      NodesKnown(g, heads, sched.nodes);
      SizedWorks(sched.nodes);
      NoCompilePairs(g, heads, works, t, final);
      for j := 0 to |sched.nodes|
        invariant Ready() && Works(sched.nodes) == works && |sched.nodes| == |works|
        invariant forall k: nat :: k < j && CompileOf(works, k, t) ==> NodeMet(g, heads, works, k)
        invariant Pairs(sched.nodes) == start + CompilePairs(g, heads, works, t, final, j)
      {
        var w := sched.nodes[j].work;
        SizedWorks(sched.nodes);
        CompileStep(g, heads, works, t, final, j);
        if w.Compile? && w.target == t {
          ok := Link(j, final);
          assert ok;
          ok := Connect(WorkRequests(g, w), j);
          if !ok {
            assert CompileOf(works, j, t) && !NodeMet(g, heads, works, j);
            return;
          }
        }
      }
      return true;
    }

    /** Adds edges from one node to the compile nodes of a target that satisfy `want`. */
    method ConnectFan(t: nat, d: nat, want: Work -> bool)
      requires Ready() && d < |sched.nodes|
      modifies sched`nodes
      ensures Ready() && Works(sched.nodes) == old(Works(sched.nodes)) && |sched.nodes| == |old(sched.nodes)|
      ensures Pairs(sched.nodes) == old(Pairs(sched.nodes)) + Fan(Works(sched.nodes), t, d, want, |sched.nodes|)
    {
      hide NodesOk, R.Unstarted;
      ghost var start, works := Pairs(sched.nodes), Works(sched.nodes);
      for k := 0 to |sched.nodes|
        invariant Ready() && Works(sched.nodes) == works && |sched.nodes| == |works|
        invariant Pairs(sched.nodes) == start + Fan(works, t, d, want, k)
      {
        var w := sched.nodes[k].work;
        assert w == works[k];
        FanStep(works, t, d, want, k);
        if k != d && w.Compile? && w.target == t && want(w) {
          var ok := Link(d, k);
        }
      }
    }

    /** The precompiled header waits for its own inputs; the C++ compiles wait for it. */
    method ConnectPch(t: nat) returns (ok: bool)
      requires Ready() && t < |g.targets|
      modifies sched`nodes
      ensures Ready() && Works(sched.nodes) == old(Works(sched.nodes)) && |sched.nodes| == |old(sched.nodes)|
      ensures AllKnown(g, Works(sched.nodes))
      ensures ok <==> forall j: nat :: PchOf(Works(sched.nodes), j, t) ==> NodeMet(g, heads, Works(sched.nodes), j)
      ensures ok ==> Pairs(sched.nodes) == old(Pairs(sched.nodes)) + PchPairs(g, heads, Works(sched.nodes), t, |sched.nodes|)
    {
      hide NodesOk, R.Unstarted, WorkRequests, RequestPairs, Fan, AllMet, CxxWork, PchPairs, Works, Pairs;
      ghost var start, works := Pairs(sched.nodes), Works(sched.nodes);
      NodesKnown(g, heads, sched.nodes);
      SizedWorks(sched.nodes);
      NoPchPairs(g, heads, works, t);
      for j := 0 to |sched.nodes|
        invariant Ready() && Works(sched.nodes) == works && |sched.nodes| == |works|
        invariant forall k: nat :: k < j && PchOf(works, k, t) ==> NodeMet(g, heads, works, k)
        invariant Pairs(sched.nodes) == start + PchPairs(g, heads, works, t, j)
      {
        var w := sched.nodes[j].work;
        SizedWorks(sched.nodes);
        PchStep(g, heads, works, t, j);
        if w == Pch(t) {
          ok := Connect(WorkRequests(g, w), j);
          if !ok {
            assert PchOf(works, j, t) && !NodeMet(g, heads, works, j);
            return;
          }
          ConnectFan(t, j, k => CxxWork(g, k));
        }
      }
      return true;
    }

    /** Module interfaces precede the later interfaces and every implementation of the target. */
    method ConnectModules(t: nat)
      requires Ready() && t < |g.targets|
      modifies sched`nodes
      ensures Ready() && Works(sched.nodes) == old(Works(sched.nodes)) && |sched.nodes| == |old(sched.nodes)|
      ensures Pairs(sched.nodes) == old(Pairs(sched.nodes)) + ModulePairs(g, Works(sched.nodes), t, |sched.nodes|)
    {
      hide NodesOk, R.Unstarted, Fan, ModuleEdge, InterfaceWork;
      ghost var start, works := Pairs(sched.nodes), Works(sched.nodes);
      NoModules(g, works, t, |works|);
      if !g.targets[t].modules {
        return;
      }
      for j := 0 to |sched.nodes|
        invariant Ready() && Works(sched.nodes) == works && |sched.nodes| == |works|
        invariant Pairs(sched.nodes) == start + ModulePairs(g, works, t, j)
      {
        var w := sched.nodes[j].work;
        assert w == works[j];
        if w.Compile? && w.target == t && InterfaceWork(g, w) {
          ConnectFan(t, j, k => ModuleEdge(g, w, k));
        }
      }
    }

    /** All edges whose user belongs to one target. */
    method ConnectTarget(t: nat) returns (ok: bool)
      requires Ready() && t < |g.targets| && T(t) in heads
      modifies sched`nodes
      ensures Ready() && Works(sched.nodes) == old(Works(sched.nodes)) && |sched.nodes| == |old(sched.nodes)|
      ensures AllKnown(g, Works(sched.nodes))
      ensures ok <==> EntityMet(g, heads, Works(sched.nodes), T(t))
      ensures ok ==> Pairs(sched.nodes) == old(Pairs(sched.nodes)) + EntityPairs(g, heads, Works(sched.nodes), T(t))
    {
      hide NodesOk, R.Unstarted, RequestPairs, CompilePairs, PchPairs, ModulePairs, EntityMet, AllMet;
      NodesKnown(g, heads, sched.nodes);
      TargetMet(g, heads, sched.nodes, t);
      HeadInRange(g, heads, sched.nodes, T(t));
      var final := heads[T(t)];
      ok := Connect(HeadRequests(g, g.targets[t]), final);
      if !ok || g.targets[t].IsPassive() {
        return;
      }
      TargetMet(g, heads, sched.nodes, t);
      ok := ConnectCompiles(t, final);
      if !ok {
        return;
      }
      ok := ConnectPch(t);
      if ok {
        ConnectModules(t);
      }
    }

    method ConnectGenrules(found: D.Finder) returns (ok: bool)
      requires Linking(found, {})
      modifies sched`nodes
      ensures Works(sched.nodes) == old(Works(sched.nodes)) && |sched.nodes| == |old(sched.nodes)|
      ensures ok ==> Linking(found, set e | e in heads && e.G?)
      ensures Ready() && AllKnown(g, Works(sched.nodes))
      ensures ok <==> forall e :: e in heads && e.G? ==> EntityMet(g, heads, Works(sched.nodes), e)
    {
      hide NodesOk, R.Unstarted, EntityPairs, EntityMet, AllMet;
      ghost var done: set<Entity> := {};
      for r := 0 to |g.genrules|
        invariant Works(sched.nodes) == old(Works(sched.nodes)) && |sched.nodes| == |old(sched.nodes)|
        invariant Linking(found, done)
        invariant forall e :: e in done <==> e in heads && e.G? && e.genrule < r
        invariant forall e :: e in done ==> EntityMet(g, heads, Works(sched.nodes), e)
      {
        if found.genruleNeeded[r] {
          assert found.Has(G(r));
          HeadInRange(g, heads, sched.nodes, G(r));
          UnionStep(g, heads, Works(sched.nodes), done, G(r));
          GeneratePairs(g, heads, Works(sched.nodes), G(r));
          LoneMet(g, heads, sched.nodes, G(r));
          ok := Connect(D.GenruleRequests(g, r), heads[G(r)]);
          if !ok {
            return;
          }
          done := done + {G(r)};
        }
      }
      assert done == set e | e in heads && e.G?;
      return true;
    }

    method ConnectStages(found: D.Finder) returns (ok: bool)
      requires Linking(found, set e | e in heads && e.G?)
      modifies sched`nodes
      ensures Works(sched.nodes) == old(Works(sched.nodes)) && |sched.nodes| == |old(sched.nodes)|
      ensures ok ==> Linking(found, set e | e in heads && !e.T?)
      ensures Ready() && AllKnown(g, Works(sched.nodes))
      ensures ok <==> forall e :: e in heads && e.S? ==> EntityMet(g, heads, Works(sched.nodes), e)
    {
      hide NodesOk, R.Unstarted, EntityPairs, EntityMet, AllMet;
      ghost var done := set e | e in heads && e.G?;
      for s := 0 to |g.stages|
        invariant Works(sched.nodes) == old(Works(sched.nodes)) && |sched.nodes| == |old(sched.nodes)|
        invariant Linking(found, done)
        invariant forall e :: e in done <==> e in heads && !e.T? && (e.S? ==> e.stage < s)
        invariant forall e :: e in done && e.S? ==> EntityMet(g, heads, Works(sched.nodes), e)
      {
        if found.stageNeeded[s] {
          assert found.Has(S(s));
          HeadInRange(g, heads, sched.nodes, S(s));
          UnionStep(g, heads, Works(sched.nodes), done, S(s));
          GeneratePairs(g, heads, Works(sched.nodes), S(s));
          LoneMet(g, heads, sched.nodes, S(s));
          ok := Connect(ListRequests(g, g.stages[s].srcs, None), heads[S(s)]);
          if !ok {
            return;
          }
          done := done + {S(s)};
        }
      }
      assert done == set e | e in heads && !e.T?;
      return true;
    }

    method ConnectTargets(found: D.Finder) returns (ok: bool)
      requires Linking(found, set e | e in heads && !e.T?)
      modifies sched`nodes
      ensures Works(sched.nodes) == old(Works(sched.nodes)) && |sched.nodes| == |old(sched.nodes)|
      ensures ok ==> Linking(found, heads.Keys)
      ensures Ready() && AllKnown(g, Works(sched.nodes))
      ensures ok <==> forall e :: e in heads && e.T? ==> EntityMet(g, heads, Works(sched.nodes), e)
    {
      hide NodesOk, R.Unstarted, EntityPairs, EntityMet;
      ghost var done := set e | e in heads && !e.T?;
      for i := 0 to |found.targets|
        invariant Works(sched.nodes) == old(Works(sched.nodes)) && |sched.nodes| == |old(sched.nodes)|
        invariant Linking(found, done)
        invariant forall e :: e in done <==> e in heads && (e.T? ==> e.target in found.targets[..i])
        invariant forall e :: e in done && e.T? ==> EntityMet(g, heads, Works(sched.nodes), e)
      {
        var t := found.targets[i];
        assert t in found.targets;
        assert found.Has(T(t));
        UnionStep(g, heads, Works(sched.nodes), done, T(t));
        ok := ConnectTarget(t);
        if !ok {
          return;
        }
        assert found.targets[..i + 1] == found.targets[..i] + [t];
        done := done + {T(t)};
      }
      assert found.targets[..|found.targets|] == found.targets;
      assert forall e :: e in heads ==> found.Has(e);
      assert done == heads.Keys;
      return true;
    }

    /** The edges so far are those of the declarations in `done`. */
    ghost predicate Linking(found: D.Finder, done: set<Entity>)
      reads this, sched, found, found.targetSeen, found.genruleNeeded, found.stageNeeded
    {
      && found.g == g && found.Valid() && Ready()
      && (forall e :: e in heads <==> found.Has(e))
      && AllKnown(g, Works(sched.nodes)) && KnownHeads(g, heads) && done <= heads.Keys
      && Pairs(sched.nodes) == UnionPairs(g, heads, Works(sched.nodes), done)
    }

    /** Generated actions, then stages, then targets. */
    method ConnectAll(found: D.Finder) returns (ok: bool)
      requires found.g == g && found.Valid() && Ready() && Pairs(sched.nodes) == {}
      requires forall e :: e in heads <==> e in found.Found()
      modifies sched`nodes
      ensures Ready() && Works(sched.nodes) == old(Works(sched.nodes)) && AllKnown(g, Works(sched.nodes))
      ensures ok <==> forall e :: e in heads ==> EntityMet(g, heads, Works(sched.nodes), e)
      ensures ok ==> forall d: nat, u: nat :: Edge(sched.nodes, d, u) <==> Wanted(g, heads, sched.nodes, d, u)
    {
      hide EntityPairs, Wanted, WorksOf, EntityMet;
      NodesKnown(g, heads, sched.nodes);
      assert KnownHeads(g, heads);
      assert UnionPairs(g, heads, Works(sched.nodes), {}) == {};
      hide NodesOk, R.Unstarted, AllKnown, KnownHeads;
      ok := ConnectGenrules(found);
      if !ok {
        return;
      }
      ok := ConnectStages(found);
      if !ok {
        return;
      }
      ok := ConnectTargets(found);
      if !ok {
        return;
      }
      UnstartedEdges(sched.nodes);
      AllPairsWanted(g, heads, sched.nodes, heads.Keys);
    }
  }

  lemma LoneMet(g: Graph, heads: HeadMap, nodes: seq<Node>, e: Entity)
    requires NodesOk(g, heads, nodes) && AllKnown(g, Works(nodes)) && e in heads && !e.T?
    ensures EntityMet(g, heads, Works(nodes), e) <==>
            AllMet(heads, if e.G? then D.GenruleRequests(g, e.genrule) else ListRequests(g, g.stages[e.stage].srcs, None), heads[e])
  {
    hide AllMet, D.GenruleRequests, ListRequests;
    var works, h := Works(nodes), heads[e];
    assert Owner(works[h]) == e;
    assert forall n: nat :: n < |works| && Owner(works[n]) == e ==> works[n] == nodes[n].work && IsHead(works[n]) && n == h;
    assert EntityMet(g, heads, works, e) <==> NodeMet(g, heads, works, h);
  }

  /** A target's requests can be met if those of its head, its compiles and its precompiled header can. */
  lemma TargetMet(g: Graph, heads: HeadMap, nodes: seq<Node>, t: nat)
    requires NodesOk(g, heads, nodes) && AllKnown(g, Works(nodes)) && T(t) in heads
    ensures heads[T(t)] < |nodes| && IsHead(nodes[heads[T(t)]].work)
    ensures EntityMet(g, heads, Works(nodes), T(t)) <==>
              && AllMet(heads, HeadRequests(g, g.targets[t]), heads[T(t)])
              && (!g.targets[t].IsPassive() ==>
                    && (forall j: nat :: CompileOf(Works(nodes), j, t) ==> NodeMet(g, heads, Works(nodes), j))
                    && (forall j: nat :: PchOf(Works(nodes), j, t) ==> NodeMet(g, heads, Works(nodes), j)))
  {
    hide WorksOf, AllMet, HeadRequests, WorkRequests;
    var works, h := Works(nodes), heads[T(t)];
    HeadRequestsOf(g, works[h]);
    assert NodeMet(g, heads, works, h) <==> AllMet(heads, HeadRequests(g, g.targets[t]), h);
    forall n: nat | n < |works| && Owner(works[n]) == T(t) && n != h
      ensures !g.targets[t].IsPassive() && (CompileOf(works, n, t) || PchOf(works, n, t))
    {
      assert works[n] == nodes[n].work && !IsHead(works[n]);
      if g.targets[t].IsPassive() {
        PassiveHeads(g, t, works[n]);
      }
    }
  }

  lemma PassiveHeads(g: Graph, t: nat, w: Work)
    requires t < |g.targets| && w in WorksOf(g, T(t)) && g.targets[t].IsPassive()
    ensures IsHead(w)
  {}

  lemma UnstartedEdges(nodes: seq<Node>)
    requires R.Unstarted(nodes)
    ensures EdgesOk(nodes)
  {}

  ghost function EntityPairs(g: Graph, heads: HeadMap, works: seq<Work>, e: Entity): set<(nat, nat)>
    requires AllKnown(g, works) && e in heads && Known(g, e)
  {
    match e
    case G(r) => RequestPairs(heads, D.GenruleRequests(g, r), heads[e])
    case S(s) => RequestPairs(heads, ListRequests(g, g.stages[s].srcs, None), heads[e])
    case T(t) =>
      RequestPairs(heads, HeadRequests(g, g.targets[t]), heads[e])
      + (if g.targets[t].IsPassive() then {}
         else CompilePairs(g, heads, works, t, heads[e], |works|)
              + PchPairs(g, heads, works, t, |works|)
              + ModulePairs(g, works, t, |works|))
  }

  lemma GeneratePairs(g: Graph, heads: HeadMap, works: seq<Work>, e: Entity)
    requires AllKnown(g, works) && e in heads && Known(g, e) && !e.T?
    ensures EntityPairs(g, heads, works, e) ==
            RequestPairs(heads, if e.G? then D.GenruleRequests(g, e.genrule) else ListRequests(g, g.stages[e.stage].srcs, None), heads[e])
  {}

  ghost predicate KnownHeads(g: Graph, heads: HeadMap) {
    forall e :: e in heads ==> Known(g, e)
  }

  ghost function UnionPairs(g: Graph, heads: HeadMap, works: seq<Work>, done: set<Entity>): set<(nat, nat)>
    requires AllKnown(g, works) && KnownHeads(g, heads) && done <= heads.Keys
  {
    set e, p | e in done && p in EntityPairs(g, heads, works, e) :: p
  }

  lemma UnionStep(g: Graph, heads: HeadMap, works: seq<Work>, done: set<Entity>, e: Entity)
    requires AllKnown(g, works) && KnownHeads(g, heads) && done <= heads.Keys && e in heads
    ensures UnionPairs(g, heads, works, done + {e}) == UnionPairs(g, heads, works, done) + EntityPairs(g, heads, works, e)
  {
    hide EntityPairs;
  }

  // ---- the loops add exactly the wanted edges ---------------------------------------------------

  lemma {:induction false} InCompilePairs(g: Graph, heads: HeadMap, works: seq<Work>, t: nat, final: nat, n: nat, d: nat, u: nat)
    requires n <= |works| && AllKnown(g, works)
    ensures (d, u) in CompilePairs(g, heads, works, t, final, n) <==>
              || (u == final && d < n && CompileOf(works, d, t))
              || (u < n && CompileOf(works, u, t) && (d, u) in RequestPairs(heads, WorkRequests(g, works[u]), u))
  {
    hide WorkRequests;
    if n > 0 {
      InCompilePairs(g, heads, works, t, final, n - 1, d, u);
    }
  }

  lemma {:induction false} InPchPairs(g: Graph, heads: HeadMap, works: seq<Work>, t: nat, n: nat, d: nat, u: nat)
    requires n <= |works| && AllKnown(g, works)
    ensures (d, u) in PchPairs(g, heads, works, t, n) <==>
              || (u < n && works[u] == Pch(t) && (d, u) in RequestPairs(heads, WorkRequests(g, works[u]), u))
              || (d < n && works[d] == Pch(t) && u < |works| && u != d && CompileOf(works, u, t) && CxxWork(g, works[u]))
  {
    hide WorkRequests, CxxWork;
    if n > 0 {
      InPchPairs(g, heads, works, t, n - 1, d, u);
    }
  }

  lemma {:induction false} InModulePairs(g: Graph, works: seq<Work>, t: nat, n: nat, d: nat, u: nat)
    requires n <= |works|
    ensures (d, u) in ModulePairs(g, works, t, n) <==>
              && d < n && CompileOf(works, d, t) && InterfaceWork(g, works[d])
              && u < |works| && u != d && CompileOf(works, u, t) && ModuleEdge(g, works[d], works[u])
  {
    hide ModuleEdge, InterfaceWork;
    if n > 0 {
      InModulePairs(g, works, t, n - 1, d, u);
    }
  }

  lemma InRequestPairs(heads: HeadMap, requests: seq<Request>, h: nat, d: nat, u: nat)
    ensures (d, u) in RequestPairs(heads, requests, h) <==> u == h && exists e :: Need(e) in requests && e in heads && heads[e] == d
  {
    if e :| Need(e) in requests && e in heads && heads[e] == d {
      var q := Need(e);
      assert q in requests && q.Need?;
    }
    if (d, u) in RequestPairs(heads, requests, h) {
      var q :| q in requests && q.Need? && q.entity in heads && (heads[q.entity], h) == (d, u);
      assert Need(q.entity) == q;
    }
  }

  /** A declaration with a single node: its requests are all its edges. */
  lemma LoneNodePairs(g: Graph, heads: HeadMap, nodes: seq<Node>, e: Entity, d: nat, u: nat)
    requires NodesOk(g, heads, nodes) && e in heads && |WorksOf(g, e)| == 1
    requires AllKnown(g, Works(nodes)) && d != u
    requires forall h: nat :: h < |nodes| && Owner(nodes[h].work) == e ==>
               RequestPairs(heads, WorkRequests(g, nodes[h].work), h) == EntityPairs(g, heads, Works(nodes), e)
    ensures (d, u) in EntityPairs(g, heads, Works(nodes), e) <==> WantedPair(g, heads, nodes, e, d, u)
  {
    hide WorksOf, EntityPairs, RequestPairs, WorkRequests;
    WorksFacts(g, e);
    assert forall n :: 0 <= n < |nodes| && Owner(nodes[n].work) == e ==> nodes[n].work == WorksOf(g, e)[0];
    var h := heads[e];
    assert forall n :: 0 <= n < |nodes| && Owner(nodes[n].work) == e ==> n == h;
    InRequestPairs(heads, WorkRequests(g, nodes[h].work), h, d, u);
  }

  /** A target with compile nodes: the four groups of edges cover what each of its nodes waits for. */
  lemma NativePairs(g: Graph, heads: HeadMap, nodes: seq<Node>, t: nat, d: nat, u: nat)
    requires NodesOk(g, heads, nodes) && T(t) in heads && !g.targets[t].IsPassive()
    requires AllKnown(g, Works(nodes)) && d != u
    ensures (d, u) in EntityPairs(g, heads, Works(nodes), T(t)) <==> WantedPair(g, heads, nodes, T(t), d, u)
  {
    hide WorksOf, RequestPairs, WorkRequests, HeadRequests, CompilePairs, PchPairs, ModulePairs;
    var works, final := Works(nodes), heads[T(t)];
    InCompilePairs(g, heads, works, t, final, |works|, d, u);
    InPchPairs(g, heads, works, t, |works|, d, u);
    InModulePairs(g, works, t, |works|, d, u);
    InRequestPairs(heads, HeadRequests(g, g.targets[t]), final, d, u);
    NativeHead(g, nodes[final].work, t);
    HeadRequestsOf(g, works[final]);
    if u < |works| {
      InRequestPairs(heads, WorkRequests(g, works[u]), u, d, u);
    }
  }

  lemma HeadRequestsOf(g: Graph, w: Work)
    requires KnownWork(g, w) && IsHead(w) && Owner(w).T?
    ensures WorkRequests(g, w) == HeadRequests(g, g.targets[Owner(w).target])
  {}

  lemma NativeHead(g: Graph, w: Work, t: nat)
    requires t < |g.targets| && !g.targets[t].IsPassive() && w in WorksOf(g, T(t)) && IsHead(w)
    ensures w.Final? || w.ObjectLib?
  {}

  lemma PassiveAlone(g: Graph, e: Entity)
    requires Known(g, e) && (e.T? ==> g.targets[e.target].IsPassive())
    ensures |WorksOf(g, e)| == 1
  {}

  lemma EntityPairsExact(g: Graph, heads: HeadMap, nodes: seq<Node>, e: Entity, d: nat, u: nat)
    requires NodesOk(g, heads, nodes) && e in heads && AllKnown(g, Works(nodes)) && d != u
    ensures (d, u) in EntityPairs(g, heads, Works(nodes), e) <==> WantedPair(g, heads, nodes, e, d, u)
  {
    hide WorksOf, HeadRequests, RequestPairs;
    if e.T? && !g.targets[e.target].IsPassive() {
      NativePairs(g, heads, nodes, e.target, d, u);
    } else {
      PassiveAlone(g, e);
      forall h: nat | h < |nodes| && Owner(nodes[h].work) == e
        ensures RequestPairs(heads, WorkRequests(g, nodes[h].work), h) == EntityPairs(g, heads, Works(nodes), e)
      {
        WorksFacts(g, e);
        assert nodes[h].work == WorksOf(g, e)[0];
        if e.T? {
          HeadRequestsOf(g, nodes[h].work);
        }
      }
      LoneNodePairs(g, heads, nodes, e, d, u);
    }
  }

  /** All declarations together: the edges in the graph are the wanted ones and no others. */
  lemma AllPairsWanted(g: Graph, heads: HeadMap, nodes: seq<Node>, done: set<Entity>)
    requires NodesOk(g, heads, nodes) && EdgesOk(nodes) && AllKnown(g, Works(nodes)) && KnownHeads(g, heads)
    requires done == heads.Keys && Pairs(nodes) == UnionPairs(g, heads, Works(nodes), done)
    ensures forall d: nat, u: nat :: Edge(nodes, d, u) <==> Wanted(g, heads, nodes, d, u)
  {
    hide WorksOf, EntityPairs, Wanted;
    forall d: nat, u: nat ensures Edge(nodes, d, u) <==> Wanted(g, heads, nodes, d, u) {
      if Edge(nodes, d, u) {
        assert NodeEdgesOk(nodes, u);
        assert (d, u) in UnionPairs(g, heads, Works(nodes), done);
        var e :| e in done && (d, u) in EntityPairs(g, heads, Works(nodes), e);
        EntityPairsExact(g, heads, nodes, e, d, u);
      }
      if Wanted(g, heads, nodes, d, u) {
        WantedInRange(g, heads, nodes, d, u);
        var e := Owner(nodes[u].work);
        EntityPairsExact(g, heads, nodes, e, d, u);
        assert e in done;
        assert (d, u) in UnionPairs(g, heads, Works(nodes), done);
      }
    }
  }

  lemma WantedInRange(g: Graph, heads: HeadMap, nodes: seq<Node>, d: nat, u: nat)
    requires Wanted(g, heads, nodes, d, u)
    ensures d < |nodes| && u < |nodes| && d != u
  {}

  // ---- every declaration's nodes are all there, once ----------------------------------------------

  /** The nodes of `e` are one block that ends at its head. */
  ghost predicate BlockOk(g: Graph, heads: HeadMap, nodes: seq<Node>, e: Entity)
    requires e in heads && Known(g, e) && heads[e] < |nodes|
  {
    var works := WorksOf(g, e);
    && heads[e] + 1 >= |works|
    && (forall i :: 0 <= i < |works| ==> nodes[heads[e] + 1 - |works| + i].work == works[i])
    && (forall n :: 0 <= n < |nodes| && Owner(nodes[n].work) == e ==> heads[e] + 1 - |works| <= n <= heads[e])
  }

  ghost predicate BlocksOk(g: Graph, heads: HeadMap, nodes: seq<Node>) {
    forall e :: e in heads ==> Known(g, e) && heads[e] < |nodes| && BlockOk(g, heads, nodes, e)
  }

  /** `after` continues `before` with the given works. */
  ghost predicate Continues(before: seq<Node>, made: seq<Work>, after: seq<Node>) {
    && |after| == |before| + |made|
    && forall n :: 0 <= n < |after| ==> after[n].work == if n < |before| then before[n].work else made[n - |before|]
  }

  lemma WorksContinue(before: seq<Node>, made: seq<Work>, after: seq<Node>)
    requires Works(after) == Works(before) + made
    ensures Continues(before, made, after)
  {
    assert |after| == |Works(after)| == |before| + |made|;
    forall n | 0 <= n < |after|
      ensures after[n].work == if n < |before| then before[n].work else made[n - |before|]
    {
      assert after[n].work == Works(after)[n];
    }
  }

  lemma OldBlockStays(g: Graph, heads: HeadMap, before: seq<Node>, e: Entity, after: seq<Node>, x: Entity)
    requires Known(g, e) && e != x && x in heads && Known(g, x) && heads[x] < |before|
    requires Continues(before, WorksOf(g, e), after) && BlockOk(g, heads, before, x)
    ensures BlockOk(g, heads[e := |after|], after, x)
  {
    hide WorksOf;
    WorksFacts(g, e);
    forall n | |before| <= n < |after| ensures Owner(after[n].work) == e {
      assert WorksOf(g, e)[n - |before|] in WorksOf(g, e);
    }
  }

  lemma NewBlock(g: Graph, heads: HeadMap, before: seq<Node>, e: Entity, after: seq<Node>)
    requires Known(g, e) && e !in heads && NodesOk(g, heads, before)
    requires Continues(before, WorksOf(g, e), after)
    ensures |after| > 0 && BlockOk(g, heads[e := |after| - 1], after, e)
  {
    hide WorksOf;
    WorksFacts(g, e);
  }

  lemma CreationKeepsBlocks(g: Graph, heads: HeadMap, before: seq<Node>, e: Entity, after: seq<Node>)
    requires Known(g, e) && e !in heads && NodesOk(g, heads, before) && BlocksOk(g, heads, before)
    requires Works(after) == Works(before) + WorksOf(g, e)
    ensures |after| > 0 && BlocksOk(g, heads[e := |after| - 1], after)
  {
    hide WorksOf, Works, NodesOk, Continues;
    WorksContinue(before, WorksOf(g, e), after);
    NewBlock(g, heads, before, e, after);
    var longer := heads[e := |after| - 1];
    ContinuesLonger(before, WorksOf(g, e), after);
    forall x | x in longer ensures Known(g, x) && longer[x] < |after| && BlockOk(g, longer, after, x) {
      if x != e {
        OldBlockStays(g, heads, before, e, after, x);
      }
    }
  }

  lemma ContinuesLonger(before: seq<Node>, made: seq<Work>, after: seq<Node>)
    requires Continues(before, made, after)
    ensures |before| <= |after|
  {}

  lemma SameWorksKeepBlocks(g: Graph, heads: HeadMap, before: seq<Node>, after: seq<Node>)
    requires BlocksOk(g, heads, before) && |before| == |after|
    requires forall i :: 0 <= i < |before| ==> before[i].work == after[i].work
    ensures BlocksOk(g, heads, after)
  {
    hide WorksOf;
    forall e | e in heads ensures BlockOk(g, heads, after, e) {
      assert BlockOk(g, heads, before, e);
    }
  }

  /** An own compile is listed among its target's works exactly once. */
  lemma {:induction false} OwnCompileOnce(g: Graph, t: nat, n: nat, i: nat) returns (k: nat)
    requires t < |g.targets| && i < n <= |g.targets[t].sources| && CompilesOwn(g.targets[t], i)
    ensures k < |OwnCompiles(g, t, n)| && OwnCompiles(g, t, n)[k] == Compile(t, t, i)
    ensures forall m :: 0 <= m < |OwnCompiles(g, t, n)| && OwnCompiles(g, t, n)[m] == Compile(t, t, i) ==> m == k
  {
    hide CompilesOwn;
    if i == n - 1 {
      var shorter := OwnCompiles(g, t, n - 1);
      k := |shorter|;
      assert forall m :: 0 <= m < k ==> shorter[m] in shorter && shorter[m] != Compile(t, t, i);
    } else {
      k := OwnCompileOnce(g, t, n - 1, i);
    }
  }

  /** A target that compiles its own sources itself. */
  ghost predicate OwnsCompiles(g: Graph, t: nat) {
    && t < |g.targets| && !g.targets[t].IsPassive() && !g.targets[t].consumerContext
  }

  lemma OwnCompileInWorks(g: Graph, t: nat, i: nat) returns (k: nat)
    requires OwnsCompiles(g, t) && i < |g.targets[t].sources| && CompilesOwn(g.targets[t], i)
    ensures k < |WorksOf(g, T(t))| && WorksOf(g, T(t))[k] == Compile(t, t, i)
    ensures forall m :: 0 <= m < |WorksOf(g, T(t))| && WorksOf(g, T(t))[m] == Compile(t, t, i) ==> m == k
  {
    hide CompilesOwn, OwnCompiles, BorrowedCompiles;
    var target := g.targets[t];
    var own, borrowed := OwnCompiles(g, t, |target.sources|), BorrowedCompiles(g, t, target.objects);
    var p := if target.pch.Some? then 1 else 0;
    var j := OwnCompileOnce(g, t, |target.sources|, i);
    k := p + j;
    assert forall m :: 0 <= m < |borrowed| ==> borrowed[m] in borrowed && borrowed[m].owner != t;
  }

  /** Each own source that yields an object has exactly one compile node, and the head waits for it. */
  lemma LinkObjectsComplete(g: Graph, heads: HeadMap, nodes: seq<Node>, t: nat, i: nat) returns (n: nat)
    requires NodesOk(g, heads, nodes) && BlocksOk(g, heads, nodes) && T(t) in heads && OwnsCompiles(g, t)
    requires forall d: nat, u: nat :: Edge(nodes, d, u) <==> Wanted(g, heads, nodes, d, u)
    requires i < |g.targets[t].sources| && CompilesOwn(g.targets[t], i)
    ensures n < |nodes| && nodes[n].work == Compile(t, t, i) && Edge(nodes, n, heads[T(t)])
    ensures forall m :: 0 <= m < |nodes| && nodes[m].work == Compile(t, t, i) ==> m == n
  {
    n := OwnCompileNode(g, heads, nodes, t, i);
    hide NodesOk, BlocksOk, OwnsCompiles, CompilesOwn;
    OwnCompileLinked(g, heads, nodes, t, n);
  }

  lemma OwnCompileNode(g: Graph, heads: HeadMap, nodes: seq<Node>, t: nat, i: nat) returns (n: nat)
    requires BlocksOk(g, heads, nodes) && T(t) in heads && OwnsCompiles(g, t)
    requires i < |g.targets[t].sources| && CompilesOwn(g.targets[t], i)
    ensures n < |nodes| && nodes[n].work == Compile(t, t, i)
    ensures forall m :: 0 <= m < |nodes| && nodes[m].work == Compile(t, t, i) ==> m == n
  {
    hide WorksOf, CompilesOwn;
    var k := OwnCompileInWorks(g, t, i);
    assert BlockOk(g, heads, nodes, T(t));
    hide BlocksOk, OwnsCompiles;
    var works := WorksOf(g, T(t));
    var first := heads[T(t)] + 1 - |works|;
    assert works[k] == Compile(t, t, i);
    n := first + k;
    forall m | 0 <= m < |nodes| && nodes[m].work == Compile(t, t, i) ensures m == n {
      assert Owner(nodes[m].work) == T(t);
      assert works[m - first] == nodes[m].work;
    }
  }

  lemma OwnCompileLinked(g: Graph, heads: HeadMap, nodes: seq<Node>, t: nat, n: nat)
    requires NodesOk(g, heads, nodes) && T(t) in heads && OwnsCompiles(g, t)
    requires forall d: nat, u: nat :: Edge(nodes, d, u) <==> Wanted(g, heads, nodes, d, u)
    requires n < |nodes| && nodes[n].work.Compile? && nodes[n].work.target == t
    ensures Edge(nodes, n, heads[T(t)])
  {
    hide WorksOf, CompilesOwn, WorkRequests;
    NativeHead(g, nodes[heads[T(t)]].work, t);
    NodesKnown(g, heads, nodes);
    assert KnownWork(g, Works(nodes)[heads[T(t)]]);
    assert Inside(g, nodes[n].work, nodes[heads[T(t)]].work);
    assert Wanted(g, heads, nodes, n, heads[T(t)]);
  }

  /** Between two own compiles there is an edge exactly when the user reads the other's compiled interface. */
  lemma ModuleInputsMatchEdges(g: Graph, heads: HeadMap, nodes: seq<Node>, t: nat, d: nat, u: nat)
    requires NodesOk(g, heads, nodes)
    requires forall x: nat, y: nat :: Edge(nodes, x, y) <==> Wanted(g, heads, nodes, x, y)
    requires d < |nodes| && u < |nodes| && nodes[d].work.Compile? && nodes[u].work.Compile?
    requires nodes[d].work == Compile(t, t, nodes[d].work.source) && nodes[u].work == Compile(t, t, nodes[u].work.source)
    requires nodes[d].work.source != nodes[u].work.source
    ensures Edge(nodes, d, u) <==> ReadsInterface(g.targets[t], nodes[u].work.source, nodes[d].work.source)
  {
    hide WorksOf, WorkRequests;
    NodesKnown(g, heads, nodes);
    assert KnownWork(g, Works(nodes)[u]);
    assert !IsHead(nodes[d].work);
    assert Wanted(g, heads, nodes, d, u) <==> Inside(g, nodes[d].work, nodes[u].work);
  }

  // ---- no dependency is lost ----------------------------------------------------------------------

  lemma {:induction false} LabelEdgesWalked(g: Graph, names: seq<string>, external: bool, d: Entity)
    requires Need(d) in LabelEdges(g, names)
    ensures d.T? ==> Need(d) in D.LabelRequests(g, names, external)
    ensures d.G? ==> Need(d) in D.DepGenruleRequests(g, names)
  {
    if names != [] && Need(d) in LabelEdges(g, names[1..]) {
      LabelEdgesWalked(g, names[1..], external, d);
    }
  }

  lemma {:induction false} RunInputsDiscovered(g: Graph, items: seq<Item>, d: Entity)
    requires Need(d) in RunInputEdges(g, items)
    ensures Need(d) in D.RunInputRequests(g, items)
  {
    if items != [] && Need(d) in RunInputEdges(g, items[1..]) {
      RunInputsDiscovered(g, items[1..], d);
    }
  }

  lemma ListRequestsCons(g: Graph, first: Item, rest: seq<Item>)
    ensures ListRequests(g, [first] + rest, None) == ItemRequests(g, first, None) + ListRequests(g, rest, None)
  {
    assert ([first] + rest)[1..] == rest;
  }

  /** An item's producer is found through its token, or as the owner of a plain path. */
  lemma {:induction false} TokenOrPlain(g: Graph, items: seq<Item>, d: Entity)
    requires Need(d) in ListRequests(g, items, None)
    ensures || Need(d) in ListRequests(g, TokensOnly(items), None)
            || (d.G? && exists p :: p in PlainPaths(items) && FindOutputOwner(g, p) == Some(d.genrule))
  {
    hide FindTarget, FindGenrule, FindOutputOwner;
    var rest := items[1..];
    ListRequestsCons(g, items[0], TokensOnly(rest));
    assert TokensOnly(items) == (if items[0].TargetFile? || items[0].BadTargetFile? then [items[0]] + TokensOnly(rest) else TokensOnly(rest));
    if Need(d) in ListRequests(g, rest, None) {
      TokenOrPlain(g, rest, d);
      if Need(d) !in ListRequests(g, TokensOnly(rest), None) {
        var p :| p in PlainPaths(rest) && FindOutputOwner(g, p) == Some(d.genrule);
        assert p in PlainPaths(items);
      }
    } else if items[0].Plain? {
      assert items[0].path in PlainPaths(items);
    }
  }

  lemma OutputsConsumed(g: Graph, paths: seq<string>, p: string, r: nat)
    requires p in paths && FindOutputOwner(g, p) == Some(r)
    ensures r < |g.genrules| && OutputIn(g.genrules[r], paths)
  {}

  /** The one edge a node asks for that discovery does not follow: a plain path in a run command. */
  ghost predicate Overlooked(g: Graph, w: Work, d: Entity)
    requires KnownWork(g, w)
  {
    w.RunCommand? && d.G? && exists p :: p in PlainPaths(g.targets[w.target].runCommand) && FindOutputOwner(g, p) == Some(d.genrule)
  }

  /** Everything listed among the objects is a target. */
  predicate ObjectsNamed(g: Graph, t: Target) {
    forall k :: 0 <= k < |t.objects| ==> FindTarget(g, t.objects[k]).Some?
  }

  lemma {:induction false} NamedAreTargets(g: Graph, names: seq<string>, d: Entity)
    requires forall k :: 0 <= k < |names| ==> FindTarget(g, names[k]).Some?
    requires Need(d) in LabelEdges(g, names)
    ensures d.T?
  {
    hide FindTarget;
    if Need(d) in LabelEdges(g, names[1..]) {
      NamedAreTargets(g, names[1..], d);
    }
  }

  lemma ReceivedAreNamed(g: Graph, t: nat)
    requires Received(g) && t < |g.targets|
    ensures ObjectsNamed(g, g.targets[t])
  {
    hide FindTarget;
    forall k | 0 <= k < |g.targets[t].objects| ensures FindTarget(g, g.targets[t].objects[k]).Some? {
      assert IsObjectLibrary(g, g.targets[t].objects[k]);
    }
  }

  lemma NoObjectsGenerated(g: Graph, t: Target, d: Entity)
    requires ObjectsNamed(g, t)
    ensures d.G? ==> Need(d) !in LabelEdges(g, t.objects)
  {
    hide LabelEdges;
    if Need(d) in LabelEdges(g, t.objects) {
      NamedAreTargets(g, t.objects, d);
    }
  }

  lemma HeadNeedsFound(g: Graph, found: set<Entity>, t: nat, d: Entity)
    requires t < |g.targets| && D.Closed(g, found, T(t)) && Need(d) in HeadRequests(g, g.targets[t])
    ensures var target := g.targets[t];
            || d in found
            || (d.G? && Need(d) in LabelEdges(g, target.objects))
            || (d.G? && target.kind == RunTarget && exists p :: p in PlainPaths(target.runCommand) && FindOutputOwner(g, p) == Some(d.genrule))
  {
    hide ListRequests, LabelEdges, RunInputEdges, D.RunInputRequests, D.LabelRequests, D.DepGenruleRequests, ConsumedRequests;
    var target := g.targets[t];
    if Need(d) in LabelEdges(g, target.objects) {
      LabelEdgesWalked(g, target.objects, false, d);
      LabelEdgesNoStage(g, target.objects, d);
    } else if Need(d) in LabelEdges(g, target.deps) {
      LabelEdgesWalked(g, target.deps, true, d);
      LabelEdgesNoStage(g, target.deps, d);
    } else if Need(d) in LabelEdges(g, target.privateDeps) {
      LabelEdgesWalked(g, target.privateDeps, true, d);
      LabelEdgesNoStage(g, target.privateDeps, d);
    } else if target.kind == RunTarget && Need(d) in ListRequests(g, target.runCommand, None) {
      TokenOrPlain(g, target.runCommand, d);
    } else if target.kind == RunTarget && Need(d) in RunInputEdges(g, target.runInputs) {
      RunInputsDiscovered(g, target.runInputs, d);
    } else if Need(d) in ListRequests(g, target.linkInputs, None) {
      TokenOrPlain(g, target.linkInputs, d);
      if d.G? {
        if p :| p in PlainPaths(target.linkInputs) && FindOutputOwner(g, p) == Some(d.genrule) {
          OutputsConsumed(g, PlainPaths(target.linkInputs), p, d.genrule);
          ConsumedIsRequested(g, target, d.genrule);
        }
      }
    }
  }

  lemma LabelEdgesNoStage(g: Graph, names: seq<string>, d: Entity)
    requires Need(d) in LabelEdges(g, names)
    ensures !d.S?
  {}

  lemma ConsumedIsRequested(g: Graph, t: Target, r: nat)
    requires r < |g.genrules| && Consumes(t, g.genrules[r])
    ensures Need(G(r)) in ConsumedRequests(g, t)
  {}

  lemma CompileNeedsFound(g: Graph, found: set<Entity>, t: nat, o: nat, d: Entity)
    requires t < |g.targets| && o < |g.targets| && D.Closed(g, found, T(t)) && D.Closed(g, found, T(o))
    requires Need(d) in CompileConsumedRequests(g, g.targets[o]) + ListRequests(g, g.targets[t].compileUsage, None)
    ensures d in found
  {
    hide ListRequests, Consumes, CompileConsumes, ConsumedRequests, D.Closed;
    if Need(d) in CompileConsumedRequests(g, g.targets[o]) {
      CompiledIsConsumed(g.targets[o], g.genrules[d.genrule]);
      ConsumedIsRequested(g, g.targets[o], d.genrule);
      ScanCovers(g, found, o, d);
    } else {
      ScanCovers(g, found, t, d);
    }
  }

  lemma {:induction false} CompiledAreSources(sources: seq<Source>, p: string)
    requires p in PathsCompiled(sources)
    ensures exists i :: 0 <= i < |sources| && sources[i].path == p
  {
    if sources[0].path != p || !RequiresCompile(sources[0]) {
      CompiledAreSources(sources[1..], p);
      var i :| 0 <= i < |sources[1..]| && sources[1..][i].path == p;
      assert sources[i + 1].path == p;
    }
  }

  lemma CompiledIsConsumed(t: Target, genrule: Genrule)
    requires CompileConsumes(t, genrule)
    ensures Consumes(t, genrule)
  {
    if OutputIn(genrule, CompiledPaths(t)) {
      var p :| p in genrule.outputs && p in CompiledPaths(t);
      CompiledAreSources(t.sources, p);
      var i :| 0 <= i < |t.sources| && t.sources[i].path == p;
      assert SourcePaths(t)[i] == p;
    }
  }

  /** Whatever a node of a found declaration waits for is found too, apart from the overlooked case. */
  lemma NothingElseOverlooked(g: Graph, found: set<Entity>, e: Entity, w: Work, d: Entity)
    requires forall x :: x in found ==> Known(g, x) && D.Closed(g, found, x)
    requires Received(g) && e in found && w in WorksOf(g, e) && KnownWork(g, w) && Need(d) in WorkRequests(g, w)
    ensures d in found || Overlooked(g, w, d)
  {
    hide ListRequests, LabelEdges, D.Closed, HeadRequests, CompileConsumedRequests, WorksOf, ObjectsNamed, ObjectsReceived;
    hide ItemRequests, FindTarget, FindGenrule;
    WorksFacts(g, e);
    if e.T? && g.targets[e.target].kind == RunTarget {
      RunsAsRun(g, e, w);
    }
    match w {
      case Generate(r, _) => ClosedGrants(g, found, e, d);
      case Stage(s) => ClosedGrants(g, found, e, d);
      case Compile(t, o, _) =>
        CompileOwnerFound(g, found, t, w);
        CompileNeedsFound(g, found, t, o, d);
      case Pch(t) => PchNeedsFound(g, found, t, d);
      case _ =>
        HeadNeedsFound(g, found, w.target, d);
        ReceivedAreNamed(g, w.target);
        NoObjectsGenerated(g, g.targets[w.target], d);
    }
  }

  lemma {:induction false} PathIsListed(g: Graph, items: seq<Item>, p: string, r: nat)
    requires p in PlainPaths(items) && FindOutputOwner(g, p) == Some(r)
    ensures Need(G(r)) in ListRequests(g, items, None)
  {
    hide FindOutputOwner, FindTarget, FindGenrule;
    if !(items[0].Plain? && items[0].path == p) {
      PathIsListed(g, items[1..], p, r);
    }
  }

  /** A generated action owns a plain path in the command of a run target. */
  ghost predicate RunsPathOf(g: Graph, t: nat, r: nat) {
    && t < |g.targets| && g.targets[t].kind == RunTarget
    && exists p :: p in PlainPaths(g.targets[t].runCommand) && FindOutputOwner(g, p) == Some(r)
  }

  /** The overlooked producer is asked for. */
  lemma RunPathIsAsked(g: Graph, t: nat, r: nat)
    requires RunsPathOf(g, t, r)
    ensures RunCommand(t) in WorksOf(g, T(t)) && KnownWork(g, RunCommand(t)) && Need(G(r)) in WorkRequests(g, RunCommand(t))
  {
    hide PlainPaths, ListRequests, LabelEdges, RunInputEdges, ConsumedRequests;
    var p :| p in PlainPaths(g.targets[t].runCommand) && FindOutputOwner(g, p) == Some(r);
    PathIsListed(g, g.targets[t].runCommand, p, r);
    assert WorksOf(g, T(t)) == [RunCommand(t)];
  }

  /** A stage that some node waits for is always found. */
  lemma StagesFound(g: Graph, found: set<Entity>, e: Entity, w: Work, s: nat)
    requires e in found && Known(g, e) && D.Closed(g, found, e)
    requires w in WorksOf(g, e) && KnownWork(g, w) && Need(S(s)) in WorkRequests(g, w)
    ensures S(s) in found
  {
    hide D.Closed, HeadRequests, WorksOf, ItemRequests, ListRequests, FindTarget, FindGenrule, FindOutputOwner;
    WorksFacts(g, e);
    if w.Pch? || w.Compile? {
      NoStageUsage(g, w, s);
    } else if IsHead(w) && e.T? {
      HeadNeedsFound(g, found, e.target, S(s));
    } else {
      ClosedGrants(g, found, e, S(s));
    }
  }

  lemma NoStageUsage(g: Graph, w: Work, s: nat)
    requires KnownWork(g, w) && (w.Pch? || w.Compile?)
    ensures Need(S(s)) !in WorkRequests(g, w)
  {
    hide ListRequests, Consumes, CompileConsumes;
    D.NoStages(g, g.targets[w.target].compileUsage, None);
  }

  lemma RunsAsRun(g: Graph, e: Entity, w: Work)
    requires Known(g, e) && w in WorksOf(g, e) && e.T? && g.targets[e.target].kind == RunTarget
    ensures w.RunCommand?
  {}

  lemma ClosedGrants(g: Graph, found: set<Entity>, e: Entity, d: Entity)
    requires Known(g, e) && D.Closed(g, found, e) && Need(d) in D.Requests(g, e)
    ensures d in found
  {}

  /** The parts of a target's scan that its compile nodes rely on. */
  lemma ScanCovers(g: Graph, found: set<Entity>, t: nat, d: Entity)
    requires t < |g.targets| && D.Closed(g, found, T(t))
    requires Need(d) in ConsumedRequests(g, g.targets[t]) || Need(d) in ListRequests(g, g.targets[t].compileUsage, None)
    ensures d in found
  {
    hide ListRequests, ConsumedRequests, D.RunInputRequests, D.DepGenruleRequests, D.WalkRequests;
    assert Need(d) in D.Requests(g, T(t));
  }

  lemma PchNeedsFound(g: Graph, found: set<Entity>, t: nat, d: Entity)
    requires t < |g.targets| && g.targets[t].pch.Some? && g.targets[t].pch.value.Plain? && D.Closed(g, found, T(t))
    requires Need(d) in ItemRequests(g, g.targets[t].pch.value, None) + ListRequests(g, g.targets[t].compileUsage, None)
    ensures d in found
  {
    hide ListRequests, ConsumedRequests, D.Closed;
    if Need(d) in ListRequests(g, g.targets[t].compileUsage, None) {
      ScanCovers(g, found, t, d);
    } else {
      ConsumedIsRequested(g, g.targets[t], d.genrule);
      ScanCovers(g, found, t, d);
    }
  }

  lemma {:induction false} BorrowedIsWalked(g: Graph, names: seq<string>, name: string, o: nat)
    requires name in names && FindTarget(g, name) == Some(o)
    ensures Need(T(o)) in D.LabelRequests(g, names, false)
  {
    if names[0] != name {
      BorrowedIsWalked(g, names[1..], name, o);
    }
  }

  lemma CompileOwnerFound(g: Graph, found: set<Entity>, t: nat, w: Work)
    requires t < |g.targets| && w.Compile? && w.target == t && w in WorksOf(g, T(t))
    requires T(t) in found && forall x :: x in found ==> Known(g, x) && D.Closed(g, found, x)
    ensures T(w.owner) in found
  {
    hide D.TargetRequests, D.LabelRequests, OwnCompiles, BorrowedCompiles;
    var target := g.targets[t];
    assert D.Closed(g, found, T(t));
    if w.owner != t {
      assert w in BorrowedCompiles(g, t, target.objects);
      var name :| name in target.objects && Borrowed(g, name) == Some(w.owner);
      BorrowedIsWalked(g, target.objects, name, w.owner);
      assert Need(T(w.owner)) in D.Requests(g, T(t));
    }
  }

  // ---- the whole build ---------------------------------------------------------------------------

  /** The head of a declaration names the declaration itself as a producer. */
  ghost predicate AsksItself(g: Graph, e: Entity) {
    Known(g, e) && exists w :: w in WorksOf(g, e) && IsHead(w) && KnownWork(g, w) && Need(e) in WorkRequests(g, w)
  }

  /** Some action of a declaration names something refused. */
  ghost predicate AsksRefused(g: Graph, e: Entity) {
    Known(g, e) && exists w :: w in WorksOf(g, e) && KnownWork(g, w) && Refuse in WorkRequests(g, w)
  }

  ghost predicate Fits(g: Graph, e: Entity) {
    Known(g, e) && (e.T? ==> TargetFits(g.targets[e.target])) && !AsksItself(g, e) && !AsksRefused(g, e)
  }

  /** What holds of the graph a run was given. */
  ghost predicate Lowered(g: Graph, root: D.Root, heads: HeadMap, nodes: seq<Node>) {
    && NodesOk(g, heads, nodes) && BlocksOk(g, heads, nodes)
    && (forall e :: e in heads <==> D.Needed(g, root, e))
    && (forall e :: e in heads ==> Fits(g, e))
    && (forall d: nat, u: nat :: Edge(nodes, d, u) <==> Wanted(g, heads, nodes, d, u))
  }

  lemma WantedSameWorks(g: Graph, heads: HeadMap, a: seq<Node>, b: seq<Node>, d: nat, u: nat)
    requires |a| == |b| && forall i :: 0 <= i < |a| ==> a[i].work == b[i].work
    ensures Wanted(g, heads, a, d, u) <==> Wanted(g, heads, b, d, u)
  {
    hide Inside, WorkRequests, KnownWork;
  }

  /** Running the graph changes states and counters, not what was lowered. */
  lemma LoweredStays(g: Graph, root: D.Root, heads: HeadMap, a: seq<Node>, b: seq<Node>)
    requires Lowered(g, root, heads, a) && SameGraph(a, b)
    ensures Lowered(g, root, heads, b)
  {
    hide D.Needed, Wanted, NodesOk, BlocksOk, BlockOk, Fits;
    assert forall i :: 0 <= i < |a| ==> a[i].work == b[i].work;
    SameWorks(g, heads, a, b);
    SameWorksKeepBlocks(g, heads, a, b);
    forall d: nat, u: nat ensures Edge(b, d, u) <==> Wanted(g, heads, b, d, u) {
      WantedSameWorks(g, heads, a, b, d, u);
      assert Edge(a, d, u) <==> Edge(b, d, u);
    }
  }

  lemma NativeWorks(g: Graph, t: nat, start: seq<Work>, afterPch: seq<Work>, afterOwn: seq<Work>)
    requires t < |g.targets| && !g.targets[t].IsPassive()
    requires afterPch == start + (if g.targets[t].pch.Some? then [Pch(t)] else [])
    requires afterOwn == afterPch + (if g.targets[t].consumerContext then [] else OwnCompiles(g, t, |g.targets[t].sources|))
    ensures afterOwn + BorrowedCompiles(g, t, g.targets[t].objects)
            + [if g.targets[t].kind == ObjectLibrary then ObjectLib(t) else Final(t)] == start + WorksOf(g, T(t))
  {
    hide OwnCompiles, BorrowedCompiles;
  }

  lemma NoEdgesYet(nodes: seq<Node>)
    requires Fresh(nodes)
    ensures R.Unstarted(nodes) && Pairs(nodes) == {}
  {}

  lemma BlocksByWorks(g: Graph, heads: HeadMap, a: seq<Node>, b: seq<Node>)
    requires BlocksOk(g, heads, a) && Works(a) == Works(b)
    ensures BlocksOk(g, heads, b)
  {
    hide BlocksOk;
    assert |a| == |Works(a)| == |b|;
    forall i | 0 <= i < |a| ensures a[i].work == b[i].work {
      assert Works(a)[i] == Works(b)[i];
    }
    SameWorksKeepBlocks(g, heads, a, b);
  }

  lemma HeadsInRange(g: Graph, heads: HeadMap, nodes: seq<Node>)
    requires NodesOk(g, heads, nodes)
    ensures forall e :: e in heads ==> heads[e] < |nodes|
  {}

  ghost predicate AllKnown(g: Graph, works: seq<Work>) {
    forall j :: 0 <= j < |works| ==> KnownWork(g, works[j])
  }

  lemma SameWorks(g: Graph, heads: HeadMap, before: seq<Node>, after: seq<Node>)
    requires NodesOk(g, heads, before) && |before| == |after|
    requires forall i :: 0 <= i < |before| ==> before[i].work == after[i].work
    ensures NodesOk(g, heads, after) && Works(after) == Works(before)
  {
    hide WorksOf;
  }

  lemma HeadInRange(g: Graph, heads: HeadMap, nodes: seq<Node>, e: Entity)
    requires NodesOk(g, heads, nodes) && e in heads
    ensures heads[e] < |nodes|
  {}

  lemma RequestPairsStep(heads: HeadMap, requests: seq<Request>, i: nat, user: nat)
    requires i < |requests|
    ensures requests[..i + 1] == requests[..i] + [requests[i]]
    ensures var q := requests[i];
            RequestPairs(heads, requests[..i + 1], user) == RequestPairs(heads, requests[..i], user)
              + (if q.Need? && q.entity in heads then {(heads[q.entity], user)} else {})
  {
    assert requests[..i + 1] == requests[..i] + [requests[i]];
  }

  lemma SizedWorks(nodes: seq<Node>)
    ensures |Works(nodes)| == |nodes| && forall j :: 0 <= j < |nodes| ==> Works(nodes)[j] == nodes[j].work
  {}

  lemma NoPchPairs(g: Graph, heads: HeadMap, works: seq<Work>, t: nat)
    requires AllKnown(g, works)
    ensures PchPairs(g, heads, works, t, 0) == {}
  {}

  lemma NoCompilePairs(g: Graph, heads: HeadMap, works: seq<Work>, t: nat, final: nat)
    requires AllKnown(g, works)
    ensures CompilePairs(g, heads, works, t, final, 0) == {}
  {}

  lemma CompileStep(g: Graph, heads: HeadMap, works: seq<Work>, t: nat, final: nat, j: nat)
    requires AllKnown(g, works) && j < |works|
    ensures CompilePairs(g, heads, works, t, final, j + 1) == CompilePairs(g, heads, works, t, final, j)
              + (if CompileOf(works, j, t) then {(j, final)} + RequestPairs(heads, WorkRequests(g, works[j]), j) else {})
  {
    hide WorkRequests, RequestPairs;
  }

  lemma PchStep(g: Graph, heads: HeadMap, works: seq<Work>, t: nat, j: nat)
    requires AllKnown(g, works) && j < |works|
    ensures PchPairs(g, heads, works, t, j + 1) == PchPairs(g, heads, works, t, j)
              + (if PchOf(works, j, t)
                 then RequestPairs(heads, WorkRequests(g, works[j]), j) + Fan(works, t, j, k => CxxWork(g, k), |works|)
                 else {})
  {
    hide WorkRequests, CxxWork, Fan, RequestPairs;
  }

  lemma FanStep(works: seq<Work>, t: nat, d: nat, want: Work -> bool, k: nat)
    requires k < |works|
    ensures Fan(works, t, d, want, k + 1) == Fan(works, t, d, want, k)
              + (if k != d && CompileOf(works, k, t) && want(works[k]) then {(d, k)} else {})
  {}

  lemma {:induction false} NoModules(g: Graph, works: seq<Work>, t: nat, n: nat)
    requires n <= |works| && t < |g.targets|
    ensures !g.targets[t].modules ==> ModulePairs(g, works, t, n) == {}
  {
    if n > 0 {
      NoModules(g, works, t, n - 1);
    }
  }

  lemma NodesKnown(g: Graph, heads: HeadMap, nodes: seq<Node>)
    requires NodesOk(g, heads, nodes)
    ensures AllKnown(g, Works(nodes))
  {
    hide WorksOf;
    forall j | 0 <= j < |nodes| ensures KnownWork(g, nodes[j].work) {
      WorksKnown(g, Owner(nodes[j].work));
    }
  }

  lemma WorksKnown(g: Graph, e: Entity)
    requires Known(g, e)
    ensures forall w :: w in WorksOf(g, e) ==> KnownWork(g, w)
  {}

  lemma NothingCreated(g: Graph)
    ensures Works([]) == [] && NodesOk(g, map[], []) && BlocksOk(g, map[], [])
  {}

  lemma SingleWork(g: Graph, e: Entity)
    requires Known(g, e) && !e.T?
    ensures WorksOf(g, e) == [if e.G? then Generate(e.genrule, g.genrules[e.genrule].configHeader) else Stage(e.stage)]
  {}

  lemma BorrowedStep(g: Graph, t: nat, names: seq<string>, i: nat)
    requires t < |g.targets| && i <= |names|
    ensures BorrowedCompiles(g, t, names[|names|..]) == []
    ensures i < |names| ==>
              (var first := match Borrowed(g, names[i])
                            case Some(o) => BorrowedFrom(g, t, o, |g.targets[o].sources|)
                            case None => [];
               BorrowedCompiles(g, t, names[i..]) == first + BorrowedCompiles(g, t, names[i + 1..]))
  {
    if i < |names| {
      assert names[i..][0] == names[i] && names[i..][1..] == names[i + 1..];
    }
  }

  lemma CreationKeepsNodes(g: Graph, heads: HeadMap, before: seq<Node>, e: Entity, after: seq<Node>)
    requires Known(g, e) && e !in heads && NodesOk(g, heads, before) && Works(after) == Works(before) + WorksOf(g, e)
    ensures NodesOk(g, heads[e := |after| - 1], after)
  {
    hide WorksOf, Fresh;
    var made := WorksOf(g, e);
    WorksFacts(g, e);
    assert |after| == |Works(after)| == |before| + |made|;
    forall n | 0 <= n < |after|
      ensures after[n].work == if n < |before| then before[n].work else made[n - |before|]
    {
      assert after[n].work == Works(after)[n];
    }
    forall n | 0 <= n < |after| ensures Known(g, Owner(after[n].work)) && after[n].work in WorksOf(g, Owner(after[n].work)) {
      if n >= |before| {
        assert made[n - |before|] in made;
      }
    }
  }

  lemma WorksFacts(g: Graph, e: Entity)
    requires Known(g, e)
    ensures WorksOf(g, e) != [] && IsHead(WorksOf(g, e)[|WorksOf(g, e)| - 1])
    ensures forall w :: w in WorksOf(g, e) ==> Owner(w) == e
    ensures forall i :: 0 <= i < |WorksOf(g, e)| - 1 ==> !IsHead(WorksOf(g, e)[i])
  {}

  ghost predicate Fresh(nodes: seq<Node>) {
    forall n :: 0 <= n < |nodes| ==> nodes[n] == Node(nodes[n].work, Pending, 0, [], [])
  }
}
