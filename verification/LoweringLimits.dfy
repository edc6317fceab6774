/** Concrete declarations, acceptable ones, on which discovery and lowering fall short. */
module LoweringLimits {
  import opened Wrappers
  import opened BuildGraph
  import opened CxxUnity
  import opened ActionDag
  import opened Lowering
  import opened ActionCycles
  import opened DeclaredCycles
  import opened DroppedEdges
  import opened WholeBuild
  import D = Discovery

  // ---- an edge that is silently dropped ------------------------------------------------

  function Plainly(name: string, kind: TargetKind): Target {
    Target(name, kind, [], [], [], [], [], [], [], [], [], [], [], None, false, false, 0, false)
  }

  const SCRIPT := "tools/check"
  const GENERATED := "generated/a"

  /** A run command that names a generated file by its plain path. */
  function RunGraph(): Graph {
    Graph([Plainly("//:run", RunTarget).(runCommand := [Plain(SCRIPT), Plain(GENERATED)])],
          [Genrule("//:gen", Plain("tools/gen"), [], [], [GENERATED], false)], [], {})
  }

  const RUN := D.Named("//:run")

  /** A run target whose command is a script with one argument. */
  predicate RunsOnly(t: Target, script: string, path: string) {
    && t.kind == RunTarget && t.runCommand == [Plain(script), Plain(path)] && t.runInputs == []
    && t.objects == [] && t.deps == [] && t.privateDeps == [] && t.linkInputs == [] && t.compileUsage == [] && t.linkUsage == []
    && t.sources == [] && t.publicHeaders == [] && t.privateHeaders == [] && t.pch.None?
  }

  lemma NothingConsumed(g: Graph, t: Target)
    requires t.sources == [] && t.publicHeaders == [] && t.privateHeaders == [] && t.linkInputs == [] && t.pch.None?
    ensures ConsumedRequests(g, t) == []
  {
    assert forall rule :: !Consumes(t, rule);
    NoneBelow(g, rule => Consumes(t, rule), |g.genrules|);
  }

  lemma {:induction false} NoneBelow(g: Graph, wanted: Genrule -> bool, n: nat)
    requires n <= |g.genrules| && forall rule :: !wanted(rule)
    ensures GenrulesBelow(g, wanted, n) == []
  {
    if n > 0 {
      NoneBelow(g, wanted, n - 1);
    }
  }

  lemma {:induction false} NoTokens(items: seq<Item>)
    requires forall i :: 0 <= i < |items| ==> items[i].Plain?
    ensures TokensOnly(items) == []
  {
    if items != [] {
      NoTokens(items[1..]);
    }
  }

  lemma TwoListed(g: Graph, first: Item, second: Item)
    ensures ListRequests(g, [first, second], None) == ItemRequests(g, first, None) + ItemRequests(g, second, None)
  {
    hide ItemRequests;
    assert [first, second][1..] == [second] && [second][1..] == [];
    assert ListRequests(g, [second], None) == ItemRequests(g, second, None) + ListRequests(g, [], None);
  }

  lemma TwoPlain(first: string, second: string)
    ensures PlainPaths([Plain(first), Plain(second)]) == [first, second]
    ensures TokensOnly([Plain(first), Plain(second)]) == []
  {
    assert [Plain(first), Plain(second)][1..] == [Plain(second)];
    assert PlainPaths([Plain(second)]) == [second];
    NoTokens([Plain(first), Plain(second)]);
  }

  lemma RunAsks(g: Graph, t: Target, script: string, path: string)
    requires RunsOnly(t, script, path) && FindOutputOwner(g, script).None?
    ensures D.WalkRequests(g, t) == [] && D.TargetRequests(g, t) == []
    ensures HeadRequests(g, t) == ItemRequests(g, Plain(path), None)
    ensures PlainPaths(t.runCommand) == [script, path]
  {
    NothingConsumed(g, t);
    TwoPlain(script, path);
    TwoListed(g, Plain(script), Plain(path));
    assert ItemRequests(g, Plain(script), None) == [];
    hide FindOutputOwner, ConsumedRequests, Consumes, ItemRequests, PlainPaths;
  }

  lemma RunGraphFacts()
    ensures |RunGraph().targets| == 1 && RunsOnly(RunGraph().targets[0], SCRIPT, GENERATED)
    ensures FindOutputOwner(RunGraph(), SCRIPT) == None && FindOutputOwner(RunGraph(), GENERATED) == Some(0)
  {
    assert SCRIPT[0] != GENERATED[0];
  }

  lemma RunRequests()
    ensures |RunGraph().targets| == 1
    ensures D.Requests(RunGraph(), T(0)) == [] && D.WalkRequests(RunGraph(), RunGraph().targets[0]) == []
    ensures WorkRequests(RunGraph(), RunCommand(0)) == [Need(G(0))]
    ensures RunsPathOf(RunGraph(), 0, 0)
  {
    RunGraphFacts();
    hide RunGraph, FindOutputOwner, HeadRequests, D.WalkRequests, D.TargetRequests;
    RunAsks(RunGraph(), RunGraph().targets[0], SCRIPT, GENERATED);
    assert GENERATED in PlainPaths(RunGraph().targets[0].runCommand);
  }

  lemma RunNeeds(e: Entity)
    ensures D.Needed(RunGraph(), RUN, e) <==> e == T(0)
  {
    var g := RunGraph();
    hide RunGraph, D.Requests, FindTarget, FindGenrule, Received;
    RunRequests();
    RunNames();
    D.RootIsNeeded(g, RUN, T(0));
    if D.Needed(g, RUN, e) {
      D.LeastClosed(g, RUN, {T(0)}, e);
    }
  }

  lemma RunNames()
    ensures Received(RunGraph()) && FindTarget(RunGraph(), "//:run") == Some(0) && FindGenrule(RunGraph(), "//:run") == None
  {}

  lemma RunFits()
    ensures Fits(RunGraph(), T(0))
  {
    hide WorkRequests;
    RunRequests();
    assert WorksOf(RunGraph(), T(0)) == [RunCommand(0)];
  }

  lemma RunNotBlocked(e: Entity)
    ensures !D.BlockedAt(RunGraph(), RUN, e)
  {
    hide RunGraph, D.Requests, D.WalkRequests, D.Needed;
    RunRequests();
    RunNeeds(e);
    NoLabelsNoCircle(RunGraph(), 0);
  }

  lemma RunAccepted()
    ensures Received(RunGraph()) && Accepted(RunGraph(), RUN)
  {
    RunNames();
    RunFits();
    hide RunGraph, Received, Fits, FindTarget, FindGenrule, D.BlockedAt, D.Needed;
    forall e ensures !D.BlockedAt(RunGraph(), RUN, e) && (D.Needed(RunGraph(), RUN, e) ==> e == T(0)) {
      RunNotBlocked(e);
      RunNeeds(e);
    }
  }

  lemma NoLabelsNoCircle(g: Graph, t: nat)
    requires t < |g.targets| && forall q :: q in D.WalkRequests(g, g.targets[t]) ==> q.Refuse?
    ensures forall d: nat, steps: nat :: steps > 0 ==> !D.WalkIn(g, t, d, steps)
    ensures forall d: nat :: !D.Reaches(g, t, d)
  {
    forall d: nat, steps: nat | steps > 0 ensures !D.WalkIn(g, t, d, steps) {
      assert forall m: nat :: Need(T(m)) !in D.WalkRequests(g, g.targets[t]);
    }
  }

  /** The run action wants the generating action, which is not discovered, and the build goes ahead. */
  lemma RunCommandPathDropped()
    ensures Received(RunGraph()) && Accepted(RunGraph(), RUN)
    ensures RunsPathOf(RunGraph(), 0, 0) && D.Needed(RunGraph(), RUN, T(0)) && !D.Needed(RunGraph(), RUN, G(0))
    ensures forall heads: HeadMap, nodes: seq<Node> :: Lowered(RunGraph(), RUN, heads, nodes) ==> !AskedAwaited(RunGraph(), heads, nodes)
  {
    RunAccepted();
    RunRequests();
    RunNeeds(T(0));
    RunNeeds(G(0));
    hide Received, Accepted, D.Needed, RunGraph, RunsPathOf, AskedAwaited;
    forall heads: HeadMap, nodes: seq<Node> | Lowered(RunGraph(), RUN, heads, nodes)
      ensures !AskedAwaited(RunGraph(), heads, nodes)
    {
      NoEdgeDropped(RunGraph(), RUN, heads, nodes);
    }
  }

  /** A target that names nothing but object libraries. */
  predicate Bare(t: Target) {
    && t.deps == [] && t.privateDeps == [] && t.linkInputs == [] && t.compileUsage == [] && t.linkUsage == []
    && t.pch.None? && t.kind != RunTarget
  }

  lemma BareAsks(g: Graph, t: Target)
    requires g.genrules == [] && Bare(t)
    ensures D.WalkRequests(g, t) == D.LabelRequests(g, t.objects, false) && D.TargetRequests(g, t) == []
    ensures HeadRequests(g, t) == LabelEdges(g, t.objects)
    ensures CompileConsumedRequests(g, t) == []
  {
    hide D.LabelRequests, LabelEdges;
    assert D.LabelRequests(g, [], true) == [] && LabelEdges(g, []) == [] by { EmptyLabels(g); }
  }

  /** Where all targets are bare, compiles ask for nothing, and heads for what their labels name. */
  lemma BareWork(g: Graph, w: Work)
    requires g.genrules == [] && KnownWork(g, w) && Owner(w).T? && forall t :: 0 <= t < |g.targets| ==> Bare(g.targets[t])
    ensures WorkRequests(g, w) == if IsHead(w) then LabelEdges(g, g.targets[w.target].objects) else []
  {
    hide HeadRequests, CompileConsumedRequests, LabelEdges, Bare;
    assert Bare(g.targets[w.target]);
    BareAsks(g, g.targets[w.target]);
    assert g.targets[w.target].compileUsage == [] && g.targets[w.target].pch.None? by { BareMeans(g.targets[w.target]); }
    if w.Compile? {
      BareAsks(g, g.targets[w.owner]);
    }
  }

  lemma BareMeans(t: Target)
    requires Bare(t)
    ensures t.compileUsage == [] && t.pch.None?
  {}

  lemma EmptyLabels(g: Graph)
    ensures D.LabelRequests(g, [], true) == [] && LabelEdges(g, []) == []
  {}

  lemma OneLabel(g: Graph, name: string, o: nat)
    requires FindTarget(g, name) == Some(o)
    ensures D.LabelRequests(g, [name], false) == [Need(T(o))]
    ensures LabelEdges(g, [name]) == if External(name) then [] else [Need(T(o))]
    ensures D.LabelRequests(g, [], false) == []
  {
    hide FindTarget, FindGenrule, External;
    assert [name][1..] == [];
  }

  // ---- declarations without a circle whose actions form one --------------------------------

  /** A program with a module interface of its own and a library compiled inside it that begins with another. */
  function ClashGraph(): Graph {
    Graph([Plainly("//:app", Exe).(sources := [Source("m.cppm", CxxModule)], objects := ["//:lib"], modules := true),
           Plainly("//:lib", ObjectLibrary).(sources := [Source("n.cppm", CxxModule)], consumerContext := true)], [], [], {})
  }

  const APP := D.Named("//:app")

  lemma ClashLookups()
    ensures FindTarget(ClashGraph(), "//:lib") == Some(1) && FindTarget(ClashGraph(), "//:app") == Some(0)
    ensures FindGenrule(ClashGraph(), "//:app") == None
  {
    var g := ClashGraph();
    assert g.targets[0].name == "//:app" && g.targets[1].name == "//:lib" && "//:app"[3] != "//:lib"[3];
  }

  lemma ClashCompiles()
    ensures OwnCompiles(ClashGraph(), 0, 1) == [Compile(0, 0, 0)] && BorrowedFrom(ClashGraph(), 0, 1, 1) == [Compile(0, 1, 0)]
  {
    assert OwnCompiles(ClashGraph(), 0, 0) == [];
    assert CompilesOwn(ClashGraph().targets[0], 0);
    assert BorrowedFrom(ClashGraph(), 0, 1, 0) == [];
  }

  lemma ClashBorrows()
    ensures |ClashGraph().targets| == 2 && BorrowedCompiles(ClashGraph(), 0, ["//:lib"]) == [Compile(0, 1, 0)]
    ensures BorrowedCompiles(ClashGraph(), 1, []) == []
  {
    var g := ClashGraph();
    hide FindTarget, BorrowedFrom;
    ClashLookups();
    ClashCompiles();
    assert ["//:lib"][1..] == [];
    assert BorrowedCompiles(g, 0, []) == [];
  }

  lemma ClashWorks()
    ensures WorksOf(ClashGraph(), T(0)) == [Compile(0, 0, 0), Compile(0, 1, 0), Final(0)]
    ensures WorksOf(ClashGraph(), T(1)) == [ObjectLib(1)]
  {
    hide BorrowedCompiles, OwnCompiles;
    ClashCompiles();
    ClashBorrows();
  }

  lemma ClashIsBare()
    ensures ClashGraph().genrules == [] && |ClashGraph().targets| == 2
    ensures ClashGraph().targets[0].objects == ["//:lib"] && ClashGraph().targets[1].objects == []
    ensures forall t :: 0 <= t < 2 ==> Bare(ClashGraph().targets[t])
  {}

  lemma ClashAsks()
    ensures |ClashGraph().targets| == 2
    ensures D.Requests(ClashGraph(), T(0)) == [Need(T(1))] && D.Requests(ClashGraph(), T(1)) == []
    ensures D.WalkRequests(ClashGraph(), ClashGraph().targets[0]) == [Need(T(1))]
    ensures D.WalkRequests(ClashGraph(), ClashGraph().targets[1]) == []
    ensures LabelEdges(ClashGraph(), ["//:lib"]) == [Need(T(1))] && LabelEdges(ClashGraph(), []) == []
  {
    ClashIsBare();
    ClashLookups();
    hide ClashGraph, FindTarget, FindGenrule, D.WalkRequests, D.TargetRequests, D.LabelRequests, LabelEdges, HeadRequests, Bare;
    var g := ClashGraph();
    OneLabel(g, "//:lib", 1);
    EmptyLabels(g);
    BareAsks(g, g.targets[0]);
    BareAsks(g, g.targets[1]);
  }

  lemma ClashNeeds(e: Entity)
    ensures D.Needed(ClashGraph(), APP, e) <==> e in {T(0), T(1)}
  {
    var g := ClashGraph();
    hide ClashGraph, FindTarget, FindGenrule, D.Requests;
    ClashLookups();
    ClashAsks();
    D.RootIsNeeded(g, APP, T(0));
    assert D.Step(g, T(0), T(1));
    D.StepIsNeeded(g, APP, T(0), T(1));
    if D.Needed(g, APP, e) {
      D.LeastClosed(g, APP, {T(0), T(1)}, e);
    }
  }

  lemma ClashEntities(e: Entity)
    ensures Known(ClashGraph(), e) <==> e in {T(0), T(1)}
  {}

  lemma ClashStrategies()
    ensures Received(ClashGraph())
    ensures TargetFits(ClashGraph().targets[0]) && TargetFits(ClashGraph().targets[1])
  {
    ClashReceived();
    hide InterfaceName, Received;
    var g := ClashGraph();
    assert IsInterface(g.targets[0], 0);
    assert HasCxxSource(g.targets[0]) && HasInterface(g.targets[0]);
    assert StrategiesOk(g.targets[0]) && StrategiesOk(g.targets[1]);
  }

  lemma ClashReceived()
    ensures Received(ClashGraph())
  {
    ClashLookups();
    hide FindTarget;
  }

  lemma ClashFits(e: Entity)
    requires Known(ClashGraph(), e)
    ensures Fits(ClashGraph(), e)
  {
    hide ClashGraph, TargetFits, AsksItself, AsksRefused;
    ClashEntities(e);
    ClashStrategies();
    ClashAsksOthers(e);
  }

  lemma ClashWork(e: Entity, w: Work)
    requires Known(ClashGraph(), e) && w in WorksOf(ClashGraph(), e) && KnownWork(ClashGraph(), w)
    ensures forall q :: q in WorkRequests(ClashGraph(), w) ==> q == Need(T(1)) && e == T(0)
  {
    ClashIsBare();
    hide ClashGraph, WorksOf, WorkRequests, LabelEdges, Bare;
    ClashEntities(e);
    ClashAsks();
    WorkOwner(ClashGraph(), e, w);
    BareWork(ClashGraph(), w);
  }

  lemma ClashAsksOthers(e: Entity)
    requires Known(ClashGraph(), e)
    ensures !AsksItself(ClashGraph(), e) && !AsksRefused(ClashGraph(), e)
  {
    hide ClashGraph, WorksOf, WorkRequests, KnownWork;
    forall w | w in WorksOf(ClashGraph(), e) && KnownWork(ClashGraph(), w)
      ensures Need(e) !in WorkRequests(ClashGraph(), w) && Refuse !in WorkRequests(ClashGraph(), w)
    {
      ClashWork(e, w);
    }
  }

  lemma WalkStays(g: Graph, u: nat, d: nat)
    requires D.WalkIn(g, u, d, 0)
    ensures u == d
  {}

  lemma WalkGoesOn(g: Graph, u: nat, d: nat, steps: nat) returns (m: nat)
    requires steps > 0 && D.WalkIn(g, u, d, steps)
    ensures u < |g.targets| && Need(T(m)) in D.WalkRequests(g, g.targets[u]) && D.WalkIn(g, m, d, steps - 1)
  {
    hide D.WalkRequests;
    m :| Need(T(m)) in D.WalkRequests(g, g.targets[u]) && D.WalkIn(g, m, d, steps - 1);
  }

  /** The first of two targets names the second, which names nothing. */
  predicate Chain(g: Graph) {
    |g.targets| == 2 && D.WalkRequests(g, g.targets[0]) == [Need(T(1))] && D.WalkRequests(g, g.targets[1]) == []
  }

  lemma ChainStep(g: Graph, u: nat, m: nat)
    requires Chain(g) && u < |g.targets| && Need(T(m)) in D.WalkRequests(g, g.targets[u])
    ensures u == 0 && m == 1
  {}

  lemma {:induction false} ChainEnds(g: Graph, u: nat, d: nat, steps: nat)
    requires Chain(g) && D.WalkIn(g, u, d, steps)
    ensures d == u + steps
    decreases steps
  {
    hide Chain, D.WalkIn, D.WalkRequests;
    if steps == 0 {
      WalkStays(g, u, d);
    } else {
      var m := WalkGoesOn(g, u, d, steps);
      ChainStep(g, u, m);
      ChainEnds(g, m, d, steps - 1);
    }
  }

  lemma ClashWalk(t: nat, steps: nat)
    requires steps > 0
    ensures !D.WalkIn(ClashGraph(), t, t, steps)
  {
    ClashAsks();
    assert Chain(ClashGraph());
    hide ClashGraph, D.WalkIn, Chain;
    if D.WalkIn(ClashGraph(), t, t, steps) {
      ChainEnds(ClashGraph(), t, t, steps);
    }
  }

  lemma ClashAccepted()
    ensures Received(ClashGraph()) && Accepted(ClashGraph(), APP)
  {
    var g := ClashGraph();
    hide D.Needed, D.Requests, Fits, FindTarget, Received, D.WalkIn;
    ClashLookups();
    ClashAsks();
    ClashStrategies();
    forall t: nat, steps: nat | t < 2 && steps > 0 ensures !D.WalkIn(g, t, t, steps) {
      ClashWalk(t, steps);
    }
    forall e ensures D.Needed(g, APP, e) <==> e in {T(0), T(1)} {
      ClashNeeds(e);
    }
    hide TargetFits, TargetsOrdered;
    forall e | D.Needed(g, APP, e) ensures Fits(g, e) {
      ClashFits(e);
    }
  }

  lemma ClashUses(u: Entity, d: Entity)
    requires Uses(ClashGraph(), u, d)
    ensures u == T(0) && d == T(1)
  {
    hide ClashGraph, WorksOf, WorkRequests, KnownWork;
    var w :| w in WorksOf(ClashGraph(), u) && KnownWork(ClashGraph(), w) && Need(d) in WorkRequests(ClashGraph(), w);
    ClashWork(u, w);
  }

  lemma ClashNotCircular(e: Entity, steps: nat)
    requires steps > 0
    ensures !UsesIn(ClashGraph(), APP, e, e, steps)
  {
    hide Uses, ClashGraph, D.Needed;
    var g := ClashGraph();
    if UsesIn(g, APP, e, e, steps) {
      var m :| Uses(g, e, m) && UsesIn(g, APP, m, e, steps - 1);
      ClashUses(e, m);
      assert m != e && steps - 1 > 0;
      var k :| Uses(g, m, k) && UsesIn(g, APP, k, e, steps - 2);
      ClashUses(m, k);
    }
  }

  /** Nothing declared is circular and the declarations are accepted, but their actions always wait in a circle. */
  lemma InterfaceClash()
    ensures Received(ClashGraph()) && Accepted(ClashGraph(), APP) && !Circular(ClashGraph(), APP)
    ensures !TargetsOrdered(ClashGraph(), APP)
    ensures forall heads: HeadMap, nodes: seq<Node> :: Lowered(ClashGraph(), APP, heads, nodes) ==> !Acyclic(nodes)
  {
    var g := ClashGraph();
    hide UsesIn, WorksOf, D.Needed, Received, Accepted, Lowered, Acyclic;
    ClashAccepted();
    forall e, steps: nat | steps > 0 ensures !UsesIn(g, APP, e, e, steps) {
      ClashNotCircular(e, steps);
    }
    ClashWorks();
    ClashNeeds(T(0));
    assert Clash(g, WorksOf(g, T(0))[0], WorksOf(g, T(0))[1]);
    assert !TargetOrdered(g, 0);
    forall heads: HeadMap, nodes: seq<Node> | Lowered(g, APP, heads, nodes) ensures !Acyclic(nodes) {
      AcyclicAsDeclared(g, APP, heads, nodes);
    }
  }
}
