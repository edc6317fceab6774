/** The found set, the actions and the edges of a build, against the declarations' own fields. */
module AwaitedInputs {
  import opened Wrappers
  import opened BuildGraph
  import opened CxxUnity
  import opened ActionDag
  import opened Lowering
  import opened ActionCycles
  import opened DeclaredCycles
  import opened Producers
  import opened ActionInputs
  import opened WholeBuild
  import D = Discovery

  // ---- what a build needs ---------------------------------------------------------------------

  /** The named generated action, or else the named target; without a name, every target. */
  ghost predicate AskedFor(g: Graph, root: D.Root, e: Entity) {
    match root
    case Everything => e.T? && e.target < |g.targets|
    case Named(name) => if NoGenrule(g, name) then e.T? && TargetNamed(g, name, e.target) else e.G? && GenruleNamed(g, name, e.genrule)
  }

  ghost predicate CalledForIn(g: Graph, root: D.Root, e: Entity, steps: nat)
    decreases steps
  {
    if steps == 0 then AskedFor(g, root, e)
    else exists x :: CalledForIn(g, root, x, steps - 1) && Known(g, x) && Needs(g, x, e)
  }

  /** Asked for, or needed by a declaration that is called for. */
  ghost predicate CalledFor(g: Graph, root: D.Root, e: Entity) {
    exists steps: nat :: CalledForIn(g, root, e, steps)
  }

  lemma RootsAsDeclared(g: Graph, root: D.Root, e: Entity)
    ensures D.IsRoot(g, root, e) <==> AskedFor(g, root, e)
  {}

  lemma {:induction false} CalledForSteps(g: Graph, root: D.Root, e: Entity, steps: nat)
    ensures D.NeededIn(g, root, e, steps) <==> CalledForIn(g, root, e, steps)
    decreases steps
  {
    hide Needs, D.Requests, AskedFor, D.IsRoot;
    if steps == 0 {
      RootsAsDeclared(g, root, e);
    } else {
      forall x ensures D.NeededIn(g, root, x, steps - 1) && D.Step(g, x, e) <==> CalledForIn(g, root, x, steps - 1) && Known(g, x) && Needs(g, x, e) {
        CalledForSteps(g, root, x, steps - 1);
        if Known(g, x) {
          NeedsAsDeclared(g, x, e);
        }
      }
    }
  }

  /** Discovery's specification is what the declarations call for. */
  lemma NeededAsDeclared(g: Graph, root: D.Root, e: Entity)
    ensures D.Needed(g, root, e) <==> CalledFor(g, root, e)
  {
    hide D.NeededIn, CalledForIn;
    forall steps: nat ensures D.NeededIn(g, root, e, steps) <==> CalledForIn(g, root, e, steps) {
      CalledForSteps(g, root, e, steps);
    }
  }

  // ---- which declarations are accepted -----------------------------------------------------------

  ghost predicate NamesTarget(g: Graph, u: nat, m: nat) {
    u < |g.targets| && exists name :: Names(g.targets[u], name) && TargetNamed(g, name, m)
  }

  /** From `u`, that many labels lead to `d`. */
  ghost predicate LabelsLead(g: Graph, u: nat, d: nat, steps: nat)
    decreases steps
  {
    if steps == 0 then u == d
    else exists m: nat :: NamesTarget(g, u, m) && LabelsLead(g, m, d, steps - 1)
  }

  ghost predicate NamesItself(g: Graph, t: nat) {
    exists steps: nat :: steps > 0 && LabelsLead(g, t, t, steps)
  }

  lemma {:induction false} LabelsAsDeclared(g: Graph, u: nat, d: nat, steps: nat)
    ensures D.WalkIn(g, u, d, steps) <==> LabelsLead(g, u, d, steps)
    decreases steps
  {
    hide D.WalkRequests, NamesTarget;
    if steps > 0 {
      forall m: nat ensures NamesTarget(g, u, m) ==> u < |g.targets| {
        NamesAsDeclared(g, u, m);
      }
      if u < |g.targets| {
        forall m: nat ensures Need(T(m)) in D.WalkRequests(g, g.targets[u]) <==> NamesTarget(g, u, m) {
          NamesAsDeclared(g, u, m);
        }
      }
      var fewer := steps - 1;
      forall m: nat ensures D.WalkIn(g, m, d, fewer) <==> LabelsLead(g, m, d, fewer) {
        LabelsAsDeclared(g, m, d, fewer);
      }
    }
  }

  lemma NamesAsDeclared(g: Graph, u: nat, m: nat)
    ensures (u < |g.targets| && Need(T(m)) in D.WalkRequests(g, g.targets[u])) <==> NamesTarget(g, u, m)
  {
    hide D.WalkRequests, Names, TargetNamed;
    if u < |g.targets| {
      WalksAre(g, g.targets[u], T(m));
    }
  }

  lemma CirclesAsDeclared(g: Graph, t: nat)
    ensures D.Reaches(g, t, t) <==> NamesItself(g, t)
  {
    hide D.WalkIn, LabelsLead;
    forall steps: nat ensures D.WalkIn(g, t, t, steps) <==> LabelsLead(g, t, t, steps) {
      LabelsAsDeclared(g, t, t, steps);
    }
  }

  ghost predicate RootNamed(g: Graph, root: D.Root) {
    root.Named? ==> !NoGenrule(g, root.name) || !NoTarget(g, root.name)
  }

  /** What can be said against a declaration: something nothing stands for or nobody can read, labels in a circle, an
      action that asks for its own declaration, or C++ strategies that do not fit. */
  ghost predicate Objectionable(g: Graph, e: Entity)
    requires Known(g, e)
  {
    || Stops(g, e)
    || (e.T? && NamesItself(g, e.target))
    || (exists w :: HasAction(g, e, w) && KnownWork(g, w) && (Refused(g, w) || (IsHead(w) && Asks(g, w, e))))
    || (e.T? && Native(g.targets[e.target]) && !StrategiesOk(g.targets[e.target]))
  }

  lemma ObjectionsAsDeclared(g: Graph, e: Entity)
    requires Known(g, e)
    ensures (Refuse in D.Requests(g, e) || (e.T? && D.Reaches(g, e.target, e.target)) || !Fits(g, e)) <==> Objectionable(g, e)
  {
    if e.T? {
      FitsAsDeclared(g.targets[e.target]);
    }
    hide D.Requests, D.Reaches, NamesItself, Stops, WorksOf, WorkRequests, HasAction, Refused, Asks, TargetFits, StrategiesOk, Native;
    NeedsAsDeclared(g, e, e);
    if e.T? {
      CirclesAsDeclared(g, e.target);
    }
    forall w ensures w in WorksOf(g, e) <==> HasAction(g, e, w) {
      ActionsAsDeclared(g, e, w);
    }
    forall w | KnownWork(g, w) ensures (Need(e) in WorkRequests(g, w) <==> Asks(g, w, e)) && (Refuse in WorkRequests(g, w) <==> Refused(g, w)) {
      RequestsAsDeclared(g, w, e);
    }
  }

  lemma FitsAsDeclared(t: Target)
    ensures TargetFits(t) <==> !Native(t) || StrategiesOk(t)
  {
    NativeKinds(t);
    hide StrategiesOk, Native, Target.IsPassive;
  }

  lemma NativeKinds(t: Target)
    ensures Native(t) <==> !t.IsPassive()
  {
    match t.kind {
      case Exe | Test | StaticLib | SharedLib | Generic | ObjectLibrary =>
      case RunTarget | GroupTarget | InterfaceTarget | ImportedTarget | ToolTarget =>
    }
  }

  /** A build is accepted if and only if its root is known and nothing can be said against what it calls for. */
  lemma AcceptedAsDeclared(g: Graph, root: D.Root)
    ensures Accepted(g, root) <==> RootNamed(g, root) && forall e :: CalledFor(g, root, e) ==> Known(g, e) && !Objectionable(g, e)
  {
    hide D.Needed, CalledFor, D.Requests, D.Reaches, Fits, Objectionable;
    forall e ensures D.Needed(g, root, e) <==> CalledFor(g, root, e) {
      NeededAsDeclared(g, root, e);
    }
    forall e | CalledFor(g, root, e) ensures !D.BlockedAt(g, root, e) && Fits(g, e) <==> Known(g, e) && !Objectionable(g, e) {
      if Known(g, e) {
        ObjectionsAsDeclared(g, e);
      } else {
        FitsKnown(g, e);
      }
    }
    BlockedIsNeeded(g, root);
    RootKnownAsNamed(g, root);
    hide D.BlockedAt, D.RootKnown, RootNamed;
  }

  lemma FitsKnown(g: Graph, e: Entity)
    ensures Fits(g, e) ==> Known(g, e)
  {}

  lemma BlockedIsNeeded(g: Graph, root: D.Root)
    ensures forall e :: D.BlockedAt(g, root, e) ==> D.Needed(g, root, e)
  {}

  lemma RootKnownAsNamed(g: Graph, root: D.Root)
    ensures D.RootKnown(g, root) <==> RootNamed(g, root)
  {}

  // ---- the actions of a build ---------------------------------------------------------------------

  /** In a lowered graph there is a node for each action of each declaration that is called for, and no other. */
  lemma NodesAsDeclared(g: Graph, root: D.Root, heads: HeadMap, nodes: seq<Node>, w: Work)
    requires Lowered(g, root, heads, nodes)
    ensures (exists n :: 0 <= n < |nodes| && nodes[n].work == w)
       <==> exists e :: CalledFor(g, root, e) && Known(g, e) && HasAction(g, e, w)
  {
    hide WorksOf, HasAction, CalledFor, D.Needed, Fits, Wanted;
    forall e ensures e in heads <==> CalledFor(g, root, e) {
      NeededAsDeclared(g, root, e);
    }
    if n :| 0 <= n < |nodes| && nodes[n].work == w {
      ActionsAsDeclared(g, Owner(w), w);
    }
    if e :| CalledFor(g, root, e) && Known(g, e) && HasAction(g, e, w) {
      ActionsAsDeclared(g, e, w);
      var n := NodeOf(g, heads, nodes, e, w);
    }
  }

  // ---- the edges of a build -----------------------------------------------------------------------

  ghost predicate SourceOf(g: Graph, w: Work, kind: SourceKind) {
    && w.Compile? && w.owner < |g.targets|
    && w.source < |g.targets[w.owner].sources| && g.targets[w.owner].sources[w.source].kind == kind
  }

  /** Inside a target: its compiles before the link, its precompiled header before its C++ compiles, and a module
      interface before implementations and the interfaces that do not come before it. */
  ghost predicate Precedes(g: Graph, d: Work, u: Work) {
    || (d.Compile? && (u.Final? || u.ObjectLib?) && d.target == u.target)
    || (d.Pch? && (SourceOf(g, u, CxxSource) || SourceOf(g, u, CxxModule)) && d.target == u.target)
    || (SourceOf(g, d, CxxModule) && d.target < |g.targets| && g.targets[d.target].modules && u.Compile? && d.target == u.target
        && (SourceOf(g, u, CxxSource) || (SourceOf(g, u, CxxModule) && d.source <= u.source)))
  }

  lemma InsideAsDeclared(g: Graph, d: Work, u: Work)
    ensures Inside(g, d, u) <==> Precedes(g, d, u)
  {}

  ghost predicate AsksAt(g: Graph, nodes: seq<Node>, u: nat, e: Entity) {
    u < |nodes| && KnownWork(g, nodes[u].work) && Asks(g, nodes[u].work, e)
  }

  /** The edges of a lowered graph are exactly those that the declarations call for: inside a target, and from the last
      action of each found declaration to the actions that ask for it. */
  lemma EdgesAsDeclared(g: Graph, root: D.Root, heads: HeadMap, nodes: seq<Node>, d: nat, u: nat)
    requires Lowered(g, root, heads, nodes)
    ensures Edge(nodes, d, u) <==>
              && d < |nodes| && u < |nodes| && d != u
              && (Precedes(g, nodes[d].work, nodes[u].work) || exists e :: e in heads && heads[e] == d && AsksAt(g, nodes, u, e))
  {
    hide WorksOf, WorkRequests, Inside, Precedes, Asks, BlocksOk, D.Needed, Fits;
    if d < |nodes| && u < |nodes| {
      NodesKnown(g, heads, nodes);
      assert KnownWork(g, Works(nodes)[u]);
      InsideAsDeclared(g, nodes[d].work, nodes[u].work);
      forall e ensures Need(e) in WorkRequests(g, nodes[u].work) <==> AsksAt(g, nodes, u, e) {
        RequestsAsDeclared(g, nodes[u].work, e);
      }
    }
    hide NodesOk;
    assert Edge(nodes, d, u) <==> Wanted(g, heads, nodes, d, u);
  }

  lemma AskedIsAwaited(g: Graph, root: D.Root, heads: HeadMap, nodes: seq<Node>, n: nat, e: Entity)
    requires Lowered(g, root, heads, nodes) && e in heads && AsksAt(g, nodes, n, e)
    ensures Edge(nodes, heads[e], n)
  {
    hide WorksOf, WorkRequests, BlocksOk, D.Needed, Asks, Wanted, AsksRefused, TargetFits;
    RequestsAsDeclared(g, nodes[n].work, e);
    assert Fits(g, e) && (heads[e] == n ==> AsksItself(g, e));
    AskedIsEdge(g, heads, nodes, e, n);
  }

  /** The producer of every item that an action reads is found and waited for, but for itself and for the generated
      paths in run commands. */
  lemma ItemAwaited(g: Graph, root: D.Root, heads: HeadMap, nodes: seq<Node>, n: nat, item: Item, e: Entity)
    requires Lowered(g, root, heads, nodes) && Received(g) && n < |nodes| && KnownWork(g, nodes[n].work)
    requires Reads(g, nodes[n].work, item) && Produces(g, item, e) && e != Owner(nodes[n].work)
    requires nodes[n].work.RunCommand? && item.Plain? ==> item in g.targets[nodes[n].work.target].runInputs
    ensures e in heads && Edge(nodes, heads[e], n)
  {
    hide NodesOk, BlocksOk, Wanted, WorksOf, Fits, D.Needed, D.Requests, Produces, Needs;
    var x := Owner(nodes[n].work);
    NodeIsFound(g, heads, nodes, n);
    ItemIsNeeded(g, nodes[n].work, item, e);
    NeedsAsDeclared(g, x, e);
    assert D.Step(g, x, e);
    D.StepIsNeeded(g, root, x, e);
    AskedIsAwaited(g, root, heads, nodes, n, e);
  }

  lemma ItemIsNeeded(g: Graph, w: Work, item: Item, e: Entity)
    requires KnownWork(g, w) && Received(g) && Reads(g, w, item) && Produces(g, item, e) && e != Owner(w)
    requires w.RunCommand? && item.Plain? ==> item in g.targets[w.target].runInputs
    requires w in WorksOf(g, Owner(w))
    ensures Needs(g, Owner(w), e)
  {
    hide ObjectsReceived, FromRoot;
    if Owner(w).T? {
      assert TargetReceived(g.targets[w.target]);
      RunWork(g, w);
      hide WorksOf, Received, TargetReceived;
      ItemKinds(g, item, e);
      hide Produces, Writes, TargetNamed, GenruleNamed, StageInput, StagedProduces;
      assert item.Plain? && UsesPath(g.targets[w.target], item.path) ==> UsesOutput(g, g.targets[w.target], e);
    } else {
      hide WorksOf, Produces;
    }
  }

  lemma RunWork(g: Graph, w: Work)
    requires KnownWork(g, w) && Owner(w).T? && w in WorksOf(g, Owner(w))
    ensures g.targets[w.target].kind == RunTarget ==> w.RunCommand?
  {
    hide OwnCompiles, BorrowedCompiles;
  }

  lemma ItemKinds(g: Graph, item: Item, e: Entity)
    requires Produces(g, item, e)
    ensures item.TargetFile? || (item.Plain? && e.G? && e.genrule < |g.genrules| && item.path in g.genrules[e.genrule].outputs)
  {}

  lemma NodeIsFound(g: Graph, heads: HeadMap, nodes: seq<Node>, n: nat)
    requires NodesOk(g, heads, nodes) && n < |nodes|
    ensures Owner(nodes[n].work) in heads && nodes[n].work in WorksOf(g, Owner(nodes[n].work))
  {
    hide WorksOf;
  }

  lemma NeedIsFound(g: Graph, root: D.Root, heads: HeadMap, nodes: seq<Node>, x: Entity, e: Entity)
    requires Lowered(g, root, heads, nodes) && x in heads && Known(g, x) && Needs(g, x, e)
    ensures e in heads
  {
    hide NodesOk, BlocksOk, Wanted, Fits, D.Needed, D.Requests, Needs;
    NeedsAsDeclared(g, x, e);
    assert D.Step(g, x, e);
    D.StepIsNeeded(g, root, x, e);
  }

  /** A compile waits for every generated action with an output among the headers and compiled sources of the target the
      source belongs to. */
  lemma HeadersAwaited(g: Graph, root: D.Root, heads: HeadMap, nodes: seq<Node>, n: nat, r: nat, p: string)
    requires Lowered(g, root, heads, nodes) && n < |nodes| && nodes[n].work.Compile?
    requires KnownWork(g, nodes[n].work) && r < |g.genrules| && p in g.genrules[r].outputs
    requires var owner := g.targets[nodes[n].work.owner];
             || p in owner.publicHeaders || p in owner.privateHeaders
             || exists i :: 0 <= i < |owner.sources| && owner.sources[i].path == p && owner.sources[i].kind !in {ObjectFile, HeaderFile, Unknown}
    ensures G(r) in heads && Edge(nodes, heads[G(r)], n)
  {
    hide Lowered, Produces;
    CompilesPathIs(g.targets[nodes[n].work.owner], p);
    CompiledFileAwaited(g, root, heads, nodes, n, r, p);
  }

  lemma CompilesPathIs(t: Target, p: string)
    requires || p in t.publicHeaders || p in t.privateHeaders
             || exists i :: 0 <= i < |t.sources| && t.sources[i].path == p && t.sources[i].kind !in {ObjectFile, HeaderFile, Unknown}
    ensures CompilesPath(t, p) && UsesPath(t, p)
  {}

  lemma CompiledFileAwaited(g: Graph, root: D.Root, heads: HeadMap, nodes: seq<Node>, n: nat, r: nat, p: string)
    requires Lowered(g, root, heads, nodes) && n < |nodes| && nodes[n].work.Compile?
    requires KnownWork(g, nodes[n].work) && r < |g.genrules| && p in g.genrules[r].outputs
    requires CompilesPath(g.targets[nodes[n].work.owner], p) && UsesPath(g.targets[nodes[n].work.owner], p)
    ensures G(r) in heads && Edge(nodes, heads[G(r)], n)
  {
    var w := nodes[n].work;
    hide NodesOk, BlocksOk, Wanted, WorksOf, Fits, D.Needed, CompilesPath, UsesPath, UsesOutput, Needs, Asks;
    NodeIsFound(g, heads, nodes, n);
    OwnerIsFound(g, root, heads, nodes, w);
    UsedIsNeeded(g, w.owner, r, p);
    NeedIsFound(g, root, heads, nodes, T(w.owner), G(r));
    HeaderIsAsked(g, w, r, p);
    AskedIsAwaited(g, root, heads, nodes, n, G(r));
  }

  lemma UsedIsNeeded(g: Graph, t: nat, r: nat, p: string)
    requires t < |g.targets| && r < |g.genrules| && p in g.genrules[r].outputs && UsesPath(g.targets[t], p)
    ensures UsesOutput(g, g.targets[t], G(r)) && Needs(g, T(t), G(r))
  {
    hide UsesPath;
  }

  lemma HeaderIsAsked(g: Graph, w: Work, r: nat, p: string)
    requires KnownWork(g, w) && w.Compile? && r < |g.genrules| && p in g.genrules[r].outputs && CompilesPath(g.targets[w.owner], p)
    ensures Asks(g, w, G(r))
  {
    hide CompilesPath;
  }

  lemma OwnerIsFound(g: Graph, root: D.Root, heads: HeadMap, nodes: seq<Node>, w: Work)
    requires Lowered(g, root, heads, nodes) && w.Compile? && KnownWork(g, w) && Owner(w) in heads && w in WorksOf(g, Owner(w))
    ensures T(w.owner) in heads
  {
    hide NodesOk, BlocksOk, Wanted, WorksOf, Fits, D.Needed, TargetNamed, HasOwnCompile;
    ActionsAsDeclared(g, Owner(w), w);
    if w.owner != w.target {
      var target := g.targets[w.target];
      var name :| name in target.objects && TargetNamed(g, name, w.owner);
      assert Names(target, name) && Needs(g, T(w.target), T(w.owner));
      hide Needs, HasAction, Names;
      NeedIsFound(g, root, heads, nodes, T(w.target), T(w.owner));
    }
  }

  /** The last action of a target waits for every generated action with an output that the target uses. */
  lemma UsedFilesAwaited(g: Graph, root: D.Root, heads: HeadMap, nodes: seq<Node>, t: nat, r: nat, p: string)
    requires Lowered(g, root, heads, nodes) && T(t) in heads && t < |g.targets| && Native(g.targets[t])
    requires r < |g.genrules| && p in g.genrules[r].outputs
    requires var target := g.targets[t];
             || p in target.publicHeaders || p in target.privateHeaders || Plain(p) in target.linkInputs || target.pch == Some(Plain(p))
             || exists i :: 0 <= i < |target.sources| && target.sources[i].path == p
    ensures G(r) in heads && Edge(nodes, heads[G(r)], heads[T(t)])
  {
    assert UsesPath(g.targets[t], p);
    hide NodesOk, BlocksOk, Wanted, WorksOf, Fits, D.Needed, UsesPath, Native, Needs, UsesOutput, Asks;
    UsedIsNeeded(g, t, r, p);
    NeedIsFound(g, root, heads, nodes, T(t), G(r));
    HeadIsHead(g, heads, nodes, T(t));
    HeadWork(g, heads, nodes, t);
    HeadUses(g, nodes[heads[T(t)]].work, G(r));
    AskedIsAwaited(g, root, heads, nodes, heads[T(t)], G(r));
  }

  lemma HeadUses(g: Graph, w: Work, e: Entity)
    requires KnownWork(g, w) && Owner(w).T? && IsHead(w) && Native(g.targets[w.target]) && UsesOutput(g, g.targets[w.target], e)
    ensures Asks(g, w, e)
  {}

  /** A run target waits for the stages its inputs name, and what they copy is found. */
  lemma StagesAwaited(g: Graph, root: D.Root, heads: HeadMap, nodes: seq<Node>, t: nat, name: string, s: nat)
    requires Lowered(g, root, heads, nodes) && T(t) in heads && t < |g.targets| && g.targets[t].kind == RunTarget
    requires StageDir(name) in g.targets[t].runInputs && StageNamed(g, name, s)
    ensures S(s) in heads && Edge(nodes, heads[S(s)], heads[T(t)])
    ensures forall item, e :: item in g.stages[s].srcs && Produces(g, item, e) ==> e in heads
  {
    assert StageInput(g, StageDir(name), S(s));
    hide NodesOk, BlocksOk, Wanted, WorksOf, Fits, D.Needed, StageNamed, Produces, StagedProduces;
    assert Needs(g, T(t), S(s));
    HeadIsHead(g, heads, nodes, T(t));
    HeadWork(g, heads, nodes, t);
    hide Needs;
    NeedIsFound(g, root, heads, nodes, T(t), S(s));
    HeadStages(g, nodes[heads[T(t)]].work, StageDir(name), S(s));
    AskedIsAwaited(g, root, heads, nodes, heads[T(t)], S(s));
    forall item, e | item in g.stages[s].srcs && Produces(g, item, e) ensures e in heads {
      SourceIsNeeded(g, s, item, e);
      NeedIsFound(g, root, heads, nodes, S(s), e);
    }
  }

  lemma HeadStages(g: Graph, w: Work, item: Item, e: Entity)
    requires KnownWork(g, w) && Owner(w).T? && IsHead(w) && g.targets[w.target].kind == RunTarget
    requires item in g.targets[w.target].runInputs && StageInput(g, item, e)
    ensures Asks(g, w, e)
  {}

  lemma SourceIsNeeded(g: Graph, s: nat, item: Item, e: Entity)
    requires s < |g.stages| && item in g.stages[s].srcs && Produces(g, item, e)
    ensures Needs(g, S(s), e)
  {
    hide Produces;
  }
}
