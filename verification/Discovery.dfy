/** Which targets, generated actions and stages a build needs: a fixpoint over what they name. */
module Discovery {
  import opened Wrappers
  import opened BuildGraph

  /** One named root, or the whole graph. */
  datatype Root = Named(name: string) | Everything

  // ---- what a scan asks for -----------------------------------------------------

  /** A target label that the dependency walk follows; an unknown label stops it. */
  function LabelRequest(g: Graph, name: string, external: bool): (r: seq<Request>)
    ensures forall q :: q in r && q.Need? ==> q.entity.T? && Known(g, q.entity)
  {
    match FindTarget(g, name)
    case Some(t) => [Need(T(t))]
    case None =>
      if external && External(name) then (if name in g.externals then [] else [Refuse])
      else if FindGenrule(g, name).Some? then []
      else [Refuse]
  }

  function LabelRequests(g: Graph, names: seq<string>, external: bool): (r: seq<Request>)
    ensures forall q :: q in r && q.Need? ==> q.entity.T? && Known(g, q.entity)
  {
    if names == [] then [] else LabelRequest(g, names[0], external) + LabelRequests(g, names[1..], external)
  }

  function WalkRequests(g: Graph, t: Target): (r: seq<Request>)
    ensures forall q :: q in r && q.Need? ==> q.entity.T? && Known(g, q.entity)
  {
    LabelRequests(g, t.objects, false) + LabelRequests(g, t.deps, true) + LabelRequests(g, t.privateDeps, true)
  }

  /** A generated action named directly among the dependencies. */
  function DepGenruleRequest(g: Graph, name: string): (r: seq<Request>)
    ensures forall q :: q in r ==> q.Need? && q.entity.G? && Known(g, q.entity)
  {
    if External(name) then []
    else match FindGenrule(g, name) case Some(r) => [Need(G(r))] case None => []
  }

  function DepGenruleRequests(g: Graph, names: seq<string>): (r: seq<Request>)
    ensures forall q :: q in r ==> q.Need? && q.entity.G? && Known(g, q.entity)
  {
    if names == [] then [] else DepGenruleRequest(g, names[0]) + DepGenruleRequests(g, names[1..])
  }

  /** One run input: a stage with all it copies, or the producer of anything else. */
  function RunInputRequest(g: Graph, item: Item): (r: seq<Request>)
    ensures forall q :: q in r && q.Need? ==> Known(g, q.entity)
  {
    match item
    case BadStageDir => [Refuse]
    case StageDir(name) =>
      (match FindStage(g, name)
       case None => [Refuse]
       case Some(s) => [Need(S(s))] + ListRequests(g, g.stages[s].srcs, None))
    case _ => ItemRequests(g, item, None)
  }

  function RunInputRequests(g: Graph, items: seq<Item>): (r: seq<Request>)
    ensures forall q :: q in r && q.Need? ==> Known(g, q.entity)
  {
    if items == [] then [] else RunInputRequest(g, items[0]) + RunInputRequests(g, items[1..])
  }

  function TargetRequests(g: Graph, t: Target): (r: seq<Request>)
    ensures forall q :: q in r && q.Need? ==> Known(g, q.entity)
  {
    ConsumedRequests(g, t)
    + DepGenruleRequests(g, t.deps) + DepGenruleRequests(g, t.privateDeps)
    + ListRequests(g, TokensOnly(t.linkInputs), None)
    + ListRequests(g, t.compileUsage, None) + ListRequests(g, t.linkUsage, None)
    + (if t.kind == RunTarget then RunInputRequests(g, t.runInputs) else [])
    + (if t.kind == RunTarget then ListRequests(g, TokensOnly(t.runCommand), None) else [])
  }

  function GenruleRequests(g: Graph, r: nat): (q: seq<Request>)
    requires r < |g.genrules|
    ensures forall x :: x in q && x.Need? ==> Known(g, x.entity)
  {
    ListRequests(g, [g.genrules[r].tool] + g.genrules[r].inputs + g.genrules[r].args, Some(r))
  }

  // ---- the specification ----------------------------------------------------------

  ghost function Requests(g: Graph, e: Entity): seq<Request>
    requires Known(g, e)
  {
    match e
    case T(t) => WalkRequests(g, g.targets[t]) + TargetRequests(g, g.targets[t])
    case G(r) => GenruleRequests(g, r)
    case S(s) => ListRequests(g, g.stages[s].srcs, None)
  }

  ghost predicate Step(g: Graph, e: Entity, d: Entity) {
    Known(g, e) && Need(d) in Requests(g, e)
  }

  ghost predicate IsRoot(g: Graph, root: Root, e: Entity) {
    match root
    case Everything => e.T? && Known(g, e)
    case Named(name) =>
      if FindGenrule(g, name).Some? then e == G(FindGenrule(g, name).value)
      else FindTarget(g, name).Some? && e == T(FindTarget(g, name).value)
  }

  ghost predicate NeededIn(g: Graph, root: Root, e: Entity, steps: nat)
    decreases steps
  {
    if steps == 0 then IsRoot(g, root, e)
    else exists d :: NeededIn(g, root, d, steps - 1) && Step(g, d, e)
  }

  /** `e` can be reached from a root by following needs. */
  ghost predicate Needed(g: Graph, root: Root, e: Entity) {
    exists steps: nat :: NeededIn(g, root, e, steps)
  }

  ghost predicate Closed(g: Graph, found: set<Entity>, e: Entity)
    requires Known(g, e)
  {
    forall q :: q in Requests(g, e) ==> q.Need? && q.entity in found
  }

  lemma StepIsNeeded(g: Graph, root: Root, e: Entity, d: Entity)
    requires Needed(g, root, e) && Step(g, e, d)
    ensures Needed(g, root, d)
  {
    var steps: nat :| NeededIn(g, root, e, steps);
    assert NeededIn(g, root, d, steps + 1);
  }

  lemma RootIsNeeded(g: Graph, root: Root, e: Entity)
    requires IsRoot(g, root, e)
    ensures Needed(g, root, e)
  {
    assert NeededIn(g, root, e, 0);
  }

  /** Any set that holds the roots and is closed under needs holds everything that is needed. */
  lemma {:induction false} ClosedHolds(g: Graph, root: Root, found: set<Entity>, e: Entity, steps: nat)
    requires NeededIn(g, root, e, steps)
    requires forall x :: IsRoot(g, root, x) ==> x in found
    requires forall x :: x in found ==> Known(g, x) && Closed(g, found, x)
    ensures e in found
    decreases steps
  {
    hide Requests;
    if steps > 0 {
      var d :| NeededIn(g, root, d, steps - 1) && Step(g, d, e);
      ClosedHolds(g, root, found, d, steps - 1);
      assert Closed(g, found, d);
    }
  }

  // ---- the dependency walk -----------------------------------------------------------

  /** Every finished target has only finished targets among the labels it names. */
  ghost predicate WalkOk(g: Graph, state: seq<int>)
    requires |state| == |g.targets|
  {
    forall j :: 0 <= j < |state| && state[j] == 2 ==> Walked(g, state, j)
  }

  ghost predicate Walked(g: Graph, state: seq<int>, j: nat)
    requires |state| == |g.targets| && j < |state|
  {
    forall q :: q in WalkRequests(g, g.targets[j]) ==> q.Need? && state[q.entity.target] == 2
  }

  ghost predicate OrderOk(g: Graph, state: seq<int>, order: seq<nat>, root: Root) {
    && (forall j: nat :: j in order <==> j < |state| && state[j] == 2)
    && (forall j :: j in order ==> Needed(g, root, T(j)))
    && (forall k :: 0 <= k < |order| ==> Preceded(g, order, k))
  }

  /** Every target that the `k`th listed one names among its labels is listed before it. */
  ghost predicate Preceded(g: Graph, order: seq<nat>, k: nat)
    requires k < |order|
  {
    order[k] < |g.targets| && forall d: nat :: Need(T(d)) in WalkRequests(g, g.targets[order[k]]) ==> d in order[..k]
  }

  // ---- why a walk may fail --------------------------------------------------------------

  /** `d` is reached from `u` by following that many labels. */
  ghost predicate WalkIn(g: Graph, u: nat, d: nat, steps: nat)
    decreases steps
  {
    if steps == 0 then u == d
    else u < |g.targets| && exists m: nat :: Need(T(m)) in WalkRequests(g, g.targets[u]) && WalkIn(g, m, d, steps - 1)
  }

  ghost predicate Reaches(g: Graph, u: nat, d: nat) {
    exists steps: nat :: steps > 0 && WalkIn(g, u, d, steps)
  }

  /** A needed declaration that asks for something refused, or whose labels lead back to it. */
  ghost predicate BlockedAt(g: Graph, root: Root, e: Entity) {
    Needed(g, root, e) && Known(g, e) && (Refuse in Requests(g, e) || (e.T? && Reaches(g, e.target, e.target)))
  }

  ghost predicate Blocked(g: Graph, root: Root) {
    exists e :: BlockedAt(g, root, e)
  }

  lemma {:induction false} WalkJoin(g: Graph, a: nat, b: nat, c: nat, m: nat, n: nat)
    requires WalkIn(g, a, b, m) && WalkIn(g, b, c, n)
    ensures WalkIn(g, a, c, m + n)
    decreases m
  {
    hide WalkRequests;
    if m > 0 {
      var x: nat :| Need(T(x)) in WalkRequests(g, g.targets[a]) && WalkIn(g, x, b, m - 1);
      WalkJoin(g, x, b, c, m - 1, n);
      assert WalkIn(g, x, c, m + n - 1);
    }
  }

  /** Whatever reaches the parent, and the parent itself, reaches the child. */
  lemma ReachesOn(g: Graph, i: nat, d: nat)
    requires i < |g.targets| && Need(T(d)) in WalkRequests(g, g.targets[i])
    ensures Reaches(g, i, d)
    ensures forall j: nat :: Reaches(g, j, i) ==> Reaches(g, j, d)
  {
    hide WalkRequests;
    assert WalkIn(g, d, d, 0);
    assert WalkIn(g, i, d, 1);
    forall j: nat | Reaches(g, j, i) ensures Reaches(g, j, d) {
      var steps: nat :| steps > 0 && WalkIn(g, j, i, steps);
      WalkJoin(g, j, i, d, steps, 1);
    }
  }

  /** Labels lead only backwards in a list that has every target after those it names. */
  lemma {:induction false} WalksGoBack(g: Graph, order: seq<nat>, k: nat, d: nat, steps: nat)
    requires forall n :: 0 <= n < |order| ==> Preceded(g, order, n)
    requires k < |order| && steps > 0 && WalkIn(g, order[k], d, steps)
    ensures d in order[..k]
    decreases steps
  {
    hide WalkRequests;
    assert Preceded(g, order, k);
    var m: nat :| Need(T(m)) in WalkRequests(g, g.targets[order[k]]) && WalkIn(g, m, d, steps - 1);
    var j :| 0 <= j < k && order[j] == m;
    if steps > 1 {
      WalksGoBack(g, order, j, d, steps - 1);
    }
  }

  /** So no listed target is on a circle. */
  lemma ListedIsNoCircle(g: Graph, order: seq<nat>, i: nat)
    requires forall n :: 0 <= n < |order| ==> Preceded(g, order, n)
    requires i in order
    ensures !Reaches(g, i, i)
  {
    hide Preceded, WalkIn;
    if Reaches(g, i, i) {
      var steps: nat :| steps > 0 && WalkIn(g, i, i, steps);
      var k := FirstListed(order, i);
      WalksGoBack(g, order, k, i, steps);
    }
  }

  ghost function FirstListed(order: seq<nat>, i: nat): (k: nat)
    requires i in order
    ensures k < |order| && order[k] == i && i !in order[..k]
  {
    if order[0] == i then 0 else
      assert order[1..][..FirstListed(order[1..], i)] == order[1..1 + FirstListed(order[1..], i)];
      1 + FirstListed(order[1..], i)
  }

  predicate RootKnown(g: Graph, root: Root) {
    root.Named? ==> FindGenrule(g, root.name).Some? || FindTarget(g, root.name).Some?
  }

  /** What discovery asks of the declarations. */
  ghost predicate Accepted(g: Graph, root: Root) {
    RootKnown(g, root) && !Blocked(g, root)
  }

  lemma WalkBlocks(g: Graph, root: Root, i: nat)
    requires i < |g.targets| && Needed(g, root, T(i))
    requires Refuse in WalkRequests(g, g.targets[i]) || Reaches(g, i, i)
    ensures Blocked(g, root)
  {
    hide WalkRequests, TargetRequests, Needed, Reaches;
    assert BlockedAt(g, root, T(i));
  }

  ghost function Unvisited(state: seq<int>): set<nat> {
    set j: nat | j < |state| && state[j] == 0
  }

  lemma WalkedStays(g: Graph, before: seq<int>, after: seq<int>, j: nat)
    requires |before| == |after| == |g.targets| && j < |before| && Walked(g, before, j)
    requires forall k :: 0 <= k < |before| && before[k] == 2 ==> after[k] == 2
    ensures Walked(g, after, j)
  {}

  /** The targets on the stack all reach the one about to be visited. */
  ghost predicate Stacked(g: Graph, state: seq<int>, i: nat) {
    forall j: nat :: j < |state| && state[j] == 1 ==> Reaches(g, j, i)
  }

  lemma StackGrows(g: Graph, state: seq<int>, i: nat, d: nat)
    requires |state| == |g.targets| && i < |state| && Need(T(d)) in WalkRequests(g, g.targets[i])
    requires forall j: nat :: j < |state| && state[j] == 1 && j != i ==> Reaches(g, j, i)
    ensures Stacked(g, state, d)
  {
    hide WalkRequests, Reaches;
    ReachesOn(g, i, d);
  }

  lemma ListLast(g: Graph, order: seq<nat>, i: nat)
    requires i < |g.targets| && forall k :: 0 <= k < |order| ==> Preceded(g, order, k)
    requires forall d: nat :: Need(T(d)) in WalkRequests(g, g.targets[i]) ==> d in order
    ensures forall k :: 0 <= k < |order + [i]| ==> Preceded(g, order + [i], k)
  {
    hide WalkRequests;
    var longer := order + [i];
    forall k | 0 <= k < |longer| ensures Preceded(g, longer, k) {
      if k < |order| {
        assert Preceded(g, order, k);
        assert longer[..k] == order[..k];
      } else {
        assert longer[..k] == order;
      }
    }
  }

  /** Depth first over target labels: 0 unvisited, 1 on the stack, 2 finished and listed after those it names.
      Fails only on a label that is refused and on a circle. */
  method Visit(g: Graph, state: array<int>, i: nat, order: seq<nat>, ghost root: Root) returns (ok: bool, longer: seq<nat>)
    requires state.Length == |g.targets| && i < state.Length
    requires WalkOk(g, state[..]) && OrderOk(g, state[..], order, root) && Stacked(g, state[..], i)
    requires forall j :: 0 <= j < state.Length ==> 0 <= state[j] <= 2
    requires Needed(g, root, T(i))
    modifies state
    ensures ok ==> state[i] == 2 && WalkOk(g, state[..]) && OrderOk(g, state[..], longer, root)
    ensures ok ==> forall j :: 0 <= j < state.Length && state[j] != old(state[j]) ==> old(state[j]) == 0 && state[j] == 2
    ensures !ok ==> Blocked(g, root)
    decreases Unvisited(state[..])
  {
    hide WalkRequests, Needed, Reaches, Blocked, Preceded;
    if state[i] == 2 {
      return true, order;
    }
    if state[i] != 0 {
      assert state[..][i] == 1;
      WalkBlocks(g, root, i);
      return false, order;
    }
    ghost var before := state[..];
    state[i] := 1;
    longer := order;
    assert i in Unvisited(before);
    forall j | 0 <= j < state.Length && state[j] == 2 ensures Walked(g, state[..], j) {
      WalkedStays(g, before, state[..], j);
    }
    var requests := WalkRequests(g, g.targets[i]);
    for k := 0 to |requests|
      invariant state[i] == 1 && WalkOk(g, state[..]) && OrderOk(g, state[..], longer, root)
      invariant forall j :: 0 <= j < state.Length && j != i && state[j] != before[j] ==> before[j] == 0 && state[j] == 2
      invariant forall m :: 0 <= m < k ==> requests[m].Need? && state[requests[m].entity.target] == 2
    {
      assert requests[k] in requests;
      if requests[k].Refuse? {
        WalkBlocks(g, root, i);
        return false, order;
      }
      var d := requests[k].entity.target;
      WalkStep(g, root, i, d);
      StackGrows(g, state[..], i, d);
      assert Unvisited(state[..]) < Unvisited(before);
      ok, longer := Visit(g, state, d, longer, root);
      if !ok {
        return false, order;
      }
    }
    ghost var middle := state[..];
    state[i] := 2;
    ListLast(g, longer, i);
    longer := longer + [i];
    forall j | 0 <= j < state.Length && state[j] == 2 ensures Walked(g, state[..], j) {
      if j != i {
        WalkedStays(g, middle, state[..], j);
      }
    }
    return true, longer;
  }

  lemma WalkStep(g: Graph, root: Root, i: nat, d: nat)
    requires i < |g.targets| && Needed(g, root, T(i)) && Need(T(d)) in WalkRequests(g, g.targets[i])
    ensures d < |g.targets| && Needed(g, root, T(d))
  {
    assert Step(g, T(i), T(d));
    StepIsNeeded(g, root, T(i), T(d));
  }

  // ---- the marks ------------------------------------------------------------------------

  /** Found targets have the targets they name found too, and no circle leads back to them. */
  ghost predicate WalksClosed(g: Graph, found: set<Entity>) {
    forall t: nat :: T(t) in found ==> t < |g.targets| && WalkClosed(g, found, t) && !Reaches(g, t, t)
  }

  ghost predicate WalkClosed(g: Graph, found: set<Entity>, t: nat)
    requires t < |g.targets|
  {
    forall q :: q in WalkRequests(g, g.targets[t]) ==> q.Need? && q.entity in found
  }

  ghost predicate AllNeeded(g: Graph, root: Root, found: set<Entity>) {
    forall e :: e in found ==> Known(g, e) && Needed(g, root, e)
  }

  ghost predicate Granted(requests: seq<Request>, found: set<Entity>) {
    forall q :: q in requests ==> q.Need? && q.entity in found
  }

  ghost predicate StagesClosed(g: Graph, found: set<Entity>) {
    forall s: nat :: S(s) in found ==> s < |g.stages| && Granted(ListRequests(g, g.stages[s].srcs, None), found)
  }

  /** A request list that asks for a stage also asks for everything the stage copies. */
  ghost predicate StagesWhole(g: Graph, requests: seq<Request>) {
    forall s: nat :: Need(S(s)) in requests ==>
      s < |g.stages| && forall q :: q in ListRequests(g, g.stages[s].srcs, None) ==> q in requests
  }

  ghost predicate RequestsNeeded(g: Graph, root: Root, requests: seq<Request>) {
    forall q :: q in requests && q.Need? ==> Known(g, q.entity) && Needed(g, root, q.entity)
  }

  ghost function Universe(g: Graph): set<Entity> {
    (set t: nat | t < |g.targets| :: T(t)) + (set r: nat | r < |g.genrules| :: G(r)) + (set s: nat | s < |g.stages| :: S(s))
  }

  class Finder {
    const g: Graph
    var targetSeen: array<bool>
    var genruleNeeded: array<bool>
    var stageNeeded: array<bool>
    var targets: seq<nat>

    constructor (graph: Graph)
      ensures g == graph && Valid() && Found() == {} && targets == []
      ensures fresh(targetSeen) && fresh(genruleNeeded) && fresh(stageNeeded)
    {
      g := graph;
      targets := [];
      targetSeen := new bool[|graph.targets|](i => false);
      genruleNeeded := new bool[|graph.genrules|](i => false);
      stageNeeded := new bool[|graph.stages|](i => false);
    }

    ghost predicate Valid()
      reads this, targetSeen, genruleNeeded, stageNeeded
    {
      && targetSeen.Length == |g.targets| && genruleNeeded.Length == |g.genrules| && stageNeeded.Length == |g.stages|
      && targetSeen != genruleNeeded && targetSeen != stageNeeded && genruleNeeded != stageNeeded
      && (forall t: nat :: t in targets <==> t < targetSeen.Length && targetSeen[t])
      && (forall i, j :: 0 <= i < j < |targets| ==> targets[i] != targets[j])
    }

    predicate Has(e: Entity)
      reads this, targetSeen, genruleNeeded, stageNeeded
    {
      match e
      case T(t) => t < targetSeen.Length && targetSeen[t]
      case G(r) => r < genruleNeeded.Length && genruleNeeded[r]
      case S(s) => s < stageNeeded.Length && stageNeeded[s]
    }

    ghost function Found(): (f: set<Entity>)
      reads this, targetSeen, genruleNeeded, stageNeeded
      ensures forall e :: e in f <==> Has(e)
    {
      (set t: nat | t < targetSeen.Length && targetSeen[t] :: T(t))
      + (set r: nat | r < genruleNeeded.Length && genruleNeeded[r] :: G(r))
      + (set s: nat | s < stageNeeded.Length && stageNeeded[s] :: S(s))
    }

    method AddTarget(t: nat)
      requires Valid() && t < |g.targets|
      modifies this`targets, targetSeen
      ensures Valid() && Found() == old(Found()) + {T(t)}
      ensures targets == if old(T(t) in Found()) then old(targets) else old(targets) + [t]
    {
      if targetSeen[t] {
        assert Found() == old(Found()) + {T(t)};
        return;
      }
      targetSeen[t] := true;
      targets := targets + [t];
    }

    method AddTargets(order: seq<nat>)
      requires Valid() && forall t :: t in order ==> t < |g.targets|
      modifies this`targets, targetSeen
      ensures Valid() && Found() == old(Found()) + TargetEntities(order)
      ensures old(targets) <= targets && (targets == old(targets) <==> Found() == old(Found()))
    {
      ghost var start := Found();
      for k := 0 to |order|
        invariant Valid() && Found() == start + TargetEntities(order[..k])
        invariant old(targets) <= targets && (targets == old(targets) <==> Found() == start)
      {
        assert order[k] in order;
        assert order[..k + 1] == order[..k] + [order[k]];
        assert TargetEntities(order[..k + 1]) == TargetEntities(order[..k]) + {T(order[k])};
        AddTarget(order[k]);
      }
      assert order[..|order|] == order;
    }

    method AddTargetClosure(t: nat, ghost root: Root) returns (ok: bool)
      requires Valid() && t < |g.targets| && Needed(g, root, T(t))
      requires WalksClosed(g, Found()) && AllNeeded(g, root, Found())
      modifies this`targets, targetSeen
      ensures Valid() && old(Found()) <= Found()
      ensures old(targets) <= targets && (targets == old(targets) <==> Found() == old(Found()))
      ensures forall e :: e in Found() && e !in old(Found()) ==> e.T?
      ensures ok ==> T(t) in Found() && WalksClosed(g, Found()) && AllNeeded(g, root, Found())
      ensures !ok ==> Blocked(g, root)
    {
      hide WalkRequests, Needed, WalksClosed, AllNeeded, WalkOk, Blocked;
      var state := new int[|g.targets|](i => 0);
      StartOk(g, state[..], root);
      var order;
      ok, order := Visit(g, state, t, [], root);
      if !ok {
        return;
      }
      ClosureUnion(g, root, Found(), state[..], order);
      AddTargets(order);
    }

    /** Walks from every target in turn. */
    method VisitAll(ghost root: Root) returns (ok: bool, order: seq<nat>)
      requires root == Everything
      ensures ok ==> forall t: nat :: t in order <==> t < |g.targets|
      ensures ok ==> WalksClosed(g, TargetEntities(order)) && AllNeeded(g, root, TargetEntities(order))
      ensures !ok ==> Blocked(g, root)
    {
      hide WalkRequests, WalksClosed, AllNeeded, WalkOk, Preceded, Needed, Blocked, Reaches;
      var state := new int[|g.targets|](i => 0);
      StartOk(g, state[..], root);
      order := [];
      for t := 0 to |g.targets|
        invariant fresh(state) && WalkOk(g, state[..]) && OrderOk(g, state[..], order, root)
        invariant forall k :: 0 <= k < t ==> state[k] == 2
        invariant forall k :: 0 <= k < state.Length ==> state[k] == 0 || state[k] == 2
      {
        RootIsNeeded(g, root, T(t));
        ok, order := Visit(g, state, t, order, root);
        if !ok {
          return;
        }
      }
      EmptyOk(g, root);
      ClosureUnion(g, root, {}, state[..], order);
      assert {} + TargetEntities(order) == TargetEntities(order);
      return true, order;
    }

    method AddEverything(ghost root: Root) returns (ok: bool)
      requires Valid() && Found() == {} && root == Everything
      modifies this`targets, targetSeen
      ensures Valid()
      ensures forall e :: e in Found() ==> e.T?
      ensures ok ==> WalksClosed(g, Found()) && AllNeeded(g, root, Found())
      ensures ok ==> forall t: nat :: t < |g.targets| ==> T(t) in Found()
      ensures !ok ==> Blocked(g, root)
    {
      hide WalksClosed, AllNeeded, Blocked;
      var order;
      ok, order := VisitAll(root);
      if ok {
        assert {} + TargetEntities(order) == TargetEntities(order);
        AddTargets(order);
      }
    }

    method Mark(e: Entity, ghost root: Root) returns (ok: bool, changed: bool)
      requires Valid() && Known(g, e) && Needed(g, root, e)
      requires WalksClosed(g, Found()) && AllNeeded(g, root, Found())
      modifies this`targets, targetSeen, genruleNeeded, stageNeeded
      ensures Valid() && old(Found()) <= Found() && old(targets) <= targets
      ensures Found() == old(Found()) ==> targets == old(targets)
      ensures changed <==> Found() != old(Found())
      ensures forall s: nat :: S(s) in Found() && S(s) !in old(Found()) ==> e == S(s)
      ensures ok ==> e in Found() && WalksClosed(g, Found()) && AllNeeded(g, root, Found())
      ensures !ok ==> Blocked(g, root)
    {
      hide Needed, Reaches, Blocked;
      match e {
        case T(t) =>
          var before := |targets|;
          ok := AddTargetClosure(t, root);
          changed := before != |targets|;
        case G(r) =>
          ok, changed := true, !genruleNeeded[r];
          genruleNeeded[r] := true;
          MarkKeepsWalks(g, old(Found()), Found());
        case S(s) =>
          ok, changed := true, !stageNeeded[s];
          stageNeeded[s] := true;
          MarkKeepsWalks(g, old(Found()), Found());
      }
      assert e.T? || (if changed then e in Found() && e !in old(Found()) else Found() == old(Found()));
    }

    /** Marks what a scan asks for, in order; `changed` reports whether anything was new. */
    method Honour(requests: seq<Request>, ghost root: Root) returns (ok: bool, changed: bool)
      requires Valid() && RequestsNeeded(g, root, requests) && (Refuse in requests ==> Blocked(g, root))
      requires WalksClosed(g, Found()) && AllNeeded(g, root, Found())
      modifies this`targets, targetSeen, genruleNeeded, stageNeeded
      ensures Valid() && old(Found()) <= Found()
      ensures changed <==> Found() != old(Found())
      ensures forall s: nat :: S(s) in Found() && S(s) !in old(Found()) ==> Need(S(s)) in requests
      ensures ok ==> Granted(requests, Found()) && WalksClosed(g, Found()) && AllNeeded(g, root, Found())
      ensures old(targets) <= targets && (Found() == old(Found()) ==> targets == old(targets))
      ensures !ok ==> Blocked(g, root)
    {
      hide WalksClosed, AllNeeded, Needed, Blocked;
      changed := false;
      for k := 0 to |requests|
        invariant Valid() && old(Found()) <= Found()
        invariant changed <==> Found() != old(Found())
        invariant forall s: nat :: S(s) in Found() && S(s) !in old(Found()) ==> Need(S(s)) in requests
        invariant Granted(requests[..k], Found()) && WalksClosed(g, Found()) && AllNeeded(g, root, Found())
        invariant old(targets) <= targets && (Found() == old(Found()) ==> targets == old(targets))
      {
        assert requests[k] in requests;
        match requests[k] {
          case Refuse =>
            return false, changed;
          case Need(e) =>
            var grew;
            ok, grew := Mark(e, root);
            changed := changed || grew;
            if !ok {
              return false, changed;
            }
        }
      }
      return true, changed;
    }

    method AddRoot(root: Root) returns (ok: bool)
      requires Valid() && Found() == {}
      modifies this`targets, targetSeen, genruleNeeded, stageNeeded
      ensures Valid()
      ensures ok ==> WalksClosed(g, Found()) && AllNeeded(g, root, Found()) && StagesClosed(g, Found())
      ensures ok ==> RootKnown(g, root) && forall e :: IsRoot(g, root, e) ==> e in Found()
      ensures !ok ==> !Accepted(g, root)
    {
      hide WalksClosed, AllNeeded, Blocked;
      match root {
        case Everything =>
          ok := AddEverything(root);
        case Named(name) =>
          EmptyOk(g, root);
          var rule := FindGenrule(g, name);
          var target := FindTarget(g, name);
          if rule.None? && target.None? {
            return false;
          }
          var e := if rule.Some? then G(rule.value) else T(target.value);
          RootIsNeeded(g, root, e);
          var changed;
          ok, changed := Mark(e, root);
      }
    }

    /** Repeats the scans until a whole pass finds nothing new. */
    method Discover(root: Root) returns (ok: bool)
      requires Valid() && Found() == {}
      modifies this`targets, targetSeen, genruleNeeded, stageNeeded
      ensures Valid()
      ensures ok ==> forall e :: e in Found() <==> Needed(g, root, e)
      ensures ok ==> forall e :: e in Found() ==> Known(g, e) && Closed(g, Found(), e)
      ensures ok <==> Accepted(g, root)
    {
      hide WalksClosed, AllNeeded, StagesClosed, Needed, Scanned, Closed, Blocked;
      ok := AddRoot(root);
      if !ok {
        return;
      }
      var changed := true;
      while changed
        invariant ok && Valid() && WalksClosed(g, Found()) && AllNeeded(g, root, Found()) && StagesClosed(g, Found())
        invariant forall e :: IsRoot(g, root, e) ==> e in Found()
        invariant !changed ==> forall e :: e in Found() ==> Known(g, e) && Scanned(g, Found(), e)
        decreases Universe(g) - Found(), changed
      {
        ghost var start := Found();
        ok, changed := Pass(root);
        if !ok {
          return;
        }
        GrowthShrinks(g, root, start, Found());
      }
      FixpointIsNeeded(g, root, Found());
      NothingBlocked(g, root, Found());
    }

    /** One pass: every found target, those found on the way included, then every found generated action. */
    method Pass(ghost root: Root) returns (ok: bool, changed: bool)
      requires Valid() && WalksClosed(g, Found()) && AllNeeded(g, root, Found()) && StagesClosed(g, Found())
      modifies this`targets, targetSeen, genruleNeeded, stageNeeded
      ensures Valid() && old(Found()) <= Found()
      ensures changed <==> Found() != old(Found())
      ensures ok ==> WalksClosed(g, Found()) && AllNeeded(g, root, Found()) && StagesClosed(g, Found())
      ensures ok && !changed ==> forall e :: e in Found() ==> Known(g, e) && Scanned(g, Found(), e)
      ensures !ok ==> Blocked(g, root)
    {
      hide WalksClosed, AllNeeded, StagesClosed, Needed, Scanned, Blocked;
      ok, changed := PassTargets(root);
      if !ok {
        return;
      }
      StagesNeedNoScan(g, Found());
      var grew;
      ok, grew := PassGenrules(root);
      changed := changed || grew;
    }

    method PassTargets(ghost root: Root) returns (ok: bool, changed: bool)
      requires Valid() && WalksClosed(g, Found()) && AllNeeded(g, root, Found()) && StagesClosed(g, Found())
      modifies this`targets, targetSeen, genruleNeeded, stageNeeded
      ensures Valid() && old(Found()) <= Found()
      ensures changed <==> Found() != old(Found())
      ensures ok ==> WalksClosed(g, Found()) && AllNeeded(g, root, Found()) && StagesClosed(g, Found())
      ensures ok && !changed ==> forall e :: e in Found() && e.T? ==> Known(g, e) && Scanned(g, Found(), e)
      ensures !ok ==> Blocked(g, root)
    {
      hide WalksClosed, AllNeeded, StagesClosed, Needed, Scanned, Blocked;
      ok, changed := true, false;
      var i := 0;
      while i < |targets|
        invariant ok && Valid() && 0 <= i <= |targets| && old(Found()) <= Found()
        invariant changed <==> Found() != old(Found())
        invariant WalksClosed(g, Found()) && AllNeeded(g, root, Found()) && StagesClosed(g, Found())
        invariant !changed ==> forall k :: 0 <= k < i ==> Known(g, T(targets[k])) && Scanned(g, Found(), T(targets[k]))
        decreases Universe(g) - Found(), |targets| - i
      {
        assert targets[i] in targets;
        ghost var before := Found();
        var grew;
        ok, grew := Scan(T(targets[i]), root);
        changed := changed || grew;
        if !ok {
          return;
        }
        GrowthShrinks(g, root, before, Found());
        i := i + 1;
      }
    }

    method PassGenrules(ghost root: Root) returns (ok: bool, changed: bool)
      requires Valid() && WalksClosed(g, Found()) && AllNeeded(g, root, Found()) && StagesClosed(g, Found())
      modifies this`targets, targetSeen, genruleNeeded, stageNeeded
      ensures Valid() && old(Found()) <= Found()
      ensures changed <==> Found() != old(Found())
      ensures ok ==> WalksClosed(g, Found()) && AllNeeded(g, root, Found()) && StagesClosed(g, Found())
      ensures ok && !changed ==> forall e :: e in Found() && e.G? ==> Known(g, e) && Scanned(g, Found(), e)
      ensures !ok ==> Blocked(g, root)
    {
      hide WalksClosed, AllNeeded, StagesClosed, Needed, Scanned, Blocked;
      ok, changed := true, false;
      for r := 0 to |g.genrules|
        invariant ok && Valid() && old(Found()) <= Found()
        invariant changed <==> Found() != old(Found())
        invariant WalksClosed(g, Found()) && AllNeeded(g, root, Found()) && StagesClosed(g, Found())
        invariant !changed ==> forall e :: e in Found() && e.G? && e.genrule < r ==> Known(g, e) && Scanned(g, Found(), e)
      {
        if genruleNeeded[r] {
          var grew;
          ok, grew := Scan(G(r), root);
          changed := changed || grew;
          if !ok {
            return;
          }
        }
      }
    }

    /** Honours the scan of one found target or generated action. */
    method Scan(e: Entity, ghost root: Root) returns (ok: bool, grew: bool)
      requires Valid() && e in Found() && Known(g, e) && !e.S?
      requires WalksClosed(g, Found()) && AllNeeded(g, root, Found()) && StagesClosed(g, Found())
      modifies this`targets, targetSeen, genruleNeeded, stageNeeded
      ensures Valid() && old(Found()) <= Found() && old(targets) <= targets
      ensures Found() == old(Found()) ==> targets == old(targets)
      ensures grew <==> Found() != old(Found())
      ensures ok ==> WalksClosed(g, Found()) && AllNeeded(g, root, Found()) && StagesClosed(g, Found())
      ensures ok ==> Scanned(g, Found(), e)
      ensures !ok ==> Blocked(g, root)
    {
      hide WalksClosed, AllNeeded, StagesClosed, TargetRequests, GenruleRequests, Blocked;
      var requests := match e case T(t) => TargetRequests(g, g.targets[t]) case G(r) => GenruleRequests(g, r);
      ScanNeeds(g, root, e, Found());
      ok, grew := Honour(requests, root);
      if ok {
        HonouredStages(g, old(Found()), Found(), requests);
      }
    }
  }

  lemma StagesNeedNoScan(g: Graph, found: set<Entity>)
    ensures forall e :: e in found && e.S? && Known(g, e) ==> Scanned(g, found, e)
  {}

  lemma GrowthShrinks(g: Graph, root: Root, before: set<Entity>, after: set<Entity>)
    requires before <= after && AllNeeded(g, root, after)
    ensures Universe(g) - after <= Universe(g) - before
    ensures before != after ==> Universe(g) - after < Universe(g) - before
  {
    hide Needed;
    if before != after {
      assert !(after <= before);
      var e :| e in after && e !in before;
      assert Known(g, e) && e in Universe(g);
    }
  }

  lemma HonouredStages(g: Graph, before: set<Entity>, after: set<Entity>, requests: seq<Request>)
    requires StagesClosed(g, before) && before <= after && Granted(requests, after) && StagesWhole(g, requests)
    requires forall s: nat :: S(s) in after && S(s) !in before ==> Need(S(s)) in requests
    ensures StagesClosed(g, after)
  {
    hide ListRequests;
  }

  lemma ScanNeeds(g: Graph, root: Root, e: Entity, found: set<Entity>)
    requires AllNeeded(g, root, found) && e in found && Known(g, e) && !e.S?
    ensures var requests := match e case T(t) => TargetRequests(g, g.targets[t]) case G(r) => GenruleRequests(g, r);
            && RequestsNeeded(g, root, requests) && StagesWhole(g, requests)
            && (Refuse in requests ==> Blocked(g, root))
  {
    hide Needed, ListRequests, TargetRequests, Reaches;
    if Refuse in Requests(g, e) {
      assert BlockedAt(g, root, e);
    }
    var requests := match e case T(t) => TargetRequests(g, g.targets[t]) case G(r) => GenruleRequests(g, r);
    forall q | q in requests && q.Need? ensures Known(g, q.entity) && Needed(g, root, q.entity) {
      assert Step(g, e, q.entity);
      StepIsNeeded(g, root, e, q.entity);
    }
    match e {
      case T(t) => TargetStagesWhole(g, g.targets[t]);
      case G(r) => NoStages(g, [g.genrules[r].tool] + g.genrules[r].inputs + g.genrules[r].args, Some(r));
    }
  }

  /** Only a stage-dir token asks for a stage. */
  lemma {:induction false} NoStages(g: Graph, items: seq<Item>, self: Option<nat>)
    ensures forall q :: q in ListRequests(g, items, self) && q.Need? ==> !q.entity.S?
  {
    if items != [] {
      NoStages(g, items[1..], self);
    }
  }

  lemma RunInputWhole(g: Graph, item: Item)
    ensures StagesWhole(g, RunInputRequest(g, item))
  {
    hide ListRequests;
    if item.StageDir? && FindStage(g, item.name).Some? {
      NoStages(g, g.stages[FindStage(g, item.name).value].srcs, None);
    }
  }

  lemma {:induction false} RunInputsWhole(g: Graph, items: seq<Item>)
    ensures StagesWhole(g, RunInputRequests(g, items))
  {
    hide RunInputRequest, ListRequests;
    if items != [] {
      RunInputWhole(g, items[0]);
      RunInputsWhole(g, items[1..]);
    }
  }

  lemma TargetStagesWhole(g: Graph, t: Target)
    ensures StagesWhole(g, TargetRequests(g, t))
  {
    hide ListRequests, RunInputRequests;
    RunInputsWhole(g, t.runInputs);
    NoStages(g, TokensOnly(t.linkInputs), None);
    NoStages(g, t.compileUsage, None);
    NoStages(g, t.linkUsage, None);
    NoStages(g, TokensOnly(t.runCommand), None);
    forall s: nat | Need(S(s)) in TargetRequests(g, t)
      ensures s < |g.stages| && forall q :: q in ListRequests(g, g.stages[s].srcs, None) ==> q in TargetRequests(g, t)
    {
      assert t.kind == RunTarget && Need(S(s)) in RunInputRequests(g, t.runInputs);
    }
  }

  lemma MarkKeepsWalks(g: Graph, before: set<Entity>, after: set<Entity>)
    requires WalksClosed(g, before) && before <= after
    requires forall e :: e in after && e !in before ==> !e.T?
    ensures WalksClosed(g, after)
  {
    hide Reaches;
    forall u: nat | T(u) in after ensures u < |g.targets| && WalkClosed(g, after, u) {
      assert WalkClosed(g, before, u);
    }
  }

  lemma EmptyOk(g: Graph, root: Root)
    ensures WalksClosed(g, {}) && AllNeeded(g, root, {})
  {}

  /** Nothing found so far is waiting to be scanned again. */
  ghost predicate Scanned(g: Graph, found: set<Entity>, e: Entity)
    requires Known(g, e)
  {
    match e
    case T(t) => Granted(TargetRequests(g, g.targets[t]), found)
    case G(r) => Granted(GenruleRequests(g, r), found)
    case S(s) => true
  }

  /** Once every scan is satisfied, the found set is exactly what the roots need. */
  lemma FixpointIsNeeded(g: Graph, root: Root, found: set<Entity>)
    requires WalksClosed(g, found) && StagesClosed(g, found) && AllNeeded(g, root, found)
    requires forall e :: e in found ==> Known(g, e) && Scanned(g, found, e)
    requires forall e :: IsRoot(g, root, e) ==> e in found
    ensures forall e :: e in found <==> Needed(g, root, e)
    ensures forall e :: e in found ==> Known(g, e) && Closed(g, found, e)
  {
    hide Needed, WalkRequests, TargetRequests, GenruleRequests, ListRequests;
    forall e | e in found ensures Closed(g, found, e) {
      assert Scanned(g, found, e);
      if e.T? {
        assert WalkClosed(g, found, e.target);
      }
    }
    forall e | Needed(g, root, e) ensures e in found {
      LeastClosed(g, root, found, e);
    }
  }

  /** A closed found set without circles leaves no reason to refuse the root. */
  lemma NothingBlocked(g: Graph, root: Root, found: set<Entity>)
    requires WalksClosed(g, found)
    requires forall e :: e in found <==> Needed(g, root, e)
    requires forall e :: e in found ==> Known(g, e) && Closed(g, found, e)
    ensures !Blocked(g, root)
  {
    hide Needed, Requests, Reaches;
  }

  lemma LeastClosed(g: Graph, root: Root, found: set<Entity>, e: Entity)
    requires forall x :: IsRoot(g, root, x) ==> x in found
    requires forall x :: x in found ==> Known(g, x) && Closed(g, found, x)
    requires Needed(g, root, e)
    ensures e in found
  {
    var steps: nat :| NeededIn(g, root, e, steps);
    ClosedHolds(g, root, found, e, steps);
  }

  ghost function TargetEntities(order: seq<nat>): set<Entity> {
    set t | t in order :: T(t)
  }

  lemma StartOk(g: Graph, state: seq<int>, root: Root)
    requires |state| == |g.targets| && forall i :: 0 <= i < |state| ==> state[i] == 0
    ensures WalkOk(g, state) && OrderOk(g, state, [], root)
  {}

  lemma ClosureUnion(g: Graph, root: Root, found: set<Entity>, state: seq<int>, order: seq<nat>)
    requires WalksClosed(g, found) && AllNeeded(g, root, found)
    requires |state| == |g.targets| && WalkOk(g, state) && OrderOk(g, state, order, root)
    ensures WalksClosed(g, found + TargetEntities(order)) && AllNeeded(g, root, found + TargetEntities(order))
  {
    hide WalkRequests, Reaches, Needed, Preceded;
    var all := found + TargetEntities(order);
    forall u: nat | T(u) in all ensures u < |g.targets| && WalkClosed(g, all, u) && !Reaches(g, u, u) {
      if T(u) in found {
        assert WalkClosed(g, found, u);
      } else {
        assert u in order && Walked(g, state, u);
        ListedIsNoCircle(g, order, u);
      }
    }
  }
}
