/** What declarations need and what actions wait for, read off the declarations' own fields. */
module ActionInputs {
  import opened Wrappers
  import opened BuildGraph
  import opened CxxUnity
  import opened ActionDag
  import opened Lowering
  import opened ActionCycles
  import opened DeclaredCycles
  import opened Producers
  import D = Discovery

  /** Kinds with compile and final actions of their own. */
  ghost predicate Native(t: Target) {
    t.kind in {Exe, Test, StaticLib, SharedLib, Generic, ObjectLibrary}
  }

  // ---- what an action asks for -------------------------------------------------------------------

  /** The items an action reads. */
  ghost predicate Reads(g: Graph, w: Work, item: Item)
    requires KnownWork(g, w)
  {
    match w
    case Generate(r, _) => item == g.genrules[r].tool || item in g.genrules[r].inputs || item in g.genrules[r].args
    case Stage(s) => item in g.stages[s].srcs
    case Pch(t) => item == g.targets[t].pch.value || item in g.targets[t].compileUsage
    case Compile(t, _, _) => item in g.targets[t].compileUsage
    case _ =>
      var t := g.targets[w.target];
      || (t.kind == RunTarget && (item in t.runCommand || item in t.runInputs))
      || (Native(t) && (item in t.linkInputs || item in t.linkUsage))
  }

  /** What an action asks for besides the producers of its items: generated files its compiles or its target use,
      the stages its run inputs name, and the declarations its target names. */
  ghost predicate AsksMore(g: Graph, w: Work, e: Entity)
    requires KnownWork(g, w)
  {
    match w
    case Generate(_, _) => false
    case Stage(_) => false
    case Pch(_) => false
    case Compile(_, o, _) => CompilesOutput(g, g.targets[o], e)
    case _ =>
      var t := g.targets[w.target];
      || (exists name :: Names(t, name) && !AtLabel(name) && StandsFor(g, name, e))
      || (t.kind == RunTarget && exists item :: item in t.runInputs && StageInput(g, item, e))
      || (Native(t) && UsesOutput(g, t, e))
  }

  /** An action asks for the producers of its items, though a generated action not for itself, and for more. */
  ghost predicate Asks(g: Graph, w: Work, e: Entity)
    requires KnownWork(g, w)
  {
    || (exists item :: Reads(g, w, item) && Produces(g, item, e) && !(w.Generate? && item.Plain? && e == Owner(w)))
    || AsksMore(g, w, e)
  }

  /** An item that no action can read. */
  ghost predicate Refused(g: Graph, w: Work)
    requires KnownWork(g, w)
  {
    || Reads(g, w, BadTargetFile)
    || (Owner(w).T? && IsHead(w) && g.targets[w.target].kind == RunTarget
        && exists item :: item in g.targets[w.target].runInputs && BadInput(g, item))
  }

  lemma GenerateAsks(g: Graph, w: Work, e: Entity)
    requires KnownWork(g, w) && w.Generate?
    ensures Need(e) in WorkRequests(g, w) <==> Asks(g, w, e)
    ensures Refuse in WorkRequests(g, w) <==> Refused(g, w)
  {
    hide ListRequests, Produces;
    var rule := g.genrules[w.genrule];
    ListAsks(g, [rule.tool] + rule.inputs + rule.args, Some(w.genrule), e);
    assert forall item :: item in [rule.tool] + rule.inputs + rule.args <==> Reads(g, w, item);
  }

  lemma StageAsks(g: Graph, w: Work, e: Entity)
    requires KnownWork(g, w) && w.Stage?
    ensures Need(e) in WorkRequests(g, w) <==> Asks(g, w, e)
    ensures Refuse in WorkRequests(g, w) <==> Refused(g, w)
  {
    hide ListRequests, Produces;
    SourcesAsk(g, g.stages[w.stage].srcs, e);
    assert forall item :: item in g.stages[w.stage].srcs <==> Reads(g, w, item);
  }

  lemma PchAsks(g: Graph, w: Work, e: Entity)
    requires KnownWork(g, w) && w.Pch?
    ensures Need(e) in WorkRequests(g, w) <==> Asks(g, w, e)
    ensures Refuse in WorkRequests(g, w) <==> Refused(g, w)
  {
    hide ListRequests, ItemRequests, Produces;
    var t := g.targets[w.target];
    ItemAsks(g, t.pch.value, None, e);
    SourcesAsk(g, t.compileUsage, e);
    assert forall item :: item == t.pch.value || item in t.compileUsage <==> Reads(g, w, item);
  }

  lemma CompileAsks(g: Graph, w: Work, e: Entity)
    requires KnownWork(g, w) && w.Compile?
    ensures Need(e) in WorkRequests(g, w) <==> Asks(g, w, e)
    ensures Refuse in WorkRequests(g, w) <==> Refused(g, w)
  {
    hide ListRequests, CompileConsumedRequests, Produces, CompilesOutput;
    SourcesAsk(g, g.targets[w.target].compileUsage, e);
    CompileConsumedAre(g, g.targets[w.owner], e);
    assert forall item :: item in g.targets[w.target].compileUsage <==> Reads(g, w, item);
  }

  lemma NamesAsk(g: Graph, t: Target, e: Entity)
    ensures Need(e) in LabelEdges(g, t.objects) + LabelEdges(g, t.deps) + LabelEdges(g, t.privateDeps)
       <==> exists name :: Names(t, name) && !AtLabel(name) && StandsFor(g, name, e)
    ensures Refuse !in LabelEdges(g, t.objects) + LabelEdges(g, t.deps) + LabelEdges(g, t.privateDeps)
  {
    hide LabelEdges, AtLabel, StandsFor;
    LabelsAsk(g, t.objects, e);
    LabelsAsk(g, t.deps, e);
    LabelsAsk(g, t.privateDeps, e);
  }

  lemma RunAsks(g: Graph, t: Target, e: Entity)
    ensures var asked := ListRequests(g, t.runCommand, None) + RunInputEdges(g, t.runInputs);
            && (Need(e) in asked <==> || (exists item :: (item in t.runCommand || item in t.runInputs) && Produces(g, item, e))
                                      || (exists item :: item in t.runInputs && StageInput(g, item, e)))
            && (Refuse in asked <==> BadTargetFile in t.runCommand || exists item :: item in t.runInputs && BadInput(g, item))
  {
    hide ListRequests, RunInputEdges, Produces, StageInput, BadInput;
    SourcesAsk(g, t.runCommand, e);
    RunInputsAsk(g, t.runInputs, e);
  }

  lemma LinkAsks(g: Graph, t: Target, e: Entity)
    ensures var asked := ConsumedRequests(g, t) + ListRequests(g, t.linkUsage, None) + ListRequests(g, t.linkInputs, None);
            && (Need(e) in asked <==> UsesOutput(g, t, e) || exists item :: (item in t.linkInputs || item in t.linkUsage) && Produces(g, item, e))
            && (Refuse in asked <==> BadTargetFile in t.linkInputs || BadTargetFile in t.linkUsage)
  {
    hide ListRequests, ConsumedRequests, Produces, UsesOutput;
    ConsumedAre(g, t, e);
    SourcesAsk(g, t.linkUsage, e);
    SourcesAsk(g, t.linkInputs, e);
  }

  /** The parts of a head's requests, whatever they ask for. */
  lemma HeadParts(g: Graph, t: Target, q: Request)
    ensures q in HeadRequests(g, t) <==>
              || q in LabelEdges(g, t.objects) + LabelEdges(g, t.deps) + LabelEdges(g, t.privateDeps)
              || (t.kind == RunTarget && q in ListRequests(g, t.runCommand, None) + RunInputEdges(g, t.runInputs))
              || (Native(t) && q in ConsumedRequests(g, t) + ListRequests(g, t.linkUsage, None) + ListRequests(g, t.linkInputs, None))
  {
    hide LabelEdges, ListRequests, RunInputEdges, ConsumedRequests;
  }

  lemma HeadItems(g: Graph, w: Work, item: Item)
    requires KnownWork(g, w) && Owner(w).T? && IsHead(w)
    ensures var t := g.targets[w.target];
            Reads(g, w, item) <==> || (t.kind == RunTarget && (item in t.runCommand || item in t.runInputs))
                                   || (Native(t) && (item in t.linkInputs || item in t.linkUsage))
  {}

  lemma HeadAsks(g: Graph, w: Work, e: Entity)
    requires KnownWork(g, w) && Owner(w).T? && IsHead(w)
    ensures Need(e) in HeadRequests(g, g.targets[w.target]) <==> Asks(g, w, e)
  {
    hide HeadRequests, LabelEdges, ListRequests, RunInputEdges, ConsumedRequests, Reads;
    hide Produces, StageInput, UsesOutput, StandsFor, AtLabel, Names, Native;
    var t := g.targets[w.target];
    HeadParts(g, t, Need(e));
    NamesAsk(g, t, e);
    RunAsks(g, t, e);
    LinkAsks(g, t, e);
    forall item ensures Reads(g, w, item) <==> || (t.kind == RunTarget && (item in t.runCommand || item in t.runInputs))
                                               || (Native(t) && (item in t.linkInputs || item in t.linkUsage))
    {
      HeadItems(g, w, item);
    }
  }

  lemma HeadRefuses(g: Graph, w: Work)
    requires KnownWork(g, w) && Owner(w).T? && IsHead(w)
    ensures Refuse in HeadRequests(g, g.targets[w.target]) <==> Refused(g, w)
  {
    hide HeadRequests, LabelEdges, ListRequests, RunInputEdges, ConsumedRequests, Reads, BadInput, Names, Native;
    var t := g.targets[w.target];
    HeadParts(g, t, Refuse);
    NamesAsk(g, t, T(w.target));
    RunAsks(g, t, T(w.target));
    LinkAsks(g, t, T(w.target));
    BadItems(g, t);
    HeadItems(g, w, BadTargetFile);
  }

  lemma BadItems(g: Graph, t: Target)
    ensures BadTargetFile in t.runInputs ==> exists item :: item in t.runInputs && BadInput(g, item)
  {
    assert BadInput(g, BadTargetFile);
  }

  /** An action's requests are exactly what its declaration's fields ask for, and it is refused exactly for a bad item. */
  lemma RequestsAsDeclared(g: Graph, w: Work, d: Entity)
    requires KnownWork(g, w)
    ensures Need(d) in WorkRequests(g, w) <==> Asks(g, w, d)
    ensures Refuse in WorkRequests(g, w) <==> Refused(g, w)
  {
    hide HeadRequests, Asks, Refused;
    match w {
      case Generate(_, _) => GenerateAsks(g, w, d);
      case Stage(_) => StageAsks(g, w, d);
      case Pch(_) => PchAsks(g, w, d);
      case Compile(_, _, _) => CompileAsks(g, w, d);
      case _ =>
        HeadAsks(g, w, d);
        HeadRefuses(g, w);
        HeadRequestsOf(g, w);
    }
  }

  // ---- what a declaration needs ------------------------------------------------------------------

  /** The items whose producers a target needs: of a run command only the tokens. */
  ghost predicate Needing(t: Target, item: Item) {
    || (item in t.linkInputs && item.TargetFile?) || item in t.compileUsage || item in t.linkUsage
    || (t.kind == RunTarget && ((item in t.runCommand && item.TargetFile?) || item in t.runInputs))
  }

  ghost predicate Needs(g: Graph, x: Entity, e: Entity)
    requires Known(g, x)
  {
    match x
    case G(r) => Asks(g, Generate(r, g.genrules[r].configHeader), e)
    case S(s) => SomeProduces(g, g.stages[s].srcs, e)
    case T(t) =>
      var target := g.targets[t];
      || (e.T? && exists name :: Names(target, name) && TargetNamed(g, name, e.target))
      || (e.G? && exists name :: (name in target.deps || name in target.privateDeps) && !AtLabel(name) && GenruleNamed(g, name, e.genrule))
      || UsesOutput(g, target, e)
      || (exists item :: Needing(target, item) && Produces(g, item, e))
      || (target.kind == RunTarget && exists item :: item in target.runInputs && (StageInput(g, item, e) || StagedProduces(g, item, e)))
  }

  /** What stops discovery at a declaration: a label nothing stands for, or a bad item. */
  ghost predicate Stops(g: Graph, x: Entity)
    requires Known(g, x)
  {
    match x
    case G(r) => Refused(g, Generate(r, g.genrules[r].configHeader))
    case S(s) => BadTargetFile in g.stages[s].srcs
    case T(t) =>
      var target := g.targets[t];
      || (exists name :: name in target.objects && Unresolved(g, name, false))
      || (exists name :: (name in target.deps || name in target.privateDeps) && Unresolved(g, name, true))
      || BadTargetFile in target.linkInputs || BadTargetFile in target.compileUsage || BadTargetFile in target.linkUsage
      || (target.kind == RunTarget && (BadTargetFile in target.runCommand
                                       || exists item :: item in target.runInputs && (BadInput(g, item) || StagedBad(g, item))))
  }

  lemma WalksAre(g: Graph, t: Target, e: Entity)
    ensures Need(e) in D.WalkRequests(g, t) <==> e.T? && exists name :: Names(t, name) && TargetNamed(g, name, e.target)
    ensures Refuse in D.WalkRequests(g, t) <==>
              || (exists name :: name in t.objects && Unresolved(g, name, false))
              || (exists name :: (name in t.deps || name in t.privateDeps) && Unresolved(g, name, true))
  {
    hide D.LabelRequests, TargetNamed, Unresolved;
    LabelsWalk(g, t.objects, false, e);
    LabelsWalk(g, t.deps, true, e);
    LabelsWalk(g, t.privateDeps, true, e);
  }

  lemma DepsAre(g: Graph, t: Target, e: Entity)
    ensures Need(e) in D.DepGenruleRequests(g, t.deps) + D.DepGenruleRequests(g, t.privateDeps) <==>
              e.G? && exists name :: (name in t.deps || name in t.privateDeps) && !AtLabel(name) && GenruleNamed(g, name, e.genrule)
    ensures Refuse !in D.DepGenruleRequests(g, t.deps) + D.DepGenruleRequests(g, t.privateDeps)
  {
    hide D.DepGenruleRequests, GenruleNamed, AtLabel;
    GeneratedDeps(g, t.deps, e);
    GeneratedDeps(g, t.privateDeps, e);
  }

  lemma UsageAsks(g: Graph, t: Target, e: Entity)
    ensures var asked := ListRequests(g, TokensOnly(t.linkInputs), None) + ListRequests(g, t.compileUsage, None) + ListRequests(g, t.linkUsage, None);
            && (Need(e) in asked <==> exists item :: ((item in t.linkInputs && item.TargetFile?) || item in t.compileUsage || item in t.linkUsage) && Produces(g, item, e))
            && (Refuse in asked <==> BadTargetFile in t.linkInputs || BadTargetFile in t.compileUsage || BadTargetFile in t.linkUsage)
  {
    hide ListRequests, TokensOnly, Produces;
    TokensAsk(g, t.linkInputs, e);
    SourcesAsk(g, t.compileUsage, e);
    SourcesAsk(g, t.linkUsage, e);
  }

  lemma RunNeeds(g: Graph, t: Target, e: Entity)
    ensures var asked := D.RunInputRequests(g, t.runInputs) + ListRequests(g, TokensOnly(t.runCommand), None);
            && (Need(e) in asked <==>
                  || (exists item :: ((item in t.runCommand && item.TargetFile?) || item in t.runInputs) && Produces(g, item, e))
                  || (exists item :: item in t.runInputs && (StageInput(g, item, e) || StagedProduces(g, item, e))))
            && (Refuse in asked <==> BadTargetFile in t.runCommand || exists item :: item in t.runInputs && (BadInput(g, item) || StagedBad(g, item)))
  {
    hide ListRequests, TokensOnly, D.RunInputRequests, Produces, StageInput, StagedProduces, BadInput, StagedBad;
    RunInputsNeed(g, t.runInputs, e);
    TokensAsk(g, t.runCommand, e);
  }

  /** The parts of a target's scan, whatever they ask for. */
  lemma ScanParts(g: Graph, t: nat, q: Request)
    requires t < |g.targets|
    ensures var target := g.targets[t];
            q in D.Requests(g, T(t)) <==>
              || q in D.WalkRequests(g, target) || q in ConsumedRequests(g, target)
              || q in D.DepGenruleRequests(g, target.deps) + D.DepGenruleRequests(g, target.privateDeps)
              || q in ListRequests(g, TokensOnly(target.linkInputs), None) + ListRequests(g, target.compileUsage, None) + ListRequests(g, target.linkUsage, None)
              || (target.kind == RunTarget && q in D.RunInputRequests(g, target.runInputs) + ListRequests(g, TokensOnly(target.runCommand), None))
  {
    hide D.WalkRequests, ConsumedRequests, D.DepGenruleRequests, ListRequests, TokensOnly, D.RunInputRequests;
  }

  /** A declaration's needs are exactly what its fields call for, and discovery stops at it exactly for a bad one. */
  lemma NeedsAsDeclared(g: Graph, x: Entity, e: Entity)
    requires Known(g, x)
    ensures Need(e) in D.Requests(g, x) <==> Needs(g, x, e)
    ensures Refuse in D.Requests(g, x) <==> Stops(g, x)
  {
    hide Asks, Refused, ListRequests, D.WalkRequests, D.TargetRequests, Produces, SomeProduces;
    match x {
      case G(r) =>
        RequestsAsDeclared(g, Generate(r, g.genrules[r].configHeader), e);
      case S(s) =>
        SourcesAsk(g, g.stages[s].srcs, e);
      case T(t) =>
        TargetNeeds(g, t, e);
    }
  }

  lemma TargetNeeds(g: Graph, t: nat, e: Entity)
    requires t < |g.targets|
    ensures Need(e) in D.Requests(g, T(t)) <==> Needs(g, T(t), e)
    ensures Refuse in D.Requests(g, T(t)) <==> Stops(g, T(t))
  {
    hide D.Requests, D.WalkRequests, ConsumedRequests, D.DepGenruleRequests, ListRequests, TokensOnly, D.RunInputRequests;
    hide Produces, UsesOutput, TargetNamed, GenruleNamed, AtLabel, Names, StageInput, StagedProduces, Unresolved, BadInput, StagedBad;
    var target := g.targets[t];
    ScanParts(g, t, Need(e));
    ScanParts(g, t, Refuse);
    WalksAre(g, target, e);
    ConsumedAre(g, target, e);
    DepsAre(g, target, e);
    UsageAsks(g, target, e);
    RunNeeds(g, target, e);
    assert (exists item :: Needing(target, item) && Produces(g, item, e)) <==>
           || (exists item :: ((item in target.linkInputs && item.TargetFile?) || item in target.compileUsage || item in target.linkUsage) && Produces(g, item, e))
           || (target.kind == RunTarget && exists item :: ((item in target.runCommand && item.TargetFile?) || item in target.runInputs) && Produces(g, item, e));
  }

  // ---- which actions there are --------------------------------------------------------------------

  /** An own source that has a compile of its own: of the members of a unity batch only the first. */
  ghost predicate HasOwnCompile(t: Target, i: nat) {
    && i < |t.sources| && CompiledKind(t.sources[i].kind)
    && (t.unity && t.sources[i].kind == CxxSource ==> exists b: nat :: |Batch(t, b)| > 0 && Batch(t, b)[0] == i)
  }

  lemma OwnCompileAsDeclared(t: Target, i: nat)
    ensures HasOwnCompile(t, i) <==> CompilesOwn(t, i)
    ensures HasOwnCompile(t, i) ==> i < |t.sources|
  {
    hide Batch, BatchSize, Implementations;
    if i < |t.sources| && t.unity && t.sources[i].kind == CxxSource {
      var b0 := SourceInfo(t, i).value.0;
      InfoAgreesWithBatch(t, i, b0);
      forall b: nat | |Batch(t, b)| > 0 && Batch(t, b)[0] == i ensures SourceInfo(t, i).value.1 {
        assert i in Batch(t, b);
        InfoAgreesWithBatch(t, i, b);
      }
    }
  }

  /** A source of an object library that is compiled anew inside a target that lists it. */
  ghost predicate Borrows(g: Graph, t: Target, o: nat, i: nat) {
    && o < |g.targets| && g.targets[o].consumerContext
    && i < |g.targets[o].sources| && CompiledKind(g.targets[o].sources[i].kind)
    && exists name :: name in t.objects && TargetNamed(g, name, o)
  }

  ghost predicate HasAction(g: Graph, e: Entity, w: Work)
    requires Known(g, e)
  {
    match e
    case G(r) => w == Generate(r, g.genrules[r].configHeader)
    case S(s) => w == Stage(s)
    case T(t) =>
      var target := g.targets[t];
      match target.kind
      case GroupTarget => w == Group(t)
      case RunTarget => w == RunCommand(t)
      case InterfaceTarget => w == Metadata(t)
      case ImportedTarget => w == Metadata(t)
      case ToolTarget => w == Metadata(t)
      case _ =>
        || (w == Pch(t) && target.pch.Some?)
        || (w.Compile? && w.target == t && w.owner == t && !target.consumerContext && HasOwnCompile(target, w.source))
        || (w.Compile? && w.target == t && Borrows(g, target, w.owner, w.source))
        || w == (if target.kind == ObjectLibrary then ObjectLib(t) else Final(t))
  }

  lemma BorrowedHere(g: Graph, name: string, o: nat)
    ensures Borrowed(g, name) == Some(o) <==> TargetNamed(g, name, o) && g.targets[o].consumerContext
  {}

  lemma {:induction false} BorrowedAre(g: Graph, t: nat, names: seq<string>, w: Work)
    requires t < |g.targets|
    ensures w in BorrowedCompiles(g, t, names) <==>
              && w.Compile? && w.target == t && w.owner < |g.targets| && g.targets[w.owner].consumerContext
              && w.source < |g.targets[w.owner].sources| && CompiledKind(g.targets[w.owner].sources[w.source].kind)
              && exists name :: name in names && TargetNamed(g, name, w.owner)
  {
    hide TargetNamed, Borrowed, FindTarget;
    if names != [] {
      BorrowedAre(g, t, names[1..], w);
      assert names == [names[0]] + names[1..];
      BorrowedFirst(g, t, names[0], w);
    }
  }

  lemma BorrowedFirst(g: Graph, t: nat, name: string, w: Work)
    requires t < |g.targets|
    ensures var o := Borrowed(g, name);
            (o.Some? && w in BorrowedFrom(g, t, o.value, |g.targets[o.value].sources|)) <==>
              && w.Compile? && w.target == t && w.owner < |g.targets| && g.targets[w.owner].consumerContext
              && w.source < |g.targets[w.owner].sources| && CompiledKind(g.targets[w.owner].sources[w.source].kind)
              && TargetNamed(g, name, w.owner)
  {
    if w.Compile? {
      BorrowedHere(g, name, w.owner);
    }
    var o := Borrowed(g, name);
    hide BorrowedFrom, FindTarget;
    if o.Some? {
      BorrowedHere(g, name, o.value);
    }
  }

  /** A declaration's actions are exactly those its kind and sources call for. */
  lemma ActionsAsDeclared(g: Graph, e: Entity, w: Work)
    requires Known(g, e)
    ensures w in WorksOf(g, e) <==> HasAction(g, e, w)
  {
    if e.T? && Native(g.targets[e.target]) {
      NativeActions(g, e.target, w);
    }
  }

  lemma NativeActions(g: Graph, t: nat, w: Work)
    requires t < |g.targets| && Native(g.targets[t])
    ensures w in WorksOf(g, T(t)) <==> HasAction(g, T(t), w)
  {
    hide OwnCompiles, BorrowedCompiles, CompilesOwn, HasOwnCompile, TargetNamed;
    if w.Compile? {
      BorrowedAre(g, t, g.targets[t].objects, w);
      OwnCompileAsDeclared(g.targets[t], w.source);
    }
  }
}
