/** What declarations need and what actions wait for, said of their own fields: the reference the scans and edges meet. */
module Producers {
  import opened Wrappers
  import opened BuildGraph
  import opened CxxUnity
  import opened ActionDag
  import opened Lowering
  import opened ActionCycles
  import opened DeclaredCycles
  import opened WholeBuild
  import D = Discovery

  // ---- who a name, a path or an item stands for ------------------------------------------------

  ghost predicate TargetNamed(g: Graph, name: string, t: nat) {
    t < |g.targets| && g.targets[t].name == name && forall i :: 0 <= i < t ==> g.targets[i].name != name
  }

  ghost predicate GenruleNamed(g: Graph, name: string, r: nat) {
    r < |g.genrules| && g.genrules[r].name == name && forall i :: 0 <= i < r ==> g.genrules[i].name != name
  }

  ghost predicate StageNamed(g: Graph, name: string, s: nat) {
    s < |g.stages| && g.stages[s].name == name && forall i :: 0 <= i < s ==> g.stages[i].name != name
  }

  /** The first generated action that writes the path. */
  ghost predicate Writes(g: Graph, path: string, r: nat) {
    r < |g.genrules| && path in g.genrules[r].outputs && forall i :: 0 <= i < r ==> path !in g.genrules[i].outputs
  }

  ghost predicate NoTarget(g: Graph, name: string) {
    forall i :: 0 <= i < |g.targets| ==> g.targets[i].name != name
  }

  ghost predicate NoGenrule(g: Graph, name: string) {
    forall i :: 0 <= i < |g.genrules| ==> g.genrules[i].name != name
  }

  ghost predicate NoStage(g: Graph, name: string) {
    forall i :: 0 <= i < |g.stages| ==> g.stages[i].name != name
  }

  /** A target, or if there is none of that name, a generated action. */
  ghost predicate StandsFor(g: Graph, name: string, e: Entity) {
    match e
    case T(t) => TargetNamed(g, name, t)
    case G(r) => NoTarget(g, name) && GenruleNamed(g, name, r)
    case S(_) => false
  }

  /** The declaration that makes the file an item names. */
  ghost predicate Produces(g: Graph, item: Item, e: Entity) {
    match item
    case TargetFile(name) => StandsFor(g, name, e)
    case Plain(path) => e.G? && Writes(g, path, e.genrule)
    case _ => false
  }

  ghost predicate SomeProduces(g: Graph, items: seq<Item>, e: Entity) {
    exists item :: item in items && Produces(g, item, e)
  }

  // ---- lookups and item scans --------------------------------------------------------------------

  lemma ItemAsks(g: Graph, item: Item, self: Option<nat>, e: Entity)
    ensures Need(e) in ItemRequests(g, item, self) <==> Produces(g, item, e) && !(item.Plain? && self.Some? && e == G(self.value))
    ensures Refuse in ItemRequests(g, item, self) <==> item.BadTargetFile?
  {}

  lemma {:induction false} ListAsks(g: Graph, items: seq<Item>, self: Option<nat>, e: Entity)
    ensures Need(e) in ListRequests(g, items, self) <==>
              exists item :: item in items && Produces(g, item, e) && !(item.Plain? && self.Some? && e == G(self.value))
    ensures Refuse in ListRequests(g, items, self) <==> BadTargetFile in items
  {
    hide ItemRequests, Produces;
    if items != [] {
      ItemAsks(g, items[0], self, e);
      ListAsks(g, items[1..], self, e);
      assert items == [items[0]] + items[1..];
    }
  }

  lemma {:induction false} TokenItems(items: seq<Item>, item: Item)
    ensures item in TokensOnly(items) <==> item in items && (item.TargetFile? || item.BadTargetFile?)
  {
    if items != [] {
      TokenItems(items[1..], item);
      assert items == [items[0]] + items[1..];
    }
  }

  // ---- labels and run inputs --------------------------------------------------------------------

  ghost predicate AtLabel(name: string) {
    |name| > 0 && name[0] == '@'
  }

  lemma LabelAsks(g: Graph, name: string, e: Entity)
    ensures Need(e) in LabelEdge(g, name) <==> !AtLabel(name) && StandsFor(g, name, e)
  {}

  lemma {:induction false} LabelsAsk(g: Graph, names: seq<string>, e: Entity)
    ensures Need(e) in LabelEdges(g, names) <==> exists name :: name in names && !AtLabel(name) && StandsFor(g, name, e)
  {
    hide StandsFor, LabelEdge, AtLabel;
    if names != [] {
      LabelAsks(g, names[0], e);
      LabelsAsk(g, names[1..], e);
      assert names == [names[0]] + names[1..];
    }
  }

  /** A label that nothing stands for; a package may have declared an external one. */
  ghost predicate Unresolved(g: Graph, name: string, external: bool) {
    NoTarget(g, name) && if external && AtLabel(name) then name !in g.externals else NoGenrule(g, name)
  }

  lemma LabelWalks(g: Graph, name: string, external: bool, e: Entity)
    ensures Need(e) in D.LabelRequest(g, name, external) <==> e.T? && TargetNamed(g, name, e.target)
    ensures Refuse in D.LabelRequest(g, name, external) <==> Unresolved(g, name, external)
  {}

  lemma {:induction false} LabelsWalk(g: Graph, names: seq<string>, external: bool, e: Entity)
    ensures Need(e) in D.LabelRequests(g, names, external) <==> e.T? && exists name :: name in names && TargetNamed(g, name, e.target)
    ensures Refuse in D.LabelRequests(g, names, external) <==> exists name :: name in names && Unresolved(g, name, external)
  {
    hide TargetNamed, Unresolved, D.LabelRequest;
    if names != [] {
      LabelWalks(g, names[0], external, e);
      LabelsWalk(g, names[1..], external, e);
      assert names == [names[0]] + names[1..];
    }
  }

  lemma GeneratedDep(g: Graph, name: string, e: Entity)
    ensures Need(e) in D.DepGenruleRequest(g, name) <==> e.G? && !AtLabel(name) && GenruleNamed(g, name, e.genrule)
  {}

  lemma {:induction false} GeneratedDeps(g: Graph, names: seq<string>, e: Entity)
    ensures Need(e) in D.DepGenruleRequests(g, names) <==>
              e.G? && exists name :: name in names && !AtLabel(name) && GenruleNamed(g, name, e.genrule)
    ensures Refuse !in D.DepGenruleRequests(g, names)
  {
    hide GenruleNamed, D.DepGenruleRequest, AtLabel;
    if names != [] {
      GeneratedDep(g, names[0], e);
      GeneratedDeps(g, names[1..], e);
      assert names == [names[0]] + names[1..];
    }
  }

  /** A run input that names a stage. */
  ghost predicate StageInput(g: Graph, item: Item, e: Entity) {
    item.StageDir? && e.S? && StageNamed(g, item.name, e.stage)
  }

  ghost predicate BadInput(g: Graph, item: Item) {
    item.BadTargetFile? || item.BadStageDir? || (item.StageDir? && NoStage(g, item.name))
  }

  lemma RunInputAsks(g: Graph, item: Item, e: Entity)
    ensures Need(e) in RunInputEdge(g, item) <==> Produces(g, item, e) || StageInput(g, item, e)
    ensures Refuse in RunInputEdge(g, item) <==> BadInput(g, item)
  {
    hide ItemRequests, Produces;
    ItemAsks(g, item, None, e);
    ItemOfStage(g, item, e);
  }

  lemma {:induction false} RunInputsAsk(g: Graph, items: seq<Item>, e: Entity)
    ensures Need(e) in RunInputEdges(g, items) <==> exists item :: item in items && (Produces(g, item, e) || StageInput(g, item, e))
    ensures Refuse in RunInputEdges(g, items) <==> exists item :: item in items && BadInput(g, item)
  {
    hide Produces, StageInput, BadInput, RunInputEdge;
    if items != [] {
      RunInputAsks(g, items[0], e);
      RunInputsAsk(g, items[1..], e);
      assert items == [items[0]] + items[1..];
    }
  }

  lemma ItemOfStage(g: Graph, item: Item, e: Entity)
    ensures item.StageDir? || item.BadStageDir? ==> !Produces(g, item, e)
  {}

  /** Through a stage that a run input names, its sources are needed as well. */
  ghost predicate StagedProduces(g: Graph, item: Item, e: Entity) {
    item.StageDir? && exists s: nat :: StageNamed(g, item.name, s) && SomeProduces(g, g.stages[s].srcs, e)
  }

  ghost predicate StagedBad(g: Graph, item: Item) {
    item.StageDir? && exists s: nat :: StageNamed(g, item.name, s) && BadTargetFile in g.stages[s].srcs
  }

  lemma {:induction false} RunInputsNeed(g: Graph, items: seq<Item>, e: Entity)
    ensures Need(e) in D.RunInputRequests(g, items) <==>
              exists item :: item in items && (Produces(g, item, e) || StageInput(g, item, e) || StagedProduces(g, item, e))
    ensures Refuse in D.RunInputRequests(g, items) <==> exists item :: item in items && (BadInput(g, item) || StagedBad(g, item))
  {
    if items != [] {
      RunInputNeeds(g, items[0], e);
      RunInputsNeed(g, items[1..], e);
      hide Produces, StageInput, StagedProduces, BadInput, StagedBad, D.RunInputRequest;
      assert items == [items[0]] + items[1..];
    }
  }

  lemma RunInputNeeds(g: Graph, item: Item, e: Entity)
    ensures Need(e) in D.RunInputRequest(g, item) <==> Produces(g, item, e) || StageInput(g, item, e) || StagedProduces(g, item, e)
    ensures Refuse in D.RunInputRequest(g, item) <==> BadInput(g, item) || StagedBad(g, item)
  {
    hide ItemRequests, ListRequests, Produces, SomeProduces;
    ItemAsks(g, item, None, e);
    ItemOfStage(g, item, e);
    if item.StageDir? && FindStage(g, item.name).Some? {
      SourcesAsk(g, g.stages[FindStage(g, item.name).value].srcs, e);
    }
  }

  lemma SourcesAsk(g: Graph, items: seq<Item>, e: Entity)
    ensures Need(e) in ListRequests(g, items, None) <==> SomeProduces(g, items, e)
    ensures Refuse in ListRequests(g, items, None) <==> BadTargetFile in items
  {
    hide ListRequests, Produces;
    ListAsks(g, items, None, e);
  }

  lemma TokensAsk(g: Graph, items: seq<Item>, e: Entity)
    ensures Need(e) in ListRequests(g, TokensOnly(items), None) <==> exists item :: item in items && item.TargetFile? && Produces(g, item, e)
    ensures Refuse in ListRequests(g, TokensOnly(items), None) <==> BadTargetFile in items
  {
    hide ListRequests, TokensOnly;
    SourcesAsk(g, TokensOnly(items), e);
    forall item ensures item in TokensOnly(items) <==> item in items && (item.TargetFile? || item.BadTargetFile?) {
      TokenItems(items, item);
    }
  }

  // ---- generated files that a target uses ----------------------------------------------------------

  /** A source with a role that is compiled. */
  ghost predicate CompiledKind(kind: SourceKind) {
    kind != ObjectFile && kind != HeaderFile && kind != Unknown
  }

  ghost predicate CompiledPath(t: Target, p: string) {
    exists i :: 0 <= i < |t.sources| && t.sources[i].path == p && CompiledKind(t.sources[i].kind)
  }

  ghost predicate SourcePath(t: Target, p: string) {
    exists i :: 0 <= i < |t.sources| && t.sources[i].path == p
  }

  /** The files a target reads, whoever makes them. */
  ghost predicate UsesPath(t: Target, p: string) {
    p in t.publicHeaders || p in t.privateHeaders || SourcePath(t, p) || Plain(p) in t.linkInputs || t.pch == Some(Plain(p))
  }

  /** Those that its compiles read. */
  ghost predicate CompilesPath(t: Target, p: string) {
    p in t.publicHeaders || p in t.privateHeaders || CompiledPath(t, p)
  }

  lemma {:induction false} PlainItems(items: seq<Item>, p: string)
    ensures p in PlainPaths(items) <==> Plain(p) in items
  {
    if items != [] {
      PlainItems(items[1..], p);
      assert items == [items[0]] + items[1..];
    }
  }

  lemma {:induction false} CompiledPathsAre(sources: seq<Source>, p: string)
    ensures p in PathsCompiled(sources) <==> exists i :: 0 <= i < |sources| && sources[i].path == p && CompiledKind(sources[i].kind)
  {
    if sources != [] {
      CompiledPathsAre(sources[1..], p);
      assert forall i :: 0 < i < |sources| ==> sources[i] == sources[1..][i - 1];
    }
  }

  lemma SourcePathsAre(t: Target, p: string)
    ensures p in SourcePaths(t) <==> SourcePath(t, p)
  {
    assert forall i :: 0 <= i < |t.sources| ==> SourcePaths(t)[i] == t.sources[i].path;
  }

  lemma ConsumesAre(t: Target, genrule: Genrule)
    ensures Consumes(t, genrule) <==> exists p :: p in genrule.outputs && UsesPath(t, p)
  {
    hide PlainPaths, SourcePaths, SourcePath;
    forall p ensures (p in PlainPaths(t.linkInputs) <==> Plain(p) in t.linkInputs) && (p in SourcePaths(t) <==> SourcePath(t, p)) {
      PlainItems(t.linkInputs, p);
      SourcePathsAre(t, p);
    }
  }

  lemma CompileConsumesAre(t: Target, genrule: Genrule)
    ensures CompileConsumes(t, genrule) <==> exists p :: p in genrule.outputs && CompilesPath(t, p)
  {
    hide PathsCompiled, CompiledPath;
    forall p ensures p in CompiledPaths(t) <==> CompiledPath(t, p) {
      CompiledPathsAre(t.sources, p);
      CompiledHere(t, p);
    }
  }

  lemma CompiledHere(t: Target, p: string)
    ensures CompiledPath(t, p) <==> exists i :: 0 <= i < |t.sources| && t.sources[i].path == p && CompiledKind(t.sources[i].kind)
  {}

  ghost predicate UsesOutput(g: Graph, t: Target, e: Entity) {
    e.G? && e.genrule < |g.genrules| && exists p :: p in g.genrules[e.genrule].outputs && UsesPath(t, p)
  }

  ghost predicate CompilesOutput(g: Graph, t: Target, e: Entity) {
    e.G? && e.genrule < |g.genrules| && exists p :: p in g.genrules[e.genrule].outputs && CompilesPath(t, p)
  }

  lemma ConsumedAre(g: Graph, t: Target, e: Entity)
    ensures Need(e) in ConsumedRequests(g, t) <==> UsesOutput(g, t, e)
    ensures Refuse !in ConsumedRequests(g, t)
  {
    hide Consumes, UsesPath;
    if e.G? && e.genrule < |g.genrules| {
      ConsumesAre(t, g.genrules[e.genrule]);
    }
  }

  lemma CompileConsumedAre(g: Graph, t: Target, e: Entity)
    ensures Need(e) in CompileConsumedRequests(g, t) <==> CompilesOutput(g, t, e)
    ensures Refuse !in CompileConsumedRequests(g, t)
  {
    hide CompileConsumes, CompilesPath;
    if e.G? && e.genrule < |g.genrules| {
      CompileConsumesAre(t, g.genrules[e.genrule]);
    }
  }
}
