/** The declared graph: targets, generated actions and stages, and what each of them names. */
module BuildGraph {
  import opened Wrappers

  /** A list item as its placeholder parser sees it. */
  datatype Item =
    | TargetFile(name: string)
    | StageDir(name: string)
    | Plain(path: string)
    | BadTargetFile
    | BadStageDir

  datatype SourceKind = CSource | CxxSource | CxxModule | AsmSource | ProviderUnit | ObjectFile | HeaderFile | Unknown

  /** A source with the role the suffix table, or a language provider, gives it. */
  datatype Source = Source(path: string, kind: SourceKind)

  datatype TargetKind =
    | Exe | Test | StaticLib | SharedLib | Generic | ObjectLibrary
    | RunTarget | GroupTarget | InterfaceTarget | ImportedTarget | ToolTarget

  datatype Target = Target(
    name: string,
    kind: TargetKind,
    sources: seq<Source>,
    objects: seq<string>,
    deps: seq<string>,
    privateDeps: seq<string>,
    publicHeaders: seq<string>,
    privateHeaders: seq<string>,
    linkInputs: seq<Item>,
    compileUsage: seq<Item>,
    linkUsage: seq<Item>,
    runInputs: seq<Item>,
    runCommand: seq<Item>,
    pch: Option<Item>,
    modules: bool,
    unity: bool,
    unityBatchSize: int,
    consumerContext: bool)
  {
    /** Kinds that own neither compile nor final actions. */
    predicate IsPassive() {
      kind in {RunTarget, GroupTarget, InterfaceTarget, ImportedTarget, ToolTarget}
    }
  }

  datatype Genrule = Genrule(name: string, tool: Item, inputs: seq<Item>, args: seq<Item>, outputs: seq<string>, configHeader: bool)

  datatype StageRule = StageRule(name: string, srcs: seq<Item>)

  /** `externals` are the package dependencies that resolve outside this graph. */
  datatype Graph = Graph(targets: seq<Target>, genrules: seq<Genrule>, stages: seq<StageRule>, externals: set<string>)

  datatype Entity = T(target: nat) | G(genrule: nat) | S(stage: nat)

  predicate Known(g: Graph, e: Entity) {
    match e
    case T(t) => t < |g.targets|
    case G(r) => r < |g.genrules|
    case S(s) => s < |g.stages|
  }

  // ---- what reading the declarations guarantees -----------------------------------

  /** A label declared in a package is written from the root, so none is an external one. */
  predicate FromRoot(name: string) {
    |name| >= 2 && name[0] == '/' && name[1] == '/'
  }

  /** A precompiled header is a package-relative path, so it is no token; only programs, tests and static and
      shared libraries list objects; only object libraries are compiled in a consumer's context; only a run
      target runs; kinds without actions of their own have no sources. */
  predicate TargetReceived(t: Target) {
    && FromRoot(t.name)
    && (t.sources != [] ==> !t.IsPassive())
    && (t.pch.Some? ==> t.pch.value.Plain?)
    && (t.objects != [] ==> t.kind in {Exe, Test, StaticLib, SharedLib})
    && (t.consumerContext ==> t.kind == ObjectLibrary)
    && (t.runCommand != [] || t.runInputs != [] ==> t.kind == RunTarget)
  }

  predicate IsObjectLibrary(g: Graph, name: string) {
    FindTarget(g, name).Some? && g.targets[FindTarget(g, name).value].kind == ObjectLibrary
  }

  /** What a target lists as objects are object libraries of the graph, each listed once. */
  predicate ObjectsReceived(g: Graph, t: Target) {
    && (forall k :: 0 <= k < |t.objects| ==> IsObjectLibrary(g, t.objects[k]))
    && (forall j, k :: 0 <= j < k < |t.objects| ==> t.objects[j] != t.objects[k])
  }

  predicate Received(g: Graph) {
    && (forall t :: 0 <= t < |g.targets| ==> TargetReceived(g.targets[t]) && ObjectsReceived(g, g.targets[t]))
    && (forall r :: 0 <= r < |g.genrules| ==> FromRoot(g.genrules[r].name))
  }

  // ---- lookups: first match ---------------------------------------------------

  function FirstMatch(bits: seq<bool>): (r: Option<nat>)
    ensures r.None? <==> forall i :: 0 <= i < |bits| ==> !bits[i]
    ensures r.Some? ==> r.value < |bits| && bits[r.value] && forall i :: 0 <= i < r.value ==> !bits[i]
  {
    if bits == [] then None
    else if bits[0] then Some(0)
    else
      match FirstMatch(bits[1..])
      case None => None
      case Some(i) => Some(i + 1)
  }

  function FindTarget(g: Graph, name: string): (r: Option<nat>)
    ensures r.Some? ==> r.value < |g.targets| && g.targets[r.value].name == name
    ensures r.Some? ==> forall i :: 0 <= i < r.value ==> g.targets[i].name != name
    ensures r.None? ==> forall i :: 0 <= i < |g.targets| ==> g.targets[i].name != name
  {
    var bits := seq(|g.targets|, i requires 0 <= i < |g.targets| => g.targets[i].name == name);
    assert forall i :: 0 <= i < |g.targets| ==> bits[i] == (g.targets[i].name == name);
    FirstMatch(bits)
  }

  function FindGenrule(g: Graph, name: string): (r: Option<nat>)
    ensures r.Some? ==> r.value < |g.genrules| && g.genrules[r.value].name == name
    ensures r.Some? ==> forall i :: 0 <= i < r.value ==> g.genrules[i].name != name
    ensures r.None? ==> forall i :: 0 <= i < |g.genrules| ==> g.genrules[i].name != name
  {
    var bits := seq(|g.genrules|, i requires 0 <= i < |g.genrules| => g.genrules[i].name == name);
    assert forall i :: 0 <= i < |g.genrules| ==> bits[i] == (g.genrules[i].name == name);
    FirstMatch(bits)
  }

  function FindStage(g: Graph, name: string): (r: Option<nat>)
    ensures r.Some? ==> r.value < |g.stages| && g.stages[r.value].name == name
    ensures r.Some? ==> forall i :: 0 <= i < r.value ==> g.stages[i].name != name
    ensures r.None? ==> forall i :: 0 <= i < |g.stages| ==> g.stages[i].name != name
  {
    var bits := seq(|g.stages|, i requires 0 <= i < |g.stages| => g.stages[i].name == name);
    assert forall i :: 0 <= i < |g.stages| ==> bits[i] == (g.stages[i].name == name);
    FirstMatch(bits)
  }

  function FindOutputOwner(g: Graph, path: string): (r: Option<nat>)
    ensures r.Some? ==> r.value < |g.genrules| && path in g.genrules[r.value].outputs
    ensures r.Some? ==> forall i :: 0 <= i < r.value ==> path !in g.genrules[i].outputs
    ensures r.None? ==> forall i :: 0 <= i < |g.genrules| ==> path !in g.genrules[i].outputs
  {
    var bits := seq(|g.genrules|, i requires 0 <= i < |g.genrules| => path in g.genrules[i].outputs);
    assert forall i :: 0 <= i < |g.genrules| ==> bits[i] == (path in g.genrules[i].outputs);
    FirstMatch(bits)
  }

  predicate External(name: string) {
    name != "" && name[0] == '@'
  }

  // ---- source classification ---------------------------------------------------

  predicate RequiresCompile(source: Source) {
    source.kind in {CSource, CxxSource, CxxModule, AsmSource, ProviderUnit}
  }

  // ---- who produces an item -----------------------------------------------------

  /** A step of a scan: something it needs, or the error it stops with. */
  datatype Request = Need(entity: Entity) | Refuse

  /** The producer of a target-file token or of a generated path; `self` never produces for itself. */
  function ItemRequests(g: Graph, item: Item, self: Option<nat>): (r: seq<Request>)
    ensures forall q :: q in r && q.Need? ==> Known(g, q.entity)
  {
    match item
    case BadTargetFile => [Refuse]
    case TargetFile(name) =>
      (match FindTarget(g, name)
       case Some(t) => [Need(T(t))]
       case None =>
         match FindGenrule(g, name)
         case Some(r) => [Need(G(r))]
         case None => [])
    case Plain(path) =>
      (match FindOutputOwner(g, path)
       case Some(r) => if self == Some(r) then [] else [Need(G(r))]
       case None => [])
    case StageDir(_) => []
    case BadStageDir => []
  }

  function ListRequests(g: Graph, items: seq<Item>, self: Option<nat>): (r: seq<Request>)
    ensures forall q :: q in r && q.Need? ==> Known(g, q.entity)
  {
    if items == [] then [] else ItemRequests(g, items[0], self) + ListRequests(g, items[1..], self)
  }

  /** Scans that look at target-file tokens only. */
  function TokensOnly(items: seq<Item>): seq<Item> {
    if items == [] then []
    else (if items[0].TargetFile? || items[0].BadTargetFile? then [items[0]] else []) + TokensOnly(items[1..])
  }

  // ---- which generated actions a target consumes ---------------------------------

  predicate OutputIn(genrule: Genrule, paths: seq<string>) {
    exists p :: p in genrule.outputs && p in paths
  }

  function SourcePaths(t: Target): seq<string> {
    seq(|t.sources|, i requires 0 <= i < |t.sources| => t.sources[i].path)
  }

  function CompiledPaths(t: Target): seq<string> {
    PathsCompiled(t.sources)
  }

  function PathsCompiled(sources: seq<Source>): seq<string> {
    if sources == [] then []
    else (if RequiresCompile(sources[0]) then [sources[0].path] else []) + PathsCompiled(sources[1..])
  }

  function PlainPaths(items: seq<Item>): seq<string> {
    if items == [] then []
    else (if items[0].Plain? then [items[0].path] else []) + PlainPaths(items[1..])
  }

  predicate Consumes(t: Target, genrule: Genrule) {
    || (t.pch.Some? && t.pch.value.Plain? && t.pch.value.path in genrule.outputs)
    || OutputIn(genrule, SourcePaths(t))
    || OutputIn(genrule, t.publicHeaders)
    || OutputIn(genrule, t.privateHeaders)
    || OutputIn(genrule, PlainPaths(t.linkInputs))
  }

  predicate CompileConsumes(t: Target, genrule: Genrule) {
    || OutputIn(genrule, t.publicHeaders)
    || OutputIn(genrule, t.privateHeaders)
    || OutputIn(genrule, CompiledPaths(t))
  }

  function GenrulesBelow(g: Graph, wanted: Genrule -> bool, n: nat): (r: seq<Request>)
    requires n <= |g.genrules|
    ensures forall i: nat :: Need(G(i)) in r <==> i < n && wanted(g.genrules[i])
    ensures forall q :: q in r ==> q.Need? && q.entity.G? && Known(g, q.entity)
  {
    if n == 0 then []
    else GenrulesBelow(g, wanted, n - 1) + (if wanted(g.genrules[n - 1]) then [Need(G(n - 1))] else [])
  }

  function ConsumedRequests(g: Graph, t: Target): (r: seq<Request>)
    ensures forall q :: q in r && q.Need? ==> Known(g, q.entity)
  {
    GenrulesBelow(g, rule => Consumes(t, rule), |g.genrules|)
  }

  function CompileConsumedRequests(g: Graph, t: Target): (r: seq<Request>)
    ensures forall q :: q in r && q.Need? ==> Known(g, q.entity)
  {
    GenrulesBelow(g, rule => CompileConsumes(t, rule), |g.genrules|)
  }
}
