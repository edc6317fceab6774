/** Files, fingerprints, input lists and action keys. */
module ActionKeys {
  import opened Wrappers

  type Path = string

  /** File bytes; a depfile is told apart by the input list it parses to. */
  datatype Content = Data(bytes: string) | Deps(paths: seq<Path>)

  /** `stamp` stands for size and modification time: every write leaves a new one. */
  datatype File = File(content: Content, stamp: nat)

  type Disk = map<Path, File>

  /** What a process can see: the bytes of each existing file. */
  type View = map<Path, Content>

  /** What a successful run leaves: its output files, and the input files it reports. */
  datatype Produced = Produced(files: View, used: seq<Path>)

  /** `recipe` stands for kind, owner, argv, environment, tool policy and output identity. */
  datatype Action = Action(
    id: string,
    recipe: string,
    statics: seq<Path>,
    outputs: seq<Path>,
    depfile: Option<Path>,
    tool: View -> Option<Produced>)

  /** `before[i]` holds the actions that action `i` waits for, directly or through others. */
  datatype Plan = Plan(actions: seq<Action>, before: seq<set<nat>>, inBuildDir: Path -> bool)

  function ViewOf(disk: Disk): View {
    map p | p in disk :: disk[p].content
  }

  predicate AllExist(disk: Disk, paths: seq<Path>) {
    forall p :: p in paths ==> p in disk
  }

  predicate SameFile(a: Disk, b: Disk, p: Path) {
    (p in a <==> p in b) && (p in a ==> a[p] == b[p])
  }

  // ---- fingerprints ------------------------------------------------------------

  /** Build outputs are fingerprinted by stamp alone, other files by stamp and bytes. */
  datatype Digest = Missing(path: Path) | Seen(path: Path, stamp: nat, body: Option<Content>)

  datatype Key = Key(id: string, recipe: string, inputs: seq<Digest>, deps: seq<Digest>)

  function DigestOf(plan: Plan, disk: Disk, p: Path): Digest {
    if p !in disk then Missing(p)
    else Seen(p, disk[p].stamp, if plan.inBuildDir(p) then None else Some(disk[p].content))
  }

  function DigestsOf(plan: Plan, disk: Disk, paths: seq<Path>): (d: seq<Digest>)
    ensures |d| == |paths| && forall i :: 0 <= i < |paths| ==> d[i] == DigestOf(plan, disk, paths[i])
  {
    seq(|paths|, i requires 0 <= i < |paths| => DigestOf(plan, disk, paths[i]))
  }

  function PathsOf(digests: seq<Digest>): (r: seq<Path>)
    ensures |r| == |digests| && forall i :: 0 <= i < |r| ==> r[i] == digests[i].path
  {
    seq(|digests|, i requires 0 <= i < |digests| => digests[i].path)
  }

  type Memo = map<Path, Digest>

  ghost predicate MemoExact(plan: Plan, disk: Disk, memo: Memo) {
    forall p :: p in memo ==> memo[p] == DigestOf(plan, disk, p)
  }

  /** Fingerprint of one file through the per-build memo. */
  function Recall(plan: Plan, disk: Disk, memo: Memo, p: Path): Digest {
    if p in memo then memo[p] else DigestOf(plan, disk, p)
  }

  /** Fingerprints of a list through the memo, which keeps every answer it gave. */
  function HashList(plan: Plan, disk: Disk, memo: Memo, paths: seq<Path>): (seq<Digest>, Memo)
    decreases |paths|
  {
    if paths == [] then ([], memo)
    else
      var (digests, longer) := HashList(plan, disk, memo, paths[..|paths| - 1]);
      var d := Recall(plan, disk, longer, paths[|paths| - 1]);
      (digests + [d], longer[paths[|paths| - 1] := d])
  }

  /** As long as remembered files have not changed, the memo answers as the disk would. */
  lemma {:induction false} MemoAgreesWithDisk(plan: Plan, disk: Disk, memo: Memo, paths: seq<Path>)
    requires MemoExact(plan, disk, memo)
    ensures HashList(plan, disk, memo, paths).0 == DigestsOf(plan, disk, paths)
    ensures MemoExact(plan, disk, HashList(plan, disk, memo, paths).1)
    ensures forall p :: p in HashList(plan, disk, memo, paths).1 <==> p in memo || p in paths
    decreases |paths|
  {
    if paths != [] {
      MemoAgreesWithDisk(plan, disk, memo, paths[..|paths| - 1]);
      assert paths == paths[..|paths| - 1] + [paths[|paths| - 1]];
    }
  }

  // ---- input lists ---------------------------------------------------------------

  /** The items not in `dropped`, in order. */
  function Without(items: seq<Path>, dropped: seq<Path>): seq<Path> {
    if items == [] then []
    else
      var last := items[|items| - 1];
      Without(items[..|items| - 1], dropped) + if last in dropped then [] else [last]
  }

  lemma {:induction false} WithoutHas(items: seq<Path>, dropped: seq<Path>, p: Path)
    ensures p in Without(items, dropped) <==> p in items && p !in dropped
    decreases |items|
  {
    if items != [] {
      WithoutHas(items[..|items| - 1], dropped, p);
      assert items == items[..|items| - 1] + [items[|items| - 1]];
    }
  }

  /** Appends the items not yet in the list, one by one. */
  function PushNew(list: seq<Path>, items: seq<Path>): (r: seq<Path>)
    ensures forall p :: p in r <==> p in list || p in items
    decreases |items|
  {
    if items == [] then list
    else
      var front := PushNew(list, items[..|items| - 1]);
      if items[|items| - 1] in front then front else front + [items[|items| - 1]]
  }

  /** The input list before a run: declared inputs, then what the depfile on disk adds. */
  function PreparedInputs(statics: seq<Path>, deps: seq<Path>): seq<Path> {
    PushNew(statics, deps)
  }

  /** The input list after a run: the prepared list without the old depfile inputs, then the new ones. */
  function RefreshedInputs(prepared: seq<Path>, oldDeps: seq<Path>, newDeps: seq<Path>): seq<Path> {
    PushNew(Without(prepared, oldDeps), newDeps)
  }

  /** The depfile inputs on disk, without repetition. */
  function DepList(disk: Disk, a: Action): seq<Path> {
    if a.depfile.Some? && a.depfile.value in disk && disk[a.depfile.value].content.Deps?
    then PushNew([], disk[a.depfile.value].content.paths)
    else []
  }

  /** The key a prepare computes on this disk. */
  function FreshKey(plan: Plan, disk: Disk, a: Action): Key {
    Key(a.id, a.recipe,
        DigestsOf(plan, disk, PreparedInputs(a.statics, DepList(disk, a))),
        DigestsOf(plan, disk, DepList(disk, a)))
  }

  // ---- what a key tells --------------------------------------------------------------

  predicate SameBytes(a: Disk, b: Disk, p: Path) {
    (p in a <==> p in b) && (p in a ==> a[p].content == b[p].content)
  }

  predicate SameStamp(a: Disk, b: Disk, p: Path) {
    (p in a <==> p in b) && (p in a ==> a[p].stamp == b[p].stamp)
  }

  /** A digest tells whether the file exists and its stamp; of a file outside the build directory it tells the bytes,
      whatever the stamps; of one inside, nothing but the stamp counts. */
  lemma DigestTells(plan: Plan, a: Disk, b: Disk, p: Path)
    ensures DigestOf(plan, a, p) == DigestOf(plan, b, p) ==> SameStamp(a, b, p)
    ensures DigestOf(plan, a, p) == DigestOf(plan, b, p) && !plan.inBuildDir(p) ==> SameBytes(a, b, p)
    ensures SameStamp(a, b, p) && plan.inBuildDir(p) ==> DigestOf(plan, a, p) == DigestOf(plan, b, p)
    ensures SameStamp(a, b, p) && SameBytes(a, b, p) ==> DigestOf(plan, a, p) == DigestOf(plan, b, p)
  {}

  /** Equal keys are of one action: its id and recipe, the inputs and depfile inputs in one order, and the files. */
  lemma KeyTells(plan: Plan, a: Action, disk: Disk, b: Action, disk2: Disk)
    requires FreshKey(plan, disk, a) == FreshKey(plan, disk2, b)
    ensures a.id == b.id && a.recipe == b.recipe && DepList(disk, a) == DepList(disk2, b)
    ensures PreparedInputs(a.statics, DepList(disk, a)) == PreparedInputs(b.statics, DepList(disk2, b))
    ensures forall p :: p in a.statics || p in DepList(disk, a) ==>
              SameStamp(disk, disk2, p) && (!plan.inBuildDir(p) ==> SameBytes(disk, disk2, p))
  {
    hide DigestOf, DepList, PreparedInputs, SameStamp, SameBytes;
    var inputs, deps := PreparedInputs(a.statics, DepList(disk, a)), DepList(disk, a);
    var inputs2, deps2 := PreparedInputs(b.statics, DepList(disk2, b)), DepList(disk2, b);
    SameDigestsSamePaths(plan, disk, inputs, disk2, inputs2);
    SameDigestsSamePaths(plan, disk, deps, disk2, deps2);
    forall p | p in a.statics || p in deps
      ensures SameStamp(disk, disk2, p) && (!plan.inBuildDir(p) ==> SameBytes(disk, disk2, p))
    {
      PreparedHas(a.statics, deps, p);
      DigestTells(plan, disk, disk2, p);
    }
  }

  lemma PreparedHas(statics: seq<Path>, deps: seq<Path>, p: Path)
    ensures p in PreparedInputs(statics, deps) <==> p in statics || p in deps
  {}

  lemma DigestPath(plan: Plan, disk: Disk, p: Path)
    ensures DigestOf(plan, disk, p).path == p
  {}

  lemma SameDigestsSamePaths(plan: Plan, a: Disk, paths: seq<Path>, b: Disk, paths2: seq<Path>)
    requires DigestsOf(plan, a, paths) == DigestsOf(plan, b, paths2)
    ensures paths == paths2 && forall p :: p in paths ==> DigestOf(plan, a, p) == DigestOf(plan, b, p)
  {
    hide DigestOf;
    var x, y := DigestsOf(plan, a, paths), DigestsOf(plan, b, paths2);
    assert |paths| == |paths2|;
    forall i | 0 <= i < |paths| ensures paths[i] == paths2[i] && DigestOf(plan, a, paths[i]) == DigestOf(plan, b, paths[i]) {
      assert x[i] == y[i];
      DigestPath(plan, a, paths[i]);
      DigestPath(plan, b, paths2[i]);
    }
  }
}
