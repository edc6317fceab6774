/** The local content-addressed cache of action outputs. */
module ActionCache {
  import opened Wrappers
  import opened ActionKeys

  /** `external` tells whether the command talks to a device; `tool` is the resolved tool's fingerprint. */
  datatype Spec = Spec(
    id: string,
    kind: string,
    argv: seq<string>,
    env: seq<string>,
    tool: Option<string>,
    external: bool,
    inputs: seq<Path>,
    outputs: seq<Path>,
    depfile: Option<Path>,
    declared: bool)

  datatype Ident = Ident(id: string, kind: string, argv: seq<string>, tool: string, env: seq<string>)

  datatype InputDigest = InputDigest(path: Path, content: Option<Content>)

  /** Both keys have this shape: `base` digests the declared inputs, `key` those and the depfile's. */
  datatype CacheKey = CacheKey(ident: Ident, inputs: seq<InputDigest>, outputs: seq<Path>)

  datatype Decision = Refused | Eligible(key: CacheKey, base: CacheKey)

  /** A digest is injective in the bytes, so it is the bytes. */
  datatype Manifest = Manifest(
    key: CacheKey,
    depfile: Option<Path>,
    depDigest: Option<Content>,
    outputs: seq<Path>,
    digests: seq<Content>)

  datatype Entry = Entry(blobs: map<nat, Content>, depBlob: Option<Content>, manifest: Option<Manifest>)

  type Entries = map<CacheKey, Entry>
  type Aliases = map<CacheKey, CacheKey>

  datatype Outcome = Hit(key: CacheKey) | Miss | Failure

  function EntryAt(entries: Entries, k: CacheKey): Entry {
    if k in entries then entries[k] else Entry(map[], None, None)
  }

  // ---- keys ------------------------------------------------------------------------

  predicate IsEligible(spec: Spec) {
    && spec.declared
    && (spec.kind == "compile" || spec.kind == "generate")
    && spec.outputs != []
    && !spec.external
    && spec.argv != [] && spec.tool.Some?
  }

  function IdentOf(spec: Spec): Ident {
    Ident(spec.id, spec.kind, spec.argv, if spec.tool.Some? then spec.tool.value else "", spec.env)
  }

  function DigestFiles(disk: View, paths: seq<Path>): (r: seq<InputDigest>)
    ensures |r| == |paths|
    ensures forall i :: 0 <= i < |r| ==> r[i] == DigestFile(disk, paths[i])
  {
    seq(|paths|, i requires 0 <= i < |paths| => DigestFile(disk, paths[i]))
  }

  function DigestFile(disk: View, p: Path): InputDigest {
    InputDigest(p, if p in disk then Some(disk[p]) else None)
  }

  /** What the depfile on disk names. */
  function Tokens(disk: View, spec: Spec): seq<Path> {
    if spec.depfile.Some? && spec.depfile.value in disk && disk[spec.depfile.value].Deps?
    then disk[spec.depfile.value].paths else []
  }

  /** Declared inputs, then depfile inputs, each once. */
  function Effective(disk: View, spec: Spec): seq<Path> {
    PushNew(PushNew([], spec.inputs), Tokens(disk, spec))
  }

  function KeyOf(disk: View, spec: Spec): CacheKey {
    CacheKey(IdentOf(spec), DigestFiles(disk, Effective(disk, spec)), spec.outputs)
  }

  function BaseOf(disk: View, spec: Spec): CacheKey {
    CacheKey(IdentOf(spec), DigestFiles(disk, spec.inputs), spec.outputs)
  }

  predicate DepsExist(disk: View, spec: Spec) {
    forall p :: p in Tokens(disk, spec) ==> p in disk
  }

  /** Nothing when the depfile names a file that is gone. */
  function Evaluate(disk: View, spec: Spec): Option<Decision> {
    if !IsEligible(spec) then Some(Refused)
    else if !DepsExist(disk, spec) then None
    else Some(Eligible(KeyOf(disk, spec), BaseOf(disk, spec)))
  }

  // ---- entries ---------------------------------------------------------------------

  predicate Named(m: Manifest, k: CacheKey, spec: Spec) {
    m.key == k && m.outputs == spec.outputs && |m.digests| == |spec.outputs|
  }

  predicate BlobsMatch(e: Entry, digests: seq<Content>, n: nat) {
    n <= |digests| && forall i: nat :: i < n ==> i in e.blobs && e.blobs[i] == digests[i]
  }

  /** The manifest names this key and these outputs, and every blob has the digest it lists. */
  predicate Whole(e: Entry, k: CacheKey, spec: Spec) {
    && e.manifest.Some?
    && Named(e.manifest.value, k, spec)
    && (e.manifest.value.depfile.Some? ==> e.depBlob.Some? && e.depBlob == e.manifest.value.depDigest)
    && BlobsMatch(e, e.manifest.value.digests, |spec.outputs|)
  }

  /** Whole, and stored with no depfile or with the one asked for. */
  predicate Intact(e: Entry, k: CacheKey, spec: Spec) {
    Whole(e, k, spec) && (e.manifest.value.depfile.Some? ==> e.manifest.value.depfile == spec.depfile)
  }

  /** The entry `restore` looks at: by key, otherwise through the alias of the base key. */
  function Chosen(entries: Entries, aliases: Aliases, d: Decision): Option<CacheKey>
    requires d.Eligible?
  {
    if EntryAt(entries, d.key).manifest.Some? then Some(d.key)
    else if d.base in aliases && EntryAt(entries, aliases[d.base]).manifest.Some? then Some(aliases[d.base])
    else None
  }

  /** The entry names the depfile asked for and holds what the disk does. */
  predicate DepfileKept(disk: View, e: Entry, spec: Spec) {
    && e.manifest.Some? && e.manifest.value.depfile == spec.depfile
    && (spec.depfile.Some? ==> spec.depfile.value in disk && e.depBlob == Some(disk[spec.depfile.value]))
  }

  /** Copies the first `n` blobs over their outputs. */
  function CopyOut(disk: View, outputs: seq<Path>, blobs: map<nat, Content>, n: nat): View
    requires n <= |outputs| && forall i: nat :: i < n ==> i in blobs
  {
    if n == 0 then disk else CopyOut(disk, outputs, blobs, n - 1)[outputs[n - 1] := blobs[n - 1]]
  }

  /** The depfile an alias hit brings back before the key is computed again. */
  function WithDepfile(disk: View, e: Entry): View
    requires e.manifest.Some? && (e.manifest.value.depfile.Some? ==> e.depBlob.Some?)
  {
    if e.manifest.value.depfile.Some? then disk[e.manifest.value.depfile.value := e.depBlob.value] else disk
  }

  function RestoreOutcome(disk: View, entries: Entries, aliases: Aliases, spec: Spec, d: Decision): (View, Outcome) {
    if d.Refused? then (disk, Miss)
    else
      var chosen := Chosen(entries, aliases, d);
      if chosen.None? then (disk, Miss)
      else
        var k := chosen.value;
        var e := EntryAt(entries, k);
        if !Intact(e, k, spec) then (disk, Miss)
        else if k != d.key && e.manifest.value.depfile.Some? then
          var disk2 := WithDepfile(disk, e);
          var again := Evaluate(disk2, spec);
          if again.None? then (disk2, Failure)
          else if again.value.Refused? || again.value.key != k then (disk2, Miss)
          else (CopyOut(disk2, spec.outputs, e.blobs, |spec.outputs|), Hit(k))
        else (CopyOut(disk, spec.outputs, e.blobs, |spec.outputs|), Hit(k))
  }

  // ---- what the cache promises ------------------------------------------------------

  /** A finished run whose outputs were offered to the cache. */
  datatype Run = Run(spec: Spec, view: View)

  ghost predicate CameFrom(k: CacheKey, m: Manifest, r: Run) {
    && KeyOf(r.view, r.spec) == k && m.key == k
    && m.outputs == r.spec.outputs && m.depfile == r.spec.depfile
    && |m.digests| == |m.outputs|
    && (m.depfile.Some? ==> m.depfile.value in r.view && m.depDigest == Some(r.view[m.depfile.value]))
    && forall i :: 0 <= i < |m.outputs| ==> m.outputs[i] in r.view && m.digests[i] == r.view[m.outputs[i]]
  }

  ghost predicate EntryOk(log: set<Run>, k: CacheKey, e: Entry) {
    e.manifest.Some? ==> exists r :: r in log && CameFrom(k, e.manifest.value, r)
  }

  ghost predicate AliasOk(log: set<Run>, b: CacheKey, k: CacheKey) {
    exists r :: r in log && BaseOf(r.view, r.spec) == b && KeyOf(r.view, r.spec) == k
  }

  /** Every manifest is that of one finished run with its key; every alias joins the two keys of one run. */
  ghost predicate Sound(entries: Entries, aliases: Aliases, log: set<Run>) {
    && (forall k :: k in entries ==> EntryOk(log, k, entries[k]))
    && (forall b :: b in aliases ==> AliasOk(log, b, aliases[b]))
    && (forall r :: r in log ==> IsEligible(r.spec))
  }

  /** One action identity has one depfile, in every run. */
  ghost predicate Uniform(log: set<Run>, depfileOf: Ident -> Option<Path>) {
    forall r :: r in log ==> r.spec.depfile == depfileOf(IdentOf(r.spec))
  }

  lemma {:induction false} CopiedOut(disk: View, outputs: seq<Path>, blobs: map<nat, Content>, n: nat, v: View)
    requires n <= |outputs| && forall i: nat :: i < n ==> i in blobs && outputs[i] in v && blobs[i] == v[outputs[i]]
    ensures forall i: nat :: i < n ==> outputs[i] in CopyOut(disk, outputs, blobs, n) && CopyOut(disk, outputs, blobs, n)[outputs[i]] == v[outputs[i]]
  {
    if n > 0 {
      CopiedOut(disk, outputs, blobs, n - 1, v);
    }
  }

  /** A hit leaves in every output the bytes that one earlier run with the hit's key left there. */
  lemma HitRestoresARun(disk: View, entries: Entries, aliases: Aliases, log: set<Run>, spec: Spec, d: Decision)
    requires Sound(entries, aliases, log) && RestoreOutcome(disk, entries, aliases, spec, d).1.Hit?
    ensures var (after, outcome) := RestoreOutcome(disk, entries, aliases, spec, d);
            exists r :: r in log && KeyOf(r.view, r.spec) == outcome.key && r.spec.outputs == spec.outputs
                     && forall p :: p in spec.outputs ==> p in r.view && p in after && after[p] == r.view[p]
  {
    hide KeyOf, BaseOf, Evaluate, AliasOk, IsEligible, CopyOut;
    var (after, outcome) := RestoreOutcome(disk, entries, aliases, spec, d);
    var k := outcome.key;
    var e := EntryAt(entries, k);
    assert k in entries && EntryOk(log, k, entries[k]);
    var r :| r in log && CameFrom(k, e.manifest.value, r);
    CopiedOut(if k != d.key then WithDepfile(disk, e) else disk, spec.outputs, e.blobs, |spec.outputs|, r.view);
  }

  /** The hit's key is the key of the files now, unless an alias led to an entry stored without a depfile. */
  lemma HitKeyIsCurrent(disk: View, entries: Entries, aliases: Aliases, spec: Spec, d: Decision)
    requires Evaluate(disk, spec) == Some(d) && RestoreOutcome(disk, entries, aliases, spec, d).1.Hit?
    ensures var k := RestoreOutcome(disk, entries, aliases, spec, d).1.key;
            var e := EntryAt(entries, k);
            && e.manifest.Some? && Intact(e, k, spec)
            && var seen := if k == d.key then disk else WithDepfile(disk, e);
               k == KeyOf(seen, spec) <==> k == d.key || e.manifest.value.depfile.Some?
  {
    hide KeyOf, BaseOf, DepsExist;
  }

  /** Where one identity always has one depfile, that exception cannot occur. */
  lemma UniformHitsAreCurrent(disk: View, entries: Entries, aliases: Aliases, log: set<Run>,
                                                 spec: Spec, d: Decision, depfileOf: Ident -> Option<Path>)
    requires Sound(entries, aliases, log) && Uniform(log, depfileOf) && spec.depfile == depfileOf(IdentOf(spec))
    requires Evaluate(disk, spec) == Some(d) && RestoreOutcome(disk, entries, aliases, spec, d).1.Hit?
    ensures var k := RestoreOutcome(disk, entries, aliases, spec, d).1.key;
            var e := EntryAt(entries, k);
            && e.manifest.Some? && Intact(e, k, spec)
            && k == KeyOf(if k == d.key then disk else WithDepfile(disk, e), spec)
  {
    hide DepsExist, Effective, DigestFiles, CopyOut;
    HitKeyIsCurrent(disk, entries, aliases, spec, d);
    var k := RestoreOutcome(disk, entries, aliases, spec, d).1.key;
    var e := EntryAt(entries, k);
    if k != d.key && e.manifest.value.depfile.None? {
      assert EntryOk(log, k, entries[k]) && AliasOk(log, d.base, k);
      var r1 :| r1 in log && CameFrom(k, e.manifest.value, r1);
      var r2 :| r2 in log && BaseOf(r2.view, r2.spec) == d.base && KeyOf(r2.view, r2.spec) == k;
      BaseFixesKey(disk, spec, r2.view, r2.spec);
      assert false;
    }
  }

  /** Without a depfile the base key determines the key. */
  lemma BaseFixesKey(a: View, spec: Spec, b: View, spec2: Spec)
    requires spec.depfile.None? && spec2.depfile.None? && BaseOf(a, spec) == BaseOf(b, spec2)
    ensures KeyOf(a, spec) == KeyOf(b, spec2)
  {
    hide IdentOf;
    var x, y := DigestFiles(a, spec.inputs), DigestFiles(b, spec2.inputs);
    assert x == y;
    forall i | 0 <= i < |spec.inputs| ensures spec.inputs[i] == spec2.inputs[i] && DigestFile(a, spec.inputs[i]) == DigestFile(b, spec.inputs[i]) {
      assert x[i] == y[i];
    }
    assert spec.inputs == spec2.inputs;
    var paths := PushNew([], spec.inputs);
    assert Effective(a, spec) == paths && Effective(b, spec2) == paths;
    forall i | 0 <= i < |paths| ensures DigestFile(a, paths[i]) == DigestFile(b, paths[i]) {
      assert paths[i] in spec.inputs;
    }
  }

  /** A miss that is no failure changes no output; a depfile may have been brought back. */
  lemma MissChangesNoOutput(disk: View, entries: Entries, aliases: Aliases, spec: Spec, d: Decision, p: Path)
    requires RestoreOutcome(disk, entries, aliases, spec, d).1.Miss? && spec.depfile != Some(p)
    ensures var after := RestoreOutcome(disk, entries, aliases, spec, d).0;
            (p in after <==> p in disk) && (p in disk ==> after[p] == disk[p])
  {
    hide KeyOf, Evaluate, CopyOut;
  }

  /** An entry this spec stored is found again on the same files, and its outputs come back unchanged. */
  lemma StoredIsRestored(disk: View, entries: Entries, aliases: Aliases, spec: Spec, d: Decision)
    requires Evaluate(disk, spec) == Some(d) && d.Eligible?
    requires Intact(EntryAt(entries, d.key), d.key, spec)
    requires forall i: nat :: i < |spec.outputs| ==>
               spec.outputs[i] in disk && EntryAt(entries, d.key).manifest.value.digests[i] == disk[spec.outputs[i]]
    ensures RestoreOutcome(disk, entries, aliases, spec, d) == (disk, Hit(d.key))
  {
    hide KeyOf, BaseOf, DepsExist;
    CopyOfSame(disk, spec.outputs, EntryAt(entries, d.key).blobs, |spec.outputs|);
  }

  lemma {:induction false} CopyOfSame(disk: View, outputs: seq<Path>, blobs: map<nat, Content>, n: nat)
    requires n <= |outputs| && forall i: nat :: i < n ==> i in blobs && outputs[i] in disk && blobs[i] == disk[outputs[i]]
    ensures CopyOut(disk, outputs, blobs, n) == disk
  {
    if n > 0 {
      CopyOfSame(disk, outputs, blobs, n - 1);
    }
  }

  // ---- what a key tells ------------------------------------------------------------------

  predicate SameIn(a: View, b: View, paths: seq<Path>) {
    forall p :: p in paths ==> (p in a <==> p in b) && (p in a ==> a[p] == b[p])
  }

  /** Two commands that are one, on files that are the same wherever it reads. */
  predicate SameRun(a: View, spec: Spec, b: View, spec2: Spec) {
    && spec.id == spec2.id && spec.kind == spec2.kind && spec.argv == spec2.argv && spec.tool == spec2.tool
    && spec.env == spec2.env && spec.outputs == spec2.outputs
    && Effective(a, spec) == Effective(b, spec2) && SameIn(a, b, Effective(a, spec))
  }

  lemma SameDigests(a: View, paths: seq<Path>, b: View, paths2: seq<Path>)
    ensures DigestFiles(a, paths) == DigestFiles(b, paths2) <==> paths == paths2 && SameIn(a, b, paths)
  {
    var x, y := DigestFiles(a, paths), DigestFiles(b, paths2);
    if x == y {
      forall i | 0 <= i < |paths| ensures paths[i] == paths2[i] && SameIn(a, b, [paths[i]]) {
        assert x[i] == y[i];
      }
      forall p | p in paths ensures (p in a <==> p in b) && (p in a ==> a[p] == b[p]) {
        assert SameIn(a, b, [p]);
      }
    }
    if paths == paths2 && SameIn(a, b, paths) {
      forall i | 0 <= i < |x| ensures x[i] == y[i] {
        assert paths[i] in paths;
      }
    }
  }

  /** Two eligible commands have one key exactly when they are one command and read the same files; the tool counts. */
  lemma KeyTells(a: View, spec: Spec, b: View, spec2: Spec)
    requires IsEligible(spec) && IsEligible(spec2)
    ensures KeyOf(a, spec) == KeyOf(b, spec2) <==> SameRun(a, spec, b, spec2)
  {
    hide Effective, DigestFiles, SameIn;
    SameDigests(a, Effective(a, spec), b, Effective(b, spec2));
  }

  /** A command reads its declared inputs and what its depfile names, each listed once. */
  lemma EffectiveAre(disk: View, spec: Spec, p: Path)
    ensures p in Effective(disk, spec) <==>
              || p in spec.inputs
              || (spec.depfile.Some? && spec.depfile.value in disk && disk[spec.depfile.value].Deps? && p in disk[spec.depfile.value].paths)
    ensures forall i, j :: 0 <= i < j < |Effective(disk, spec)| ==> Effective(disk, spec)[i] != Effective(disk, spec)[j]
  {
    PushedOnce([], spec.inputs);
    PushedOnce(PushNew([], spec.inputs), Tokens(disk, spec));
  }

  lemma {:induction false} PushedOnce(list: seq<Path>, items: seq<Path>)
    requires forall i, j :: 0 <= i < j < |list| ==> list[i] != list[j]
    ensures forall i, j :: 0 <= i < j < |PushNew(list, items)| ==> PushNew(list, items)[i] != PushNew(list, items)[j]
    decreases |items|
  {
    if items != [] {
      PushedOnce(list, items[..|items| - 1]);
    }
  }

  /** The base key stands for the command and the files it declares. */
  lemma BaseTells(a: View, spec: Spec, b: View, spec2: Spec)
    requires IsEligible(spec) && IsEligible(spec2)
    ensures BaseOf(a, spec) == BaseOf(b, spec2) <==>
              && spec.id == spec2.id && spec.kind == spec2.kind && spec.argv == spec2.argv && spec.tool == spec2.tool
              && spec.env == spec2.env && spec.outputs == spec2.outputs
              && spec.inputs == spec2.inputs && SameIn(a, b, spec.inputs)
  {
    hide DigestFiles, SameIn;
    SameDigests(a, spec.inputs, b, spec2.inputs);
  }

  /** The depfile that a whole entry brings back is the one that an earlier run with its key left. */
  lemma DepfileIsOfARun(disk: View, entries: Entries, aliases: Aliases, log: set<Run>, k: CacheKey, spec: Spec)
    requires Sound(entries, aliases, log) && Intact(EntryAt(entries, k), k, spec) && EntryAt(entries, k).manifest.value.depfile.Some?
    ensures spec.depfile.Some?
    ensures var p := spec.depfile.value; var back := WithDepfile(disk, EntryAt(entries, k));
            p in back && exists r :: r in log && KeyOf(r.view, r.spec) == k && p in r.view && r.view[p] == back[p]
  {
    hide KeyOf, AliasOk, IsEligible;
    assert EntryOk(log, k, entries[k]);
    var r :| r in log && CameFrom(k, entries[k].manifest.value, r);
  }

  /** What a run writes depends on nothing but the command and the files it reads. */
  ghost predicate Determined(run: (Spec, View) -> View) {
    forall a, spec, b, spec2 :: SameRun(a, spec, b, spec2) ==> run(spec, a) == run(spec2, b)
  }

  /** The outputs on a logged view are what the command, run there, writes. */
  ghost predicate Genuine(run: (Spec, View) -> View, log: set<Run>) {
    forall r, p :: r in log && p in r.spec.outputs && p in r.view ==> p in run(r.spec, r.view) && run(r.spec, r.view)[p] == r.view[p]
  }

  lemma LoggedIsEligible(entries: Entries, aliases: Aliases, log: set<Run>, r: Run)
    requires Sound(entries, aliases, log) && r in log
    ensures IsEligible(r.spec)
  {
  }

  /** A hit whose key is that of the files now leaves in every output what a run now would write. */
  lemma HitWritesWhatARunWould(disk: View, entries: Entries, aliases: Aliases, log: set<Run>, spec: Spec, d: Decision,
                               run: (Spec, View) -> View, seen: View)
    requires Sound(entries, aliases, log) && Determined(run) && Genuine(run, log) && IsEligible(spec)
    requires RestoreOutcome(disk, entries, aliases, spec, d).1.Hit?
    requires RestoreOutcome(disk, entries, aliases, spec, d).1.key == KeyOf(seen, spec)
    ensures var after := RestoreOutcome(disk, entries, aliases, spec, d).0;
            forall p :: p in spec.outputs ==> p in after && p in run(spec, seen) && after[p] == run(spec, seen)[p]
  {
    hide Sound, RestoreOutcome, KeyOf, SameRun, IsEligible;
    HitRestoresARun(disk, entries, aliases, log, spec, d);
    var (after, outcome) := RestoreOutcome(disk, entries, aliases, spec, d);
    var r :| r in log && KeyOf(r.view, r.spec) == outcome.key && r.spec.outputs == spec.outputs
             && forall p :: p in spec.outputs ==> p in r.view && p in after && after[p] == r.view[p];
    LoggedIsEligible(entries, aliases, log, r);
    KeyTells(r.view, r.spec, seen, spec);
    assert run(r.spec, r.view) == run(spec, seen);
  }

  // ---- storing, losing and restoring ---------------------------------------------------------

  /** What copying leaves: the blobs in the outputs, and everything else as it was. */
  lemma {:induction false} CopiedAre(disk: View, outputs: seq<Path>, blobs: map<nat, Content>, n: nat, was: View)
    requires n <= |outputs| && forall i: nat :: i < n ==> i in blobs && outputs[i] in was && blobs[i] == was[outputs[i]]
    ensures forall p :: p in CopyOut(disk, outputs, blobs, n) <==> p in disk || p in outputs[..n]
    ensures forall p :: p in CopyOut(disk, outputs, blobs, n) ==>
              CopyOut(disk, outputs, blobs, n)[p] == if p in outputs[..n] then was[p] else disk[p]
  {
    if n > 0 {
      CopiedAre(disk, outputs, blobs, n - 1, was);
      assert outputs[..n] == outputs[..n - 1] + [outputs[n - 1]];
    }
  }

  /** Without a direct entry, an alias that leads to a whole entry whose depfile still asks for that entry is a hit. */
  lemma AliasRestores(disk: View, entries: Entries, aliases: Aliases, spec: Spec, d: Decision)
    requires d.Eligible? && IsEligible(spec) && EntryAt(entries, d.key).manifest.None? && d.base in aliases
    requires var k := aliases[d.base]; var e := EntryAt(entries, k);
             && Intact(e, k, spec) && e.manifest.value.depfile.Some?
             && DepsExist(WithDepfile(disk, e), spec) && KeyOf(WithDepfile(disk, e), spec) == k
    ensures var k := aliases[d.base]; var e := EntryAt(entries, k);
            && RestoreOutcome(disk, entries, aliases, spec, d).1 == Hit(k)
            && (forall i: nat :: i < |spec.outputs| ==> i in e.blobs && e.blobs[i] == e.manifest.value.digests[i])
            && RestoreOutcome(disk, entries, aliases, spec, d).0 == CopyOut(WithDepfile(disk, e), spec.outputs, e.blobs, |spec.outputs|)
  {
    hide KeyOf, BaseOf, DepsExist, CopyOut;
  }

  /** A whole entry of the very key is a hit. */
  lemma DirectRestores(disk: View, entries: Entries, aliases: Aliases, spec: Spec, d: Decision)
    requires d.Eligible? && Intact(EntryAt(entries, d.key), d.key, spec)
    ensures var e := EntryAt(entries, d.key);
            && (forall i: nat :: i < |spec.outputs| ==> i in e.blobs && e.blobs[i] == e.manifest.value.digests[i])
            && RestoreOutcome(disk, entries, aliases, spec, d) == (CopyOut(disk, spec.outputs, e.blobs, |spec.outputs|), Hit(d.key))
  {
    hide KeyOf, BaseOf, DepsExist, CopyOut;
  }

  /** What a store of this command on this disk leaves. */
  ghost predicate JustStored(disk: View, entries: Entries, aliases: Aliases, spec: Spec, d: Decision) {
    && d.Eligible? && Intact(EntryAt(entries, d.key), d.key, spec) && DepfileKept(disk, EntryAt(entries, d.key), spec)
    && d.base in aliases && aliases[d.base] == d.key
    && forall i: nat :: i < |spec.outputs| ==> spec.outputs[i] in disk && EntryAt(entries, d.key).manifest.value.digests[i] == disk[spec.outputs[i]]
  }

  predicate Lost(spec: Spec, p: Path) {
    p in spec.outputs || spec.depfile == Some(p)
  }

  ghost function Bare(disk: View, spec: Spec): View {
    map p | p in disk && !Lost(spec, p) :: disk[p]
  }

  /** Stored, then outputs and depfile removed, then restored: the disk is as it was. Only where the depfile named nothing
      that was not declared is the entry found directly, and then the depfile stays away. */
  lemma StoredRemovedRestored(disk: View, entries: Entries, aliases: Aliases, spec: Spec, d: Decision)
    requires Evaluate(disk, spec) == Some(d) && JustStored(disk, entries, aliases, spec, d)
    requires forall p :: p in Effective(disk, spec) ==> !Lost(spec, p)
    requires spec.depfile.Some? ==> spec.depfile.value !in spec.outputs
    requires KeyOf(Bare(disk, spec), spec) != d.key ==> EntryAt(entries, KeyOf(Bare(disk, spec), spec)).manifest.None?
    ensures var bare := Bare(disk, spec);
            && Evaluate(bare, spec) == Some(Eligible(KeyOf(bare, spec), d.base))
            && var (after, outcome) := RestoreOutcome(bare, entries, aliases, spec, Evaluate(bare, spec).value);
               && outcome == Hit(d.key)
               && (KeyOf(bare, spec) != d.key || spec.depfile.None? ==> after == disk)
               && (KeyOf(bare, spec) == d.key && spec.depfile.Some? ==> after == disk - {spec.depfile.value})
  {
    var bare, e := Bare(disk, spec), EntryAt(entries, d.key);
    BareEvaluates(disk, spec, d);
    assert IsEligible(spec) && Whole(e, d.key, spec);
    hide Evaluate, Effective, KeyOf, BaseOf, RestoreOutcome, CopyOut, DepsExist, Bare, IsEligible;
    if KeyOf(bare, spec) == d.key {
      DirectRestores(bare, entries, aliases, spec, Eligible(d.key, d.base));
    } else {
      BareWithDepfile(disk, entries, spec, d);
      AliasRestores(bare, entries, aliases, spec, Eligible(KeyOf(bare, spec), d.base));
    }
    CopiedBack(disk, spec, e.blobs, bare);
    CopiedBack(disk, spec, e.blobs, WithDepfile(bare, e));
    BareIs(disk, spec, e);
  }

  lemma CopiedBack(disk: View, spec: Spec, blobs: map<nat, Content>, v: View)
    requires forall i: nat :: i < |spec.outputs| ==> i in blobs && spec.outputs[i] in disk && blobs[i] == disk[spec.outputs[i]]
    ensures (forall p :: p !in spec.outputs ==> (p in v <==> p in disk) && (p in v ==> v[p] == disk[p])) && (forall p :: p in v ==> p in disk) ==>
              CopyOut(v, spec.outputs, blobs, |spec.outputs|) == disk
    ensures (forall p :: p !in spec.outputs ==> (p in v <==> p in disk && spec.depfile != Some(p)) && (p in v ==> v[p] == disk[p]))
            && spec.depfile.Some? && spec.depfile.value !in spec.outputs && (forall p :: p in v ==> p in disk) ==>
              CopyOut(v, spec.outputs, blobs, |spec.outputs|) == disk - {spec.depfile.value}
  {
    CopiedAre(v, spec.outputs, blobs, |spec.outputs|, disk);
    assert spec.outputs[..|spec.outputs|] == spec.outputs;
    hide CopyOut;
  }

  lemma BareIs(disk: View, spec: Spec, e: Entry)
    requires DepfileKept(disk, e, spec)
    ensures forall p :: p in Bare(disk, spec) <==> p in disk && !Lost(spec, p)
    ensures forall p :: p in Bare(disk, spec) ==> Bare(disk, spec)[p] == disk[p]
    ensures forall p :: p in WithDepfile(Bare(disk, spec), e) <==> p in Bare(disk, spec) || spec.depfile == Some(p)
    ensures forall p :: p in WithDepfile(Bare(disk, spec), e) ==> p in disk && WithDepfile(Bare(disk, spec), e)[p] == disk[p]
  {}

  lemma BareEvaluates(disk: View, spec: Spec, d: Decision)
    requires Evaluate(disk, spec) == Some(d) && d.Eligible?
    requires forall p :: p in Effective(disk, spec) ==> !Lost(spec, p)
    ensures Evaluate(Bare(disk, spec), spec) == Some(Eligible(KeyOf(Bare(disk, spec), spec), d.base))
    ensures spec.depfile.None? ==> KeyOf(Bare(disk, spec), spec) == d.key
  {
    var bare := Bare(disk, spec);
    forall p | p in spec.inputs ensures !Lost(spec, p) {
      EffectiveAre(disk, spec, p);
    }
    hide DigestFiles, Effective;
    SameDigests(disk, spec.inputs, bare, spec.inputs);
    assert Tokens(bare, spec) == [] && IsEligible(spec);
    if spec.depfile.None? {
      NoDepfileSameList(disk, bare, spec);
      SameDigests(disk, Effective(disk, spec), bare, Effective(bare, spec));
    }
  }

  lemma NoDepfileSameList(a: View, b: View, spec: Spec)
    requires spec.depfile.None?
    ensures Effective(a, spec) == Effective(b, spec)
  {}

  lemma BareWithDepfile(disk: View, entries: Entries, spec: Spec, d: Decision)
    requires Evaluate(disk, spec) == Some(d) && d.Eligible? && DepfileKept(disk, EntryAt(entries, d.key), spec)
    requires forall p :: p in Effective(disk, spec) ==> !Lost(spec, p)
    ensures var back := WithDepfile(Bare(disk, spec), EntryAt(entries, d.key));
            KeyOf(back, spec) == d.key && DepsExist(back, spec)
  {
    var back := WithDepfile(Bare(disk, spec), EntryAt(entries, d.key));
    assert Tokens(back, spec) == Tokens(disk, spec);
    forall p | p in Tokens(disk, spec) ensures !Lost(spec, p) {
      EffectiveAre(disk, spec, p);
    }
    var list := Effective(disk, spec);
    assert Effective(back, spec) == list;
    hide DigestFiles, Effective;
    SameDigests(disk, list, back, list);
  }

  // ---- the cache in the executor's form ------------------------------------------------

  datatype Stored = Written | Present | Skipped | Crashed

  /** `budget` is the number of file steps left before a crash. */
  class LocalCache {
    var disk: View
    var entries: Entries
    var aliases: Aliases
    var budget: nat
    ghost var log: set<Run>

    ghost predicate Valid()
      reads this
    {
      Sound(entries, aliases, log)
    }

    constructor (disk: View, budget: nat)
      ensures Valid() && log == {} && this.disk == disk && this.budget == budget
    {
      this.disk, this.budget := disk, budget;
      entries, aliases, log := map[], map[], {};
    }

    /** Any change to the package's own files. */
    method Edit(p: Path, content: Option<Content>)
      requires Valid()
      modifies this`disk
      ensures Valid()
      ensures disk == if content.Some? then old(disk)[p := content.value] else old(disk) - {p}
    {
      disk := if content.Some? then disk[p := content.value] else disk - {p};
    }

    /** Bit rot: a blob, or the depfile's blob, becomes anything. */
    method CorruptBlob(k: CacheKey, i: nat, content: Option<Content>, dep: bool)
      requires Valid()
      modifies this`entries
      ensures Valid()
      ensures entries == old(entries)[k := EntryAt(entries, k)]
    {
      var e := EntryAt(entries, k);
      if dep {
        entries := entries[k := e.(depBlob := content)];
      } else {
        entries := entries[k := e.(blobs := if content.Some? then e.blobs[i := content.value] else e.blobs - {i})];
      }
      KeepsManifest(old(entries), entries, aliases, log, k);
    }

    method HashFiles(paths: seq<Path>) returns (r: seq<InputDigest>)
      ensures r == DigestFiles(disk, paths)
    {
      r := [];
      for i := 0 to |paths|
        invariant |r| == i
        invariant forall j :: 0 <= j < i ==> r[j] == DigestFile(disk, paths[j])
      {
        if paths[i] in disk {
          r := r + [InputDigest(paths[i], Some(disk[paths[i]]))];
        } else {
          r := r + [InputDigest(paths[i], None)];
        }
      }
    }

    /** Pushes what is not yet listed; fails on a depfile entry that is gone. */
    method PushInputs(list: seq<Path>, items: seq<Path>, mustExist: bool) returns (ok: bool, r: seq<Path>)
      ensures ok == (mustExist ==> forall p :: p in items ==> p in disk)
      ensures ok ==> r == PushNew(list, items)
    {
      ok, r := true, list;
      for i := 0 to |items|
        invariant r == PushNew(list, items[..i])
        invariant mustExist ==> forall j :: 0 <= j < i ==> items[j] in disk
      {
        assert items[..i + 1][..i] == items[..i];
        if mustExist && items[i] !in disk {
          ok := false;
          return;
        }
        if items[i] !in r {
          r := r + [items[i]];
        }
      }
      assert items[..|items|] == items;
    }

    method EvaluateSpec(spec: Spec) returns (r: Option<Decision>)
      ensures r == Evaluate(disk, spec)
      ensures r == Some(Refused) <==> !spec.declared || (spec.kind != "compile" && spec.kind != "generate") || spec.outputs == []
                                      || spec.external || spec.argv == [] || spec.tool == None
    {
      if !spec.declared || (spec.kind != "compile" && spec.kind != "generate") || |spec.outputs| == 0
         || spec.external || |spec.argv| == 0 || spec.tool.None? {
        return Some(Refused);
      }
      var ok, effective := PushInputs([], spec.inputs, false);
      ok, effective := PushInputs(effective, Tokens(disk, spec), true);
      if !ok {
        return None;
      }
      var declared := HashFiles(spec.inputs);
      var all := HashFiles(effective);
      r := Some(Eligible(CacheKey(IdentOf(spec), all, spec.outputs), CacheKey(IdentOf(spec), declared, spec.outputs)));
    }

    method Spend() returns (alive: bool)
      modifies this`budget
      ensures alive == (old(budget) > 0) && budget == if alive then old(budget) - 1 else 0
    {
      alive := budget > 0;
      if alive {
        budget := budget - 1;
      }
    }

    /** Removes, in order, the first `limit` of the entry's blobs, manifest and depfile blob. */
    method Discard(k: CacheKey, count: nat, limit: nat)
      requires Valid()
      modifies this`entries
      ensures Valid()
      ensures entries == old(entries)[k := EntryAt(entries, k)]
      ensures EntryAt(entries, k).manifest == if limit > count then None else EntryAt(old(entries), k).manifest
      ensures EntryAt(entries, k).depBlob == if limit > count + 1 then None else EntryAt(old(entries), k).depBlob
      ensures forall i: nat :: i in EntryAt(entries, k).blobs <==> i in EntryAt(old(entries), k).blobs && !(i < count && i < limit)
    {
      var e := EntryAt(entries, k);
      ghost var was := e;
      var i := 0;
      while i < count && i < limit
        invariant i <= count && i <= limit
        invariant e.manifest == was.manifest && e.depBlob == was.depBlob
        invariant forall j: nat :: j in e.blobs <==> j in was.blobs && !(j < i)
      {
        e := e.(blobs := e.blobs - {i});
        i := i + 1;
      }
      if limit > count {
        e := e.(manifest := None);
      }
      if limit > count + 1 {
        e := e.(depBlob := None);
      }
      entries := entries[k := e];
      KeepsManifest(old(entries), entries, aliases, log, k);
    }

    /** Hashes every blob against the digest its manifest lists. */
    method BlobsIntact(e: Entry, digests: seq<Content>, n: nat) returns (ok: bool)
      requires n <= |digests|
      ensures ok == BlobsMatch(e, digests, n)
    {
      for i := 0 to n
        invariant forall j: nat :: j < i ==> j in e.blobs && e.blobs[j] == digests[j]
      {
        if i !in e.blobs || e.blobs[i] != digests[i] {
          return false;
        }
      }
      ok := true;
    }

    method CopyOutputs(outputs: seq<Path>, blobs: map<nat, Content>)
      requires forall i: nat :: i < |outputs| ==> i in blobs
      modifies this`disk
      ensures disk == CopyOut(old(disk), outputs, blobs, |outputs|)
    {
      for i := 0 to |outputs|
        invariant disk == CopyOut(old(disk), outputs, blobs, i)
      {
        disk := disk[outputs[i] := blobs[i]];
      }
    }

    /** Verifies an entry and materializes it; a broken entry is discarded. */
    method Restore(spec: Spec, d: Decision) returns (outcome: Outcome)
      requires Valid()
      modifies this`disk, this`entries
      ensures Valid()
      ensures (disk, outcome) == RestoreOutcome(old(disk), old(entries), aliases, spec, d)
      ensures outcome.Hit? ==> entries == old(entries)
      ensures d.Eligible? && Chosen(old(entries), aliases, d).Some? ==>
                var k := Chosen(old(entries), aliases, d).value;
                !Intact(EntryAt(old(entries), k), k, spec) ==> EntryAt(entries, k).manifest.None?
      ensures forall k :: EntryAt(entries, k) == EntryAt(old(entries), k) || (EntryAt(entries, k).manifest.None? && !Intact(EntryAt(old(entries), k), k, spec))
    {
      hide KeyOf, BaseOf, DepsExist, IsEligible, CopyOut, Sound;
      if d.Refused? {
        return Miss;
      }
      var k := d.key;
      if EntryAt(entries, k).manifest.None? {
        if d.base !in aliases || EntryAt(entries, aliases[d.base]).manifest.None? {
          return Miss;
        }
        k := aliases[d.base];
      }
      var e := EntryAt(entries, k);
      var m := e.manifest.value;
      var corrupt := !Named(m, k, spec);
      if !corrupt && m.depfile.Some? {
        corrupt := m.depfile != spec.depfile || e.depBlob.None? || e.depBlob != m.depDigest;
      }
      if !corrupt {
        var ok := BlobsIntact(e, m.digests, |spec.outputs|);
        corrupt := !ok;
      }
      assert corrupt == !Intact(e, k, spec);
      if corrupt {
        Discard(k, |spec.outputs|, |spec.outputs| + 2);
        return Miss;
      }
      if k != d.key && m.depfile.Some? {
        disk := disk[m.depfile.value := e.depBlob.value];
        var again := EvaluateSpec(spec);
        if again.None? {
          return Failure;
        }
        if again.value.Refused? || again.value.key != k {
          return Miss;
        }
      }
      CopyOutputs(spec.outputs, e.blobs);
      outcome := Hit(k);
    }

    /** Copies one file to its blob: a temporary copy, a removal, a rename; a crash can fall between any two. */
    method PutBlob(k: CacheKey, i: Option<nat>, content: Content) returns (alive: bool)
      requires Valid()
      modifies this`entries, this`budget
      ensures Valid()
      ensures entries == old(entries)[k := EntryAt(entries, k)]
      ensures EntryAt(entries, k).manifest == EntryAt(old(entries), k).manifest
      ensures old(budget) >= 3 ==> alive && budget == old(budget) - 3
      ensures alive ==> EntryAt(entries, k) == (if i.Some? then EntryAt(old(entries), k).(blobs := EntryAt(old(entries), k).blobs[i.value := content])
                                                else EntryAt(old(entries), k).(depBlob := Some(content)))
    {
      var e := EntryAt(entries, k);
      alive := Spend();
      if alive {
        alive := Spend();
      }
      if alive {
        entries := entries[k := if i.Some? then e.(blobs := e.blobs - {i.value}) else e.(depBlob := None)];
        alive := Spend();
      }
      if alive {
        entries := entries[k := if i.Some? then e.(blobs := e.blobs[i.value := content]) else e.(depBlob := Some(content))];
      } else {
        entries := entries[k := EntryAt(entries, k)];
      }
      KeepsManifest(old(entries), entries, aliases, log, k);
    }

    /** The first removal and the rename of a new alias. */
    method WriteAlias(base: CacheKey, k: CacheKey, spec: Spec) returns (alive: bool)
      requires Valid() && Run(spec, disk) in log
      requires base == BaseOf(disk, spec) && k == KeyOf(disk, spec)
      modifies this`aliases, this`budget
      ensures Valid()
      ensures forall b :: b in aliases && b != base ==> b in old(aliases) && aliases[b] == old(aliases)[b]
      ensures forall b :: b in old(aliases) && b != base ==> b in aliases
      ensures alive ==> base in aliases && aliases[base] == k
      ensures old(budget) >= 3 ==> alive
    {
      hide KeyOf, BaseOf, EntryOk;
      alive := Spend();
      if alive {
        alive := Spend();
      }
      if alive {
        aliases := aliases - {base};
        alive := Spend();
      }
      if alive {
        aliases := aliases[base := k];
        assert AliasOk(log, base, k);
      }
    }

    /** Copies every output to its blob; the digests list what was copied. */
    method PutOutputs(spec: Spec, k: CacheKey) returns (alive: bool, complete: bool, digests: seq<Content>)
      requires Valid()
      modifies this`entries, this`budget
      ensures Valid()
      ensures k in entries && entries == old(entries)[k := entries[k]]
      ensures entries[k].manifest == EntryAt(old(entries), k).manifest
      ensures alive ==> entries[k].depBlob == EntryAt(old(entries), k).depBlob
      ensures alive && complete ==> |digests| == |spec.outputs| && BlobsMatch(entries[k], digests, |spec.outputs|)
      ensures alive && complete ==> forall i :: 0 <= i < |digests| ==> spec.outputs[i] in disk && digests[i] == disk[spec.outputs[i]]
      ensures alive && !complete ==> exists i :: 0 <= i < |spec.outputs| && spec.outputs[i] !in disk
      ensures old(budget) >= 3 * |spec.outputs| ==> alive && budget >= old(budget) - 3 * |spec.outputs|
    {
      digests := [];
      alive, complete := true, true;
      entries := entries[k := EntryAt(entries, k)];
      KeepsManifest(old(entries), entries, aliases, log, k);
      for i := 0 to |spec.outputs|
        invariant Valid() && |digests| == i
        invariant k in entries && entries == old(entries)[k := entries[k]]
        invariant entries[k].manifest == EntryAt(old(entries), k).manifest && entries[k].depBlob == EntryAt(old(entries), k).depBlob
        invariant BlobsMatch(entries[k], digests, i)
        invariant old(budget) >= 3 * |spec.outputs| ==> budget == old(budget) - 3 * i
        invariant forall j :: 0 <= j < i ==> spec.outputs[j] in disk && digests[j] == disk[spec.outputs[j]]
      {
        hide Sound;
        if spec.outputs[i] !in disk {
          complete := false;
          return;
        }
        var content := disk[spec.outputs[i]];
        alive := PutBlob(k, Some(i), content);
        if !alive {
          return;
        }
        digests := digests + [content];
      }
    }

    /** Writes the manifest last; until then the entry has none. */
    method Commit(spec: Spec, k: CacheKey, digests: seq<Content>) returns (alive: bool)
      requires Valid() && Run(spec, disk) in log
      requires k == KeyOf(disk, spec) && k in entries && entries[k].manifest.None?
      requires spec.depfile.Some? ==> spec.depfile.value in disk && entries[k].depBlob == Some(disk[spec.depfile.value])
      requires |digests| == |spec.outputs| && BlobsMatch(entries[k], digests, |spec.outputs|)
      requires forall i :: 0 <= i < |digests| ==> spec.outputs[i] in disk && digests[i] == disk[spec.outputs[i]]
      modifies this`entries, this`budget
      ensures Valid()
      ensures k in entries && entries == old(entries)[k := entries[k]]
      ensures alive ==> Intact(entries[k], k, spec) && entries[k].manifest.value.digests == digests
      ensures alive ==> DepfileKept(disk, entries[k], spec)
      ensures old(budget) >= 3 ==> alive && budget == old(budget) - 3
    {
      hide KeyOf, AliasOk;
      alive := Spend();
      if alive {
        alive := Spend();
      }
      if alive {
        alive := Spend();
      }
      if alive {
        var dep := if spec.depfile.Some? then entries[k].depBlob else None;
        var m := Manifest(k, spec.depfile, dep, spec.outputs, digests);
        assert CameFrom(k, m, Run(spec, disk));
        entries := entries[k := entries[k].(manifest := Some(m))];
        assert EntryOk(log, k, entries[k]);
        forall j | j in entries ensures EntryOk(log, j, entries[j]) {
          if j != k { assert EntryOk(log, j, old(entries)[j]); }
        }
      }
    }

    /** The already stored entry, checked blob by blob. */
    method AlreadyWhole(spec: Spec, k: CacheKey) returns (whole: bool)
      ensures whole == Whole(EntryAt(entries, k), k, spec)
    {
      var e := EntryAt(entries, k);
      whole := e.manifest.Some? && Named(e.manifest.value, k, spec);
      if whole && e.manifest.value.depfile.Some? {
        whole := e.depBlob.Some? && e.depBlob == e.manifest.value.depDigest;
      }
      if whole {
        whole := BlobsIntact(e, e.manifest.value.digests, |spec.outputs|);
      }
    }

    /** Offers a finished run to the cache. A crash may stop it at any file step. */
    method Store(spec: Spec, d: Decision) returns (result: Stored)
      requires Valid() && Evaluate(disk, spec) == Some(d)
      modifies this`entries, this`aliases, this`budget, this`log
      ensures Valid() && log == if d.Eligible? then old(log) + {Run(spec, disk)} else old(log)
      ensures d.Refused? ==> result == Skipped && entries == old(entries) && aliases == old(aliases)
      ensures d.Eligible? ==> entries == old(entries)[d.key := EntryAt(entries, d.key)] || entries == old(entries)
      ensures d.Eligible? ==> forall b :: b in aliases && b != d.base ==> b in old(aliases) && aliases[b] == old(aliases)[b]
      ensures result.Written? || result.Present? ==> d.Eligible? && d.base in aliases && aliases[d.base] == d.key
      ensures result.Present? ==> Whole(EntryAt(entries, d.key), d.key, spec) && entries == old(entries)
      ensures result.Written? ==> Intact(EntryAt(entries, d.key), d.key, spec)
      ensures result.Written? ==> forall i: nat :: i < |spec.outputs| ==>
                spec.outputs[i] in disk && EntryAt(entries, d.key).manifest.value.digests[i] == disk[spec.outputs[i]]
      ensures result.Written? ==> DepfileKept(disk, EntryAt(entries, d.key), spec)
      ensures result.Skipped? ==> d.Refused? || (spec.depfile.Some? && spec.depfile.value !in disk)
                                  || exists i :: 0 <= i < |spec.outputs| && spec.outputs[i] !in disk
      ensures result.Crashed? ==> d.Eligible? && old(budget) < 4 * |spec.outputs| + 11
    {
      hide KeyOf, BaseOf, DepsExist, BlobsMatch;
      if d.Refused? {
        return Skipped;
      }
      log := log + {Run(spec, disk)};
      LogGrows(entries, aliases, old(log), log);
      hide Sound, IsEligible;
      var k := d.key;
      if EntryAt(entries, k).manifest.Some? {
        var whole := AlreadyWhole(spec, k);
        if whole {
          var alive := WriteAlias(d.base, k, spec);
          return if alive then Present else Crashed;
        }
        var limit := if budget < |spec.outputs| + 2 then budget else |spec.outputs| + 2;
        budget := budget - limit;
        Discard(k, |spec.outputs|, limit);
        if limit < |spec.outputs| + 2 {
          return Crashed;
        }
      }
      result := StoreAnew(spec, d);
    }

    /** Fills an entry that has no manifest. */
    method StoreAnew(spec: Spec, d: Decision) returns (result: Stored)
      requires Valid() && Evaluate(disk, spec) == Some(d) && d.Eligible? && Run(spec, disk) in log
      requires EntryAt(entries, d.key).manifest.None?
      modifies this`entries, this`aliases, this`budget
      ensures Valid()
      ensures entries == old(entries)[d.key := EntryAt(entries, d.key)] || entries == old(entries)
      ensures forall b :: b in aliases && b != d.base ==> b in old(aliases) && aliases[b] == old(aliases)[b]
      ensures result.Written? ==> d.base in aliases && aliases[d.base] == d.key && Intact(EntryAt(entries, d.key), d.key, spec)
      ensures result.Written? ==> DepfileKept(disk, EntryAt(entries, d.key), spec)
      ensures result.Crashed? ==> old(budget) < 3 * |spec.outputs| + 9
      ensures result.Written? ==> forall i: nat :: i < |spec.outputs| ==>
                spec.outputs[i] in disk && EntryAt(entries, d.key).manifest.value.digests[i] == disk[spec.outputs[i]]
      ensures result.Skipped? ==> (spec.depfile.Some? && spec.depfile.value !in disk)
                                  || exists i :: 0 <= i < |spec.outputs| && spec.outputs[i] !in disk
      ensures result.Written? || result.Skipped? || result.Crashed?
    {
      hide KeyOf, BaseOf, DepsExist, IsEligible, BlobsMatch, Sound;
      var k := d.key;
      var alive, complete, digests := true, true, [];
      if spec.depfile.Some? {
        if spec.depfile.value !in disk {
          return Skipped;
        }
        alive := PutBlob(k, None, disk[spec.depfile.value]);
        if !alive {
          return Crashed;
        }
      }
      alive, complete, digests := PutOutputs(spec, k);
      if !alive {
        return Crashed;
      }
      if !complete {
        return Skipped;
      }
      alive := Commit(spec, k, digests);
      if !alive {
        return Crashed;
      }
      alive := WriteAlias(d.base, k, spec);
      result := if alive then Written else Crashed;
    }
  }

  lemma LogGrows(entries: Entries, aliases: Aliases, log: set<Run>, more: set<Run>)
    requires Sound(entries, aliases, log) && log <= more && forall r :: r in more ==> IsEligible(r.spec)
    ensures Sound(entries, aliases, more)
  {
    hide CameFrom, KeyOf, BaseOf;
    forall k | k in entries ensures EntryOk(more, k, entries[k]) {
      assert EntryOk(log, k, entries[k]);
    }
    forall b | b in aliases ensures AliasOk(more, b, aliases[b]) {
      assert AliasOk(log, b, aliases[b]);
    }
  }

  /** Soundness looks at manifests only. */
  lemma KeepsManifest(was: Entries, now: Entries, aliases: Aliases, log: set<Run>, k: CacheKey)
    requires Sound(was, aliases, log)
    requires now == was[k := EntryAt(now, k)]
    requires EntryAt(now, k).manifest.None? || EntryAt(now, k).manifest == EntryAt(was, k).manifest
    ensures Sound(now, aliases, log)
  {
    hide CameFrom, AliasOk;
    forall j | j in now ensures EntryOk(log, j, now[j]) {
      if j in was {
        assert EntryOk(log, j, was[j]);
      }
    }
  }

  // ---- an alias to an entry without a depfile --------------------------------------------

  /** Source, output, header and depfile of one command, and what they held when it ran. */
  datatype Setting = Setting(
    argv: seq<string>, src: Path, out: Path, header: Path, dep: Path, made: Content, text: Content, lines: Content)

  /** A command that names its tool, and four different files. */
  predicate Distinct(x: Setting) {
    && x.argv != [] && x.src != x.out && x.src != x.header && x.src != x.dep
    && x.out != x.header && x.out != x.dep && x.header != x.dep
  }

  function Before(x: Setting): View {
    map[x.src := x.text, x.out := x.made, x.header := x.lines, x.dep := Deps([x.header])]
  }

  /** The command, with the header declared, or left to the depfile. */
  function Plain(x: Setting): Spec {
    Spec("a", "generate", x.argv, [], Some(""), false, [x.src, x.header], [x.out], None, true)
  }

  function WithDep(x: Setting): Spec {
    Plain(x).(inputs := [x.src], depfile := Some(x.dep))
  }

  function SharedManifest(x: Setting): Manifest {
    Manifest(KeyOf(Before(x), Plain(x)), None, None, [x.out], [x.made])
  }

  function SharedEntries(x: Setting): Entries {
    map[KeyOf(Before(x), Plain(x)) := Entry(map[0 := x.made], None, Some(SharedManifest(x)))]
  }

  lemma BothListTheSame(x: Setting, disk: View)
    requires Distinct(x) && x.dep in disk && disk[x.dep] == Deps([x.header])
    ensures Effective(disk, Plain(x)) == [x.src, x.header] && Effective(disk, WithDep(x)) == [x.src, x.header]
  {
    var a, b := x.src, x.header;
    assert [a, b][..1] == [a] && [a][..0] == [] && [b][..0] == [];
    assert PushNew([], [a]) == [a];
    assert PushNew([], [a, b]) == [a, b] && PushNew([a], [b]) == [a, b];
    var none: seq<Path> := Tokens(disk, Plain(x));
    assert none == [] && PushNew([a, b], none) == [a, b];
  }

  /** Both forms of the command ran on the same files, the plain one first. */
  lemma SharedIsSound(x: Setting)
    requires Distinct(x)
    ensures Sound(SharedEntries(x), map[BaseOf(Before(x), WithDep(x)) := KeyOf(Before(x), Plain(x))],
                  {Run(Plain(x), Before(x)), Run(WithDep(x), Before(x))})
  {
    hide DigestFiles, Effective, BaseOf;
    var was := Before(x);
    var log := {Run(Plain(x), was), Run(WithDep(x), was)};
    BothListTheSame(x, was);
    assert KeyOf(was, Plain(x)) == KeyOf(was, WithDep(x));
    assert CameFrom(KeyOf(was, Plain(x)), SharedManifest(x), Run(Plain(x), was));
    assert Run(Plain(x), was) in log && Run(WithDep(x), was) in log;
    assert AliasOk(log, BaseOf(was, WithDep(x)), KeyOf(was, WithDep(x)));
  }

  /** One entry for both forms, stored without a depfile: the form that has one hits it although its header changed. */
  lemma AliasWithoutDepfileHitsStale(x: Setting, newer: Content)
    requires Distinct(x) && newer != x.lines
    ensures var now := Before(x)[x.header := newer];
            var k := KeyOf(Before(x), Plain(x));
            && Evaluate(now, WithDep(x)) == Some(Eligible(KeyOf(now, WithDep(x)), BaseOf(now, WithDep(x))))
            && RestoreOutcome(now, SharedEntries(x), map[BaseOf(Before(x), WithDep(x)) := k], WithDep(x),
                              Evaluate(now, WithDep(x)).value).1 == Hit(k)
            && k != KeyOf(now, WithDep(x))
  {
    hide Effective, CopyOut;
    var was, now := Before(x), Before(x)[x.header := newer];
    var k := KeyOf(was, Plain(x));
    BothListTheSame(x, was);
    BothListTheSame(x, now);
    assert KeyOf(now, WithDep(x)).inputs[1] == InputDigest(x.header, Some(newer));
    assert k.inputs[1] == InputDigest(x.header, Some(x.lines));
    assert BaseOf(now, WithDep(x)).inputs == BaseOf(was, WithDep(x)).inputs;
    assert Intact(SharedEntries(x)[k], k, WithDep(x));
  }
}
