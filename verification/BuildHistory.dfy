/** What every run of edits, deletions, builds and failed builds keeps. */
module BuildHistory {
  import opened Wrappers
  import opened ActionKeys
  import opened IncrementalBuild

  // ---- what a plan must satisfy --------------------------------------------------

  predicate Owns(a: Action, p: Path) {
    p in a.outputs || a.depfile == Some(p)
  }

  /** A file no action writes. */
  ghost predicate Source(plan: Plan, p: Path) {
    forall j: nat :: j < |plan.actions| ==> !Owns(plan.actions[j], p)
  }

  /** A source, or an output of an action that `i` waits for. */
  ghost predicate Visible(plan: Plan, i: nat, p: Path)
    requires i < |plan.before|
  {
    forall j: nat :: j < |plan.actions| && Owns(plan.actions[j], p) ==>
      j in plan.before[i] && plan.actions[j].depfile != Some(p)
  }

  predicate Agree(v: View, w: View, paths: seq<Path>) {
    forall p :: p in paths ==> (p in v <==> p in w) && (p in v ==> v[p] == w[p])
  }

  /** A run writes its outputs, reads existing files in its reach, and reports all it read beyond its statics. */
  ghost predicate RunFits(plan: Plan, i: nat, v: View)
    requires i < |plan.actions| && i < |plan.before|
  {
    var a := plan.actions[i];
    a.tool(v).Some? ==>
      && (forall p :: p in a.tool(v).value.files <==> p in a.outputs)
      && (forall p :: p in a.tool(v).value.used ==> p in v && Visible(plan, i, p))
      && (a.depfile.None? ==> a.tool(v).value.used == [])
  }

  ghost predicate Deterministic(a: Action, v: View, w: View) {
    a.tool(v).Some? && Agree(v, w, a.statics) && Agree(v, w, a.tool(v).value.used) ==> a.tool(w) == a.tool(v)
  }

  ghost predicate ActionOk(plan: Plan, i: nat)
    requires i < |plan.actions| && i < |plan.before|
  {
    var a := plan.actions[i];
    && a.outputs != []
    && (a.depfile.Some? ==> a.depfile.value !in a.outputs)
    && (forall p :: p in a.statics ==> Visible(plan, i, p))
    && (forall v :: RunFits(plan, i, v))
    && (forall v, w :: Deterministic(a, v, w))
  }

  /** Each output belongs to one action, and no two actions share an id. */
  ghost predicate Apart(plan: Plan, i: nat, j: nat)
    requires i < |plan.actions| && j < |plan.actions|
  {
    && plan.actions[i].id != plan.actions[j].id
    && forall p :: Owns(plan.actions[i], p) ==> !Owns(plan.actions[j], p)
  }

  ghost predicate PlanOk(plan: Plan) {
    && |plan.before| == |plan.actions|
    && (forall i: nat :: i < |plan.actions| ==> ActionOk(plan, i))
    && (forall i: nat, j: nat :: i < |plan.actions| && j < |plan.actions| && i != j ==> Apart(plan, i, j))
  }

  // ---- what stays true of the stored keys ------------------------------------------

  ghost predicate StampsBelow(disk: Disk, clock: nat) {
    forall p :: p in disk ==> disk[p].stamp < clock
  }

  predicate Current(disk: Disk, d: Digest) {
    match d
    case Missing(p) => p !in disk
    case Seen(p, stamp, _) => p in disk && disk[p].stamp == stamp
  }

  /** The digest was taken of `v`, and says what the file holds for as long as its stamp stays. */
  predicate Describes(disk: Disk, clock: nat, v: View, d: Digest) {
    match d
    case Missing(p) => p !in v
    case Seen(p, stamp, _) => stamp < clock && p in v && (Current(disk, d) ==> disk[p].content == v[p])
  }

  predicate OutputsAre(disk: Disk, a: Action, files: View) {
    AllExist(disk, a.outputs) ==> forall p :: p in a.outputs ==> p in files && disk[p].content == files[p]
  }

  /** The key was taken of `v`, where the tool succeeds and its key lists all it reads. */
  ghost predicate Taken(disk: Disk, clock: nat, a: Action, k: Key, v: View) {
    && a.tool(v).Some?
    && (forall p :: p in a.tool(v).value.used ==> p in PathsOf(k.deps))
    && (forall d :: d in k.inputs || d in k.deps ==> Describes(disk, clock, v, d))
  }

  /** And the outputs on disk, if complete, are what a run on `v` makes. */
  ghost predicate Witness(disk: Disk, clock: nat, a: Action, k: Key, v: View) {
    Taken(disk, clock, a, k, v) && OutputsAre(disk, a, a.tool(v).value.files)
  }

  /** No later prepare can compute this key: its lists are not a prepare's, a depfile input was missing, or a
      stamp it names is gone. */
  ghost predicate Spent(disk: Disk, clock: nat, a: Action, k: Key) {
    || PathsOf(k.inputs) != PreparedInputs(a.statics, PathsOf(k.deps))
    || (exists d: Digest :: d in k.deps && d.Missing?)
    || (exists d: Digest :: (d in k.inputs || d in k.deps) && Gone(disk, clock, d))
  }

  predicate Gone(disk: Disk, clock: nat, d: Digest) {
    d.Seen? && d.stamp < clock && !Current(disk, d)
  }

  ghost predicate EntryOk(disk: Disk, clock: nat, a: Action, k: Key) {
    Spent(disk, clock, a, k) || exists v :: Witness(disk, clock, a, k, v)
  }

  /** The depfile on disk does not list what the key lists, and removing it would not help. */
  predicate Mislisted(disk: Disk, a: Action, k: Key) {
    k.deps != [] && DepList(disk, a) != PathsOf(k.deps)
  }

  // ---- what holds of a stored key, whatever became of the outputs --------------------------------

  /** The digest is the one a prepare would compute, for as long as its stamp stays. */
  predicate Faithful(plan: Plan, disk: Disk, clock: nat, d: Digest) {
    d.Seen? ==> d.stamp < clock && (Current(disk, d) ==> d == DigestOf(plan, disk, d.path))
  }

  ghost predicate DigestOk(plan: Plan, disk: Disk, clock: nat, i: nat, d: Digest)
    requires i < |plan.before|
  {
    Faithful(plan, disk, clock, d) && Visible(plan, i, d.path)
  }

  /** The key was computed by a prepare or a refresh of its action, on some disk of the past. */
  ghost predicate KeyOk(plan: Plan, disk: Disk, clock: nat, i: nat, k: Key)
    requires i < |plan.actions|
  {
    var a := plan.actions[i];
    && i < |plan.before| && k.id == a.id && k.recipe == a.recipe
    && (a.depfile.None? ==> k.deps == [])
    && (forall d :: d in k.inputs || d in k.deps ==> DigestOk(plan, disk, clock, i, d))
    && (forall d, e: Digest :: (d in k.inputs || d in k.deps) && (e in k.inputs || e in k.deps) && d.path == e.path ==> d == e)
    && (Spent(disk, clock, a, k) || exists v :: Taken(disk, clock, a, k, v))
  }

  /** Whatever a depfile on disk names is in its action's reach. */
  ghost predicate DepsVisible(plan: Plan, disk: Disk, i: nat)
    requires i < |plan.actions| && i < |plan.before|
  {
    forall p :: p in DepList(disk, plan.actions[i]) ==> Visible(plan, i, p)
  }

  ghost predicate StoredOk(plan: Plan, st: State, i: nat)
    requires i < |plan.actions|
  {
    var a := plan.actions[i];
    a.id in st.db ==>
      && KeyOk(plan, st.disk, st.clock, i, st.db[a.id])
      && (EntryOk(st.disk, st.clock, a, st.db[a.id]) || Mislisted(st.disk, a, st.db[a.id]))
  }

  ghost predicate Inv(plan: Plan, st: State)
    requires |plan.before| == |plan.actions|
  {
    && StampsBelow(st.disk, st.clock)
    && (forall i: nat :: i < |plan.actions| ==> DepsVisible(plan, st.disk, i))
    && (forall i: nat :: i < |plan.actions| ==> StoredOk(plan, st, i))
  }

  // ---- keys and the files they were taken of ---------------------------------------

  /** Every file `disk2` has is one `disk` has, unchanged, or one written since. */
  ghost predicate Evolves(disk: Disk, disk2: Disk, clock: nat) {
    forall p :: p in disk2 ==> disk2[p].stamp >= clock || (p in disk && disk2[p] == disk[p])
  }

  /** An entry survives any writes and removals that leave its outputs alone or incomplete. */
  lemma EntrySurvives(disk: Disk, clock: nat, disk2: Disk, clock2: nat, a: Action, k: Key)
    requires EntryOk(disk, clock, a, k)
    requires clock <= clock2 && Evolves(disk, disk2, clock)
    requires AllExist(disk2, a.outputs) ==> forall p :: p in a.outputs ==> SameFile(disk, disk2, p)
    ensures EntryOk(disk2, clock2, a, k)
  {
    if Spent(disk, clock, a, k) {
      SpentStays(disk, clock, disk2, clock2, a, k);
    } else {
      var v :| Witness(disk, clock, a, k, v);
      TakenStays(disk, clock, disk2, clock2, a, k, v);
      assert Witness(disk2, clock2, a, k, v);
    }
  }

  lemma TakenStays(disk: Disk, clock: nat, disk2: Disk, clock2: nat, a: Action, k: Key, v: View)
    requires Taken(disk, clock, a, k, v)
    requires clock <= clock2 && Evolves(disk, disk2, clock)
    ensures Taken(disk2, clock2, a, k, v)
  {
    forall d | d in k.inputs || d in k.deps
      ensures Describes(disk2, clock2, v, d)
    {
      assert Describes(disk, clock, v, d);
    }
  }

  /** What holds of a key whatever became of the outputs survives everything. */
  lemma KeyStays(plan: Plan, disk: Disk, clock: nat, disk2: Disk, clock2: nat, i: nat, k: Key)
    requires i < |plan.actions| && KeyOk(plan, disk, clock, i, k)
    requires clock <= clock2 && Evolves(disk, disk2, clock)
    ensures KeyOk(plan, disk2, clock2, i, k)
  {
    hide Visible, Spent, Taken;
    var a := plan.actions[i];
    forall d | d in k.inputs || d in k.deps ensures DigestOk(plan, disk2, clock2, i, d) {
      assert DigestOk(plan, disk, clock, i, d);
    }
    if Spent(disk, clock, a, k) {
      SpentStays(disk, clock, disk2, clock2, a, k);
    } else {
      var v :| Taken(disk, clock, a, k, v);
      TakenStays(disk, clock, disk2, clock2, a, k, v);
    }
  }

  lemma SpentStays(disk: Disk, clock: nat, disk2: Disk, clock2: nat, a: Action, k: Key)
    requires Spent(disk, clock, a, k)
    requires clock <= clock2 && Evolves(disk, disk2, clock)
    ensures Spent(disk2, clock2, a, k)
  {
    if d :| (d in k.inputs || d in k.deps) && Gone(disk, clock, d) {
      assert Gone(disk2, clock2, d);
    }
  }

  /** Where every digest of a key is current, a run on the disk repeats the run the key was taken of. */
  lemma CurrentKeyRepeats(disk: Disk, clock: nat, a: Action, k: Key, v: View)
    requires Taken(disk, clock, a, k, v)
    requires forall d :: d in k.inputs || d in k.deps ==> Current(disk, d)
    requires PathsOf(k.inputs) == PreparedInputs(a.statics, PathsOf(k.deps))
    requires Deterministic(a, v, ViewOf(disk))
    ensures a.tool(ViewOf(disk)) == a.tool(v)
  {
    forall p | p in a.statics || p in a.tool(v).value.used
      ensures (p in v <==> p in disk) && (p in v ==> v[p] == disk[p].content)
    {
      assert p in PathsOf(k.inputs);
      var n :| 0 <= n < |k.inputs| && k.inputs[n].path == p;
      assert Describes(disk, clock, v, k.inputs[n]) && Current(disk, k.inputs[n]);
    }
  }

  lemma FreshDigestIsCurrent(plan: Plan, disk: Disk, paths: seq<Path>, d: Digest)
    requires d in DigestsOf(plan, disk, paths)
    ensures Current(disk, d)
  {
    var n :| 0 <= n < |paths| && d == DigestsOf(plan, disk, paths)[n];
  }

  lemma FreshPaths(plan: Plan, disk: Disk, paths: seq<Path>)
    ensures PathsOf(DigestsOf(plan, disk, paths)) == paths
  {
  }

  // ---- the skip decision -----------------------------------------------------------

  /** The outputs on disk are what a run on the disk makes, and the depfile names all it reads. */
  ghost predicate UpToDate(disk: Disk, a: Action) {
    && a.tool(ViewOf(disk)).Some?
    && AllExist(disk, a.outputs)
    && OutputsAre(disk, a, a.tool(ViewOf(disk)).value.files)
    && (forall p :: p in a.tool(ViewOf(disk)).value.used ==> p in DepList(disk, a))
  }

  /** A cache hit means that running the action now would rewrite what is there. */
  lemma SkipIsSound(plan: Plan, db: map<string, Key>, disk: Disk, clock: nat, i: nat)
    requires PlanOk(plan) && i < |plan.actions|
    requires StoredOk(plan, State(disk, clock, db), i)
    requires AllExist(disk, DepList(disk, plan.actions[i]))
    requires CacheHit(db, disk, plan.actions[i], FreshKey(plan, disk, plan.actions[i]))
    ensures UpToDate(disk, plan.actions[i])
  {
    hide PlanOk, Visible, RunFits, Apart, Source, KeyOk, PreparedInputs;
    var a := plan.actions[i];
    var k := FreshKey(plan, disk, a);
    FreshPaths(plan, disk, PreparedInputs(a.statics, DepList(disk, a)));
    FreshPaths(plan, disk, DepList(disk, a));
    forall d | d in k.inputs || d in k.deps ensures Current(disk, d) {
      if d in k.inputs {
        FreshDigestIsCurrent(plan, disk, PreparedInputs(a.statics, DepList(disk, a)), d);
      } else {
        FreshDigestIsCurrent(plan, disk, DepList(disk, a), d);
      }
    }
    assert !Spent(disk, clock, a, k) && !Mislisted(disk, a, k);
    var v :| Witness(disk, clock, a, k, v);
    assert Deterministic(a, v, ViewOf(disk)) by { PlanActionOk(plan, i); }
    CurrentKeyRepeats(disk, clock, a, k, v);
  }

  lemma PlanSized(plan: Plan)
    requires PlanOk(plan)
    ensures |plan.before| == |plan.actions|
  {
  }

  lemma PlanApart(plan: Plan, i: nat, j: nat)
    requires PlanOk(plan) && i < |plan.actions| && j < |plan.actions| && i != j
    ensures Apart(plan, i, j)
  {
  }

  lemma PlanActionOk(plan: Plan, i: nat)
    requires PlanOk(plan) && i < |plan.actions|
    ensures i < |plan.before| && ActionOk(plan, i)
  {
  }

  // ---- inside a build ----------------------------------------------------------------

  /** Every action that writes the file is done. */
  ghost predicate Settled(plan: Plan, done: seq<nat>, p: Path) {
    forall j: nat :: j < |plan.actions| && Owns(plan.actions[j], p) ==> j in done
  }

  ghost predicate MemoSettled(plan: Plan, disk: Disk, memo: Memo, done: seq<nat>) {
    MemoExact(plan, disk, memo) && forall p :: p in memo ==> Settled(plan, done, p)
  }

  predicate Queued(queue: seq<Refresh>, i: nat) {
    exists n :: 0 <= n < |queue| && queue[n].action == i
  }

  predicate Ready(plan: Plan, done: seq<nat>, i: nat)
    requires i < |plan.before|
  {
    forall j :: j in plan.before[i] ==> j in done
  }

  ghost predicate DoneOk(plan: Plan, pr: Progress, i: nat) {
    && i < |plan.actions| && i < |plan.before|
    && Ready(plan, pr.done, i)
    && i !in pr.running
    && UpToDate(pr.disk, plan.actions[i])
    && plan.actions[i].id in pr.next
    && (!Queued(pr.queue, i) ==> pr.next[plan.actions[i].id] == FreshKey(plan, pr.disk, plan.actions[i]))
  }

  ghost predicate RunningOk(plan: Plan, pr: Progress, i: nat)
    requires i in pr.running
  {
    && i < |plan.actions| && i < |plan.before|
    && Ready(plan, pr.done, i)
    && pr.running[i].deps == DepList(pr.disk, plan.actions[i])
    && pr.running[i].inputs == PreparedInputs(plan.actions[i].statics, pr.running[i].deps)
    && pr.running[i].key == FreshKey(plan, pr.disk, plan.actions[i])
  }

  /** Each finished action came after all it waits for. */
  ghost predicate Ordered(plan: Plan, done: seq<nat>) {
    forall k: nat :: k < |done| ==> done[k] < |plan.before| && Ready(plan, done[..k], done[k])
  }

  predicate RecordsMissing(k: Key) {
    exists d: Digest :: d in k.inputs + k.deps && d.Missing?
  }

  /** A stored key stays good until its action runs again, and then too unless it records a missing file. */
  ghost predicate OldOk(plan: Plan, db: map<string, Key>, pr: Progress, i: nat)
    requires i < |plan.actions|
  {
    var a := plan.actions[i];
    a.id in db ==>
      && KeyOk(plan, pr.disk, pr.clock, i, db[a.id])
      && ( || EntryOk(pr.disk, pr.clock, a, db[a.id]) || Mislisted(pr.disk, a, db[a.id])
           || (i in pr.ran && RecordsMissing(db[a.id])))
  }

  ghost predicate QueueOk(plan: Plan, pr: Progress) {
    && (forall n: nat :: n < |pr.queue| ==> QueuedOk(plan, pr, pr.queue[n]))
    && (forall m: nat, n: nat :: m < n < |pr.queue| ==> pr.queue[m].action != pr.queue[n].action)
  }

  ghost predicate QueuedOk(plan: Plan, pr: Progress, r: Refresh) {
    && r.action in pr.done && r.action in pr.ran && r.action < |plan.actions|
    && plan.actions[r.action].depfile.Some?
    && r.inputs == PreparedInputs(plan.actions[r.action].statics, r.oldDeps)
    && (forall p :: p in r.oldDeps ==> r.action < |plan.before| && Visible(plan, r.action, p))
  }

  ghost predicate Bookkeeping(plan: Plan, pr: Progress) {
    && (forall i: nat :: i < |plan.actions| && plan.actions[i].id in pr.next ==> i in pr.done)
    && (forall i :: i in pr.ran ==> i in pr.done)
    && (forall i :: i in pr.ran && i < |plan.actions| && plan.actions[i].depfile.Some? ==> Queued(pr.queue, i))
  }

  ghost predicate BuildInv(plan: Plan, db: map<string, Key>, pr: Progress)
    requires |plan.before| == |plan.actions|
  {
    && StampsBelow(pr.disk, pr.clock)
    && (forall i: nat :: i < |plan.actions| ==> DepsVisible(plan, pr.disk, i))
    && MemoSettled(plan, pr.disk, pr.memo, pr.done)
    && (forall i :: i in pr.done ==> DoneOk(plan, pr, i))
    && (forall i :: i in pr.running ==> RunningOk(plan, pr, i))
    && Ordered(plan, pr.done)
    && (forall i: nat :: i < |plan.actions| ==> OldOk(plan, db, pr, i))
    && QueueOk(plan, pr)
    && Bookkeeping(plan, pr)
  }

  // ---- what one action's files mean for the others ----------------------------------------

  /** Nothing the action owns or can see is different. */
  ghost predicate Unseen(plan: Plan, i: nat, disk: Disk, disk2: Disk)
    requires i < |plan.actions| && i < |plan.before|
  {
    forall p :: Owns(plan.actions[i], p) || Visible(plan, i, p) ==> SameFile(disk, disk2, p)
  }

  lemma UnseenKeepsKey(plan: Plan, i: nat, disk: Disk, disk2: Disk)
    requires i < |plan.actions| && i < |plan.before|
    requires forall p :: p in plan.actions[i].statics ==> Visible(plan, i, p)
    requires DepsVisible(plan, disk, i) && Unseen(plan, i, disk, disk2)
    ensures DepList(disk2, plan.actions[i]) == DepList(disk, plan.actions[i])
    ensures FreshKey(plan, disk2, plan.actions[i]) == FreshKey(plan, disk, plan.actions[i])
  {
    hide Visible;
    var a := plan.actions[i];
    assert a.depfile.Some? ==> Owns(a, a.depfile.value);
    assert DepList(disk2, a) == DepList(disk, a);
    var inputs, deps := PreparedInputs(a.statics, DepList(disk, a)), DepList(disk, a);
    SameDigests(plan, disk, disk2, inputs);
    SameDigests(plan, disk, disk2, deps);
  }

  lemma SameDigests(plan: Plan, disk: Disk, disk2: Disk, paths: seq<Path>)
    requires forall p :: p in paths ==> SameFile(disk, disk2, p)
    ensures DigestsOf(plan, disk2, paths) == DigestsOf(plan, disk, paths)
  {
    forall k | 0 <= k < |paths| ensures DigestOf(plan, disk2, paths[k]) == DigestOf(plan, disk, paths[k]) {
      assert SameFile(disk, disk2, paths[k]);
    }
  }

  lemma UnseenKeepsUpToDate(plan: Plan, i: nat, disk: Disk, disk2: Disk)
    requires PlanOk(plan) && i < |plan.actions|
    requires UpToDate(disk, plan.actions[i]) && DepsVisible(plan, disk, i)
    requires i < |plan.before| && Unseen(plan, i, disk, disk2)
    ensures UpToDate(disk2, plan.actions[i])
  {
    hide PlanOk, Visible, Apart;
    PlanActionOk(plan, i);
    var a := plan.actions[i];
    UnseenKeepsKey(plan, i, disk, disk2);
    assert Deterministic(a, ViewOf(disk), ViewOf(disk2)) && RunFits(plan, i, ViewOf(disk));
    forall p | p in a.statics || p in a.tool(ViewOf(disk)).value.used
      ensures SameFile(disk, disk2, p)
    {
    }
    forall p | p in a.outputs ensures SameFile(disk, disk2, p) {
      assert Owns(a, p);
    }
  }

  /** A run changes only what its action owns. */
  lemma RunChangesOwn(plan: Plan, disk: Disk, clock: nat, i: nat)
    requires PlanOk(plan) && i < |plan.actions| && StampsBelow(disk, clock)
    requires plan.actions[i].tool(ViewOf(disk)).Some?
    ensures var disk2 := AfterRun(disk, clock, plan.actions[i], plan.actions[i].tool(ViewOf(disk)).value);
            && StampsBelow(disk2, clock + 1) && Evolves(disk, disk2, clock)
            && (forall p :: !Owns(plan.actions[i], p) ==> SameFile(disk, disk2, p))
  {
    hide PlanOk, Visible, Apart;
    PlanActionOk(plan, i);
    assert RunFits(plan, i, ViewOf(disk));
  }

  /** Files of an action that has not finished are out of reach of those that were ready before it. */
  lemma OthersUnseen(plan: Plan, done: seq<nat>, disk: Disk, disk2: Disk, i: nat, j: nat)
    requires PlanOk(plan) && i < |plan.actions| && j < |plan.actions| && i != j
    requires j !in done && i < |plan.before| && Ready(plan, done, i)
    requires forall p :: !Owns(plan.actions[j], p) ==> SameFile(disk, disk2, p)
    ensures Unseen(plan, i, disk, disk2)
  {
    hide ActionOk;
    assert Apart(plan, i, j);
    assert j !in plan.before[i];
  }

  /** A run leaves its own action up to date. */
  lemma RunBringsUpToDate(plan: Plan, done: seq<nat>, disk: Disk, clock: nat, i: nat)
    requires PlanOk(plan) && i < |plan.actions|
    requires i !in done && i < |plan.before| && Ready(plan, done, i)
    requires plan.actions[i].tool(ViewOf(disk)).Some?
    ensures var made := plan.actions[i].tool(ViewOf(disk));
            var disk2 := AfterRun(disk, clock, plan.actions[i], made.value);
            && plan.actions[i].tool(ViewOf(disk2)) == made
            && UpToDate(disk2, plan.actions[i])
            && DepsVisible(plan, disk2, i)
  {
    hide PlanOk, Apart;
    PlanActionOk(plan, i);
    var a := plan.actions[i];
    var made := a.tool(ViewOf(disk)).value;
    var disk2 := AfterRun(disk, clock, a, made);
    assert RunFits(plan, i, ViewOf(disk));
    assert Deterministic(a, ViewOf(disk), ViewOf(disk2));
    forall p | p in a.statics || p in made.used ensures SameFile(disk, disk2, p) && !Owns(a, p) {
      assert Visible(plan, i, p);
      assert i !in plan.before[i];
    }
    assert DepList(disk2, a) == PushNew([], made.used);
  }

  // ---- every step of a build keeps its invariant -------------------------------------------

  /** Through the memo a prepare computes exactly the key the disk asks for. */
  lemma PrepareComputes(plan: Plan, pr: Progress, i: nat)
    requires PlanOk(plan) && MemoSettled(plan, pr.disk, pr.memo, pr.done) && i < |plan.actions| && i < |plan.before|
    requires Ready(plan, pr.done, i) && DepsVisible(plan, pr.disk, i)
    ensures var a := plan.actions[i]; var deps := DepList(pr.disk, a);
            var (d1, m1) := HashList(plan, pr.disk, pr.memo, PreparedInputs(a.statics, deps));
            var (d2, m2) := HashList(plan, pr.disk, m1, deps);
            && Key(a.id, a.recipe, d1, d2) == FreshKey(plan, pr.disk, a)
            && MemoSettled(plan, pr.disk, m2, pr.done)
  {
    hide PlanOk, RunFits, Deterministic;
    PlanActionOk(plan, i);
    var a := plan.actions[i];
    var deps := DepList(pr.disk, a);
    var inputs := PreparedInputs(a.statics, deps);
    MemoAgreesWithDisk(plan, pr.disk, pr.memo, inputs);
    MemoAgreesWithDisk(plan, pr.disk, HashList(plan, pr.disk, pr.memo, inputs).1, deps);
    forall p | p in inputs || p in deps ensures Settled(plan, pr.done, p) {
      assert Visible(plan, i, p);
    }
  }

  lemma PrepareKeeps(plan: Plan, db: map<string, Key>, pr: Progress, i: nat)
    requires PlanOk(plan) && BuildInv(plan, db, pr) && Startable(plan, pr, i)
    requires PrepareStep(plan, db, pr, i).Some?
    ensures BuildInv(plan, db, PrepareStep(plan, db, pr, i).value)
  {
    hide PlanOk, DoneOk, RunningOk, QueueOk, OldOk, UpToDate, FreshKey, StampsBelow, HashList, MemoSettled, Ordered, Bookkeeping;
    hide DepList, PreparedInputs, AllExist, DepsVisible;
    var pr2 := PrepareStep(plan, db, pr, i).value;
    assert DepsVisible(plan, pr.disk, i);
    PrepareComputes(plan, pr, i);
    if CacheHit(db, pr.disk, plan.actions[i], FreshKey(plan, pr.disk, plan.actions[i])) {
      SkipNeedsNoRun(plan, db, pr, i);
      SkipKeeps(plan, db, pr, i, pr2);
    } else {
      StartKeeps(plan, db, pr, i, pr2);
    }
  }

  lemma StartKeeps(plan: Plan, db: map<string, Key>, pr: Progress, i: nat, pr2: Progress)
    requires PlanOk(plan) && BuildInv(plan, db, pr) && Startable(plan, pr, i)
    requires MemoSettled(plan, pr.disk, pr2.memo, pr.done)
    requires var a := plan.actions[i]; var deps := DepList(pr.disk, a);
             pr2 == pr.(memo := pr2.memo, running := pr.running[i :=
                      Pending(FreshKey(plan, pr.disk, a), PreparedInputs(a.statics, deps), deps)])
    ensures BuildInv(plan, db, pr2)
  {
    hide PlanOk, UpToDate, FreshKey, EntryOk, StampsBelow, MemoSettled, Ordered, DepsVisible, DepList, PreparedInputs, Queued, RecordsMissing;
    hide Visible, KeyOk, Mislisted;
    forall j | j in pr2.done ensures DoneOk(plan, pr2, j) {
      assert DoneOk(plan, pr, j);
    }
    forall j | j in pr2.running ensures RunningOk(plan, pr2, j) {
      assert j != i ==> RunningOk(plan, pr, j);
    }
    forall j: nat | j < |plan.actions| ensures OldOk(plan, db, pr2, j) {
      assert OldOk(plan, db, pr, j);
    }
    forall n: nat | n < |pr.queue| ensures QueuedOk(plan, pr2, pr2.queue[n]) {
      assert QueuedOk(plan, pr, pr.queue[n]);
    }
  }

  lemma SkipNeedsNoRun(plan: Plan, db: map<string, Key>, pr: Progress, i: nat)
    requires PlanOk(plan) && BuildInv(plan, db, pr) && i < |plan.actions| && i !in pr.done
    requires AllExist(pr.disk, DepList(pr.disk, plan.actions[i]))
    requires CacheHit(db, pr.disk, plan.actions[i], FreshKey(plan, pr.disk, plan.actions[i]))
    ensures UpToDate(pr.disk, plan.actions[i])
  {
    hide PlanOk, UpToDate, FreshKey, EntryOk, MemoSettled, DoneOk, RunningOk, QueueOk, DepsVisible, StampsBelow, Ordered, Queued;
    hide KeyOk, Mislisted, DepList;
    assert i !in pr.ran;
    assert OldOk(plan, db, pr, i);
    SkipIsSound(plan, db, pr.disk, pr.clock, i);
  }

  lemma SkipKeeps(plan: Plan, db: map<string, Key>, pr: Progress, i: nat, pr2: Progress)
    requires PlanOk(plan) && BuildInv(plan, db, pr) && Startable(plan, pr, i)
    requires UpToDate(pr.disk, plan.actions[i])
    requires pr2 == pr.(memo := pr2.memo, done := pr.done + [i],
                        next := pr.next[plan.actions[i].id := FreshKey(plan, pr.disk, plan.actions[i])])
    requires MemoSettled(plan, pr.disk, pr2.memo, pr.done)
    ensures BuildInv(plan, db, pr2)
  {
    hide PlanOk, UpToDate, FreshKey, EntryOk, StampsBelow, MemoSettled, Ordered, DepsVisible, DepList, PreparedInputs, Queued, RecordsMissing;
    hide DoneOk, OldOk, RunningOk, QueueOk, Bookkeeping, FreshKey;
    SettledGrows(plan, pr.disk, pr2.memo, pr.done, i);
    OrderedGrows(plan, pr.done, i);
    forall j | j in pr2.done ensures DoneOk(plan, pr2, j) {
      SkipKeepsDone(plan, db, pr, i, pr2, j);
    }
    SameDiskKeepsOld(plan, db, pr, pr2);
    SkipKeepsRest(plan, db, pr, i, pr2);
  }

  lemma SameDiskKeepsOld(plan: Plan, db: map<string, Key>, pr: Progress, pr2: Progress)
    requires PlanOk(plan) && BuildInv(plan, db, pr)
    requires pr2.disk == pr.disk && pr2.clock == pr.clock && pr2.ran == pr.ran
    ensures forall j: nat :: j < |plan.actions| ==> OldOk(plan, db, pr2, j)
  {
    hide PlanOk, EntryOk, RecordsMissing, DoneOk, RunningOk, QueueOk, Bookkeeping, DepsVisible, StampsBelow, MemoSettled, Ordered;
    forall j: nat | j < |plan.actions| ensures OldOk(plan, db, pr2, j) {
      assert OldOk(plan, db, pr, j);
    }
  }

  lemma SkipKeepsRest(plan: Plan, db: map<string, Key>, pr: Progress, i: nat, pr2: Progress)
    requires PlanOk(plan) && BuildInv(plan, db, pr) && Startable(plan, pr, i)
    requires pr2 == pr.(memo := pr2.memo, done := pr.done + [i], next := pr2.next)
    requires pr2.next == pr.next[plan.actions[i].id := FreshKey(plan, pr.disk, plan.actions[i])]
    ensures forall j :: j in pr2.running ==> RunningOk(plan, pr2, j)
    ensures QueueOk(plan, pr2)
    ensures Bookkeeping(plan, pr2)
  {
    hide PlanOk, FreshKey, OldOk, DoneOk, StampsBelow, MemoSettled, Ordered, DepsVisible, DepList, PreparedInputs, Queued, Visible;
    forall j | j in pr2.running ensures RunningOk(plan, pr2, j) {
      assert RunningOk(plan, pr, j);
    }
    forall n: nat | n < |pr.queue| ensures QueuedOk(plan, pr2, pr2.queue[n]) {
      assert QueuedOk(plan, pr, pr.queue[n]);
    }
    forall j: nat | j < |plan.actions| && plan.actions[j].id in pr2.next ensures j in pr2.done {
      if j != i { PlanApart(plan, j, i); }
    }
  }

  lemma SkipKeepsDone(plan: Plan, db: map<string, Key>, pr: Progress, i: nat, pr2: Progress, j: nat)
    requires PlanOk(plan) && BuildInv(plan, db, pr) && Startable(plan, pr, i)
    requires UpToDate(pr.disk, plan.actions[i])
    requires pr2 == pr.(memo := pr2.memo, done := pr.done + [i],
                        next := pr.next[plan.actions[i].id := FreshKey(plan, pr.disk, plan.actions[i])])
    requires j in pr2.done
    ensures DoneOk(plan, pr2, j)
  {
    hide PlanOk, UpToDate, FreshKey, MemoSettled, Ordered, DepsVisible, QueueOk, Queued, OldOk, RunningOk, Visible, StampsBelow;
    if j in pr.done {
      assert DoneOk(plan, pr, j);
      PlanApart(plan, j, i);
    }
  }

  lemma SettledGrows(plan: Plan, disk: Disk, memo: Memo, done: seq<nat>, i: nat)
    requires MemoSettled(plan, disk, memo, done)
    ensures MemoSettled(plan, disk, memo, done + [i])
  {
    forall p | p in memo ensures Settled(plan, done + [i], p) {
      assert Settled(plan, done, p);
    }
  }

  lemma OrderedGrows(plan: Plan, done: seq<nat>, i: nat)
    requires Ordered(plan, done) && i < |plan.before| && Ready(plan, done, i)
    ensures Ordered(plan, done + [i])
  {
    forall k: nat | k < |done| + 1 ensures (done + [i])[k] < |plan.before| && Ready(plan, (done + [i])[..k], (done + [i])[k]) {
      if k < |done| {
        assert (done + [i])[..k] == done[..k];
      } else {
        assert (done + [i])[..k] == done;
      }
    }
  }

  /** The situation in which action `i` finishes with `made`. */
  ghost predicate Finishing(plan: Plan, db: map<string, Key>, pr: Progress, i: nat)
  {
    && PlanOk(plan) && BuildInv(plan, db, pr)
    && i < |plan.actions| && i in pr.running && i !in pr.done
    && plan.actions[i].tool(ViewOf(pr.disk)).Some?
  }

  function Written(plan: Plan, pr: Progress, i: nat): Disk
    requires i < |plan.actions| && plan.actions[i].tool(ViewOf(pr.disk)).Some?
  {
    AfterRun(pr.disk, pr.clock, plan.actions[i], plan.actions[i].tool(ViewOf(pr.disk)).value)
  }

  lemma FinishKeepsMemo(plan: Plan, db: map<string, Key>, pr: Progress, i: nat)
    requires Finishing(plan, db, pr, i)
    ensures MemoSettled(plan, Written(plan, pr, i), pr.memo, pr.done + [i])
  {
    hide PlanOk, DoneOk, OldOk, QueueOk, RunningOk, Ordered, Bookkeeping, DepsVisible, AfterRun;
    RunChangesOwn(plan, pr.disk, pr.clock, i);
    forall p | p in pr.memo ensures SameFile(pr.disk, Written(plan, pr, i), p) {
      assert Settled(plan, pr.done, p);
    }
    assert MemoSettled(plan, Written(plan, pr, i), pr.memo, pr.done);
    SettledGrows(plan, Written(plan, pr, i), pr.memo, pr.done, i);
  }

  lemma FinishKeepsDepfile(plan: Plan, db: map<string, Key>, pr: Progress, i: nat, j: nat)
    requires Finishing(plan, db, pr, i) && j < |plan.actions|
    ensures DepsVisible(plan, Written(plan, pr, i), j)
    ensures j != i ==> DepList(Written(plan, pr, i), plan.actions[j]) == DepList(pr.disk, plan.actions[j])
  {
    hide PlanOk, ActionOk, DoneOk, OldOk, QueueOk, Ordered, Bookkeeping, AfterRun, MemoSettled, Visible;
    assert RunningOk(plan, pr, i);
    if j == i {
      RunBringsUpToDate(plan, pr.done, pr.disk, pr.clock, i);
    } else {
      RunChangesOwn(plan, pr.disk, pr.clock, i);
      PlanApart(plan, j, i);
      PlanActionOk(plan, j);
      assert DepsVisible(plan, pr.disk, j);
      assert plan.actions[j].depfile.Some? ==> Owns(plan.actions[j], plan.actions[j].depfile.value);
    }
  }

  /** The finished action's own fresh key, when it has no depfile. */
  lemma FinishKeepsOwnKey(plan: Plan, db: map<string, Key>, pr: Progress, i: nat)
    requires Finishing(plan, db, pr, i) && plan.actions[i].depfile.None?
    ensures FreshKey(plan, Written(plan, pr, i), plan.actions[i]) == FreshKey(plan, pr.disk, plan.actions[i])
  {
    hide PlanOk, DoneOk, OldOk, QueueOk, Ordered, Bookkeeping, AfterRun, MemoSettled, RunFits, Deterministic, FreshKey;
    var a := plan.actions[i];
    assert RunningOk(plan, pr, i);
    RunChangesOwn(plan, pr.disk, pr.clock, i);
    PlanActionOk(plan, i);
    forall p | p in a.statics ensures SameFile(pr.disk, Written(plan, pr, i), p) {
      assert Visible(plan, i, p);
      assert i !in plan.before[i];
    }
    SameDigests(plan, pr.disk, Written(plan, pr, i), PreparedInputs(a.statics, []));
    assert FreshKey(plan, Written(plan, pr, i), a) == FreshKey(plan, pr.disk, a) by {
      FreshKeyOf(plan, pr.disk, a);
      FreshKeyOf(plan, Written(plan, pr, i), a);
    }
  }

  lemma FreshKeyOf(plan: Plan, disk: Disk, a: Action)
    requires a.depfile.None?
    ensures FreshKey(plan, disk, a) == Key(a.id, a.recipe, DigestsOf(plan, disk, PreparedInputs(a.statics, [])), [])
  {
  }

  lemma FinishKeepsOther(plan: Plan, db: map<string, Key>, pr: Progress, i: nat, j: nat)
    requires Finishing(plan, db, pr, i) && j != i && j < |plan.actions|
    requires j < |plan.before| && Ready(plan, pr.done, j)
    ensures FreshKey(plan, Written(plan, pr, i), plan.actions[j]) == FreshKey(plan, pr.disk, plan.actions[j])
    ensures UpToDate(pr.disk, plan.actions[j]) ==> UpToDate(Written(plan, pr, i), plan.actions[j])
  {
    hide PlanOk, DoneOk, OldOk, QueueOk, Ordered, Bookkeeping, AfterRun, MemoSettled, UpToDate, FreshKey, RunFits, Deterministic, Visible;
    assert DepsVisible(plan, pr.disk, j);
    RunChangesOwn(plan, pr.disk, pr.clock, i);
    OthersUnseen(plan, pr.done, pr.disk, Written(plan, pr, i), j, i);
    PlanActionOk(plan, j);
    UnseenKeepsKey(plan, j, pr.disk, Written(plan, pr, i));
    if UpToDate(pr.disk, plan.actions[j]) {
      UnseenKeepsUpToDate(plan, j, pr.disk, Written(plan, pr, i));
    }
  }

  /** A re-run leaves its own stored key good, whatever the outputs were before, unless the key records a missing file. */
  lemma RerunKeepsEntry(plan: Plan, done: seq<nat>, disk: Disk, clock: nat, i: nat, k: Key)
    requires PlanOk(plan) && i < |plan.actions| && StampsBelow(disk, clock)
    requires i !in done && i < |plan.before| && Ready(plan, done, i)
    requires plan.actions[i].tool(ViewOf(disk)).Some?
    requires KeyOk(plan, disk, clock, i, k) && !RecordsMissing(k)
    ensures EntryOk(AfterRun(disk, clock, plan.actions[i], plan.actions[i].tool(ViewOf(disk)).value), clock + 1, plan.actions[i], k)
  {
    hide PlanOk, Visible, RunFits, DepList, OutputsAre, AfterRun, UpToDate, PreparedInputs;
    PlanActionOk(plan, i);
    var a := plan.actions[i];
    var disk2 := AfterRun(disk, clock, a, a.tool(ViewOf(disk)).value);
    RunChangesOwn(plan, disk, clock, i);
    if Spent(disk, clock, a, k) {
      SpentStays(disk, clock, disk2, clock + 1, a, k);
    } else if !Spent(disk2, clock + 1, a, k) {
      var v :| Taken(disk, clock, a, k, v);
      TakenStays(disk, clock, disk2, clock + 1, a, k, v);
      forall d | d in k.inputs || d in k.deps ensures Current(disk, d) {
        assert Describes(disk, clock, v, d) && d in k.inputs + k.deps && d.Seen?;
        assert !Gone(disk, clock, d);
      }
      assert Deterministic(a, v, ViewOf(disk));
      CurrentKeyRepeats(disk, clock, a, k, v);
      RunBringsUpToDate(plan, done, disk, clock, i);
      assert OutputsAre(disk2, a, a.tool(v).value.files) by { UpToDateOutputs(disk2, a); }
      assert Witness(disk2, clock + 1, a, k, v);
    }
  }

  lemma UpToDateOutputs(disk: Disk, a: Action)
    requires UpToDate(disk, a)
    ensures a.tool(ViewOf(disk)).Some? && OutputsAre(disk, a, a.tool(ViewOf(disk)).value.files)
  {
  }

  lemma FinishKeepsOld(plan: Plan, db: map<string, Key>, pr: Progress, i: nat, pr2: Progress, j: nat)
    requires Finishing(plan, db, pr, i) && j < |plan.actions|
    requires pr2.disk == Written(plan, pr, i) && pr2.clock == pr.clock + 1 && pr2.ran == pr.ran + [i]
    ensures OldOk(plan, db, pr2, j)
  {
    hide PlanOk, ActionOk, DoneOk, QueueOk, Ordered, AfterRun, MemoSettled, Visible, DepsVisible, EntryOk, RecordsMissing, StampsBelow;
    hide KeyOk, Evolves, DepList;
    var a := plan.actions[j];
    assert OldOk(plan, db, pr, j) && RunningOk(plan, pr, i);
    if a.id in db {
      RunChangesOwn(plan, pr.disk, pr.clock, i);
      KeyStays(plan, pr.disk, pr.clock, pr2.disk, pr2.clock, j, db[a.id]);
      if j == i {
        if !RecordsMissing(db[a.id]) {
          RerunKeepsEntry(plan, pr.done, pr.disk, pr.clock, i, db[a.id]);
        }
      } else {
        PlanApart(plan, j, i);
        FinishKeepsDepfile(plan, db, pr, i, j);
        if EntryOk(pr.disk, pr.clock, a, db[a.id]) {
          EntrySurvives(pr.disk, pr.clock, pr2.disk, pr2.clock, a, db[a.id]);
        }
      }
    }
  }

  lemma FinishKeepsDone(plan: Plan, db: map<string, Key>, pr: Progress, i: nat, pr2: Progress, j: nat)
    requires Finishing(plan, db, pr, i) && FinishStep(plan, pr, i) == Some(pr2) && j in pr2.done
    ensures DoneOk(plan, pr2, j)
  {
    hide PlanOk, OldOk, QueueOk, Ordered, AfterRun, MemoSettled, DepsVisible, UpToDate, FreshKey, Bookkeeping, StampsBelow;
    var a := plan.actions[i];
    assert RunningOk(plan, pr, i);
    assert pr2.disk == Written(plan, pr, i);
    if j == i {
      RunBringsUpToDate(plan, pr.done, pr.disk, pr.clock, i);
      if a.depfile.None? {
        FinishKeepsOwnKey(plan, db, pr, i);
      } else {
        assert pr2.queue[|pr.queue|].action == i;
      }
    } else {
      assert DoneOk(plan, pr, j);
      FinishKeepsOther(plan, db, pr, i, j);
      PlanApart(plan, j, i);
      if Queued(pr.queue, j) { QueueGrows(pr.queue, pr2.queue, j); }
    }
  }

  lemma QueueGrows(queue: seq<Refresh>, longer: seq<Refresh>, i: nat)
    requires queue <= longer && Queued(queue, i)
    ensures Queued(longer, i)
  {
    var n :| 0 <= n < |queue| && queue[n].action == i;
    assert longer[n].action == i;
  }

  lemma FinishKeepsRunning(plan: Plan, db: map<string, Key>, pr: Progress, i: nat, pr2: Progress, j: nat)
    requires Finishing(plan, db, pr, i) && FinishStep(plan, pr, i) == Some(pr2) && j in pr2.running
    ensures RunningOk(plan, pr2, j)
  {
    hide PlanOk, OldOk, QueueOk, Ordered, AfterRun, MemoSettled, DepsVisible, UpToDate, FreshKey, Bookkeeping, StampsBelow, DoneOk;
    hide DepList, PreparedInputs;
    assert RunningOk(plan, pr, j);
    assert pr2.disk == Written(plan, pr, i);
    FinishKeepsOther(plan, db, pr, i, j);
    FinishKeepsDepfile(plan, db, pr, i, j);
  }

  lemma FinishKeepsQueue(plan: Plan, db: map<string, Key>, pr: Progress, i: nat, pr2: Progress)
    requires Finishing(plan, db, pr, i) && FinishStep(plan, pr, i) == Some(pr2)
    ensures QueueOk(plan, pr2)
  {
    hide PlanOk, OldOk, Ordered, AfterRun, MemoSettled, UpToDate, FreshKey, Bookkeeping, StampsBelow, DoneOk, DepList, PreparedInputs, Visible;
    assert RunningOk(plan, pr, i);
    assert DepsVisible(plan, pr.disk, i);
    forall n: nat | n < |pr2.queue| ensures QueuedOk(plan, pr2, pr2.queue[n]) {
      if n < |pr.queue| {
        assert QueuedOk(plan, pr, pr.queue[n]);
      }
    }
    forall m: nat, n: nat | m < n < |pr2.queue| ensures pr2.queue[m].action != pr2.queue[n].action {
      assert QueuedOk(plan, pr, pr.queue[m]);
    }
  }

  lemma FinishKeepsBooks(plan: Plan, db: map<string, Key>, pr: Progress, i: nat, pr2: Progress)
    requires Finishing(plan, db, pr, i) && FinishStep(plan, pr, i) == Some(pr2)
    ensures Bookkeeping(plan, pr2)
  {
    hide PlanOk, OldOk, Ordered, AfterRun, MemoSettled, UpToDate, FreshKey, StampsBelow, DoneOk, DepList, PreparedInputs, Visible;
    hide RunningOk, QueueOk, DepsVisible, Queued;
    forall j: nat | j < |plan.actions| && plan.actions[j].id in pr2.next ensures j in pr2.done {
      if j != i { PlanApart(plan, j, i); }
    }
    forall j | j in pr2.ran && j < |plan.actions| && plan.actions[j].depfile.Some? ensures Queued(pr2.queue, j) {
      if j == i {
        assert pr2.queue[|pr.queue|].action == i;
        QueueHas(pr2.queue, |pr.queue|);
      } else {
        QueueGrows(pr.queue, pr2.queue, j);
      }
    }
  }

  lemma QueueHas(queue: seq<Refresh>, n: nat)
    requires n < |queue|
    ensures Queued(queue, queue[n].action)
  {
  }

  lemma FinishKeeps(plan: Plan, db: map<string, Key>, pr: Progress, i: nat, pr2: Progress)
    requires Finishing(plan, db, pr, i) && FinishStep(plan, pr, i) == Some(pr2)
    ensures BuildInv(plan, db, pr2)
  {
    hide PlanOk, OldOk, Ordered, AfterRun, MemoSettled, UpToDate, FreshKey, StampsBelow, DoneOk, DepList, PreparedInputs, Visible;
    hide QueueOk, DepsVisible, Queued, Bookkeeping;
    assert RunningOk(plan, pr, i);
    hide RunningOk;
    assert pr2.disk == Written(plan, pr, i);
    RunChangesOwn(plan, pr.disk, pr.clock, i);
    FinishKeepsMemo(plan, db, pr, i);
    OrderedGrows(plan, pr.done, i);
    FinishKeepsQueue(plan, db, pr, i, pr2);
    FinishKeepsBooks(plan, db, pr, i, pr2);
    forall j | j in pr2.done ensures DoneOk(plan, pr2, j) {
      FinishKeepsDone(plan, db, pr, i, pr2, j);
    }
    forall j | j in pr2.running ensures RunningOk(plan, pr2, j) {
      FinishKeepsRunning(plan, db, pr, i, pr2, j);
    }
    forall j: nat | j < |plan.actions| ensures OldOk(plan, db, pr2, j) {
      FinishKeepsOld(plan, db, pr, i, pr2, j);
    }
    forall j: nat | j < |plan.actions| ensures j < |plan.before| && DepsVisible(plan, pr2.disk, j) {
      PlanActionOk(plan, j);
      FinishKeepsDepfile(plan, db, pr, i, j);
    }
  }

  // ---- whole builds --------------------------------------------------------------------------

  lemma BeginOk(plan: Plan, st: State)
    requires PlanOk(plan) && Inv(plan, st)
    ensures BuildInv(plan, st.db, Begin(st))
  {
    hide PlanOk, EntryOk, DepsVisible, StampsBelow;
    forall i: nat | i < |plan.actions| ensures OldOk(plan, st.db, Begin(st), i) {
      assert StoredOk(plan, st, i);
    }
  }

  lemma {:induction false} StepsKeep(plan: Plan, db: map<string, Key>, pr: Progress, steps: seq<Step>)
    requires PlanOk(plan) && BuildInv(plan, db, pr) && TakeSteps(plan, db, pr, steps).Some?
    ensures BuildInv(plan, db, TakeSteps(plan, db, pr, steps).value)
    decreases |steps|
  {
    hide PlanOk, BuildInv, PrepareStep, FinishStep;
    if steps != [] {
      StepsKeep(plan, db, pr, steps[..|steps| - 1]);
      var pr1 := TakeSteps(plan, db, pr, steps[..|steps| - 1]).value;
      match steps[|steps| - 1]
      case Prepare(i) =>
        PrepareKeeps(plan, db, pr1, i);
      case Finish(i) =>
        FinishSituation(plan, db, pr1, i);
        FinishKeeps(plan, db, pr1, i, FinishStep(plan, pr1, i).value);
    }
  }

  lemma FinishSituation(plan: Plan, db: map<string, Key>, pr: Progress, i: nat)
    requires PlanOk(plan) && BuildInv(plan, db, pr) && i < |plan.actions| && i in pr.running
    requires FinishStep(plan, pr, i).Some?
    ensures Finishing(plan, db, pr, i)
  {
    hide PlanOk, OldOk, Ordered, AfterRun, MemoSettled, UpToDate, FreshKey, StampsBelow, QueueOk, DepsVisible, Bookkeeping, RunningOk;
    assert i in pr.done ==> DoneOk(plan, pr, i);
  }

  function RefreshedKey(plan: Plan, disk: Disk, r: Refresh): Key
    requires r.action < |plan.actions|
  {
    var a := plan.actions[r.action];
    Key(a.id, a.recipe, DigestsOf(plan, disk, RefreshedInputs(r.inputs, r.oldDeps, DepList(disk, a))),
        DigestsOf(plan, disk, DepList(disk, a)))
  }

  /** The keys after the first `n` refreshes of a finished schedule `pr`. */
  ghost predicate RefreshInv(plan: Plan, pr: Progress, now: Progress, n: nat)
    requires n <= |pr.queue|
  {
    && now == pr.(memo := now.memo, next := now.next)
    && MemoSettled(plan, pr.disk, now.memo, pr.done)
    && (forall m: nat :: m < n ==> KeyIs(plan, now, pr.queue[m].action) && now.next[plan.actions[pr.queue[m].action].id] == RefreshedKey(plan, pr.disk, pr.queue[m]))
    && (forall i :: i in pr.done && !Queued(pr.queue, i) ==>
          KeyIs(plan, now, i) && now.next[plan.actions[i].id] == FreshKey(plan, pr.disk, plan.actions[i]))
    && (forall i: nat :: i < |plan.actions| && plan.actions[i].id in now.next ==> i in pr.done)
  }

  predicate KeyIs(plan: Plan, pr: Progress, i: nat) {
    i < |plan.actions| && plan.actions[i].id in pr.next
  }

  lemma RefreshComputes(plan: Plan, db: map<string, Key>, pr: Progress, memo: Memo, n: nat)
    requires PlanOk(plan) && BuildInv(plan, db, pr) && n < |pr.queue|
    requires MemoSettled(plan, pr.disk, memo, pr.done)
    ensures pr.queue[n].action < |plan.actions|
    ensures var r := pr.queue[n]; var a := plan.actions[r.action]; var deps := DepList(pr.disk, a);
            var (d1, m1) := HashList(plan, pr.disk, memo, RefreshedInputs(r.inputs, r.oldDeps, deps));
            var (d2, m2) := HashList(plan, pr.disk, m1, deps);
            && Key(a.id, a.recipe, d1, d2) == RefreshedKey(plan, pr.disk, r)
            && MemoSettled(plan, pr.disk, m2, pr.done)
  {
    hide PlanOk, OldOk, Ordered, UpToDate, FreshKey, StampsBelow, Bookkeeping, RunningOk, DepList, RunFits, Deterministic;
    var r := pr.queue[n];
    assert QueuedOk(plan, pr, r);
    var a := plan.actions[r.action];
    PlanActionOk(plan, r.action);
    assert DoneOk(plan, pr, r.action) && DepsVisible(plan, pr.disk, r.action);
    var deps := DepList(pr.disk, a);
    var inputs := RefreshedInputs(r.inputs, r.oldDeps, deps);
    MemoAgreesWithDisk(plan, pr.disk, memo, inputs);
    MemoAgreesWithDisk(plan, pr.disk, HashList(plan, pr.disk, memo, inputs).1, deps);
    forall p | p in inputs || p in deps ensures Settled(plan, pr.done, p) {
      WithoutHas(r.inputs, r.oldDeps, p);
      assert Visible(plan, r.action, p);
    }
  }

  lemma RefreshStarts(plan: Plan, db: map<string, Key>, pr: Progress)
    requires PlanOk(plan) && BuildInv(plan, db, pr)
    ensures RefreshInv(plan, pr, pr, 0)
  {
    hide PlanOk, OldOk, Ordered, UpToDate, FreshKey, StampsBelow, RunningOk, MemoSettled, RefreshedKey, Queued, DepsVisible, QueueOk;
    forall i | i in pr.done ensures DoneOk(plan, pr, i) {}
  }

  lemma {:induction false} RefreshKeeps(plan: Plan, db: map<string, Key>, pr: Progress, n: nat)
    requires PlanOk(plan) && BuildInv(plan, db, pr) && n <= |pr.queue|
    requires RefreshSteps(plan, pr, n).Some?
    ensures RefreshInv(plan, pr, RefreshSteps(plan, pr, n).value, n)
  {
    hide PlanOk, BuildInv, RefreshInv, RefreshStep;
    if n == 0 {
      RefreshStarts(plan, db, pr);
    } else {
      RefreshKeeps(plan, db, pr, n - 1);
      RefreshStepKeeps(plan, db, pr, RefreshSteps(plan, pr, n - 1).value, n);
    }
  }

  lemma RefreshStepKeeps(plan: Plan, db: map<string, Key>, pr: Progress, was: Progress, n: nat)
    requires PlanOk(plan) && BuildInv(plan, db, pr) && 0 < n <= |pr.queue|
    requires RefreshInv(plan, pr, was, n - 1) && RefreshStep(plan, was, pr.queue[n - 1]).Some?
    ensures RefreshInv(plan, pr, RefreshStep(plan, was, pr.queue[n - 1]).value, n)
  {
    hide PlanOk, OldOk, Ordered, UpToDate, FreshKey, StampsBelow, RunningOk, DepList, MemoSettled, RefreshedKey, HashList, Queued, DepsVisible;
    hide RefreshedInputs, DoneOk, Bookkeeping;
    var now := RefreshStep(plan, was, pr.queue[n - 1]).value;
    var r := pr.queue[n - 1];
    RefreshComputes(plan, db, pr, was.memo, n - 1);
    assert QueuedOk(plan, pr, r);
    assert now.next == was.next[plan.actions[r.action].id := RefreshedKey(plan, pr.disk, r)];
    forall i: nat | i < |plan.actions| && i != r.action ensures plan.actions[i].id != plan.actions[r.action].id {
      PlanApart(plan, i, r.action);
    }
    QueueHas(pr.queue, n - 1);
  }

  /** A key taken of the disk now, naming all the depfile lists, is a good entry for an action that is up to date. */
  lemma EntryOfDisk(plan: Plan, disk: Disk, clock: nat, a: Action, inputs: seq<Path>)
    requires StampsBelow(disk, clock) && UpToDate(disk, a)
    ensures EntryOk(disk, clock, a, Key(a.id, a.recipe, DigestsOf(plan, disk, inputs), DigestsOf(plan, disk, DepList(disk, a))))
  {
    hide DepList;
    var k := Key(a.id, a.recipe, DigestsOf(plan, disk, inputs), DigestsOf(plan, disk, DepList(disk, a)));
    FreshPaths(plan, disk, DepList(disk, a));
    forall d | d in k.inputs || d in k.deps ensures Describes(disk, clock, ViewOf(disk), d) {
      var paths := if d in k.inputs then inputs else DepList(disk, a);
      var n :| 0 <= n < |paths| && d == DigestsOf(plan, disk, paths)[n];
      assert d == DigestOf(plan, disk, paths[n]);
    }
    assert Witness(disk, clock, a, k, ViewOf(disk));
  }

  /** And such a key is one its action's prepare or refresh computed. */
  lemma KeyOfDisk(plan: Plan, disk: Disk, clock: nat, i: nat, inputs: seq<Path>)
    requires i < |plan.actions| && i < |plan.before| && StampsBelow(disk, clock) && UpToDate(disk, plan.actions[i])
    requires DepsVisible(plan, disk, i) && forall p :: p in inputs ==> Visible(plan, i, p)
    ensures var a := plan.actions[i];
            KeyOk(plan, disk, clock, i, Key(a.id, a.recipe, DigestsOf(plan, disk, inputs), DigestsOf(plan, disk, DepList(disk, a))))
  {
    hide Visible, Spent, UpToDate, Witness;
    var a := plan.actions[i];
    var deps := DepList(disk, a);
    var k := Key(a.id, a.recipe, DigestsOf(plan, disk, inputs), DigestsOf(plan, disk, deps));
    forall d | d in k.inputs || d in k.deps ensures d == DigestOf(plan, disk, d.path) && DigestOk(plan, disk, clock, i, d) {
      var paths := if d in k.inputs then inputs else deps;
      var n :| 0 <= n < |paths| && d == DigestsOf(plan, disk, paths)[n];
      assert d == DigestOf(plan, disk, paths[n]);
    }
    EntryOfDisk(plan, disk, clock, a, inputs);
    assert Spent(disk, clock, a, k) || exists v :: Taken(disk, clock, a, k, v) by { EntryTaken(disk, clock, a, k); }
  }

  lemma EntryTaken(disk: Disk, clock: nat, a: Action, k: Key)
    requires EntryOk(disk, clock, a, k)
    ensures Spent(disk, clock, a, k) || exists v :: Taken(disk, clock, a, k, v)
  {
    hide Spent, Taken;
    if !Spent(disk, clock, a, k) {
      var v :| Witness(disk, clock, a, k, v);
      assert Taken(disk, clock, a, k, v);
    }
  }

  /** A successful build brings every visited action up to date and stores only good entries. */
  lemma BuildKeeps(plan: Plan, st: State, steps: seq<Step>)
    requires PlanOk(plan) && Inv(plan, st)
    requires BuildProgress(plan, st, steps).Some?
    ensures var pr := BuildProgress(plan, st, steps).value;
            && Inv(plan, Stored(st, pr))
            && Ordered(plan, pr.done)
            && forall i :: i in pr.done ==> i < |plan.actions| && UpToDate(pr.disk, plan.actions[i])
  {
    hide PlanOk, TakeSteps, RefreshSteps, BuildInv, Inv, RefreshInv, UpToDate, Ordered;
    BeginOk(plan, st);
    StepsKeep(plan, st.db, Begin(st), steps);
    var pr0 := TakeSteps(plan, st.db, Begin(st), steps).value;
    RefreshKeeps(plan, st.db, pr0, |pr0.queue|);
    StoredKeeps(plan, st, pr0, BuildProgress(plan, st, steps).value);
  }

  lemma StoredKeeps(plan: Plan, st: State, pr: Progress, now: Progress)
    requires PlanOk(plan) && BuildInv(plan, st.db, pr) && RefreshInv(plan, pr, now, |pr.queue|)
    ensures Inv(plan, Stored(st, now))
    ensures Ordered(plan, now.done)
    ensures forall i :: i in now.done ==> i < |plan.actions| && UpToDate(now.disk, plan.actions[i])
  {
    hide PlanOk, OldOk, Ordered, UpToDate, StampsBelow, DepsVisible, MemoSettled, RunningOk, QueueOk, Bookkeeping, RefreshInv, Queued;
    assert now == pr.(memo := now.memo, next := now.next) by { RefreshFrame(plan, pr, now); }
    forall i | i in now.done ensures i < |plan.actions| && UpToDate(now.disk, plan.actions[i]) {
      assert DoneOk(plan, pr, i);
    }
    forall i: nat | i < |plan.actions| ensures StoredOk(plan, Stored(st, now), i) {
      StoredEntry(plan, st, pr, now, i);
    }
  }

  lemma RefreshFrame(plan: Plan, pr: Progress, now: Progress)
    requires RefreshInv(plan, pr, now, |pr.queue|)
    ensures now == pr.(memo := now.memo, next := now.next)
  {
  }

  lemma StoredEntry(plan: Plan, st: State, pr: Progress, now: Progress, i: nat)
    requires PlanOk(plan) && BuildInv(plan, st.db, pr) && RefreshInv(plan, pr, now, |pr.queue|)
    requires i < |plan.actions|
    ensures StoredOk(plan, Stored(st, now), i)
  {
    hide PlanOk, Ordered, UpToDate, StampsBelow, DepsVisible, MemoSettled, RunningOk, EntryOk, RecordsMissing, DepList, PreparedInputs, RefreshedInputs;
    hide KeyOk, Mislisted, Visible;
    var a := plan.actions[i];
    if a.id in now.next {
      assert DoneOk(plan, pr, i) && DepsVisible(plan, pr.disk, i);
      if Queued(pr.queue, i) {
        var n: nat :| n < |pr.queue| && pr.queue[n].action == i;
        assert KeyIs(plan, now, pr.queue[n].action) && QueuedOk(plan, pr, pr.queue[n]);
        var inputs := RefreshedInputs(pr.queue[n].inputs, pr.queue[n].oldDeps, DepList(pr.disk, a));
        RefreshedVisible(plan, pr.disk, i, pr.queue[n].oldDeps);
        EntryOfDisk(plan, pr.disk, pr.clock, a, inputs);
        KeyOfDisk(plan, pr.disk, pr.clock, i, inputs);
      } else {
        assert KeyIs(plan, now, i);
        PreparedVisible(plan, pr.disk, i);
        EntryOfDisk(plan, pr.disk, pr.clock, a, PreparedInputs(a.statics, DepList(pr.disk, a)));
        KeyOfDisk(plan, pr.disk, pr.clock, i, PreparedInputs(a.statics, DepList(pr.disk, a)));
      }
    } else if a.id in st.db {
      assert OldOk(plan, st.db, pr, i);
      KeyKept(plan, st.db, pr, now, i);
      assert i !in pr.ran;
    }
  }

  lemma PreparedVisible(plan: Plan, disk: Disk, i: nat)
    requires PlanOk(plan) && i < |plan.actions| && i < |plan.before| && DepsVisible(plan, disk, i)
    ensures forall p :: p in PreparedInputs(plan.actions[i].statics, DepList(disk, plan.actions[i])) ==> Visible(plan, i, p)
  {
    hide PlanOk, Visible, RunFits, Deterministic, DepList;
    PlanActionOk(plan, i);
  }

  lemma RefreshedVisible(plan: Plan, disk: Disk, i: nat, oldDeps: seq<Path>)
    requires PlanOk(plan) && i < |plan.actions| && i < |plan.before| && DepsVisible(plan, disk, i)
    requires forall p :: p in oldDeps ==> Visible(plan, i, p)
    ensures forall p :: p in RefreshedInputs(PreparedInputs(plan.actions[i].statics, oldDeps), oldDeps, DepList(disk, plan.actions[i])) ==>
              Visible(plan, i, p)
  {
    hide PlanOk, Visible, RunFits, Deterministic, DepList;
    PlanActionOk(plan, i);
    var prepared := PreparedInputs(plan.actions[i].statics, oldDeps);
    forall p | p in RefreshedInputs(prepared, oldDeps, DepList(disk, plan.actions[i])) ensures Visible(plan, i, p) {
      WithoutHas(prepared, oldDeps, p);
    }
  }

  /** What the schedule recorded for a visited action is still recorded after the refreshes. */
  lemma KeyKept(plan: Plan, db: map<string, Key>, pr: Progress, now: Progress, i: nat)
    requires PlanOk(plan) && BuildInv(plan, db, pr) && RefreshInv(plan, pr, now, |pr.queue|)
    requires i < |plan.actions|
    ensures i in pr.done <==> plan.actions[i].id in now.next
  {
    hide PlanOk, Ordered, UpToDate, StampsBelow, DepsVisible, MemoSettled, RunningOk, EntryOk, RecordsMissing, DepList, PreparedInputs, RefreshedInputs, FreshKey, RefreshedKey, OldOk;
    if i in pr.done {
      if Queued(pr.queue, i) {
        var n: nat :| n < |pr.queue| && pr.queue[n].action == i;
        assert KeyIs(plan, now, pr.queue[n].action);
      } else {
        assert KeyIs(plan, now, i);
      }
    }
  }
}
