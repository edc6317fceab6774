/** Where a failed build breaks the promise: every harm it does comes out as a wrong skip. */
module BuildLimits {
  import opened Wrappers
  import opened ActionKeys
  import opened IncrementalBuild
  import opened BuildHistory
  import opened BuildRuns
  import opened NullBuild

  // ---- harm comes out ------------------------------------------------------------------------

  /** The state once the files a stored key does not know are removed. */
  function Recalled(st: State, a: Action): State {
    if a.id in st.db then st.(disk := st.disk - Unrecorded(a, st.db[a.id])) else st
  }

  predicate Visited(pr: Progress, j: nat) {
    j in pr.done || j in pr.running
  }

  /** The files a key tells of are the same on both disks. */
  ghost predicate SameKnown(k: Key, disk: Disk, disk2: Disk) {
    forall d :: d in k.inputs || d in k.deps ==> SameFile(disk, disk2, d.path)
  }

  /** A schedule that comes to action `i` through actions with good keys, and changes no file that its key tells of. */
  ghost predicate ComesTo(plan: Plan, st: State, steps: seq<Step>, i: nat) {
    i < |plan.actions| && plan.actions[i].id in st.db &&
    var p := TakeSteps(plan, st.db, Begin(st), steps);
    && p.Some? && Startable(plan, p.value, i)
    && (forall j: nat :: j < |plan.actions| && Visited(p.value, j) ==> StoredOk(plan, st, j))
    && SameKnown(st.db[plan.actions[i].id], st.disk, p.value.disk)
  }

  lemma NothingBefore(plan: Plan, st: State, i: nat)
    requires i < |plan.actions| && i < |plan.before| && plan.before[i] == {} && plan.actions[i].id in st.db
    ensures ComesTo(plan, st, [], i)
  {}

  predicate SameKey(db: map<string, Key>, db2: map<string, Key>, id: string) {
    (id in db <==> id in db2) && (id in db ==> db[id] == db2[id])
  }

  /** A schedule depends on the keys of the actions it visits only. */
  lemma {:induction false} SameKeysSameSteps(plan: Plan, db: map<string, Key>, db2: map<string, Key>, pr: Progress, steps: seq<Step>)
    requires TakeSteps(plan, db, pr, steps).Some?
    requires forall j: nat :: j < |plan.actions| && Visited(TakeSteps(plan, db, pr, steps).value, j) ==> SameKey(db, db2, plan.actions[j].id)
    ensures TakeSteps(plan, db2, pr, steps) == TakeSteps(plan, db, pr, steps)
    decreases |steps|
  {
    hide PrepareStep, FinishStep;
    if steps != [] {
      var pr1 := TakeSteps(plan, db, pr, steps[..|steps| - 1]).value;
      match steps[|steps| - 1] {
        case Prepare(i) =>
          PrepareGrows(plan, db, pr1, i);
          PrepareByKey(plan, db, db2, pr1, i);
        case Finish(i) =>
          FinishGrows(plan, pr1, i);
      }
      SameKeysSameSteps(plan, db, db2, pr, steps[..|steps| - 1]);
    }
  }

  lemma PrepareByKey(plan: Plan, db: map<string, Key>, db2: map<string, Key>, pr: Progress, i: nat)
    requires i < |plan.actions| && SameKey(db, db2, plan.actions[i].id)
    ensures PrepareStep(plan, db2, pr, i) == PrepareStep(plan, db, pr, i)
  {
    hide HashList, DepList, PreparedInputs;
  }

  /** No step of a schedule writes the files of an action it does not run. */
  lemma {:induction false} StepsLeaveAlone(plan: Plan, db: map<string, Key>, pr: Progress, steps: seq<Step>, i: nat, p: Path)
    requires PlanOk(plan) && BuildInv(plan, db, pr) && TakeSteps(plan, db, pr, steps).Some?
    requires i < |plan.actions| && Owns(plan.actions[i], p) && i !in TakeSteps(plan, db, pr, steps).value.ran
    ensures SameFile(pr.disk, TakeSteps(plan, db, pr, steps).value.disk, p)
    decreases |steps|
  {
    hide PlanOk, BuildInv, PrepareStep, FinishStep;
    if steps != [] {
      var earlier := steps[..|steps| - 1];
      var pr1 := TakeSteps(plan, db, pr, earlier).value;
      StepsKeep(plan, db, pr, earlier);
      match steps[|steps| - 1] {
        case Prepare(j) =>
          PrepareGrows(plan, db, pr1, j);
          StepsLeaveAlone(plan, db, pr, earlier, i, p);
        case Finish(j) =>
          FinishGrows(plan, pr1, j);
          StepsLeaveAlone(plan, db, pr, earlier, i, p);
          FinishSituation(plan, db, pr1, j);
          FinishLeavesOthers(plan, db, pr1, j, i, p);
      }
    }
  }

  lemma FinishLeavesOthers(plan: Plan, db: map<string, Key>, pr: Progress, j: nat, i: nat, p: Path)
    requires Finishing(plan, db, pr, j) && FinishStep(plan, pr, j).Some?
    requires i < |plan.actions| && i != j && Owns(plan.actions[i], p)
    ensures SameFile(pr.disk, FinishStep(plan, pr, j).value.disk, p)
  {
    hide PlanOk, BuildInv, AfterRun;
    PlanSized(plan);
    StampsOf(plan, db, pr);
    RunChangesOwn(plan, pr.disk, pr.clock, j);
    PlanApart(plan, i, j);
  }

  lemma StampsOf(plan: Plan, db: map<string, Key>, pr: Progress)
    requires |plan.before| == |plan.actions| && BuildInv(plan, db, pr)
    ensures StampsBelow(pr.disk, pr.clock)
  {}

  lemma {:induction false} RemovalsLead(plan: Plan, st: State, paths: set<Path>) returns (events: seq<Event>)
    requires PlanOk(plan)
    ensures |plan.before| == |plan.actions|
    ensures Leads(plan, st, events, st.(disk := st.disk - paths)) && forall e :: e in events ==> e.Remove? && e.path in paths
    decreases |paths|
  {
    hide PlanOk, Lawful, Happen;
    PlanSized(plan);
    if paths == {} {
      events := [];
      assert st.disk - paths == st.disk;
    } else {
      var p :| p in paths;
      var earlier := RemovalsLead(plan, st, paths - {p});
      events := earlier + [Remove(p)];
      assert events[..|events| - 1] == earlier;
      RemovalHappens(plan, st, paths, p);
    }
  }

  lemma RemovalHappens(plan: Plan, st: State, paths: set<Path>, p: Path)
    requires |plan.before| == |plan.actions| && p in paths
    ensures var mid := st.(disk := st.disk - (paths - {p}));
            Lawful(plan, mid, Remove(p)) && Happen(plan, mid, Remove(p)) == Some(st.(disk := st.disk - paths))
  {
    assert (st.disk - (paths - {p})) - {p} == st.disk - paths;
  }

  /** Where a key is neither spent nor off its list, the disk without the files it does not know asks for it again. */
  lemma RecalledKey(plan: Plan, st: State, i: nat, k: Key)
    requires PlanOk(plan) && i < |plan.actions| && KeyOk(plan, st.disk, st.clock, i, k)
    requires !Spent(st.disk, st.clock, plan.actions[i], k) && !Mislisted(st.disk, plan.actions[i], k)
    requires i < |plan.before| && i !in plan.before[i]
    ensures var disk := st.disk - Unrecorded(plan.actions[i], k);
            && FreshKey(plan, disk, plan.actions[i]) == k
            && AllExist(disk, DepList(disk, plan.actions[i]))
            && (forall p :: p in plan.actions[i].outputs && p in st.disk ==> p in disk)
  {
    hide PlanOk, PreparedInputs, Taken, Gone;
    var a := plan.actions[i];
    var disk := st.disk - Unrecorded(a, k);
    PlanActionOk(plan, i);
    RecalledList(plan, st, i, k);
    forall p | p in a.outputs ensures p !in Unrecorded(a, k) {
      assert Owns(a, p);
      forall d | d in k.inputs ensures d.path != p {
        assert DigestOk(plan, st.disk, st.clock, i, d);
      }
    }
    hide DepList, Unrecorded, ActionOk, Visible;
    forall d | d in k.inputs || d in k.deps ensures d == DigestOf(plan, disk, d.path) {
      RecalledDigest(plan, st, i, k, d);
    }
    DigestsFrom(plan, disk, k.inputs);
    DigestsFrom(plan, disk, k.deps);
    forall p | p in PathsOf(k.deps) ensures p in disk {
      var n :| 0 <= n < |k.deps| && PathsOf(k.deps)[n] == p;
      assert k.deps[n] in k.deps && k.deps[n].Seen?;
    }
  }

  lemma DigestsFrom(plan: Plan, disk: Disk, digests: seq<Digest>)
    requires forall d :: d in digests ==> d == DigestOf(plan, disk, d.path)
    ensures DigestsOf(plan, disk, PathsOf(digests)) == digests
  {
    forall n | 0 <= n < |digests| ensures DigestsOf(plan, disk, PathsOf(digests))[n] == digests[n] {
      assert digests[n] in digests;
    }
  }

  lemma RecalledList(plan: Plan, st: State, i: nat, k: Key)
    requires PlanOk(plan) && i < |plan.actions| && KeyOk(plan, st.disk, st.clock, i, k)
    requires !Mislisted(st.disk, plan.actions[i], k)
    ensures DepList(st.disk - Unrecorded(plan.actions[i], k), plan.actions[i]) == PathsOf(k.deps)
  {
    hide PlanOk, Spent, Taken;
    var a := plan.actions[i];
    if k.deps == [] {
    } else if a.depfile.Some? {
      forall d | d in k.inputs ensures d.path != a.depfile.value {
        assert DigestOk(plan, st.disk, st.clock, i, d);
        assert Owns(a, a.depfile.value);
      }
      assert SameFile(st.disk, st.disk - Unrecorded(a, k), a.depfile.value);
    }
  }

  lemma RecalledDigest(plan: Plan, st: State, i: nat, k: Key, d: Digest)
    requires i < |plan.actions| && KeyOk(plan, st.disk, st.clock, i, k) && !Spent(st.disk, st.clock, plan.actions[i], k)
    requires d in k.inputs || d in k.deps
    ensures d == DigestOf(plan, st.disk - Unrecorded(plan.actions[i], k), d.path)
  {
    hide Taken;
    assert DigestOk(plan, st.disk, st.clock, i, d) && !Gone(st.disk, st.clock, d);
    if d.Seen? {
      KnownFile(plan, st.disk, st.clock, i, k, d);
    } else {
      assert d in k.inputs && d.path in Unrecorded(plan.actions[i], k);
    }
  }

  /** Only the keys that are good; the invariant of a build asks for no others. */
  ghost function GoodKeys(plan: Plan, st: State): map<string, Key>
    requires |plan.before| == |plan.actions|
  {
    map id | id in st.db && (exists j: nat :: j < |plan.actions| && plan.actions[j].id == id && StoredOk(plan, st, j)) :: st.db[id]
  }

  lemma GoodKeysOk(plan: Plan, st: State)
    requires PlanOk(plan) && StampsBelow(st.disk, st.clock)
    requires forall j: nat :: j < |plan.actions| ==> j < |plan.before| && DepsVisible(plan, st.disk, j)
    ensures |plan.before| == |plan.actions| && Inv(plan, st.(db := GoodKeys(plan, st)))
    ensures forall j: nat :: j < |plan.actions| && StoredOk(plan, st, j) ==> SameKey(st.db, GoodKeys(plan, st), plan.actions[j].id)
  {
    PlanSized(plan);
    hide PlanOk, KeyOk, EntryOk, Mislisted, DepsVisible, StampsBelow;
    var good := st.(db := GoodKeys(plan, st));
    forall j: nat | j < |plan.actions| ensures StoredOk(plan, good, j) {
      if plan.actions[j].id in good.db {
        var m: nat :| m < |plan.actions| && plan.actions[m].id == plan.actions[j].id && StoredOk(plan, st, m);
        if m != j {
          PlanApart(plan, m, j);
        }
      }
    }
  }

  /** What a schedule leaves of an action it comes to. */
  lemma Untouched(plan: Plan, st: State, steps: seq<Step>, i: nat)
    requires PlanOk(plan) && StampsBelow(st.disk, st.clock) && ComesTo(plan, st, steps, i)
    requires forall j: nat :: j < |plan.actions| ==> j < |plan.before| && DepsVisible(plan, st.disk, j)
    ensures var pr := TakeSteps(plan, st.db, Begin(st), steps).value;
            && (forall p :: Owns(plan.actions[i], p) ==> SameFile(st.disk, pr.disk, p))
            && MemoSettled(plan, pr.disk, pr.memo, pr.done) && DepsVisible(plan, pr.disk, i) && i !in plan.before[i]
  {
    hide PlanOk, Inv, BuildInv, TakeSteps, StoredOk, MemoSettled, DepsVisible, StampsBelow, SameKey, GoodKeys;
    PlanSized(plan);
    GoodKeysOk(plan, st);
    var good := GoodKeys(plan, st);
    SameKeysSameSteps(plan, st.db, good, Begin(st), steps);
    BeginOk(plan, st.(db := good));
    StepsKeep(plan, good, Begin(st), steps);
    var pr := TakeSteps(plan, st.db, Begin(st), steps).value;
    InvParts(plan, good, pr, i);
    RanIsDone(plan, good, pr, i);
    forall p | Owns(plan.actions[i], p) ensures SameFile(st.disk, pr.disk, p) {
      StepsLeaveAlone(plan, good, Begin(st), steps, i, p);
    }
  }

  lemma RanIsDone(plan: Plan, db: map<string, Key>, pr: Progress, i: nat)
    requires |plan.before| == |plan.actions| && BuildInv(plan, db, pr)
    ensures i in pr.ran ==> i in pr.done
  {}

  /** The same key on a disk that differs in nothing the key tells of. */
  lemma KnownKeepsKey(plan: Plan, disk: Disk, disk2: Disk, i: nat, k: Key)
    requires i < |plan.actions| && FreshKey(plan, disk, plan.actions[i]) == k && SameKnown(k, disk, disk2)
    requires forall p :: Owns(plan.actions[i], p) ==> SameFile(disk, disk2, p)
    requires AllExist(disk, DepList(disk, plan.actions[i]))
    ensures FreshKey(plan, disk2, plan.actions[i]) == k
    ensures DepList(disk2, plan.actions[i]) == DepList(disk, plan.actions[i]) && AllExist(disk2, DepList(disk2, plan.actions[i]))
    ensures forall p :: p in plan.actions[i].statics || p in DepList(disk, plan.actions[i]) ==> SameFile(disk, disk2, p)
  {
    var a := plan.actions[i];
    assert a.depfile.Some? ==> Owns(a, a.depfile.value);
    assert DepList(disk2, a) == DepList(disk, a);
    hide DepList, SameFile;
    var deps := DepList(disk, a);
    var inputs := PreparedInputs(a.statics, deps);
    FreshPaths(plan, disk, inputs);
    forall p | p in inputs ensures SameFile(disk, disk2, p) {
      var n :| 0 <= n < |inputs| && inputs[n] == p;
      assert k.inputs[n].path == p && k.inputs[n] in k.inputs;
    }
    SameDigests(plan, disk, disk2, inputs);
    SameDigests(plan, disk, disk2, deps);
    hide SameKnown;
    assert AllExist(disk2, deps) by { SameExist(disk, disk2, deps); }
  }

  lemma SameExist(disk: Disk, disk2: Disk, paths: seq<Path>)
    requires AllExist(disk, paths) && forall p :: p in paths ==> SameFile(disk, disk2, p)
    ensures AllExist(disk2, paths)
  {}

  /** An action that is not up to date stays so when nothing it owns or reads changes. */
  lemma StillStale(plan: Plan, disk: Disk, disk2: Disk, i: nat)
    requires PlanOk(plan) && i < |plan.actions| && !UpToDate(disk, plan.actions[i])
    requires forall p :: Owns(plan.actions[i], p) ==> SameFile(disk, disk2, p)
    requires DepList(disk2, plan.actions[i]) == DepList(disk, plan.actions[i])
    requires forall p :: p in plan.actions[i].statics || p in DepList(disk, plan.actions[i]) ==> SameFile(disk, disk2, p)
    ensures !UpToDate(disk2, plan.actions[i])
  {
    hide PlanOk, Visible, RunFits, DepList;
    PlanActionOk(plan, i);
    var a := plan.actions[i];
    assert Deterministic(a, ViewOf(disk2), ViewOf(disk));
    assert forall p :: p in a.outputs ==> Owns(a, p);
  }

  /** Once the unknown files are gone, a build that comes to a harmed action without changing what its key tells of
      skips it, although a run would write something else. */
  lemma HarmIsSkipped(plan: Plan, st: State, i: nat, steps: seq<Step>)
    requires PlanOk(plan) && i < |plan.actions| && plan.actions[i].id in st.db && StampsBelow(st.disk, st.clock)
    requires forall j: nat :: j < |plan.actions| ==> j < |plan.before| && DepsVisible(plan, st.disk, j)
    requires KeyOk(plan, st.disk, st.clock, i, st.db[plan.actions[i].id]) && !Harmless(st, plan.actions[i])
    requires ComesTo(plan, Recalled(st, plan.actions[i]), steps, i)
    ensures var now := Recalled(st, plan.actions[i]);
            var pr := TakeSteps(plan, now.db, Begin(now), steps).value;
            && TakeStep(plan, now.db, pr, Prepare(i)).Some?
            && i in TakeStep(plan, now.db, pr, Prepare(i)).value.done
            && !UpToDate(pr.disk, plan.actions[i])
  {
    var a := plan.actions[i];
    var now, k := Recalled(st, a), st.db[a.id];
    RecalledFits(plan, st, a);
    hide PlanOk, KeyOk, Spent, Mislisted, Unrecorded, StampsBelow, DepsVisible, StoredOk, TakeSteps, Recalled, UpToDate, FreshKey, DepList;
    hide MemoSettled, SameKnown;
    Untouched(plan, now, steps, i);
    var pr := TakeSteps(plan, now.db, Begin(now), steps).value;
    RecalledIs(st, a);
    RecalledKey(plan, st, i, k);
    HarmedOutputs(st, a);
    KnownKeepsKey(plan, now.disk, pr.disk, i, k);
    StillStale(plan, now.disk, pr.disk, i);
    HasOutputs(plan, i);
    PrepareComputes(plan, pr, i);
    OwnedExist(a, now.disk, pr.disk);
    PrepareHits(plan, now.db, pr, i);
  }

  lemma RecalledIs(st: State, a: Action)
    requires a.id in st.db
    ensures Recalled(st, a) == st.(disk := st.disk - Unrecorded(a, st.db[a.id]))
  {}

  lemma OwnedExist(a: Action, disk: Disk, disk2: Disk)
    requires AllExist(disk, a.outputs) && forall p :: Owns(a, p) ==> SameFile(disk, disk2, p)
    ensures AllExist(disk2, a.outputs)
  {
    forall p | p in a.outputs ensures p in disk2 {
      assert Owns(a, p);
    }
  }

  /** Fewer files: the same stamps, and depfile lists that are shorter or gone. */
  lemma RecalledFits(plan: Plan, st: State, a: Action)
    requires |plan.before| >= |plan.actions| && StampsBelow(st.disk, st.clock)
    requires forall j: nat :: j < |plan.actions| ==> DepsVisible(plan, st.disk, j)
    ensures StampsBelow(Recalled(st, a).disk, Recalled(st, a).clock)
    ensures forall j: nat :: j < |plan.actions| ==> DepsVisible(plan, Recalled(st, a).disk, j)
  {
    hide Visible, Unrecorded;
    forall j: nat | j < |plan.actions| ensures DepsVisible(plan, Recalled(st, a).disk, j) {
      assert DepsVisible(plan, st.disk, j);
    }
  }

  /** A prepare that computes the stored key skips. */
  lemma PrepareHits(plan: Plan, db: map<string, Key>, pr: Progress, i: nat)
    requires i < |plan.actions| && Startable(plan, pr, i) && AllExist(pr.disk, DepList(pr.disk, plan.actions[i]))
    requires var a := plan.actions[i]; var deps := DepList(pr.disk, a);
             var (d1, m1) := HashList(plan, pr.disk, pr.memo, PreparedInputs(a.statics, deps));
             var (d2, m2) := HashList(plan, pr.disk, m1, deps);
             CacheHit(db, pr.disk, a, Key(a.id, a.recipe, d1, d2))
    ensures TakeStep(plan, db, pr, Prepare(i)).Some? && i in TakeStep(plan, db, pr, Prepare(i)).value.done
  {
    hide HashList, DepList, PreparedInputs, CacheHit;
  }

  lemma HarmedOutputs(st: State, a: Action)
    requires a.id in st.db && !Harmless(st, a)
    requires forall p :: p in a.outputs && p in st.disk ==> p in Recalled(st, a).disk
    ensures AllExist(st.disk, a.outputs) && AllExist(Recalled(st, a).disk, a.outputs) && !UpToDate(Recalled(st, a).disk, a)
  {
    hide Spent, Mislisted, Unrecorded, DepList;
  }

  /** With FailureKeeps this makes the condition on failed builds exact: after a failure that harms an action some
      lawful later run skips that action wrongly, unless no build can come to it without spending its key. */
  lemma HarmComesOut(plan: Plan, from: State, events: seq<Event>, st: State, failing: seq<Step>,
                     touched: map<Path, Option<Content>>, i: nat, steps: seq<Step>) returns (later: seq<Event>)
    requires PlanOk(plan) && Clean(plan, from) && Leads(plan, from, events, st)
    requires var pr := TakeSteps(plan, st.db, Begin(st), failing);
             && pr.Some? && Contained(plan, pr.value, touched) && i < |plan.actions|
             && !Harmless(Abandoned(st.db, pr.value, touched), plan.actions[i])
             && ComesTo(plan, Recalled(Abandoned(st.db, pr.value, touched), plan.actions[i]), steps, i)
    ensures |plan.before| == |plan.actions|
    ensures var to := Happen(plan, st, Failed(failing, touched)).value;
            var last := Recalled(to, plan.actions[i]);
            var pr := TakeSteps(plan, last.db, Begin(last), steps).value;
            && Leads(plan, to, later, last)
            && TakeStep(plan, last.db, pr, Prepare(i)).Some?
            && i in TakeStep(plan, last.db, pr, Prepare(i)).value.done
            && !UpToDate(pr.disk, plan.actions[i])
  {
    hide PlanOk, Clean, Leads, Inv, BuildInv, Harmless, Contained, ComesTo, TakeSteps, KeyOk, Unrecorded, UpToDate, DepsVisible, StampsBelow;
    hide Interrupted;
    PlanSized(plan);
    RunKeeps(plan, from, events, st);
    BeginOk(plan, st);
    StepsKeep(plan, st.db, Begin(st), failing);
    var pr := TakeSteps(plan, st.db, Begin(st), failing).value;
    var to, a := Abandoned(st.db, pr, touched), plan.actions[i];
    HarmedHasKey(to, a);
    AbandonedKeys(plan, st.db, pr, touched, i);
    StampsOf(plan, st.db, pr);
    InterruptedFiles(pr.disk, pr.clock, touched);
    forall j: nat | j < |plan.actions| ensures DepsVisible(plan, to.disk, j) {
      BystanderDepfile(plan, st.db, pr, touched, j);
    }
    HarmIsSkipped(plan, to, i, steps);
    later := RemovalsLead(plan, to, Unrecorded(a, to.db[a.id]));
    RecalledIs(to, a);
  }

  /** A build comes to an action that waits for nothing at once, so there harm always comes out. */
  lemma HarmComesOutAtOnce(plan: Plan, from: State, events: seq<Event>, st: State, failing: seq<Step>,
                           touched: map<Path, Option<Content>>, i: nat) returns (later: seq<Event>)
    requires PlanOk(plan) && Clean(plan, from) && Leads(plan, from, events, st)
    requires i < |plan.actions| && i < |plan.before| && plan.before[i] == {}
    requires var pr := TakeSteps(plan, st.db, Begin(st), failing);
             && pr.Some? && Contained(plan, pr.value, touched)
             && !Harmless(Abandoned(st.db, pr.value, touched), plan.actions[i])
    ensures |plan.before| == |plan.actions|
    ensures var to := Happen(plan, st, Failed(failing, touched)).value;
            var last := Recalled(to, plan.actions[i]);
            && Leads(plan, to, later, last)
            && TakeStep(plan, last.db, Begin(last), Prepare(i)).Some?
            && i in TakeStep(plan, last.db, Begin(last), Prepare(i)).value.done
            && !UpToDate(last.disk, plan.actions[i])
  {
    hide PlanOk, Clean, Leads, Harmless, Contained, ComesTo, Unrecorded, UpToDate, Interrupted, PrepareStep, FinishStep;
    var pr := TakeSteps(plan, st.db, Begin(st), failing).value;
    var to := Abandoned(st.db, pr, touched);
    HarmedHasKey(to, plan.actions[i]);
    NothingBefore(plan, Recalled(to, plan.actions[i]), i);
    later := HarmComesOut(plan, from, events, st, failing, touched, i, []);
  }

  lemma HarmedHasKey(st: State, a: Action)
    requires !Harmless(st, a)
    ensures a.id in st.db
  {}

  // ---- the two families ---------------------------------------------------------------------------

  /** The action is started because an output was removed, is stopped half way, and is skipped ever after. */
  lemma StoppedRunIsSkipped(plan: Plan, st: State, i: nat, p: Path, partial: Content)
    requires PlanOk(plan) && Inv(plan, st)
    requires i < |plan.actions| && i < |plan.before| && plan.before[i] == {}
    requires Repeats(plan, st, i) && AllExist(st.disk, plan.actions[i].outputs)
    requires AllExist(st.disk, DepList(st.disk, plan.actions[i]))
    requires p in plan.actions[i].outputs
    ensures var removed := Happen(plan, st, Remove(p));
            && removed.Some?
            && var stopped := Happen(plan, removed.value, Failed([Prepare(i)], map[p := Some(partial)]));
               && stopped.Some?
               && BuildProgress(plan, stopped.value, [Prepare(i)]).Some?
               && var pr := BuildProgress(plan, stopped.value, [Prepare(i)]).value;
                  pr.ran == [] && pr.done == [i] && p in pr.disk && pr.disk[p].content == partial
  {
    hide PlanOk, Inv, HashList, FreshKey, RefreshStep, UpToDate, DepList, PreparedInputs;
    var a := plan.actions[i];
    var st1 := Happen(plan, st, Remove(p)).value;
    OwnOutputKeepsKey(plan, st, i, p, st1.disk);
    OnePrepare(plan, st1, i);
    var st2 := Happen(plan, st1, Failed([Prepare(i)], map[p := Some(partial)])).value;
    assert st2.disk[p].content == partial;
    OwnOutputKeepsKey(plan, st, i, p, st2.disk);
    OnePrepare(plan, st2, i);
    HasOutputs(plan, i);
    OneSkip(plan, st2, i);
  }

  /** An action with nothing to wait for does not see its own outputs. */
  lemma OwnOutputKeepsKey(plan: Plan, st: State, i: nat, p: Path, disk: Disk)
    requires PlanOk(plan) && Inv(plan, st)
    requires i < |plan.actions| && i < |plan.before| && plan.before[i] == {}
    requires AllExist(st.disk, DepList(st.disk, plan.actions[i]))
    requires p in plan.actions[i].outputs && forall q :: q != p ==> SameFile(st.disk, disk, q)
    ensures FreshKey(plan, disk, plan.actions[i]) == FreshKey(plan, st.disk, plan.actions[i])
    ensures DepList(disk, plan.actions[i]) == DepList(st.disk, plan.actions[i])
    ensures AllExist(disk, DepList(disk, plan.actions[i]))
  {
    hide PlanOk, RunFits, Deterministic, StoredOk, StampsBelow, PreparedInputs;
    var a := plan.actions[i];
    PlanActionOk(plan, i);
    assert DepsVisible(plan, st.disk, i);
    assert !Visible(plan, i, p) by { assert Owns(a, p); }
    SameDigests(plan, st.disk, disk, PreparedInputs(a.statics, DepList(st.disk, a))) by {
      forall q | q in PreparedInputs(a.statics, DepList(st.disk, a)) ensures Visible(plan, i, q) {
        assert q in a.statics || q in DepList(st.disk, a) by { PreparedFrom(a.statics, DepList(st.disk, a), q); }
      }
    }
    SameDigests(plan, st.disk, disk, DepList(st.disk, a));
    assert a.depfile.Some? ==> SameFile(st.disk, disk, a.depfile.value);
    assert DepList(disk, a) == DepList(st.disk, a);
  }

  lemma PreparedFrom(statics: seq<Path>, deps: seq<Path>, p: Path)
    requires p in PreparedInputs(statics, deps)
    ensures p in statics || p in deps
  {
  }

  /** The memo is empty at the start, so the first prepare computes the fresh key. */
  lemma OnePrepare(plan: Plan, st: State, i: nat)
    requires i < |plan.actions| && i < |plan.before| && plan.before[i] == {}
    requires AllExist(st.disk, DepList(st.disk, plan.actions[i]))
    ensures var p := TakeSteps(plan, st.db, Begin(st), [Prepare(i)]);
            && p.Some? && p.value.disk == st.disk && p.value.clock == st.clock && p.value.ran == [] && p.value.queue == []
            && (CacheHit(st.db, st.disk, plan.actions[i], FreshKey(plan, st.disk, plan.actions[i])) ==>
                  p.value.done == [i] && p.value.running == map[])
  {
    hide HashList, DepList, PreparedInputs;
    var a := plan.actions[i];
    var deps := DepList(st.disk, a);
    MemoAgreesWithDisk(plan, st.disk, map[], PreparedInputs(a.statics, deps));
    MemoAgreesWithDisk(plan, st.disk, HashList(plan, st.disk, map[], PreparedInputs(a.statics, deps)).1, deps);
    assert [Prepare(i)][..0] == [];
    assert TakeSteps(plan, st.db, Begin(st), []) == Some(Begin(st));
    assert TakeSteps(plan, st.db, Begin(st), [Prepare(i)]) == TakeStep(plan, st.db, Begin(st), Prepare(i));
  }

  lemma OneSkip(plan: Plan, st: State, i: nat)
    requires TakeSteps(plan, st.db, Begin(st), [Prepare(i)]).Some?
    requires var p := TakeSteps(plan, st.db, Begin(st), [Prepare(i)]).value;
             p.disk == st.disk && p.done == [i] && p.running == map[] && p.queue == [] && p.ran == []
    ensures var b := BuildProgress(plan, st, [Prepare(i)]);
            b.Some? && b.value.ran == [] && b.value.done == [i] && b.value.disk == st.disk
  {
    hide TakeSteps;
  }

  // ---- an input that was missing when its key was stored ---------------------------------

  const HEADER: Path := "h"
  const OBJECT: Path := "o"

  /** One action that looks whether its declared header is there. */
  function Probe(v: View): Option<Produced> {
    Some(Produced(map[OBJECT := Data(if HEADER in v then "with" else "without")], []))
  }

  function ProbePlan(): Plan {
    Plan([Action("a", "probe", [HEADER], [OBJECT], None, Probe)], [{}], p => p == OBJECT)
  }

  lemma ProbePlanOk()
    ensures PlanOk(ProbePlan())
  {
    var plan := ProbePlan();
    var a := plan.actions[0];
    assert HEADER[0] != OBJECT[0];
    assert forall p :: Owns(a, p) ==> p == OBJECT;
    assert Visible(plan, 0, HEADER);
    forall v ensures RunFits(plan, 0, v) {}
    forall v, w ensures Deterministic(a, v, w) {
      if Agree(v, w, a.statics) {
        assert HEADER in a.statics;
      }
    }
    assert ActionOk(plan, 0);
  }

  /** The key stored while the header was missing. */
  function MissingKey(): Key {
    Key("a", "probe", [Missing(HEADER)], [])
  }

  /** State after the header appeared: the object was built without it. */
  function HeaderCame(x: Content): State {
    State(map[HEADER := File(x, 1), OBJECT := File(Data("without"), 0)], 2, map["a" := MissingKey()])
  }

  lemma ProbeKey(disk: Disk)
    ensures DepList(disk, ProbePlan().actions[0]) == []
    ensures FreshKey(ProbePlan(), disk, ProbePlan().actions[0])
         == Key("a", "probe", [DigestOf(ProbePlan(), disk, HEADER)], [])
  {
    assert [HEADER][..1] == [HEADER];
  }

  lemma HeaderCameOk(x: Content)
    ensures Inv(ProbePlan(), HeaderCame(x))
  {
    var plan, st := ProbePlan(), HeaderCame(x);
    assert Witness(st.disk, st.clock, plan.actions[0], MissingKey(), map[]);
    assert Visible(plan, 0, HEADER) by { assert HEADER[0] != OBJECT[0]; }
    assert KeyOk(plan, st.disk, st.clock, 0, MissingKey());
    assert StoredOk(plan, st, 0);
  }

  /** The probe finishes with the header in place. */
  lemma ProbeFinishes(x: Content, p: Progress)
    requires p.disk == HeaderCame(x).disk && p.clock == 2 && 0 in p.running
    ensures var q := FinishStep(ProbePlan(), p, 0);
            q.Some? && q.value.disk == map[HEADER := File(x, 1), OBJECT := File(Data("with"), 2)] && q.value.clock == 3
  {
    assert ViewOf(p.disk)[HEADER] == x;
    var made := Produced(map[OBJECT := Data("with")], []);
    assert ProbePlan().actions[0].tool(ViewOf(p.disk)) == Some(made);
    assert AfterRun(p.disk, 2, ProbePlan().actions[0], made) == map[HEADER := File(x, 1), OBJECT := File(Data("with"), 2)];
  }

  lemma NothingInterrupted(disk: Disk, clock: nat)
    ensures Interrupted(disk, clock, map[]) == disk
  {}

  /** The stored key says that the header is missing, so the action starts. */
  lemma ProbeStarts(x: Content)
    ensures var st := HeaderCame(x);
            var p := TakeSteps(ProbePlan(), st.db, Begin(st), [Prepare(0)]);
            p.Some? && p.value.disk == st.disk && p.value.clock == st.clock && 0 in p.value.running
  {
    var plan, st := ProbePlan(), HeaderCame(x);
    hide HashList, FreshKey, DepList, PreparedInputs;
    ProbeKey(st.disk);
    OneStart(plan, st, 0);
  }

  /** The failed build ran the action to its end and stored nothing. */
  lemma FailedRerun(x: Content)
    ensures Happen(ProbePlan(), HeaderCame(x), Failed([Prepare(0), Finish(0)], map[]))
         == Some(State(map[HEADER := File(x, 1), OBJECT := File(Data("with"), 2)], 4, map["a" := MissingKey()]))
  {
    ProbeStarts(x);
    var plan, st := ProbePlan(), HeaderCame(x);
    hide FinishStep, Interrupted, PrepareStep;
    var p := TakeSteps(plan, st.db, Begin(st), [Prepare(0)]).value;
    ProbeFinishes(x, p);
    LastStep(plan, st, [Prepare(0)], Finish(0));
    assert [Prepare(0)] + [Finish(0)] == [Prepare(0), Finish(0)];
    NothingInterrupted(FinishStep(plan, p, 0).value.disk, 3);
  }

  lemma LastStep(plan: Plan, st: State, steps: seq<Step>, s: Step)
    requires TakeSteps(plan, st.db, Begin(st), steps).Some?
    ensures TakeSteps(plan, st.db, Begin(st), steps + [s])
         == TakeStep(plan, st.db, TakeSteps(plan, st.db, Begin(st), steps).value, s)
  {
    hide TakeStep;
    assert (steps + [s])[..|steps + [s]| - 1] == steps;
  }

  /** A first prepare that is no hit leaves the action running. */
  lemma OneStart(plan: Plan, st: State, i: nat)
    requires i < |plan.actions| && i < |plan.before| && plan.before[i] == {}
    requires AllExist(st.disk, DepList(st.disk, plan.actions[i]))
    requires !CacheHit(st.db, st.disk, plan.actions[i], FreshKey(plan, st.disk, plan.actions[i]))
    ensures var p := TakeSteps(plan, st.db, Begin(st), [Prepare(i)]);
            && p.Some? && p.value.disk == st.disk && p.value.clock == st.clock && i in p.value.running
  {
    hide HashList, DepList, PreparedInputs;
    var a := plan.actions[i];
    var deps := DepList(st.disk, a);
    MemoAgreesWithDisk(plan, st.disk, map[], PreparedInputs(a.statics, deps));
    MemoAgreesWithDisk(plan, st.disk, HashList(plan, st.disk, map[], PreparedInputs(a.statics, deps)).1, deps);
    assert [Prepare(i)][..0] == [];
    assert TakeSteps(plan, st.db, Begin(st), []) == Some(Begin(st));
  }

  /** The header appears, a build re-runs the action and fails elsewhere, the header goes: the skip is wrong. */
  lemma MissingInputReturns(x: Content)
    ensures PlanOk(ProbePlan()) && Inv(ProbePlan(), HeaderCame(x))
    ensures var failed := Happen(ProbePlan(), HeaderCame(x), Failed([Prepare(0), Finish(0)], map[]));
            && failed.Some?
            && var gone := Happen(ProbePlan(), failed.value, Remove(HEADER)).value;
               && BuildProgress(ProbePlan(), gone, [Prepare(0)]).Some?
               && var pr := BuildProgress(ProbePlan(), gone, [Prepare(0)]).value;
                  pr.ran == [] && pr.done == [0] && !UpToDate(pr.disk, ProbePlan().actions[0])
  {
    ProbePlanOk();
    HeaderCameOk(x);
    FailedRerun(x);
    assert HEADER[0] != OBJECT[0];
    assert map[HEADER := File(x, 1), OBJECT := File(Data("with"), 2)] - {HEADER} == map[OBJECT := File(Data("with"), 2)];
    var gone := State(map[OBJECT := File(Data("with"), 2)], 4, map["a" := MissingKey()]);
    ProbeKey(gone.disk);
    assert OBJECT in gone.disk;
    OnePrepare(ProbePlan(), gone, 0);
    OneSkip(ProbePlan(), gone, 0);
    assert ViewOf(gone.disk) == map[OBJECT := Data("with")];
    assert "with" != "without";
  }
}
