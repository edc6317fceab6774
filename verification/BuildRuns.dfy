/** Whole histories: any run of edits, removals, builds and failed builds. */
module BuildRuns {
  import opened Wrappers
  import opened ActionKeys
  import opened IncrementalBuild
  import opened BuildHistory

  /** `touched` holds what stopped processes left: nothing, or partial bytes, in each file they reached. */
  datatype Event =
    | Edit(path: Path, content: Content)
    | Remove(path: Path)
    | Build(steps: seq<Step>)
    | Failed(steps: seq<Step>, touched: map<Path, Option<Content>>)

  function Interrupted(disk: Disk, clock: nat, touched: map<Path, Option<Content>>): Disk {
    map p | p in disk.Keys + touched.Keys && !(p in touched && touched[p].None?) ::
      if p in touched then File(touched[p].value, clock) else disk[p]
  }

  /** Nothing when the event is a build that does not succeed, or a schedule that is not one. */
  function Happen(plan: Plan, st: State, e: Event): Option<State> {
    match e
    case Edit(p, c) => Some(State(st.disk[p := File(c, st.clock)], st.clock + 1, st.db))
    case Remove(p) => Some(st.(disk := st.disk - {p}))
    case Build(steps) =>
      var pr := BuildProgress(plan, st, steps);
      if pr.None? then None else Some(Stored(st, pr.value))
    case Failed(steps, touched) =>
      var pr := TakeSteps(plan, st.db, Begin(st), steps);
      if pr.None? then None
      else Some(Abandoned(st.db, pr.value, touched))
  }

  /** What a failed build leaves: files as its processes left them, and the keys stored before it. */
  function Abandoned(db: map<string, Key>, pr: Progress, touched: map<Path, Option<Content>>): State {
    State(Interrupted(pr.disk, pr.clock, touched), pr.clock + 1, db)
  }

  /** Stopped processes touch only their own files, and a depfile they leave names nothing out of reach. */
  ghost predicate Contained(plan: Plan, pr: Progress, touched: map<Path, Option<Content>>)
    requires |plan.before| == |plan.actions|
  {
    && (forall p :: p in touched ==> exists i :: i in pr.running && i < |plan.actions| && Owns(plan.actions[i], p))
    && (forall i :: i in pr.running && i < |plan.actions| ==> DepsVisible(plan, Interrupted(pr.disk, pr.clock, touched), i))
  }

  /** The files that were not there when the key was computed: those it records as missing, and a depfile if it lists none. */
  function Unrecorded(a: Action, k: Key): set<Path> {
    (set d | d in k.inputs && d.Missing? :: d.path)
    + (if a.depfile.Some? && k.deps == [] then {a.depfile.value} else {})
  }

  /** The outputs are what a run writes once the files that the key does not know are gone. */
  ghost predicate Rewrites(disk: Disk, a: Action, k: Key) {
    var made := a.tool(ViewOf(disk - Unrecorded(a, k)));
    made.Some? && OutputsAre(disk, a, made.value.files)
  }

  /** A failed build does no harm to an action without a stored key, or with one that no prepare computes again;
      nor if it leaves no complete outputs, or those the stored key stands for. */
  ghost predicate Harmless(st: State, a: Action) {
    a.id in st.db ==>
      || Spent(st.disk, st.clock, a, st.db[a.id])
      || Mislisted(st.disk, a, st.db[a.id])
      || !AllExist(st.disk, a.outputs)
      || Rewrites(st.disk, a, st.db[a.id])
  }

  /** The actions whose files a failed build may have changed. */
  predicate Affected(pr: Progress, i: nat) {
    i in pr.running || i in pr.ran
  }

  ghost predicate NoHarm(plan: Plan, db: map<string, Key>, pr: Progress, touched: map<Path, Option<Content>>) {
    forall i: nat :: i < |plan.actions| && Affected(pr, i) ==> Harmless(Abandoned(db, pr, touched), plan.actions[i])
  }

  /** Edits touch sources only; a failed build does no harm. */
  ghost predicate Lawful(plan: Plan, st: State, e: Event)
    requires |plan.before| == |plan.actions|
  {
    match e
    case Edit(p, _) => Source(plan, p)
    case Remove(_) => true
    case Build(_) => true
    case Failed(steps, touched) =>
      var pr := TakeSteps(plan, st.db, Begin(st), steps);
      pr.Some? ==> Contained(plan, pr.value, touched) && NoHarm(plan, st.db, pr.value, touched)
  }

  /** The state after a run of lawful events. */
  ghost predicate Leads(plan: Plan, from: State, events: seq<Event>, to: State)
    requires |plan.before| == |plan.actions|
    decreases |events|
  {
    if events == [] then to == from
    else
      var earlier, e := events[..|events| - 1], events[|events| - 1];
      exists mid :: Leads(plan, from, earlier, mid) && Lawful(plan, mid, e) && Happen(plan, mid, e) == Some(to)
  }

  /** Nothing built, nothing stored. */
  ghost predicate Clean(plan: Plan, st: State) {
    && st.db == map[]
    && StampsBelow(st.disk, st.clock)
    && (forall i: nat :: i < |plan.actions| && plan.actions[i].depfile.Some? ==> plan.actions[i].depfile.value !in st.disk)
  }

  // ---- the invariant over every run --------------------------------------------------

  lemma SmallChangeKeeps(plan: Plan, st: State, to: State)
    requires PlanOk(plan) && Inv(plan, st) && to.db == st.db
    requires st.clock <= to.clock && Evolves(st.disk, to.disk, st.clock) && StampsBelow(to.disk, to.clock)
    requires forall i: nat, p :: i < |plan.actions| && Owns(plan.actions[i], p) && p in to.disk ==> SameFile(st.disk, to.disk, p)
    ensures Inv(plan, to)
  {
    hide PlanOk, Visible, EntryOk, KeyOk, StampsBelow, Evolves;
    forall i: nat | i < |plan.actions| ensures StoredOk(plan, to, i) {
      var a := plan.actions[i];
      assert StoredOk(plan, st, i);
      if a.id in st.db {
        KeyStays(plan, st.disk, st.clock, to.disk, to.clock, i, st.db[a.id]);
        assert forall p :: p in a.outputs ==> Owns(a, p);
        assert a.depfile.Some? ==> Owns(a, a.depfile.value);
        if EntryOk(st.disk, st.clock, a, st.db[a.id]) {
          EntrySurvives(st.disk, st.clock, to.disk, to.clock, a, st.db[a.id]);
        }
      }
    }
    forall i: nat | i < |plan.actions| ensures i < |plan.before| && DepsVisible(plan, to.disk, i) {
      PlanActionOk(plan, i);
      assert DepsVisible(plan, st.disk, i);
      assert plan.actions[i].depfile.Some? ==> Owns(plan.actions[i], plan.actions[i].depfile.value);
    }
  }

  // ---- which failed builds keep the invariant -----------------------------------------------

  lemma RecalledDescribes(plan: Plan, disk: Disk, clock: nat, i: nat, k: Key, v: View)
    requires i < |plan.actions| && KeyOk(plan, disk, clock, i, k) && Taken(disk, clock, plan.actions[i], k, v)
    requires !Spent(disk, clock, plan.actions[i], k)
    ensures var past := disk - Unrecorded(plan.actions[i], k);
            && Taken(past, clock, plan.actions[i], k, v)
            && forall d :: d in k.inputs || d in k.deps ==> Current(past, d)
  {
    hide Taken;
    var a := plan.actions[i];
    var past := disk - Unrecorded(a, k);
    forall d | d in k.inputs || d in k.deps ensures Current(past, d) && Describes(past, clock, v, d) {
      assert Describes(disk, clock, v, d) by { TakenDescribes(disk, clock, a, k, v, d); }
      assert DigestOk(plan, disk, clock, i, d) && !Gone(disk, clock, d);
      if d.Seen? {
        KnownFile(plan, disk, clock, i, k, d);
      } else {
        assert d in k.inputs && d.path in Unrecorded(a, k);
      }
    }
    TakenFrom(disk, past, clock, a, k, v);
  }

  lemma TakenDescribes(disk: Disk, clock: nat, a: Action, k: Key, v: View, d: Digest)
    requires Taken(disk, clock, a, k, v) && (d in k.inputs || d in k.deps)
    ensures Describes(disk, clock, v, d)
  {}

  lemma TakenFrom(disk: Disk, past: Disk, clock: nat, a: Action, k: Key, v: View)
    requires Taken(disk, clock, a, k, v)
    requires forall d :: d in k.inputs || d in k.deps ==> Describes(past, clock, v, d)
    ensures Taken(past, clock, a, k, v)
  {}

  /** A file the key has a stamp of is none of those it does not know. */
  lemma KnownFile(plan: Plan, disk: Disk, clock: nat, i: nat, k: Key, d: Digest)
    requires i < |plan.actions| && KeyOk(plan, disk, clock, i, k)
    requires (d in k.inputs || d in k.deps) && d.Seen?
    ensures d.path !in Unrecorded(plan.actions[i], k)
  {
    hide Spent, Taken;
    var a := plan.actions[i];
    assert DigestOk(plan, disk, clock, i, d);
    assert a.depfile == Some(d.path) ==> Owns(a, d.path);
  }

  /** Whatever run the key was computed for, running on the disk without the unknown files repeats it. */
  lemma RecalledRepeats(plan: Plan, disk: Disk, clock: nat, i: nat, k: Key, v: View)
    requires PlanOk(plan) && i < |plan.actions| && KeyOk(plan, disk, clock, i, k)
    requires Taken(disk, clock, plan.actions[i], k, v) && !Spent(disk, clock, plan.actions[i], k)
    ensures plan.actions[i].tool(ViewOf(disk - Unrecorded(plan.actions[i], k))) == plan.actions[i].tool(v)
  {
    hide PlanOk, KeyOk, RunFits, Visible, Taken;
    var a := plan.actions[i];
    var past := disk - Unrecorded(a, k);
    RecalledDescribes(plan, disk, clock, i, k, v);
    PlanActionOk(plan, i);
    assert Deterministic(a, v, ViewOf(past));
    assert PathsOf(k.inputs) == PreparedInputs(a.statics, PathsOf(k.deps));
    hide Spent;
    CurrentKeyRepeats(past, clock, a, k, v);
  }

  /** A stored key is good exactly when the failed build that left it did no harm. */
  lemma HarmlessIsStored(plan: Plan, st: State, i: nat)
    requires PlanOk(plan) && i < |plan.actions|
    requires plan.actions[i].id in st.db ==> KeyOk(plan, st.disk, st.clock, i, st.db[plan.actions[i].id])
    ensures StoredOk(plan, st, i) <==> Harmless(st, plan.actions[i])
  {
    hide PlanOk, Spent, Taken, OutputsAre, Unrecorded, DepList;
    var a := plan.actions[i];
    if a.id in st.db && !Spent(st.disk, st.clock, a, st.db[a.id]) {
      var k := st.db[a.id];
      if EntryOk(st.disk, st.clock, a, k) {
        var v :| Witness(st.disk, st.clock, a, k, v);
        hide KeyOk;
        RecalledRepeats(plan, st.disk, st.clock, i, k, v);
        TakenSucceeds(st.disk, st.clock, a, k, v);
        assert Rewrites(st.disk, a, k);
      } else {
        var v :| Taken(st.disk, st.clock, a, k, v);
        hide KeyOk;
        RecalledRepeats(plan, st.disk, st.clock, i, k, v);
        TakenSucceeds(st.disk, st.clock, a, k, v);
        assert !Witness(st.disk, st.clock, a, k, v);
        IncompleteOutputs(st.disk, a, a.tool(v).value.files);
      }
    }
  }

  lemma TakenSucceeds(disk: Disk, clock: nat, a: Action, k: Key, v: View)
    requires Taken(disk, clock, a, k, v)
    ensures a.tool(v).Some?
  {}

  lemma IncompleteOutputs(disk: Disk, a: Action, files: View)
    requires !OutputsAre(disk, a, files)
    ensures AllExist(disk, a.outputs)
  {}

  lemma AbandonedKeys(plan: Plan, db: map<string, Key>, pr: Progress, touched: map<Path, Option<Content>>, i: nat)
    requires Underway(plan, db, pr) && i < |plan.actions| && plan.actions[i].id in db
    ensures KeyOk(plan, Abandoned(db, pr, touched).disk, pr.clock + 1, i, db[plan.actions[i].id])
  {
    hide KeyOk, EntryOk, Mislisted, DoneOk, RunningOk, QueueOk, Bookkeeping, MemoSettled, Ordered, Interrupted, DepsVisible, StampsBelow, Evolves;
    assert OldOk(plan, db, pr, i);
    InterruptedFiles(pr.disk, pr.clock, touched);
    KeyStays(plan, pr.disk, pr.clock, Interrupted(pr.disk, pr.clock, touched), pr.clock + 1, i, db[plan.actions[i].id]);
  }

  ghost predicate Underway(plan: Plan, db: map<string, Key>, pr: Progress) {
    |plan.before| == |plan.actions| && BuildInv(plan, db, pr)
  }

  /** An action the failed build neither ran nor stopped keeps its good key. */
  lemma UnaffectedKeeps(plan: Plan, db: map<string, Key>, pr: Progress, touched: map<Path, Option<Content>>, i: nat)
    requires PlanOk(plan) && Underway(plan, db, pr) && Contained(plan, pr, touched)
    requires i < |plan.actions| && !Affected(pr, i)
    ensures StoredOk(plan, Abandoned(db, pr, touched), i)
  {
    hide PlanOk, Visible, EntryOk, KeyOk, DoneOk, RunningOk, QueueOk, Bookkeeping, MemoSettled, Ordered, Interrupted, RecordsMissing, DepsVisible, StampsBelow;
    hide Evolves, Contained;
    var a := plan.actions[i];
    assert OldOk(plan, db, pr, i);
    if a.id in db {
      AbandonedKeys(plan, db, pr, touched, i);
      InterruptedFiles(pr.disk, pr.clock, touched);
      BystanderFiles(plan, pr, touched, i);
      assert forall p :: p in a.outputs ==> Owns(a, p);
      assert a.depfile.Some? ==> Owns(a, a.depfile.value);
      if EntryOk(pr.disk, pr.clock, a, db[a.id]) {
        EntrySurvives(pr.disk, pr.clock, Interrupted(pr.disk, pr.clock, touched), pr.clock + 1, a, db[a.id]);
      }
    }
  }

  /** The exact condition: a contained failure keeps the invariant of all runs if and only if it does no harm. */
  lemma FailureKeeps(plan: Plan, db: map<string, Key>, pr: Progress, touched: map<Path, Option<Content>>)
    requires PlanOk(plan) && Underway(plan, db, pr) && Contained(plan, pr, touched)
    ensures Inv(plan, Abandoned(db, pr, touched)) <==> NoHarm(plan, db, pr, touched)
  {
    hide PlanOk, StoredOk, Harmless, Contained, Interrupted, Affected, DepsVisible, DoneOk, RunningOk, QueueOk, Bookkeeping, MemoSettled, Ordered, OldOk, StampsBelow;
    var to := Abandoned(db, pr, touched);
    InterruptedFiles(pr.disk, pr.clock, touched);
    forall i: nat | i < |plan.actions|
      ensures Affected(pr, i) ==> (StoredOk(plan, to, i) <==> Harmless(to, plan.actions[i]))
      ensures !Affected(pr, i) ==> StoredOk(plan, to, i)
      ensures DepsVisible(plan, to.disk, i)
    {
      if Affected(pr, i) {
        if plan.actions[i].id in db {
          AbandonedKeys(plan, db, pr, touched, i);
        }
        HarmlessIsStored(plan, to, i);
      } else {
        UnaffectedKeeps(plan, db, pr, touched, i);
      }
      BystanderDepfile(plan, db, pr, touched, i);
    }
  }

  /** Much is harmless: a first run, a re-run of an action whose inputs changed, a process stopped before it wrote
      anything or before its outputs were complete, a finished re-run whose stored key records no missing file. */
  lemma HarmlessCases(plan: Plan, db: map<string, Key>, pr: Progress, touched: map<Path, Option<Content>>, i: nat)
    requires PlanOk(plan) && Underway(plan, db, pr) && Contained(plan, pr, touched)
    requires i < |plan.actions| && Affected(pr, i)
    requires var a := plan.actions[i];
             || a.id !in db
             || Spent(pr.disk, pr.clock, a, db[a.id])
             || !AllExist(Interrupted(pr.disk, pr.clock, touched), a.outputs)
             || (i in pr.running && forall p :: Owns(a, p) ==> p !in touched)
             || (i in pr.ran && !RecordsMissing(db[a.id]))
    ensures Harmless(Abandoned(db, pr, touched), plan.actions[i])
  {
    hide PlanOk, Visible, EntryOk, KeyOk, Spent, RunningOk, QueueOk, MemoSettled, Ordered, Interrupted, RecordsMissing, DepsVisible, StampsBelow, AllExist;
    hide Evolves, Contained, Rewrites, UpToDate, Ready, FreshKey;
    var a := plan.actions[i];
    var to := Abandoned(db, pr, touched);
    assert OldOk(plan, db, pr, i);
    InterruptedFiles(pr.disk, pr.clock, touched);
    if a.id in db {
      AbandonedKeys(plan, db, pr, touched, i);
      if Spent(pr.disk, pr.clock, a, db[a.id]) {
        SpentStays(pr.disk, pr.clock, to.disk, to.clock, a, db[a.id]);
      } else if AllExist(to.disk, a.outputs) {
        if i in pr.ran {
          assert i in pr.done && DoneOk(plan, pr, i);
          BystanderFiles(plan, pr, touched, i);
        }
        assert forall p :: Owns(a, p) ==> SameFile(pr.disk, to.disk, p);
        assert forall p :: p in a.outputs ==> Owns(a, p);
        assert a.depfile.Some? ==> Owns(a, a.depfile.value);
        NotRunMeansGood(plan, db, pr, i);
        if EntryOk(pr.disk, pr.clock, a, db[a.id]) {
          EntrySurvives(pr.disk, pr.clock, to.disk, to.clock, a, db[a.id]);
        }
        HarmlessIsStored(plan, to, i);
      }
    }
  }

  lemma NotRunMeansGood(plan: Plan, db: map<string, Key>, pr: Progress, i: nat)
    requires Underway(plan, db, pr) && i < |plan.actions| && plan.actions[i].id in db
    requires i in pr.running || !RecordsMissing(db[plan.actions[i].id])
    ensures var a := plan.actions[i]; EntryOk(pr.disk, pr.clock, a, db[a.id]) || Mislisted(pr.disk, a, db[a.id])
  {
    hide KeyOk, EntryOk, Mislisted, RunningOk, QueueOk, MemoSettled, Ordered, RecordsMissing, DepsVisible, StampsBelow, UpToDate, FreshKey, Queued;
    assert OldOk(plan, db, pr, i);
    if i in pr.running {
      assert i in pr.done ==> DoneOk(plan, pr, i);
    }
  }

  lemma InterruptedFiles(disk: Disk, clock: nat, touched: map<Path, Option<Content>>)
    requires StampsBelow(disk, clock)
    ensures StampsBelow(Interrupted(disk, clock, touched), clock + 1)
    ensures Evolves(disk, Interrupted(disk, clock, touched), clock)
    ensures forall p :: p !in touched ==> SameFile(disk, Interrupted(disk, clock, touched), p)
  {
  }

  lemma TouchedOnly(disk: Disk, clock: nat, touched: map<Path, Option<Content>>)
    ensures forall p :: p !in touched ==> SameFile(disk, Interrupted(disk, clock, touched), p)
  {}

  /** Nobody else's files are touched. */
  lemma BystanderFiles(plan: Plan, pr: Progress, touched: map<Path, Option<Content>>, i: nat)
    requires PlanOk(plan) && Contained(plan, pr, touched) && i < |plan.actions| && i !in pr.running
    ensures forall p :: Owns(plan.actions[i], p) ==> SameFile(pr.disk, Interrupted(pr.disk, pr.clock, touched), p)
  {
    hide PlanOk, DepsVisible, Interrupted;
    forall p | Owns(plan.actions[i], p) ensures p !in touched {
      if p in touched {
        var j :| j in pr.running && j < |plan.actions| && Owns(plan.actions[j], p);
        PlanApart(plan, i, j);
        assert false;
      }
    }
    TouchedOnly(pr.disk, pr.clock, touched);
  }

  lemma BystanderDepfile(plan: Plan, db: map<string, Key>, pr: Progress, touched: map<Path, Option<Content>>, i: nat)
    requires PlanOk(plan) && Underway(plan, db, pr) && Contained(plan, pr, touched) && i < |plan.actions|
    ensures i < |plan.before| && DepsVisible(plan, Interrupted(pr.disk, pr.clock, touched), i)
  {
    hide PlanOk, Visible, DoneOk, RunningOk, QueueOk, Bookkeeping, MemoSettled, Ordered, OldOk, StampsBelow, Interrupted;
    PlanActionOk(plan, i);
    var a := plan.actions[i];
    assert DepsVisible(plan, pr.disk, i);
    if i !in pr.running {
      BystanderFiles(plan, pr, touched, i);
      assert a.depfile.Some? ==> Owns(a, a.depfile.value);
    }
  }

  lemma EventKeeps(plan: Plan, st: State, e: Event)
    requires PlanOk(plan) && Inv(plan, st) && Lawful(plan, st, e) && Happen(plan, st, e).Some?
    ensures Inv(plan, Happen(plan, st, e).value)
  {
    hide BuildProgress, TakeSteps, Contained, Harmless, ActionOk, DepsVisible, StoredOk, PlanOk;
    match e
    case Edit(p, c) => SmallChangeKeeps(plan, st, Happen(plan, st, e).value);
    case Remove(p) => SmallChangeKeeps(plan, st, Happen(plan, st, e).value);
    case Build(steps) => BuildKeeps(plan, st, steps);
    case Failed(steps, touched) =>
      BeginOk(plan, st);
      StepsKeep(plan, st.db, Begin(st), steps);
      PlanSized(plan);
      FailureKeeps(plan, st.db, TakeSteps(plan, st.db, Begin(st), steps).value, touched);
  }

  lemma {:induction false} RunKeeps(plan: Plan, from: State, events: seq<Event>, to: State)
    requires PlanOk(plan) && Clean(plan, from) && Leads(plan, from, events, to)
    ensures Inv(plan, to)
    decreases |events|
  {
    hide PlanOk, Lawful, Happen, StampsBelow;
    if events == [] {
      forall i: nat | i < |plan.actions| ensures i < |plan.before| && DepsVisible(plan, to.disk, i) {
        PlanActionOk(plan, i);
      }
    } else {
      hide Inv, Clean;
      PlanSized(plan);
      var earlier, e := events[..|events| - 1], events[|events| - 1];
      var mid :| Leads(plan, from, earlier, mid) && Lawful(plan, mid, e) && Happen(plan, mid, e) == Some(to);
      RunKeeps(plan, from, earlier, mid);
      EventKeeps(plan, mid, e);
    }
  }

  lemma EmptyRun(plan: Plan, st: State)
    requires PlanOk(plan)
    ensures Leads(plan, st, [], st)
  {
  }

  // ---- main results ----------------------------------------------------------------------

  /** In every build of every run, an action is skipped only if re-running it would rewrite what is there. */
  lemma SkippedOnlyIfUpToDate(plan: Plan, from: State, events: seq<Event>, st: State,
                                                 steps: seq<Step>, i: nat)
    requires PlanOk(plan) && Clean(plan, from) && Leads(plan, from, events, st)
    requires var pr := TakeSteps(plan, st.db, Begin(st), steps);
             && pr.Some? && TakeStep(plan, st.db, pr.value, Prepare(i)).Some?
             && i in TakeStep(plan, st.db, pr.value, Prepare(i)).value.done
    ensures i < |plan.actions|
    ensures UpToDate(TakeSteps(plan, st.db, Begin(st), steps).value.disk, plan.actions[i])
  {
    hide PlanOk, Clean, Leads, TakeSteps, BuildInv, UpToDate, HashList, DepList, PreparedInputs;
    RunKeeps(plan, from, events, st);
    BeginOk(plan, st);
    StepsKeep(plan, st.db, Begin(st), steps);
    var pr := TakeSteps(plan, st.db, Begin(st), steps).value;
    PlanSized(plan);
    assert DepsVisible(plan, pr.disk, i) && MemoSettled(plan, pr.disk, pr.memo, pr.done) by { InvParts(plan, st.db, pr, i); }
    PrepareComputes(plan, pr, i);
    SkipNeedsNoRun(plan, st.db, pr, i);
  }

  lemma InvParts(plan: Plan, db: map<string, Key>, pr: Progress, i: nat)
    requires |plan.before| == |plan.actions| && BuildInv(plan, db, pr) && i < |plan.actions|
    ensures DepsVisible(plan, pr.disk, i) && MemoSettled(plan, pr.disk, pr.memo, pr.done)
  {
  }

  ghost predicate SourcesAgree(plan: Plan, disk: Disk, disk2: Disk) {
    forall p :: Source(plan, p) ==> (p in disk <==> p in disk2) && (p in disk ==> disk[p].content == disk2[p].content)
  }

  lemma SameRunSameOutputs(a: Action, disk: Disk, disk2: Disk)
    requires UpToDate(disk, a) && UpToDate(disk2, a) && a.tool(ViewOf(disk)) == a.tool(ViewOf(disk2))
    ensures forall p :: p in a.outputs ==> p in disk && p in disk2 && disk[p].content == disk2[p].content
  {
    hide DepList;
  }

  /** A generated file within reach of the `n`th action is an output of one before it. */
  lemma EarlierOwner(plan: Plan, done: seq<nat>, n: nat, p: Path) returns (m: nat)
    requires Ordered(plan, done) && n < |done| && done[n] < |plan.before|
    requires Visible(plan, done[n], p) && !Source(plan, p)
    ensures m < n && done[m] < |plan.actions| && p in plan.actions[done[m]].outputs
  {
    var j: nat :| j < |plan.actions| && Owns(plan.actions[j], p);
    assert Ready(plan, done[..n], done[n]);
    m :| 0 <= m < n && done[..n][m] == j;
  }

  /** Given the sources, an ordered set of up-to-date actions has only one possible set of outputs. */
  lemma {:induction false} OutputsDetermined(plan: Plan, disk: Disk, disk2: Disk, done: seq<nat>, n: nat)
    requires PlanOk(plan) && Ordered(plan, done) && SourcesAgree(plan, disk, disk2)
    requires forall i :: i in done ==> i < |plan.actions| && UpToDate(disk, plan.actions[i]) && UpToDate(disk2, plan.actions[i])
    requires n < |done|
    ensures done[n] < |plan.actions|
    ensures forall p :: p in plan.actions[done[n]].outputs ==>
              p in disk && p in disk2 && disk[p].content == disk2[p].content
    decreases n
  {
    hide PlanOk, DepList, Ordered, Visible, Source, UpToDate;
    var i := done[n];
    assert i in done;
    var a := plan.actions[i];
    PlanActionOk(plan, i);
    UpToDateOutputs(disk, a);
    assert RunFits(plan, i, ViewOf(disk)) && Deterministic(a, ViewOf(disk), ViewOf(disk2));
    forall p | p in a.statics || p in a.tool(ViewOf(disk)).value.used
      ensures (p in disk <==> p in disk2) && (p in disk ==> disk[p].content == disk2[p].content)
    {
      if !Source(plan, p) {
        var m := EarlierOwner(plan, done, n, p);
        OutputsDetermined(plan, disk, disk2, done, m);
      }
    }
    SameRunSameOutputs(a, disk, disk2);
  }

  /** No step of a schedule writes a source. */
  lemma {:induction false} StepsKeepSources(plan: Plan, db: map<string, Key>, pr: Progress, steps: seq<Step>, p: Path)
    requires PlanOk(plan) && BuildInv(plan, db, pr) && TakeSteps(plan, db, pr, steps).Some? && Source(plan, p)
    ensures SameFile(pr.disk, TakeSteps(plan, db, pr, steps).value.disk, p)
    decreases |steps|
  {
    hide PlanOk, BuildInv, AfterRun, Source, HashList;
    if steps != [] {
      var earlier := steps[..|steps| - 1];
      StepsKeepSources(plan, db, pr, earlier, p);
      StepsKeep(plan, db, pr, earlier);
      var pr1 := TakeSteps(plan, db, pr, earlier).value;
      match steps[|steps| - 1]
      case Prepare(i) =>
      case Finish(i) =>
        FinishSituation(plan, db, pr1, i);
        FinishWritesOwn(plan, db, pr1, i, p);
    }
  }

  lemma FinishWritesOwn(plan: Plan, db: map<string, Key>, pr: Progress, i: nat, p: Path)
    requires Finishing(plan, db, pr, i) && Source(plan, p)
    ensures SameFile(pr.disk, Written(plan, pr, i), p)
  {
    hide PlanOk, AfterRun;
    RunChangesOwn(plan, pr.disk, pr.clock, i);
  }

  /** A build that is a run's last event leaves, for every action it visited, the outputs of a build from scratch. */
  lemma SameAsFromScratch(plan: Plan, from: State, events: seq<Event>, st: State, steps: seq<Step>,
                                             scratch: State, scratchSteps: seq<Step>, i: nat, p: Path)
    requires PlanOk(plan) && Clean(plan, from) && Leads(plan, from, events, st)
    requires Clean(plan, scratch) && SourcesAgree(plan, st.disk, scratch.disk)
    requires BuildProgress(plan, st, steps).Some? && BuildProgress(plan, scratch, scratchSteps).Some?
    requires forall j :: j in BuildProgress(plan, st, steps).value.done ==> j in BuildProgress(plan, scratch, scratchSteps).value.done
    requires i in BuildProgress(plan, st, steps).value.done
    requires i < |plan.actions| && p in plan.actions[i].outputs
    ensures var mine := BuildProgress(plan, st, steps).value.disk;
            var anew := BuildProgress(plan, scratch, scratchSteps).value.disk;
            p in mine && p in anew && mine[p].content == anew[p].content
  {
    hide PlanOk, Clean, Leads, UpToDate, Ordered, Inv, SourcesAgree, BuildProgress;
    RunKeeps(plan, from, events, st);
    EmptyRun(plan, scratch);
    RunKeeps(plan, scratch, [], scratch);
    BuildKeeps(plan, st, steps);
    BuildKeeps(plan, scratch, scratchSteps);
    BuildKeepsSources(plan, st, steps);
    BuildKeepsSources(plan, scratch, scratchSteps);
    var pr, anew := BuildProgress(plan, st, steps).value, BuildProgress(plan, scratch, scratchSteps).value;
    var n :| 0 <= n < |pr.done| && pr.done[n] == i;
    SourcesJoin(plan, st.disk, pr.disk, scratch.disk, anew.disk);
    OutputsDetermined(plan, pr.disk, anew.disk, pr.done, n);
  }

  lemma SourcesJoin(plan: Plan, a: Disk, a2: Disk, b: Disk, b2: Disk)
    requires SourcesAgree(plan, a, b)
    requires forall p :: Source(plan, p) ==> SameFile(a, a2, p) && SameFile(b, b2, p)
    ensures SourcesAgree(plan, a2, b2)
  {
    hide Source;
  }

  lemma BuildKeepsSources(plan: Plan, st: State, steps: seq<Step>)
    requires PlanOk(plan) && Inv(plan, st) && BuildProgress(plan, st, steps).Some?
    ensures forall p :: Source(plan, p) ==> SameFile(st.disk, BuildProgress(plan, st, steps).value.disk, p)
  {
    hide PlanOk, Source, BuildInv, Inv, RefreshInv, TakeSteps, RefreshSteps;
    BeginOk(plan, st);
    var pr0 := TakeSteps(plan, st.db, Begin(st), steps).value;
    StepsKeep(plan, st.db, Begin(st), steps);
    RefreshKeeps(plan, st.db, pr0, |pr0.queue|);
    RefreshFrame(plan, pr0, RefreshSteps(plan, pr0, |pr0.queue|).value);
    forall p | Source(plan, p) ensures SameFile(st.disk, pr0.disk, p) {
      StepsKeepSources(plan, st.db, Begin(st), steps, p);
    }
  }
}
