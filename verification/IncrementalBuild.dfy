/** One build: prepare, skip or run each action, refresh depfile keys, store the keys. */
module IncrementalBuild {
  import opened Wrappers
  import opened ActionKeys

  /** A prepared action whose process is running. */
  datatype Pending = Pending(key: Key, inputs: seq<Path>, deps: seq<Path>)

  /** An action that ran and whose key is to be recomputed from its new depfile. */
  datatype Refresh = Refresh(action: nat, inputs: seq<Path>, oldDeps: seq<Path>)

  /** The scheduler's two visits to an action; a skipped action has only the first. */
  datatype Step = Prepare(action: nat) | Finish(action: nat)

  datatype Progress = Progress(
    disk: Disk,
    clock: nat,
    memo: Memo,
    next: map<string, Key>,
    running: map<nat, Pending>,
    done: seq<nat>,
    ran: seq<nat>,
    queue: seq<Refresh>)

  datatype State = State(disk: Disk, clock: nat, db: map<string, Key>)

  predicate CacheHit(db: map<string, Key>, disk: Disk, a: Action, key: Key) {
    a.id in db && db[a.id] == key && AllExist(disk, a.outputs) && a.outputs != []
  }

  /** The disk after a process wrote its outputs and its depfile. */
  function AfterRun(disk: Disk, clock: nat, a: Action, made: Produced): Disk {
    map p | p in disk.Keys + made.files.Keys + (if a.depfile.Some? then {a.depfile.value} else {}) ::
      if a.depfile == Some(p) then File(Deps(made.used), clock)
      else if p in made.files then File(made.files[p], clock)
      else disk[p]
  }

  predicate Startable(plan: Plan, pr: Progress, i: nat) {
    && i < |plan.actions| && i < |plan.before|
    && i !in pr.done && i !in pr.running
    && forall j :: j in plan.before[i] ==> j in pr.done
  }

  /** Nothing when the depfile names a file that is gone. */
  function PrepareStep(plan: Plan, db: map<string, Key>, pr: Progress, i: nat): Option<Progress>
    requires i < |plan.actions|
  {
    var a := plan.actions[i];
    var deps := DepList(pr.disk, a);
    if !AllExist(pr.disk, deps) then None
    else
      var inputs := PreparedInputs(a.statics, deps);
      var (d1, m1) := HashList(plan, pr.disk, pr.memo, inputs);
      var (d2, m2) := HashList(plan, pr.disk, m1, deps);
      var key := Key(a.id, a.recipe, d1, d2);
      if CacheHit(db, pr.disk, a, key) then
        Some(pr.(memo := m2, next := pr.next[a.id := key], done := pr.done + [i]))
      else
        Some(pr.(memo := m2, running := pr.running[i := Pending(key, inputs, deps)]))
  }

  /** Nothing when the process reports failure. */
  function FinishStep(plan: Plan, pr: Progress, i: nat): Option<Progress>
    requires i < |plan.actions| && i in pr.running
  {
    var a := plan.actions[i];
    var p := pr.running[i];
    var made := a.tool(ViewOf(pr.disk));
    if made.None? then None
    else
      Some(pr.(disk := AfterRun(pr.disk, pr.clock, a, made.value),
               clock := pr.clock + 1,
               next := pr.next[a.id := p.key],
               running := pr.running - {i},
               done := pr.done + [i],
               ran := pr.ran + [i],
               queue := if a.depfile.Some? then pr.queue + [Refresh(i, p.inputs, p.deps)] else pr.queue))
  }

  /** Nothing when the step fails or is not one the scheduler can take here. */
  function TakeStep(plan: Plan, db: map<string, Key>, pr: Progress, s: Step): Option<Progress> {
    match s
    case Prepare(i) => if Startable(plan, pr, i) then PrepareStep(plan, db, pr, i) else None
    case Finish(i) => if i < |plan.actions| && i in pr.running then FinishStep(plan, pr, i) else None
  }

  function TakeSteps(plan: Plan, db: map<string, Key>, pr: Progress, steps: seq<Step>): Option<Progress>
    decreases |steps|
  {
    if steps == [] then Some(pr)
    else
      var earlier := TakeSteps(plan, db, pr, steps[..|steps| - 1]);
      if earlier.None? then None else TakeStep(plan, db, earlier.value, steps[|steps| - 1])
  }

  /** Recomputes one key from the depfile its run left behind. */
  function RefreshStep(plan: Plan, pr: Progress, r: Refresh): Option<Progress> {
    if r.action >= |plan.actions| then None
    else
      var a := plan.actions[r.action];
      var deps := DepList(pr.disk, a);
      if !AllExist(pr.disk, deps) then None
      else
        var inputs := RefreshedInputs(r.inputs, r.oldDeps, deps);
        var (d1, m1) := HashList(plan, pr.disk, pr.memo, inputs);
        var (d2, m2) := HashList(plan, pr.disk, m1, deps);
        Some(pr.(memo := m2, next := pr.next[a.id := Key(a.id, a.recipe, d1, d2)]))
  }

  /** The first `n` queued refreshes, in order. */
  function RefreshSteps(plan: Plan, pr: Progress, n: nat): Option<Progress>
    requires n <= |pr.queue|
  {
    if n == 0 then Some(pr)
    else
      var earlier := RefreshSteps(plan, pr, n - 1);
      if earlier.None? then None else RefreshStep(plan, earlier.value, pr.queue[n - 1])
  }

  function Begin(st: State): Progress {
    Progress(st.disk, st.clock, map[], map[], map[], [], [], [])
  }

  /** A whole build: nothing is stored unless every step and every refresh succeeds. */
  function BuildProgress(plan: Plan, st: State, steps: seq<Step>): Option<Progress> {
    var pr := TakeSteps(plan, st.db, Begin(st), steps);
    if pr.None? || pr.value.running != map[] then None
    else RefreshSteps(plan, pr.value, |pr.value.queue|)
  }

  /** Entries of actions the build did not visit are carried over. */
  function Stored(st: State, pr: Progress): State {
    State(pr.disk, pr.clock, st.db + pr.next)
  }

  // ---- the executor's form -------------------------------------------------------

  /** The build context: loops over lists, a digest memo and tables updated in place. */
  class BuildContext {
    const plan: Plan
    const db: map<string, Key>
    var disk: Disk
    var clock: nat
    var memo: Memo
    var next: map<string, Key>
    var running: map<nat, Pending>
    var done: seq<nat>
    var ran: seq<nat>
    var queue: seq<Refresh>

    ghost function Now(): Progress
      reads this
    {
      Progress(disk, clock, memo, next, running, done, ran, queue)
    }

    constructor (plan: Plan, st: State)
      ensures this.plan == plan && this.db == st.db && Now() == Begin(st)
    {
      this.plan, this.db := plan, st.db;
      disk, clock := st.disk, st.clock;
      memo, next, running := map[], map[], map[];
      done, ran, queue := [], [], [];
    }

    /** One file's digest, answered from the memo when it is there. */
    method HashFile(p: Path) returns (d: Digest)
      modifies this`memo
      ensures d == Recall(plan, disk, old(memo), p) && memo == old(memo)[p := d]
      ensures p !in old(memo) && !plan.inBuildDir(p) ==> forall other: Disk :: DigestOf(plan, other, p) == d ==> SameBytes(disk, other, p)
      ensures p !in old(memo) && plan.inBuildDir(p) ==> forall other: Disk :: DigestOf(plan, other, p) == d <==> SameStamp(disk, other, p)
    {
      forall other: Disk {
        DigestTells(plan, other, disk, p);
      }
      if p in memo {
        d := memo[p];
        return;
      }
      if p !in disk {
        d := Missing(p);
      } else if plan.inBuildDir(p) {
        d := Seen(p, disk[p].stamp, None);
      } else {
        d := Seen(p, disk[p].stamp, Some(disk[p].content));
      }
      memo := memo[p := d];
    }

    method HashInputs(paths: seq<Path>) returns (digests: seq<Digest>)
      modifies this`memo
      ensures (digests, memo) == HashList(plan, disk, old(memo), paths)
    {
      digests := [];
      for k := 0 to |paths|
        invariant (digests, memo) == HashList(plan, disk, old(memo), paths[..k])
      {
        var d := HashFile(paths[k]);
        digests := digests + [d];
        assert paths[..k + 1][..k] == paths[..k];
      }
      assert paths[..|paths|] == paths;
    }

    /** Lists depfile entries once each; fails on one that is gone. */
    method PushTokens(tokens: seq<Path>) returns (ok: bool, deps: seq<Path>)
      ensures ok == AllExist(disk, tokens)
      ensures ok ==> deps == PushNew([], tokens)
    {
      ok, deps := true, [];
      for k := 0 to |tokens|
        invariant deps == PushNew([], tokens[..k])
        invariant forall j :: 0 <= j < k ==> tokens[j] in disk
      {
        assert tokens[..k + 1][..k] == tokens[..k];
        if tokens[k] !in disk {
          ok := false;
          return;
        }
        if tokens[k] !in deps {
          deps := deps + [tokens[k]];
        }
      }
      assert tokens[..|tokens|] == tokens;
    }

    method PushDepfileInputs(a: Action) returns (ok: bool, deps: seq<Path>)
      ensures ok == AllExist(disk, DepList(disk, a))
      ensures ok ==> deps == DepList(disk, a)
    {
      ok, deps := true, [];
      if a.depfile.Some? && a.depfile.value in disk && disk[a.depfile.value].content.Deps? {
        ok, deps := PushTokens(disk[a.depfile.value].content.paths);
      }
    }

    /** Adds to `list` what it does not yet contain. */
    method AppendNew(list: seq<Path>, items: seq<Path>) returns (r: seq<Path>)
      ensures r == PushNew(list, items)
    {
      r := list;
      for k := 0 to |items|
        invariant r == PushNew(list, items[..k])
      {
        if items[k] !in r {
          r := r + [items[k]];
        }
        assert items[..k + 1][..k] == items[..k];
      }
      assert items[..|items|] == items;
    }

    /** Drops from the prepared list what the old depfile named. */
    method CopyStaticInputs(inputs: seq<Path>, depfileInputs: seq<Path>) returns (r: seq<Path>)
      ensures r == Without(inputs, depfileInputs)
    {
      r := [];
      for k := 0 to |inputs|
        invariant r == Without(inputs[..k], depfileInputs)
      {
        assert inputs[..k + 1][..k] == inputs[..k];
        if inputs[k] in depfileInputs {
          continue;
        }
        r := r + [inputs[k]];
      }
      assert inputs[..|inputs|] == inputs;
    }

    /** Computes the key, then skips the action or leaves it to be started. */
    method PrepareAction(i: nat) returns (ok: bool)
      requires i < |plan.actions|
      modifies this
      ensures ok == PrepareStep(plan, db, old(Now()), i).Some?
      ensures ok ==> Some(Now()) == PrepareStep(plan, db, old(Now()), i)
      ensures !ok ==> Now() == old(Now())
    {
      var a := plan.actions[i];
      var deps, inputs, d1, d2;
      ok, deps := PushDepfileInputs(a);
      if !ok { return; }
      inputs := AppendNew(a.statics, deps);
      d1 := HashInputs(inputs);
      d2 := HashInputs(deps);
      var key := Key(a.id, a.recipe, d1, d2);
      if a.id in db && db[a.id] == key && AllExist(disk, a.outputs) && |a.outputs| > 0 {
        next := next[a.id := key];
        done := done + [i];
      } else {
        running := running[i := Pending(key, inputs, deps)];
      }
    }

    /** Takes in a finished process; its key is refreshed later when it has a depfile. */
    method FinishAction(i: nat) returns (ok: bool)
      requires i < |plan.actions| && i in running
      modifies this
      ensures ok == FinishStep(plan, old(Now()), i).Some?
      ensures ok ==> Some(Now()) == FinishStep(plan, old(Now()), i)
      ensures !ok ==> Now() == old(Now())
    {
      var a, p := plan.actions[i], running[i];
      var made := a.tool(ViewOf(disk));
      ok := made.Some?;
      if !ok { return; }
      disk, clock := AfterRun(disk, clock, a, made.value), clock + 1;
      ran := ran + [i];
      next := next[a.id := p.key];
      running := running - {i};
      done := done + [i];
      if a.depfile.Some? {
        queue := queue + [Refresh(i, p.inputs, p.deps)];
      }
    }

    /** Recomputes the key of an action that ran from the depfile it wrote. */
    method RefreshAction(r: Refresh) returns (ok: bool)
      requires r.action < |plan.actions|
      modifies this
      ensures ok == RefreshStep(plan, old(Now()), r).Some?
      ensures ok ==> Some(Now()) == RefreshStep(plan, old(Now()), r)
      ensures queue == old(queue)
    {
      var a := plan.actions[r.action];
      var deps, inputs, d1, d2;
      ok, deps := PushDepfileInputs(a);
      if !ok { return; }
      inputs := CopyStaticInputs(r.inputs, r.oldDeps);
      inputs := AppendNew(inputs, deps);
      d1 := HashInputs(inputs);
      d2 := HashInputs(deps);
      next := next[a.id := Key(a.id, a.recipe, d1, d2)];
    }

    method FlushRefreshQueue() returns (ok: bool)
      requires forall r :: r in queue ==> r.action < |plan.actions|
      modifies this
      ensures ok == RefreshSteps(plan, old(Now()), |old(queue)|).Some?
      ensures ok ==> Some(Now()) == RefreshSteps(plan, old(Now()), |old(queue)|)
    {
      hide RefreshStep;
      ghost var start := Now();
      ok := true;
      var n := 0;
      while n < |queue|
        invariant queue == start.queue && 0 <= n <= |queue|
        invariant RefreshSteps(plan, start, n) == Some(Now())
      {
        ok := RefreshAction(queue[n]);
        if !ok {
          RefreshStops(plan, start, n + 1);
          return;
        }
        n := n + 1;
      }
    }

    /** Runs the given schedule; false when a step fails or is out of turn. */
    method Execute(steps: seq<Step>) returns (ok: bool)
      modifies this
      ensures ok == TakeSteps(plan, db, old(Now()), steps).Some?
      ensures ok ==> Some(Now()) == TakeSteps(plan, db, old(Now()), steps)
    {
      ghost var start := Now();
      for k := 0 to |steps|
        invariant TakeSteps(plan, db, start, steps[..k]) == Some(Now())
      {
        assert steps[..k + 1][..k] == steps[..k];
        match steps[k] {
          case Prepare(i) =>
            ok := Startable(plan, Progress(disk, clock, memo, next, running, done, ran, queue), i);
            if ok { ok := PrepareAction(i); }
          case Finish(i) =>
            ok := i < |plan.actions| && i in running;
            if ok { ok := FinishAction(i); }
        }
        if !ok {
          StepsStop(plan, db, start, steps, k + 1);
          return;
        }
      }
      assert steps[..|steps|] == steps;
      ok := true;
    }

    /** A whole build; the stored keys change only when everything succeeded. */
    method Build(st: State, steps: seq<Step>) returns (ok: bool, after: State)
      requires db == st.db && Now() == Begin(st)
      modifies this
      ensures ok == BuildProgress(plan, st, steps).Some?
      ensures ok ==> after == Stored(st, BuildProgress(plan, st, steps).value)
      ensures !ok ==> after.db == st.db
    {
      hide TakeSteps, RefreshSteps;
      ok := Execute(steps);
      if ok {
        assert forall r :: r in queue ==> r.action < |plan.actions| by { QueueInRange(plan, db, Begin(st), steps); }
        ok := running == map[];
        if ok {
          ok := FlushRefreshQueue();
        }
      }
      after := State(disk, clock, if ok then db + next else db);
    }
  }

  lemma {:induction false} QueueInRange(plan: Plan, db: map<string, Key>, pr: Progress, steps: seq<Step>)
    requires forall r :: r in pr.queue ==> r.action < |plan.actions|
    requires TakeSteps(plan, db, pr, steps).Some?
    ensures forall r :: r in TakeSteps(plan, db, pr, steps).value.queue ==> r.action < |plan.actions|
    decreases |steps|
  {
    hide HashList, DepList, PreparedInputs, AfterRun;
    if steps != [] {
      QueueInRange(plan, db, pr, steps[..|steps| - 1]);
    }
  }

  lemma {:induction false} RefreshStops(plan: Plan, pr: Progress, n: nat)
    requires n <= |pr.queue| && RefreshSteps(plan, pr, n).None?
    ensures RefreshSteps(plan, pr, |pr.queue|).None?
    decreases |pr.queue| - n
  {
    hide RefreshStep;
    if n < |pr.queue| {
      assert RefreshSteps(plan, pr, n + 1).None?;
      RefreshStops(plan, pr, n + 1);
    }
  }

  lemma {:induction false} StepsStop(plan: Plan, db: map<string, Key>, pr: Progress, steps: seq<Step>, n: nat)
    requires n <= |steps| && TakeSteps(plan, db, pr, steps[..n]).None?
    ensures TakeSteps(plan, db, pr, steps).None?
    decreases |steps| - n
  {
    if n < |steps| {
      assert steps[..n + 1][..n] == steps[..n];
      StepsStop(plan, db, pr, steps, n + 1);
    } else {
      assert steps[..n] == steps;
    }
  }

  // ---- whose keys a build stores --------------------------------------------------------------------

  predicate VisitedId(plan: Plan, done: seq<nat>, id: string) {
    exists j :: j in done && j < |plan.actions| && plan.actions[j].id == id
  }

  /** The keys collected so far are those of the visited actions. */
  ghost predicate Tallies(plan: Plan, pr: Progress) {
    && (forall id :: id in pr.next <==> VisitedId(plan, pr.done, id))
    && (forall j :: j in pr.done ==> j < |plan.actions|)
    && (forall r :: r in pr.queue ==> r.action in pr.done)
  }

  lemma VisitedMore(plan: Plan, done: seq<nat>, i: nat, id: string)
    requires i < |plan.actions|
    ensures VisitedId(plan, done + [i], id) <==> VisitedId(plan, done, id) || id == plan.actions[i].id
  {
    assert i in done + [i];
    if VisitedId(plan, done, id) {
      var j :| j in done && j < |plan.actions| && plan.actions[j].id == id;
      assert j in done + [i];
    }
  }

  lemma StepTallies(plan: Plan, db: map<string, Key>, pr: Progress, s: Step)
    requires Tallies(plan, pr) && TakeStep(plan, db, pr, s).Some?
    ensures Tallies(plan, TakeStep(plan, db, pr, s).value)
  {
    hide HashList, DepList, PreparedInputs, AfterRun, VisitedId, CacheHit, AllExist;
    forall id ensures VisitedId(plan, pr.done + [s.action], id) <==> VisitedId(plan, pr.done, id) || id == plan.actions[s.action].id {
      VisitedMore(plan, pr.done, s.action, id);
    }
  }

  lemma {:induction false} StepsTally(plan: Plan, db: map<string, Key>, pr: Progress, steps: seq<Step>)
    requires Tallies(plan, pr) && TakeSteps(plan, db, pr, steps).Some?
    ensures Tallies(plan, TakeSteps(plan, db, pr, steps).value)
    decreases |steps|
  {
    hide Tallies, TakeStep;
    if steps != [] {
      StepsTally(plan, db, pr, steps[..|steps| - 1]);
      StepTallies(plan, db, TakeSteps(plan, db, pr, steps[..|steps| - 1]).value, steps[|steps| - 1]);
    }
  }

  lemma {:induction false} RefreshesTally(plan: Plan, pr: Progress, n: nat)
    requires Tallies(plan, pr) && n <= |pr.queue| && RefreshSteps(plan, pr, n).Some?
    ensures var after := RefreshSteps(plan, pr, n).value; Tallies(plan, after) && after.done == pr.done && after.queue == pr.queue
  {
    hide HashList, DepList, RefreshedInputs, AllExist, VisitedId;
    if n > 0 {
      RefreshesTally(plan, pr, n - 1);
      var r := pr.queue[n - 1];
      assert r in pr.queue;
      ItsIdIsVisited(plan, pr.done, r.action);
    }
  }

  lemma ItsIdIsVisited(plan: Plan, done: seq<nat>, i: nat)
    requires i in done && i < |plan.actions|
    ensures VisitedId(plan, done, plan.actions[i].id)
  {}

  /** A successful build stores a key for every action it visited and leaves every other stored key as it is. */
  lemma StoredAre(plan: Plan, st: State, steps: seq<Step>, id: string)
    requires BuildProgress(plan, st, steps).Some?
    ensures var pr := BuildProgress(plan, st, steps).value; var after := Stored(st, pr);
            && (id in after.db <==> id in st.db || VisitedId(plan, pr.done, id))
            && (id in after.db && !VisitedId(plan, pr.done, id) ==> after.db[id] == st.db[id])
            && after.disk == pr.disk && after.clock == pr.clock
  {
    hide TakeSteps, RefreshSteps, VisitedId;
    NothingTallied(plan, st);
    StepsTally(plan, st.db, Begin(st), steps);
    var pr := TakeSteps(plan, st.db, Begin(st), steps).value;
    RefreshesTally(plan, pr, |pr.queue|);
  }

  // ---- when a build stops, and what it skips --------------------------------------------------------

  /** The action's depfile names a file that is gone. */
  ghost predicate NamesMissing(disk: Disk, a: Action) {
    && a.depfile.Some? && a.depfile.value in disk && disk[a.depfile.value].content.Deps?
    && exists p :: p in disk[a.depfile.value].content.paths && p !in disk
  }

  lemma MissingStops(disk: Disk, a: Action)
    ensures AllExist(disk, DepList(disk, a)) <==> !NamesMissing(disk, a)
  {
    hide PushNew;
    if a.depfile.Some? && a.depfile.value in disk && disk[a.depfile.value].content.Deps? {
      var paths := disk[a.depfile.value].content.paths;
      assert forall p :: p in DepList(disk, a) <==> p in paths;
    }
  }

  /** A step is refused exactly if it is out of turn, if the old depfile names a file that is gone, or if the process
      fails. */
  lemma StepStops(plan: Plan, db: map<string, Key>, pr: Progress, s: Step)
    ensures TakeStep(plan, db, pr, s).None? <==>
            var i := s.action;
            i >= |plan.actions|
            || if s.Prepare? then
                 || i >= |plan.before| || i in pr.done || i in pr.running || (exists j :: j in plan.before[i] && j !in pr.done)
                 || NamesMissing(pr.disk, plan.actions[i])
               else i !in pr.running || plan.actions[i].tool(ViewOf(pr.disk)).None?
  {
    hide DepList, AllExist, NamesMissing, CacheHit, HashList, PreparedInputs, AfterRun;
    if s.action < |plan.actions| {
      MissingStops(pr.disk, plan.actions[s.action]);
    }
  }

  /** A refresh fails exactly if the new depfile names a file that is gone. */
  lemma RefreshFails(plan: Plan, pr: Progress, r: Refresh)
    requires r.action < |plan.actions|
    ensures RefreshStep(plan, pr, r).None? <==> NamesMissing(pr.disk, plan.actions[r.action])
  {
    hide DepList, AllExist, NamesMissing, HashList, RefreshedInputs;
    MissingStops(pr.disk, plan.actions[r.action]);
  }

  ghost predicate StopsAt(plan: Plan, st: State, steps: seq<Step>, k: nat)
    requires k < |steps|
  {
    var earlier := TakeSteps(plan, st.db, Begin(st), steps[..k]);
    earlier.Some? && TakeStep(plan, st.db, earlier.value, steps[k]).None?
  }

  ghost predicate RefreshFailsAt(plan: Plan, pr: Progress, n: nat)
    requires n < |pr.queue|
  {
    var earlier := RefreshSteps(plan, pr, n);
    earlier.Some? && RefreshStep(plan, earlier.value, pr.queue[n]).None?
  }

  lemma {:induction false} SomeStepStops(plan: Plan, st: State, steps: seq<Step>)
    ensures TakeSteps(plan, st.db, Begin(st), steps).None? <==> exists k: nat :: k < |steps| && StopsAt(plan, st, steps, k)
    decreases |steps|
  {
    hide TakeStep;
    if steps != [] {
      var m := |steps| - 1;
      var front := steps[..m];
      SomeStepStops(plan, st, front);
      forall k: nat | k < m ensures StopsAt(plan, st, front, k) <==> StopsAt(plan, st, steps, k) {
        assert front[..k] == steps[..k];
      }
      if TakeSteps(plan, st.db, Begin(st), steps).None? && TakeSteps(plan, st.db, Begin(st), front).Some? {
        assert StopsAt(plan, st, steps, m);
      }
      if k: nat :| k < |steps| && StopsAt(plan, st, steps, k) {
        if k == m {
          assert TakeSteps(plan, st.db, Begin(st), steps).None?;
        } else {
          assert StopsAt(plan, st, front, k);
        }
      }
    }
  }

  lemma {:induction false} SomeRefreshFails(plan: Plan, pr: Progress, n: nat)
    requires n <= |pr.queue|
    ensures RefreshSteps(plan, pr, n).None? <==> exists k: nat :: k < n && RefreshFailsAt(plan, pr, k)
  {
    hide RefreshStep;
    if n > 0 {
      var m := n - 1;
      SomeRefreshFails(plan, pr, m);
      if RefreshSteps(plan, pr, n).None? && RefreshSteps(plan, pr, m).Some? {
        assert RefreshFailsAt(plan, pr, m);
      }
      if k: nat :| k < n && RefreshFailsAt(plan, pr, k) {
        if k == m {
          assert RefreshSteps(plan, pr, n).None?;
        }
      }
    }
  }

  /** A build fails exactly if a step is refused, a process is still running at the end, or a refresh fails. */
  lemma BuildStops(plan: Plan, st: State, steps: seq<Step>)
    ensures BuildProgress(plan, st, steps).None? <==>
            || (exists k: nat :: k < |steps| && StopsAt(plan, st, steps, k))
            || var pr := TakeSteps(plan, st.db, Begin(st), steps);
               pr.Some? && (pr.value.running != map[] || exists n: nat :: n < |pr.value.queue| && RefreshFailsAt(plan, pr.value, n))
  {
    hide StopsAt, RefreshFailsAt, TakeSteps, RefreshSteps;
    SomeStepStops(plan, st, steps);
    var pr := TakeSteps(plan, st.db, Begin(st), steps);
    if pr.Some? {
      SomeRefreshFails(plan, pr.value, |pr.value.queue|);
    }
  }

  /** Preparing an action ends it or leaves it running; it ends exactly if the stored key is the key computed, it has
      outputs, and all of them exist. */
  lemma SkippedExactly(plan: Plan, db: map<string, Key>, pr: Progress, i: nat)
    requires Startable(plan, pr, i) && PrepareStep(plan, db, pr, i).Some?
    ensures var a := plan.actions[i]; var after := PrepareStep(plan, db, pr, i).value;
            && (i in after.done <==> i !in after.running)
            && (i in after.done ==> a.id in after.next && a.id in db && db[a.id] == after.next[a.id])
            && (i in after.done ==> a.outputs != [] && forall p :: p in a.outputs ==> p in pr.disk)
            && (i in after.running && a.id in db && db[a.id] == after.running[i].key ==>
                  a.outputs == [] || exists p :: p in a.outputs && p !in pr.disk)
            && after.disk == pr.disk && after.ran == pr.ran
  {
    hide DepList, HashList, PreparedInputs;
  }

  lemma NothingTallied(plan: Plan, st: State)
    ensures Tallies(plan, Begin(st))
  {}
}
