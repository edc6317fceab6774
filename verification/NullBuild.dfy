/** When a build that follows a successful build, with nothing changed, runs nothing. */
module NullBuild {
  import opened Wrappers
  import opened ActionKeys
  import opened IncrementalBuild
  import opened BuildHistory
  import opened BuildRuns

  /** The refresh after a run and the next prepare list the same inputs in the same order. */
  predicate ListsAgree(statics: seq<Path>, oldDeps: seq<Path>, newDeps: seq<Path>) {
    RefreshedInputs(PreparedInputs(statics, oldDeps), oldDeps, newDeps) == PreparedInputs(statics, newDeps)
  }

  predicate SameMembers(a: seq<nat>, b: seq<nat>) {
    (forall i :: i in a ==> i in b) && (forall i :: i in b ==> i in a)
  }

  /** The stored key of a visited action is the one the next prepare computes. */
  predicate Repeats(plan: Plan, st: State, i: nat) {
    && i < |plan.actions|
    && plan.actions[i].id in st.db
    && st.db[plan.actions[i].id] == FreshKey(plan, st.disk, plan.actions[i])
  }

  // ---- the second build -------------------------------------------------------------

  lemma HitStep(plan: Plan, st: State, pr: Progress, i: nat)
    requires PlanOk(plan) && BuildInv(plan, st.db, pr) && pr.disk == st.disk
    requires i < |plan.actions| && Startable(plan, pr, i) && PrepareStep(plan, st.db, pr, i).Some?
    requires UpToDate(st.disk, plan.actions[i])
    ensures var pr2 := PrepareStep(plan, st.db, pr, i).value;
            if Repeats(plan, st, i) then pr2 == pr.(memo := pr2.memo, next := pr2.next, done := pr.done + [i])
            else pr2 == pr.(memo := pr2.memo, running := pr2.running) && i in pr2.running
  {
    hide PlanOk, BuildInv, HashList, FreshKey, DepList, PreparedInputs, ActionOk;
    PlanSized(plan);
    InvParts(plan, st.db, pr, i);
    PrepareComputes(plan, pr, i);
    assert plan.actions[i].outputs != [] by { HasOutputs(plan, i); }
  }

  lemma HasOutputs(plan: Plan, i: nat)
    requires PlanOk(plan) && i < |plan.actions|
    ensures plan.actions[i].outputs != []
  {
    PlanActionOk(plan, i);
  }

  /** If every visited action repeats its key, nothing is started. */
  lemma {:induction false} RepeatsMeansNoRun(plan: Plan, st: State, steps: seq<Step>)
    requires PlanOk(plan) && Inv(plan, st) && TakeSteps(plan, st.db, Begin(st), steps).Some?
    requires var p := TakeSteps(plan, st.db, Begin(st), steps).value;
             forall i :: i in p.done || i in p.running ==> Repeats(plan, st, i) && UpToDate(st.disk, plan.actions[i])
    ensures var p := TakeSteps(plan, st.db, Begin(st), steps).value;
            p.ran == [] && p.running == map[] && p.disk == st.disk && p.queue == []
    decreases |steps|
  {
    hide PlanOk, Inv, PrepareStep, FinishStep, UpToDate, Repeats;
    if steps != [] {
      var earlier := steps[..|steps| - 1];
      var pr1 := TakeSteps(plan, st.db, Begin(st), earlier).value;
      match steps[|steps| - 1] {
        case Prepare(i) =>
          PrepareGrows(plan, st.db, pr1, i);
          RepeatsMeansNoRun(plan, st, earlier);
          BeginOk(plan, st);
          StepsKeep(plan, st.db, Begin(st), earlier);
          HitStep(plan, st, pr1, i);
        case Finish(i) =>
          FinishGrows(plan, pr1, i);
          RepeatsMeansNoRun(plan, st, earlier);
      }
    }
  }

  lemma PrepareGrows(plan: Plan, db: map<string, Key>, pr: Progress, i: nat)
    requires i < |plan.actions| && PrepareStep(plan, db, pr, i).Some?
    ensures var p := PrepareStep(plan, db, pr, i).value;
            && (i in p.done || i in p.running) && p.ran == pr.ran && p.disk == pr.disk
            && forall j :: j in pr.done || j in pr.running ==> j in p.done || j in p.running
  {
    hide HashList, DepList, PreparedInputs;
  }

  lemma FinishGrows(plan: Plan, pr: Progress, i: nat)
    requires i < |plan.actions| && i in pr.running && FinishStep(plan, pr, i).Some?
    ensures var p := FinishStep(plan, pr, i).value;
            && p.ran == pr.ran + [i]
            && forall j :: j in pr.done || j in pr.running ==> j in p.done || j in p.running
  {
    hide AfterRun;
  }

  /** If nothing ran, every visited action's stored key is the one its prepare computed. */
  lemma {:induction false} NoRunMeansRepeats(plan: Plan, st: State, steps: seq<Step>)
    requires PlanOk(plan) && Inv(plan, st) && TakeSteps(plan, st.db, Begin(st), steps).Some?
    requires TakeSteps(plan, st.db, Begin(st), steps).value.ran == []
    ensures var p := TakeSteps(plan, st.db, Begin(st), steps).value;
            p.disk == st.disk && forall i :: i in p.done ==> Repeats(plan, st, i)
    decreases |steps|
  {
    hide PlanOk, Inv, PrepareStep, FinishStep, UpToDate, Repeats, BuildInv;
    if steps != [] {
      var earlier := steps[..|steps| - 1];
      var pr1 := TakeSteps(plan, st.db, Begin(st), earlier).value;
      match steps[|steps| - 1] {
        case Prepare(i) =>
          PrepareGrows(plan, st.db, pr1, i);
          NoRunMeansRepeats(plan, st, earlier);
          BeginOk(plan, st);
          StepsKeep(plan, st.db, Begin(st), earlier);
          SkipMeansRepeats(plan, st, pr1, i);
        case Finish(i) =>
          FinishGrows(plan, pr1, i);
      }
    }
  }

  lemma SkipMeansRepeats(plan: Plan, st: State, pr: Progress, i: nat)
    requires PlanOk(plan) && BuildInv(plan, st.db, pr) && pr.disk == st.disk
    requires i < |plan.actions| && Startable(plan, pr, i) && PrepareStep(plan, st.db, pr, i).Some?
    ensures forall j :: j in PrepareStep(plan, st.db, pr, i).value.done ==> j in pr.done || (j == i && Repeats(plan, st, i))
  {
    hide PlanOk, BuildInv, HashList, FreshKey, DepList, PreparedInputs;
    PlanSized(plan);
    InvParts(plan, st.db, pr, i);
    PrepareComputes(plan, pr, i);
  }

  // ---- the first build ----------------------------------------------------------------

  /** After a build, a visited action repeats its key exactly when it did not re-run with a depfile or its lists agree. */
  lemma WhoRepeats(plan: Plan, st: State, steps: seq<Step>, i: nat)
    requires PlanOk(plan) && Inv(plan, st) && BuildProgress(plan, st, steps).Some?
    requires i in BuildProgress(plan, st, steps).value.done
    ensures var pr := BuildProgress(plan, st, steps).value;
            && (!Queued(pr.queue, i) ==> Repeats(plan, Stored(st, pr), i))
            && forall n: nat :: n < |pr.queue| && pr.queue[n].action == i ==>
                 i < |plan.actions| &&
                 (Repeats(plan, Stored(st, pr), i) <==>
                  ListsAgree(plan.actions[i].statics, pr.queue[n].oldDeps, DepList(pr.disk, plan.actions[i])))
  {
    hide PlanOk, Inv, BuildInv, RefreshInv, TakeSteps, RefreshSteps, ListsAgree, Queued, DepList, Repeats;
    BeginOk(plan, st);
    StepsKeep(plan, st.db, Begin(st), steps);
    var pr0 := TakeSteps(plan, st.db, Begin(st), steps).value;
    RefreshKeeps(plan, st.db, pr0, |pr0.queue|);
    var pr := BuildProgress(plan, st, steps).value;
    RefreshFrame(plan, pr0, pr);
    if Queued(pr.queue, i) {
      forall n: nat | n < |pr.queue| && pr.queue[n].action == i
        ensures i < |plan.actions| &&
                (Repeats(plan, Stored(st, pr), i) <==>
                 ListsAgree(plan.actions[i].statics, pr.queue[n].oldDeps, DepList(pr.disk, plan.actions[i])))
      {
        QueuedRepeats(plan, st, pr0, pr, n);
      }
    } else {
      UnqueuedRepeats(plan, st, pr0, pr, i);
      forall n: nat | n < |pr.queue| ensures pr.queue[n].action != i {
        QueueHas(pr.queue, n);
      }
    }
  }

  lemma UnqueuedRepeats(plan: Plan, st: State, pr: Progress, now: Progress, i: nat)
    requires RefreshInv(plan, pr, now, |pr.queue|) && i in pr.done && !Queued(pr.queue, i)
    ensures Repeats(plan, Stored(st, now), i)
  {
    assert KeyIs(plan, now, i);
  }

  lemma QueuedRepeats(plan: Plan, st: State, pr: Progress, now: Progress, n: nat)
    requires PlanOk(plan) && BuildInv(plan, st.db, pr) && RefreshInv(plan, pr, now, |pr.queue|) && n < |pr.queue|
    ensures var i := pr.queue[n].action;
            && i < |plan.actions|
            && (Repeats(plan, Stored(st, now), i) <==>
                ListsAgree(plan.actions[i].statics, pr.queue[n].oldDeps, DepList(now.disk, plan.actions[i])))
  {
    hide PlanOk, DoneOk, RunningOk, OldOk, Ordered, Bookkeeping, StampsBelow, MemoSettled, DepList, PreparedInputs, RefreshedInputs;
    var r := pr.queue[n];
    assert KeyIs(plan, now, r.action) && QueuedOk(plan, pr, r);
    var a := plan.actions[r.action];
    FreshPaths(plan, pr.disk, RefreshedInputs(r.inputs, r.oldDeps, DepList(pr.disk, a)));
    FreshPaths(plan, pr.disk, PreparedInputs(a.statics, DepList(pr.disk, a)));
  }

  /** With nothing changed in between, a second build runs nothing exactly when the lists of every re-run action agree. */
  lemma NullBuildRunsNothing(plan: Plan, st: State, steps: seq<Step>, again: seq<Step>)
    requires PlanOk(plan) && Inv(plan, st) && BuildProgress(plan, st, steps).Some?
    requires BuildProgress(plan, Stored(st, BuildProgress(plan, st, steps).value), again).Some?
    requires SameMembers(BuildProgress(plan, st, steps).value.done,
                         BuildProgress(plan, Stored(st, BuildProgress(plan, st, steps).value), again).value.done)
    ensures var pr := BuildProgress(plan, st, steps).value;
            BuildProgress(plan, Stored(st, pr), again).value.ran == [] <==>
            forall n: nat :: n < |pr.queue| ==> QueuedAgree(plan, pr, pr.queue[n])
  {
    hide PlanOk, Inv, BuildInv, TakeSteps, RefreshSteps, RefreshInv, ListsAgree, UpToDate, Ordered, Queued, Repeats;
    var pr := BuildProgress(plan, st, steps).value;
    var st1 := Stored(st, pr);
    BuildKeeps(plan, st, steps);
    var end := TakeSteps(plan, st1.db, Begin(st1), again).value;
    SecondEnd(plan, st1, again);
    QueuedAreDone(plan, st, steps);
    if end.ran == [] {
      NoRunMeansRepeats(plan, st1, again);
      forall n: nat | n < |pr.queue| ensures QueuedAgree(plan, pr, pr.queue[n]) {
        WhoRepeats(plan, st, steps, pr.queue[n].action);
      }
    }
    if forall n: nat :: n < |pr.queue| ==> QueuedAgree(plan, pr, pr.queue[n]) {
      forall i | i in pr.done ensures Repeats(plan, st1, i) {
        WhoRepeats(plan, st, steps, i);
        if Queued(pr.queue, i) {
          var n := QueuePlace(pr.queue, i);
          assert QueuedAgree(plan, pr, pr.queue[n]);
        }
      }
      RepeatsMeansNoRun(plan, st1, again);
    }
  }

  ghost function QueuePlace(queue: seq<Refresh>, i: nat): (n: nat)
    requires Queued(queue, i)
    ensures n < |queue| && queue[n].action == i
  {
    var n: nat :| n < |queue| && queue[n].action == i;
    n
  }

  predicate QueuedAgree(plan: Plan, pr: Progress, r: Refresh) {
    && r.action < |plan.actions|
    && ListsAgree(plan.actions[r.action].statics, r.oldDeps, DepList(pr.disk, plan.actions[r.action]))
  }

  lemma SecondEnd(plan: Plan, st: State, steps: seq<Step>)
    requires PlanOk(plan) && Inv(plan, st) && BuildProgress(plan, st, steps).Some?
    ensures var end := TakeSteps(plan, st.db, Begin(st), steps);
            && end.Some? && end.value.running == map[]
            && BuildProgress(plan, st, steps).value == end.value.(
                 memo := BuildProgress(plan, st, steps).value.memo, next := BuildProgress(plan, st, steps).value.next)
  {
    hide PlanOk, Inv, BuildInv, TakeSteps, RefreshSteps, RefreshInv;
    BeginOk(plan, st);
    StepsKeep(plan, st.db, Begin(st), steps);
    var end := TakeSteps(plan, st.db, Begin(st), steps).value;
    RefreshKeeps(plan, st.db, end, |end.queue|);
    RefreshFrame(plan, end, RefreshSteps(plan, end, |end.queue|).value);
  }

  lemma QueuedAreDone(plan: Plan, st: State, steps: seq<Step>)
    requires PlanOk(plan) && Inv(plan, st) && BuildProgress(plan, st, steps).Some?
    ensures var pr := BuildProgress(plan, st, steps).value;
            forall n: nat :: n < |pr.queue| ==> pr.queue[n].action in pr.done && pr.queue[n].action in pr.ran
  {
    hide PlanOk, Inv, TakeSteps, RefreshSteps, DoneOk, RunningOk, OldOk, Ordered, Bookkeeping, StampsBelow, MemoSettled, DepsVisible;
    BeginOk(plan, st);
    StepsKeep(plan, st.db, Begin(st), steps);
    SecondEnd(plan, st, steps);
    var end := TakeSteps(plan, st.db, Begin(st), steps).value;
    forall n: nat | n < |end.queue| ensures end.queue[n].action in end.done && end.queue[n].action in end.ran {
      assert QueuedOk(plan, end, end.queue[n]);
    }
  }

  // ---- cold builds ------------------------------------------------------------------------

  /** From a clean start no depfile is on disk before its action has run. */
  lemma {:induction false} ColdSteps(plan: Plan, st: State, steps: seq<Step>)
    requires PlanOk(plan) && Clean(plan, st) && Inv(plan, st) && TakeSteps(plan, st.db, Begin(st), steps).Some?
    ensures var p := TakeSteps(plan, st.db, Begin(st), steps).value; Cold(plan, p)
    decreases |steps|
  {
    hide PlanOk, Inv, BuildInv, PrepareStep, FinishStep;
    if steps != [] {
      hide Clean, Cold;
      var earlier := steps[..|steps| - 1];
      ColdSteps(plan, st, earlier);
      BeginOk(plan, st);
      StepsKeep(plan, st.db, Begin(st), earlier);
      var pr1 := TakeSteps(plan, st.db, Begin(st), earlier).value;
      match steps[|steps| - 1] {
        case Prepare(i) =>
          ColdPrepare(plan, st.db, pr1, i);
        case Finish(i) =>
          FinishSituation(plan, st.db, pr1, i);
          ColdFinish(plan, st.db, pr1, i, FinishStep(plan, pr1, i).value);
      }
    }
  }

  ghost predicate Cold(plan: Plan, pr: Progress) {
    && (forall i: nat :: i < |plan.actions| && i !in pr.done ==> NoDepfileYet(plan, pr.disk, i))
    && (forall i :: i in pr.running ==> pr.running[i].deps == [])
    && (forall n: nat :: n < |pr.queue| ==> pr.queue[n].oldDeps == [])
  }

  predicate NoDepfileYet(plan: Plan, disk: Disk, i: nat)
    requires i < |plan.actions|
  {
    plan.actions[i].depfile.Some? ==> plan.actions[i].depfile.value !in disk
  }

  lemma ColdPrepare(plan: Plan, db: map<string, Key>, pr: Progress, i: nat)
    requires Cold(plan, pr) && i < |plan.actions| && i !in pr.done && PrepareStep(plan, db, pr, i).Some?
    ensures Cold(plan, PrepareStep(plan, db, pr, i).value)
  {
    hide HashList, PreparedInputs;
    assert NoDepfileYet(plan, pr.disk, i);
  }

  lemma ColdFinish(plan: Plan, db: map<string, Key>, pr: Progress, i: nat, pr2: Progress)
    requires Cold(plan, pr) && Finishing(plan, db, pr, i) && FinishStep(plan, pr, i) == Some(pr2)
    ensures Cold(plan, pr2)
  {
    hide PlanOk, BuildInv, AfterRun;
    assert pr2.disk == Written(plan, pr, i);
    assert StampsBelow(pr.disk, pr.clock) by { InvStamps(plan, db, pr); }
    RunChangesOwn(plan, pr.disk, pr.clock, i);
    forall j: nat | j < |plan.actions| && j !in pr2.done ensures NoDepfileYet(plan, pr2.disk, j) {
      assert NoDepfileYet(plan, pr.disk, j);
      PlanApart(plan, j, i);
      assert plan.actions[j].depfile.Some? ==> Owns(plan.actions[j], plan.actions[j].depfile.value);
    }
  }

  lemma InvStamps(plan: Plan, db: map<string, Key>, pr: Progress)
    requires PlanOk(plan) && BuildInv(plan, db, pr)
    ensures StampsBelow(pr.disk, pr.clock)
  {
  }

  lemma {:induction false} WithoutNothing(list: seq<Path>)
    ensures Without(list, []) == list
    decreases |list|
  {
    if list != [] {
      WithoutNothing(list[..|list| - 1]);
      assert list == list[..|list| - 1] + [list[|list| - 1]];
    }
  }

  /** A build from scratch settles: built again with nothing changed, it runs nothing. */
  lemma ColdBuildSettles(plan: Plan, st: State, steps: seq<Step>, again: seq<Step>)
    requires PlanOk(plan) && Clean(plan, st) && BuildProgress(plan, st, steps).Some?
    requires BuildProgress(plan, Stored(st, BuildProgress(plan, st, steps).value), again).Some?
    requires SameMembers(BuildProgress(plan, st, steps).value.done,
                         BuildProgress(plan, Stored(st, BuildProgress(plan, st, steps).value), again).value.done)
    ensures BuildProgress(plan, Stored(st, BuildProgress(plan, st, steps).value), again).value.ran == []
  {
    hide PlanOk, Inv, TakeSteps, RefreshSteps, Clean, DepList, BuildProgress;
    EmptyRun(plan, st);
    RunKeeps(plan, st, [], st);
    SecondEnd(plan, st, steps);
    ColdSteps(plan, st, steps);
    QueuedAreDone(plan, st, steps);
    NullBuildRunsNothing(plan, st, steps, again);
    BuildKeeps(plan, st, steps);
    var pr := BuildProgress(plan, st, steps).value;
    forall n: nat | n < |pr.queue| ensures QueuedAgree(plan, pr, pr.queue[n]) {
      var statics := plan.actions[pr.queue[n].action].statics;
      assert pr.queue[n].oldDeps == [] && PreparedInputs(statics, []) == statics;
      WithoutNothing(statics);
    }
  }

  // ---- warm builds ---------------------------------------------------------------------------

  predicate NoRepeats(list: seq<Path>) {
    forall i, j :: 0 <= i < j < |list| ==> list[i] != list[j]
  }

  lemma {:induction false} PushNewAppends(list: seq<Path>, items: seq<Path>)
    requires NoRepeats(items)
    ensures PushNew(list, items) == list + Without(items, list)
    decreases |items|
  {
    if items != [] {
      PushNewAppends(list, items[..|items| - 1]);
    }
  }

  lemma WithoutLast(front: seq<Path>, last: Path, dropped: seq<Path>)
    ensures Without(front + [last], dropped) == Without(front, dropped) + if last in dropped then [] else [last]
  {
    assert (front + [last])[..|front|] == front;
  }

  lemma {:induction false} WithoutAppends(a: seq<Path>, b: seq<Path>, dropped: seq<Path>)
    ensures Without(a + b, dropped) == Without(a, dropped) + Without(b, dropped)
    decreases |b|
  {
    if b == [] {
      assert a + b == a;
    } else {
      hide Without;
      var front, last := b[..|b| - 1], b[|b| - 1];
      WithoutAppends(a, front, dropped);
      WithoutLast(a + front, last, dropped);
      WithoutLast(front, last, dropped);
      assert a + b == (a + front) + [last] && b == front + [last];
    }
  }

  lemma {:induction false} WithoutStrangers(items: seq<Path>, dropped: seq<Path>)
    requires forall p :: p in items ==> p !in dropped
    ensures Without(items, dropped) == items
    decreases |items|
  {
    if items != [] {
      WithoutStrangers(items[..|items| - 1], dropped);
      assert items == items[..|items| - 1] + [items[|items| - 1]];
    }
  }

  lemma {:induction false} WithoutAll(items: seq<Path>, dropped: seq<Path>)
    requires forall p :: p in items ==> p in dropped
    ensures Without(items, dropped) == []
    decreases |items|
  {
    if items != [] {
      WithoutAll(items[..|items| - 1], dropped);
    }
  }

  lemma {:induction false} WithoutShorter(items: seq<Path>, dropped: seq<Path>)
    ensures |Without(items, dropped)| <= |items|
    decreases |items|
  {
    if items != [] {
      WithoutShorter(items[..|items| - 1], dropped);
    }
  }

  /** Where the depfile did not change, the two lists in closed form. */
  lemma WarmLists(statics: seq<Path>, deps: seq<Path>)
    requires NoRepeats(deps)
    ensures PreparedInputs(statics, deps) == statics + Without(deps, statics)
    ensures RefreshedInputs(PreparedInputs(statics, deps), deps, deps) == Without(statics, deps) + deps
  {
    hide PushNew, Without;
    var own, rest := Without(statics, deps), Without(deps, statics);
    PushNewAppends(statics, deps);
    WithoutAppends(statics, rest, deps);
    forall p ensures p in own <==> p in statics && p !in deps { WithoutHas(statics, deps, p); }
    forall p ensures p in rest <==> p in deps && p !in statics { WithoutHas(deps, statics, p); }
    WithoutAll(rest, deps);
    assert own + [] == own;
    PushNewAppends(own, deps);
    WithoutStrangers(deps, own);
  }

  /** An action whose depfile stays `deps` is rebuilt by every build unless the declared inputs that the
      depfile names come last among the declared ones and first in the depfile, in one order. */
  lemma WarmListsAgree(statics: seq<Path>, deps: seq<Path>)
    requires NoRepeats(deps)
    ensures ListsAgree(statics, deps, deps) <==>
            exists t :: statics == Without(statics, deps) + t && deps == t + Without(deps, statics)
  {
    hide PushNew, Without, PreparedInputs, RefreshedInputs;
    WarmLists(statics, deps);
    WithoutShorter(statics, deps);
    SplitEqual(Without(statics, deps), deps, statics, Without(deps, statics));
  }

  lemma SplitEqual(a: seq<Path>, b: seq<Path>, c: seq<Path>, d: seq<Path>)
    requires |a| <= |c|
    ensures a + b == c + d <==> exists t :: c == a + t && b == t + d
  {
    if a + b == c + d {
      var t := c[|a|..];
      assert a == (a + b)[..|a|] == (c + d)[..|a|] == c[..|a|];
      assert b == (a + b)[|a|..] == (c + d)[|a|..] == t + d;
      assert c == a + t;
    }
    if t :| c == a + t && b == t + d {
      assert a + (t + d) == (a + t) + d;
    }
  }

  /** A source compiled against a precompiled header that its depfile does not name never settles. */
  lemma PrecompiledHeaderNeverSettles(src: Path, pch: Path)
    requires src != pch
    ensures !ListsAgree([src, pch], [src], [src])
    ensures ListsAgree([pch, src], [src], [src])
  {
    hide PushNew, Without, RefreshedInputs, PreparedInputs;
    WarmLists([src, pch], [src]);
    WarmLists([pch, src], [src]);
    WithoutAppends([src], [pch], [src]);
    WithoutAppends([pch], [src], [src]);
    WithoutOne(src, [src]);
    WithoutOne(pch, [src]);
    WithoutOne(src, [src, pch]);
    WithoutOne(src, [pch, src]);
    assert [src, pch] == [src] + [pch] && [pch, src] == [pch] + [src];
    assert [] + [pch] == [pch] && [pch] + [] == [pch];
    assert RefreshedInputs(PreparedInputs([src, pch], [src]), [src], [src])[0] == pch;
    assert PreparedInputs([src, pch], [src])[0] == src;
  }

  lemma WithoutOne(p: Path, dropped: seq<Path>)
    ensures Without([p], dropped) == if p in dropped then [] else [p]
  {
    assert [p][..0] == [];
  }
}
