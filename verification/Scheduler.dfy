/** The ready-queue executor: bounded slots, cache skips, timeouts, failure and cancellation. */
module Scheduler {
  import opened ActionDag
  import opened Wrappers

  /** `polls` bounds how often the process may still be found running before its time limit. */
  datatype Slot = Free | Busy(node: nat, polls: nat)

  /** What a run did: took up a node (ran it, skipped it, spawned it) or completed it. */
  datatype Event = Began(node: nat) | Ended(node: nat)

  datatype Outcome = Finished | Failed | Stalled | NoFreeSlot

  /** The environment's answer to a request: it reports an error, declines, or does it. */
  datatype Answer = Error | No | Yes

  datatype Verdict = Abort | Settle | Spawn

  /** What the environment is asked: to run a node in place; for a process, to prepare it, whether its outputs are there
      or can be restored, to start it, for its output, whether it has ended, and whether its end is accepted. */
  datatype Question =
    | RunInPlace(node: nat)
    | Prepare(node: nat)
    | UpToDate(node: nat)
    | Restore(node: nat)
    | Start(node: nat)
    | Drain(node: nat)
    | Exit(node: nat)
    | Accept(node: nat)
    | Clock(node: nat)
    | Wait
    | Refresh

  datatype Reply = Reply(question: Question, answer: Answer)

  ghost predicate NoError(answers: seq<Reply>) {
    forall i :: 0 <= i < |answers| ==> answers[i].answer != Error
  }

  /** The first error of the environment is the last thing it was asked. */
  ghost predicate JustFailed(answers: seq<Reply>) {
    answers != [] && answers[|answers| - 1].answer == Error && NoError(answers[..|answers| - 1])
  }

  /** No error so far, or only the one that stops the run. */
  ghost predicate Told(answers: seq<Reply>, failed: bool) {
    if failed then JustFailed(answers) else NoError(answers)
  }

  // ---- why a node counts as done ------------------------------------------------

  ghost predicate Said(answers: seq<Reply>, q: Question, a: Answer) {
    Reply(q, a) in answers
  }

  ghost predicate WentWell(answers: seq<Reply>, q: Question) {
    Said(answers, q, Yes) || Said(answers, q, No)
  }

  /** A node that is no process has run in place. A process was prepared, and then was found up to date, was restored, was
      found at the last moment to need no process, or was started, ended, and was accepted. */
  ghost predicate Justified(w: Work, n: nat, answers: seq<Reply>) {
    match w
    case ObjectLib(_) => WentWell(answers, RunInPlace(n))
    case Group(_) => WentWell(answers, RunInPlace(n))
    case Metadata(_) => WentWell(answers, RunInPlace(n))
    case Stage(_) => WentWell(answers, RunInPlace(n))
    case Generate(_, configHeader) => if configHeader then WentWell(answers, RunInPlace(n)) else ProcessDone(n, answers)
    case _ => ProcessDone(n, answers)
  }

  ghost predicate ProcessDone(n: nat, answers: seq<Reply>) {
    && WentWell(answers, Prepare(n))
    && ( || Said(answers, UpToDate(n), Yes) || Said(answers, Restore(n), Yes) || Said(answers, Start(n), No)
         || (Said(answers, Start(n), Yes) && Said(answers, Exit(n), Yes) && WentWell(answers, Accept(n))))
  }

  predicate Runs(q: Question) {
    q.RunInPlace? || q.Start?
  }

  ghost predicate Asked(answers: seq<Reply>, q: Question) {
    exists a :: Said(answers, q, a)
  }

  /** No node is run in place twice, and no process started twice. */
  ghost predicate RunOnce(answers: seq<Reply>) {
    forall i, j :: 0 <= i < j < |answers| && Runs(answers[i].question) ==> answers[i].question != answers[j].question
  }

  ghost predicate Undertaken(answers: seq<Reply>, n: nat) {
    Asked(answers, RunInPlace(n)) || Asked(answers, Start(n))
  }

  ghost predicate Last(answers: seq<Reply>, r: Reply) {
    answers != [] && answers[|answers| - 1] == r
  }

  /** No process has just been found to have ended. */
  ghost predicate Settled(answers: seq<Reply>) {
    answers != [] ==> !(answers[|answers| - 1].question.Exit? && answers[|answers| - 1].answer == Yes)
  }

  /** What may be asked next. A process is looked for in place and in the cache once it is prepared, and started only if it
      is in neither; it is asked for its end after its output; whoever has ended is judged at once, and only a process
      that has not ended can run out of time. */
  ghost predicate MayFollow(answers: seq<Reply>, q: Question) {
    match q
    case UpToDate(n) => Last(answers, Reply(Prepare(n), Yes)) || Last(answers, Reply(Prepare(n), No))
    case Restore(n) => Last(answers, Reply(UpToDate(n), No))
    case Start(n) => Last(answers, Reply(Restore(n), No))
    case Exit(n) => Last(answers, Reply(Drain(n), Yes)) || Last(answers, Reply(Drain(n), No))
    case Accept(n) => Last(answers, Reply(Exit(n), Yes))
    case Clock(n) => Last(answers, Reply(Exit(n), No))
    case _ => Settled(answers)
  }

  ghost predicate InTurn(answers: seq<Reply>, i: nat)
    requires i < |answers|
  {
    MayFollow(answers[..i], answers[i].question)
  }

  ghost predicate Orderly(answers: seq<Reply>) {
    forall i :: 0 <= i < |answers| ==> InTurn(answers, i)
  }

  lemma OrderlyMore(answers: seq<Reply>, r: Reply)
    requires Orderly(answers) && MayFollow(answers, r.question)
    ensures Orderly(answers + [r])
  {
    hide MayFollow;
    forall i | 0 <= i < |answers + [r]| ensures InTurn(answers + [r], i) {
      assert (answers + [r])[..i] == answers[..i];
      assert answers[..|answers|] == answers;
      assert i < |answers| ==> InTurn(answers, i);
    }
  }

  /** Every completed node is justified by what the environment said, nothing was run twice, and all was asked in turn. */
  ghost predicate Justly(nodes: seq<Node>, log: seq<Event>, answers: seq<Reply>) {
    && RunOnce(answers) && Orderly(answers)
    && forall n: nat :: Ended(n) in log ==> n < |nodes| && Justified(nodes[n].work, n, answers)
  }

  /** The process of a node has been started. */
  ghost predicate Spawned(nodes: seq<Node>, answers: seq<Reply>, n: nat) {
    n < |nodes| && nodes[n].work.IsProcess() && WentWell(answers, Prepare(n)) && Said(answers, Start(n), Yes)
  }

  /** Besides, each occupied slot is that of a started process, and what was run has begun, but for the nodes held. */
  ghost predicate Accounts(nodes: seq<Node>, slots: seq<Slot>, log: seq<Event>, answers: seq<Reply>, held: set<nat>) {
    && Justly(nodes, log, answers)
    && (forall i :: 0 <= i < |slots| && slots[i].Busy? ==> Spawned(nodes, answers, slots[i].node))
    && (forall n: nat :: Undertaken(answers, n) && n !in held ==> Began(n) in log)
  }

  lemma SaidMore(answers: seq<Reply>, r: Reply)
    ensures forall q, a :: Said(answers + [r], q, a) <==> Said(answers, q, a) || r == Reply(q, a)
  {}

  lemma JustifiedMore(w: Work, n: nat, answers: seq<Reply>, r: Reply)
    requires Justified(w, n, answers)
    ensures Justified(w, n, answers + [r])
  {
    SaidMore(answers, r);
    hide Said;
  }

  lemma RunOnceMore(answers: seq<Reply>, r: Reply)
    requires RunOnce(answers) && (Runs(r.question) ==> !Asked(answers, r.question))
    ensures RunOnce(answers + [r])
  {
    forall i | 0 <= i < |answers| && Runs(answers[i].question) ensures answers[i].question != r.question {
      assert Said(answers, answers[i].question, answers[i].answer);
    }
  }

  /** A further answer keeps what is justified. */
  lemma JustlyAsked(nodes: seq<Node>, log: seq<Event>, answers: seq<Reply>, r: Reply)
    requires Justly(nodes, log, answers) && (Runs(r.question) ==> !Asked(answers, r.question)) && MayFollow(answers, r.question)
    ensures Justly(nodes, log, answers + [r])
  {
    hide Justified, RunOnce, Orderly, MayFollow, Runs;
    RunOnceMore(answers, r);
    OrderlyMore(answers, r);
    forall n: nat | Ended(n) in log ensures Justified(nodes[n].work, n, answers + [r]) {
      JustifiedMore(nodes[n].work, n, answers, r);
    }
  }

  lemma AccountsAsked(nodes: seq<Node>, slots: seq<Slot>, log: seq<Event>, answers: seq<Reply>, held: set<nat>, r: Reply)
    requires Accounts(nodes, slots, log, answers, held) && (Runs(r.question) ==> !Asked(answers, r.question))
    requires MayFollow(answers, r.question)
    ensures Accounts(nodes, slots, log, answers + [r], held + if Runs(r.question) then {r.question.node} else {})
  {
    JustlyAsked(nodes, log, answers, r);
    SaidMore(answers, r);
    hide Justly, Said;
  }

  /** Scheduling state does not matter. */
  lemma AccountsSameGraph(a: seq<Node>, b: seq<Node>, slots: seq<Slot>, log: seq<Event>, answers: seq<Reply>, held: set<nat>)
    requires SameGraph(a, b)
    ensures Justly(a, log, answers) <==> Justly(b, log, answers)
    ensures Accounts(a, slots, log, answers, held) <==> Accounts(b, slots, log, answers, held)
  {
    hide Justified, Said, WentWell, RunOnce, Orderly, Undertaken;
  }

  /** A node begins. */
  lemma AccountsBegan(nodes: seq<Node>, slots: seq<Slot>, log: seq<Event>, answers: seq<Reply>, n: nat)
    requires Accounts(nodes, slots, log, answers, {n})
    ensures Accounts(nodes, slots, log + [Began(n)], answers, {}) && Justly(nodes, log + [Began(n)], answers)
  {
    hide Justified, Said, WentWell, RunOnce, Orderly, Undertaken, Spawned;
  }

  /** A justified node ends. */
  lemma AccountsEnded(nodes: seq<Node>, slots: seq<Slot>, log: seq<Event>, answers: seq<Reply>, held: set<nat>, n: nat)
    requires Accounts(nodes, slots, log, answers, held) && n < |nodes| && Justified(nodes[n].work, n, answers)
    ensures Accounts(nodes, slots, log + [Ended(n)], answers, held)
  {
    hide Justified, Said, WentWell, RunOnce, Orderly, Undertaken, Spawned;
  }

  /** A slot is emptied, or filled with a started process, or waits on. */
  lemma AccountsSlot(nodes: seq<Node>, slots: seq<Slot>, log: seq<Event>, answers: seq<Reply>, held: set<nat>, i: nat, s: Slot)
    requires Accounts(nodes, slots, log, answers, held) && i < |slots| && (s.Busy? ==> Spawned(nodes, answers, s.node))
    ensures Accounts(nodes, slots[i := s], log, answers, held)
  {
    hide Justly, Undertaken, Spawned;
  }

  lemma AccountsHeld(nodes: seq<Node>, slots: seq<Slot>, log: seq<Event>, answers: seq<Reply>, held: set<nat>, n: nat)
    requires Accounts(nodes, slots, log, answers, held)
    ensures Accounts(nodes, slots, log, answers, held + {n}) && Justly(nodes, log, answers)
    ensures Began(n) !in log && n !in held ==> !Undertaken(answers, n)
    ensures Began(n) in log ==> Accounts(nodes, slots, log, answers, held - {n})
  {
    hide Justly, Undertaken, Spawned;
  }

  lemma AccountsBusy(nodes: seq<Node>, slots: seq<Slot>, log: seq<Event>, answers: seq<Reply>, held: set<nat>, i: nat)
    requires Accounts(nodes, slots, log, answers, held) && i < |slots| && slots[i].Busy?
    ensures Spawned(nodes, answers, slots[i].node)
  {}

  lemma AccountsBack(nodes: seq<Node>, slots: seq<Slot>, log: seq<Event>, answers: seq<Reply>, n: nat)
    requires Accounts(nodes, slots, log, answers, {n}) && !Undertaken(answers, n)
    ensures Accounts(nodes, slots, log, answers, {})
  {
    hide Justly, Undertaken, Spawned;
  }

  lemma AccountsJustly(nodes: seq<Node>, slots: seq<Slot>, log: seq<Event>, answers: seq<Reply>, held: set<nat>)
    requires Accounts(nodes, slots, log, answers, held)
    ensures Justly(nodes, log, answers)
  {}

  lemma JustlyBegan(nodes: seq<Node>, log: seq<Event>, answers: seq<Reply>, n: nat)
    requires Justly(nodes, log, answers)
    ensures Justly(nodes, log + [Began(n)], answers)
  {
    hide Justified, RunOnce, Orderly;
  }

  lemma ReadyNotBegun(nodes: seq<Node>, log: seq<Event>, n: nat)
    requires LogOk(nodes, log) && n < |nodes| && nodes[n].state == Ready
    ensures Began(n) !in log
  {}

  lemma NothingAsked(nodes: seq<Node>, slots: seq<Slot>)
    requires forall i :: 0 <= i < |slots| ==> slots[i].Free?
    ensures Accounts(nodes, slots, [], [], {}) && NoError([])
  {}

  // ---- node arithmetic -----------------------------------------------------

  function WithState(nodes: seq<Node>, n: nat, st: NodeState): seq<Node>
    requires n < |nodes|
  {
    nodes[n := nodes[n].(state := st)]
  }

  ghost function UndoneDeps(nodes: seq<Node>, u: nat): set<nat>
    requires u < |nodes|
  {
    set d | d in nodes[u].deps && (d < |nodes| ==> !nodes[d].state.Done?)
  }

  ghost function DoneNodes(nodes: seq<Node>): set<nat> {
    set n | n in Below(|nodes|) && nodes[n].state.Done?
  }

  ghost function BusySlots(slots: seq<Slot>): set<nat> {
    set i | i in Below(|slots|) && slots[i].Busy?
  }

  /** The decrement a completed dependency gives to one of its users. */
  function Notify(node: Node): Node {
    if node.state != Pending then node
    else
      var r := if node.remaining > 0 then node.remaining - 1 else 0;
      node.(remaining := r, state := if r == 0 then Ready else Pending)
  }

  ghost function Notified(nodes: seq<Node>, outs: seq<nat>): (r: seq<Node>)
    ensures |r| == |nodes|
    ensures forall u :: 0 <= u < |nodes| ==> r[u] == if u in outs then Notify(nodes[u]) else nodes[u]
  {
    seq(|nodes|, u requires 0 <= u < |nodes| => if u in outs then Notify(nodes[u]) else nodes[u])
  }

  ghost predicate Releases(nodes: seq<Node>, u: nat) {
    u < |nodes| && nodes[u].state == Pending && Notify(nodes[u]).state == Ready
  }

  ghost function Released(nodes: seq<Node>, outs: seq<nat>): seq<nat> {
    if outs == [] then []
    else
      var u := outs[|outs| - 1];
      Released(nodes, outs[..|outs| - 1]) + (if Releases(nodes, u) then [u] else [])
  }

  lemma {:induction false} ReleasedExactly(nodes: seq<Node>, outs: seq<nat>)
    requires Distinct(outs)
    ensures Distinct(Released(nodes, outs))
    ensures forall u :: u in Released(nodes, outs) <==> u in outs && Releases(nodes, u)
  {
    if outs != [] {
      var init := outs[..|outs| - 1];
      assert outs == init + [outs[|outs| - 1]];
      ReleasedExactly(nodes, init);
    }
  }

  lemma ReleasedNext(nodes: seq<Node>, outs: seq<nat>, i: nat, queue: seq<nat>)
    requires i < |outs|
    ensures queue + Released(nodes, outs[..i + 1])
         == (queue + Released(nodes, outs[..i])) + (if Releases(nodes, outs[i]) then [outs[i]] else [])
  {
    assert outs[..i + 1][..i] == outs[..i];
  }

  lemma OutsStay(nodes: seq<Node>, outs: seq<nat>, n: nat)
    requires n < |nodes|
    ensures Notified(nodes, outs)[n].outs == nodes[n].outs
  {
  }

  lemma DistinctSoFar(items: seq<nat>, i: nat)
    requires i < |items| && Distinct(items)
    ensures items[i] !in items[..i]
  {
  }

  lemma NothingNotified(nodes: seq<Node>)
    ensures Notified(nodes, []) == nodes && Released(nodes, []) == []
  {
  }

  lemma NotifiedStep(nodes: seq<Node>, outs: seq<nat>, u: nat)
    requires u < |nodes| && u !in outs
    ensures Notified(nodes, outs + [u]) == Notified(nodes, outs)[u := Notify(nodes[u])]
    ensures Released(nodes, outs + [u]) == Released(nodes, outs) + (if Releases(nodes, u) then [u] else [])
  {
    assert (outs + [u])[..|outs|] == outs;
  }

  // ---- the invariant -------------------------------------------------------

  /** A pending node's counter is its number of unfinished dependencies; any other node has none. */
  ghost predicate CounterOk(nodes: seq<Node>, u: nat)
    requires u < |nodes|
  {
    if nodes[u].state.Pending? then nodes[u].remaining == |UndoneDeps(nodes, u)| > 0
    else UndoneDeps(nodes, u) == {}
  }

  ghost predicate CountersOk(nodes: seq<Node>) {
    forall u :: 0 <= u < |nodes| ==> CounterOk(nodes, u)
  }

  /** The queue holds exactly the ready nodes, once each, apart from a node being handled. */
  ghost predicate QueueOk(nodes: seq<Node>, queue: seq<nat>, held: set<nat>) {
    && Distinct(queue)
    && (forall n :: n in queue ==> n < |nodes| && nodes[n].state == Ready && n !in held)
    && (forall n :: 0 <= n < |nodes| && nodes[n].state == Ready && n !in held ==> n in queue)
  }

  ghost predicate InSlot(slots: seq<Slot>, n: nat) {
    exists i :: 0 <= i < |slots| && slots[i].Busy? && slots[i].node == n
  }

  /** The occupied slots hold exactly the running nodes, once each, apart from one being handled. */
  ghost predicate SlotsOk(nodes: seq<Node>, slots: seq<Slot>, held: set<nat>) {
    && (forall i :: 0 <= i < |slots| && slots[i].Busy? ==>
          slots[i].node < |nodes| && nodes[slots[i].node].state == Running && slots[i].node !in held)
    && (forall i, j :: 0 <= i < j < |slots| && slots[i].Busy? && slots[j].Busy? ==> slots[i].node != slots[j].node)
    && (forall n :: 0 <= n < |nodes| && nodes[n].state == Running && n !in held ==> InSlot(slots, n))
  }

  ghost predicate RunOk(nodes: seq<Node>, queue: seq<nat>, slots: seq<Slot>, active: nat, completed: nat, held: set<nat>) {
    && EdgesOk(nodes)
    && CountersOk(nodes)
    && QueueOk(nodes, queue, held)
    && SlotsOk(nodes, slots, held)
    && active == |BusySlots(slots)|
    && completed == |DoneNodes(nodes)|
  }

  ghost predicate EndOk(log: seq<Event>, i: nat)
    requires i < |log|
  {
    log[i].Ended? ==> Began(log[i].node) in log[..i]
  }

  ghost predicate BeginOk(nodes: seq<Node>, log: seq<Event>, i: nat)
    requires i < |log|
  {
    log[i].Began? ==> forall d: nat :: Edge(nodes, d, log[i].node) ==> Ended(d) in log[..i]
  }

  /** Nothing begins before its dependencies ended; nothing begins or ends twice. */
  ghost predicate LogSafe(nodes: seq<Node>, log: seq<Event>) {
    && Distinct(log)
    && (forall i :: 0 <= i < |log| ==> EndOk(log, i) && BeginOk(nodes, log, i))
  }

  /** The log agrees with the node states: begun means running or done, ended means done. */
  ghost predicate LogOk(nodes: seq<Node>, log: seq<Event>) {
    && LogSafe(nodes, log)
    && (forall n: nat :: Ended(n) in log <==> n < |nodes| && nodes[n].state == Done)
    && (forall n: nat :: Began(n) in log <==> n < |nodes| && (nodes[n].state == Running || nodes[n].state == Done))
  }

  // ---- what a step does to the invariant -----------------------------------

  lemma SameGraphEdges(a: seq<Node>, b: seq<Node>)
    requires EdgesOk(a) && SameGraph(a, b)
    ensures EdgesOk(b)
  {
    forall n | 0 <= n < |b| ensures NodeEdgesOk(b, n) {
      assert NodeEdgesOk(a, n);
    }
  }

  lemma CompletionAt(nodes: seq<Node>, n: nat, u: nat)
    requires EdgesOk(nodes) && n < |nodes| && nodes[n].state == Running && u < |nodes| && CounterOk(nodes, u)
    requires u == n ==> CounterOk(nodes, n)
    ensures CounterOk(Notified(WithState(nodes, n, Done), nodes[n].outs), u)
  {
    var after := Notified(WithState(nodes, n, Done), nodes[n].outs);
    LeftAfterCompletion(nodes, n, u);
    UsersAreOuts(nodes, n, u);
    hide EdgesOk, UndoneDeps;
    if u in nodes[n].outs {
      assert |UndoneDeps(nodes, u) - {n}| == |UndoneDeps(nodes, u)| - 1;
    } else {
      assert UndoneDeps(nodes, u) - {n} == UndoneDeps(nodes, u);
    }
  }

  /** The completed node is no longer among anyone's unfinished dependencies, and nothing else changes there. */
  lemma LeftAfterCompletion(nodes: seq<Node>, n: nat, u: nat)
    requires EdgesOk(nodes) && n < |nodes| && u < |nodes|
    ensures var after := Notified(WithState(nodes, n, Done), nodes[n].outs);
            UndoneDeps(after, u) == UndoneDeps(nodes, u) - {n}
  {
    var after := Notified(WithState(nodes, n, Done), nodes[n].outs);
    assert NodeEdgesOk(nodes, n) && NodeEdgesOk(nodes, u);
    hide EdgesOk, NodeEdgesOk;
    assert after[u].deps == nodes[u].deps;
    assert forall d :: 0 <= d < |nodes| ==> (after[d].state.Done? <==> nodes[d].state.Done? || d == n);
  }

  lemma UsersAreOuts(nodes: seq<Node>, n: nat, u: nat)
    requires EdgesOk(nodes) && n < |nodes| && u < |nodes| && nodes[n].state == Running
    ensures u in nodes[n].outs <==> n in UndoneDeps(nodes, u)
  {
    assert NodeEdgesOk(nodes, n) && NodeEdgesOk(nodes, u);
  }

  /** Completing a node whose users are notified keeps every counter exact. */
  lemma CompletionKeepsCounters(nodes: seq<Node>, n: nat)
    requires EdgesOk(nodes) && CountersOk(nodes) && n < |nodes| && nodes[n].state == Running
    ensures var after := Notified(WithState(nodes, n, Done), nodes[n].outs);
            SameGraph(nodes, after) && EdgesOk(after) && CountersOk(after) && DoneNodes(after) == DoneNodes(nodes) + {n}
  {
    var after := Notified(WithState(nodes, n, Done), nodes[n].outs);
    CompletionSameGraph(nodes, n);
    hide Notified, WithState, SameGraph, EdgesOk, CounterOk, DoneNodes;
    SameGraphEdges(nodes, after);
    SameGraphSize(nodes, after);
    forall u: nat | u < |nodes| ensures CounterOk(after, u) {
      CompletionAt(nodes, n, u);
    }
  }

  lemma CompletionSameGraph(nodes: seq<Node>, n: nat)
    requires n < |nodes|
    ensures var after := Notified(WithState(nodes, n, Done), nodes[n].outs);
            SameGraph(nodes, after) && DoneNodes(after) == DoneNodes(nodes) + {n}
  {
    var done := WithState(nodes, n, Done);
    var after := Notified(done, nodes[n].outs);
    forall d | 0 <= d < |nodes| ensures AfterNotice(done[d], after[d]) {
      NoticeKeeps(done[d]);
    }
    hide Notified, Notify;
  }

  /** A notice leaves the graph alone and finishes nobody. */
  predicate AfterNotice(x: Node, y: Node) {
    y.work == x.work && y.deps == x.deps && y.outs == x.outs && (y.state.Done? <==> x.state.Done?)
  }

  lemma NoticeKeeps(x: Node)
    ensures AfterNotice(x, x) && AfterNotice(x, Notify(x))
  {}

  lemma CompletionKeepsQueue(nodes: seq<Node>, n: nat, queue: seq<nat>)
    requires EdgesOk(nodes) && CountersOk(nodes) && n < |nodes| && nodes[n].state == Running
    requires QueueOk(nodes, queue, {n})
    ensures var done := WithState(nodes, n, Done);
            QueueOk(Notified(done, nodes[n].outs), queue + Released(done, nodes[n].outs), {})
  {
    var done, outs := WithState(nodes, n, Done), nodes[n].outs;
    assert NodeEdgesOk(nodes, n);
    ReleasedExactly(done, outs);
    var longer := queue + Released(done, outs);
    forall i, j | 0 <= i < j < |longer| ensures longer[i] != longer[j] {
      if i < |queue| <= j {
        assert longer[i] in queue && longer[j] in Released(done, outs);
      }
    }
  }

  lemma CompletionKeepsSlots(nodes: seq<Node>, n: nat, slots: seq<Slot>)
    requires EdgesOk(nodes) && n < |nodes| && nodes[n].state == Running
    requires SlotsOk(nodes, slots, {n})
    ensures SlotsOk(Notified(WithState(nodes, n, Done), nodes[n].outs), slots, {})
  {
    assert NodeEdgesOk(nodes, n);
  }

  /** A finished node leaves a state in which no node is in hand and one more is done. */
  lemma CompletionKeepsRun(nodes: seq<Node>, n: nat, queue: seq<nat>, slots: seq<Slot>, active: nat, completed: nat)
    requires n < |nodes| && nodes[n].state == Running
    requires RunOk(nodes, queue, slots, active, completed, {n})
    ensures var done := WithState(nodes, n, Done);
            RunOk(Notified(done, nodes[n].outs), queue + Released(done, nodes[n].outs), slots, active, completed + 1, {})
  {
    CompletionKeepsCounters(nodes, n);
    CompletionKeepsQueue(nodes, n, queue);
    CompletionKeepsSlots(nodes, n, slots);
    assert n !in DoneNodes(nodes);
  }

  /** Counters do not depend on which unfinished state a node is in, once it has left Pending. */
  lemma HandOver(nodes: seq<Node>, n: nat, st: NodeState)
    requires EdgesOk(nodes) && CountersOk(nodes) && n < |nodes|
    requires nodes[n].state in {Ready, Running} && st in {Ready, Running}
    ensures var moved := WithState(nodes, n, st);
            SameGraph(nodes, moved) && EdgesOk(moved) && CountersOk(moved) && DoneNodes(moved) == DoneNodes(nodes)
  {
    var moved := WithState(nodes, n, st);
    HandOverSameGraph(nodes, n, st);
    hide SameGraph, EdgesOk, CounterOk, DoneNodes;
    SameGraphEdges(nodes, moved);
    forall u: nat | u < |nodes| ensures CounterOk(moved, u) {
      HandOverAt(nodes, n, st, u);
    }
  }

  lemma HandOverSameGraph(nodes: seq<Node>, n: nat, st: NodeState)
    requires n < |nodes| && nodes[n].state in {Ready, Running} && st in {Ready, Running}
    ensures var moved := WithState(nodes, n, st);
            SameGraph(nodes, moved) && DoneNodes(moved) == DoneNodes(nodes)
  {}

  lemma HandOverAt(nodes: seq<Node>, n: nat, st: NodeState, u: nat)
    requires n < |nodes| && nodes[n].state in {Ready, Running} && st in {Ready, Running}
    requires u < |nodes| && CounterOk(nodes, u)
    ensures CounterOk(WithState(nodes, n, st), u)
  {
    assert UndoneDeps(WithState(nodes, n, st), u) == UndoneDeps(nodes, u);
  }

  lemma FreshCounter(nodes: seq<Node>, n: nat)
    requires EdgesOk(nodes) && n < |nodes| && nodes[n].remaining == |nodes[n].deps|
    requires forall k :: 0 <= k < |nodes| ==> nodes[k].state in {Pending, Ready}
    requires nodes[n].state == Pending <==> nodes[n].remaining > 0
    ensures CounterOk(nodes, n)
  {
    assert NodeEdgesOk(nodes, n);
    DistinctSize(nodes[n].deps);
    assert UndoneDeps(nodes, n) == Elements(nodes[n].deps);
  }

  lemma InitialRun(nodes: seq<Node>, queue: seq<nat>, slots: seq<Slot>)
    requires EdgesOk(nodes) && CountersOk(nodes) && QueueOk(nodes, queue, {})
    requires forall n :: 0 <= n < |nodes| ==> nodes[n].state in {Pending, Ready}
    requires forall i :: 0 <= i < |slots| ==> slots[i].Free?
    ensures RunOk(nodes, queue, slots, 0, 0, {}) && LogOk(nodes, [])
  {
    assert BusySlots(slots) == {} && DoneNodes(nodes) == {};
  }

  // ---- the log --------------------------------------------------------------

  lemma BeginExtendsLog(nodes: seq<Node>, n: nat, log: seq<Event>)
    requires EdgesOk(nodes) && CountersOk(nodes) && n < |nodes| && nodes[n].state == Ready && LogOk(nodes, log)
    ensures LogOk(WithState(nodes, n, Running), log + [Began(n)])
  {
    var running, longer := WithState(nodes, n, Running), log + [Began(n)];
    assert CounterOk(nodes, n) && NodeEdgesOk(nodes, n);
    forall d: nat | Edge(running, d, n) ensures Ended(d) in log {
      assert d in nodes[n].deps && d !in UndoneDeps(nodes, n);
    }
    forall i | 0 <= i < |longer| ensures EndOk(longer, i) && BeginOk(running, longer, i) {
      assert longer[..i] == log[..i];
      if i < |log| {
        assert EndOk(log, i) && BeginOk(nodes, log, i);
        assert forall d: nat :: Edge(running, d, log[i].node) ==> Edge(nodes, d, log[i].node);
      } else {
        assert log[..i] == log;
      }
    }
  }

  lemma EndExtendsLog(nodes: seq<Node>, n: nat, log: seq<Event>)
    requires EdgesOk(nodes) && n < |nodes| && nodes[n].state == Running && LogOk(nodes, log)
    ensures LogOk(Notified(WithState(nodes, n, Done), nodes[n].outs), log + [Ended(n)])
  {
    var after, longer := Notified(WithState(nodes, n, Done), nodes[n].outs), log + [Ended(n)];
    forall i | 0 <= i < |longer| ensures EndOk(longer, i) && BeginOk(after, longer, i) {
      assert longer[..i] == log[..i];
      if i < |log| {
        assert EndOk(log, i) && BeginOk(nodes, log, i);
        assert forall d: nat :: Edge(after, d, log[i].node) ==> Edge(nodes, d, log[i].node);
      } else {
        assert log[..i] == log;
      }
    }
  }

  /** Completing a node that is in hand, whichever unfinished state the array still shows for it. */
  lemma CompletionStep(nodes: seq<Node>, n: nat, queue: seq<nat>, slots: seq<Slot>, active: nat, completed: nat, log: seq<Event>)
    requires n < |nodes|
    requires RunOk(WithState(nodes, n, Running), queue, slots, active, completed, {n})
    requires LogOk(WithState(nodes, n, Running), log)
    ensures Distinct(nodes[n].outs) && forall u :: u in nodes[n].outs ==> u < |nodes| && u != n
    ensures var done, outs := WithState(nodes, n, Done), nodes[n].outs;
            && SameGraph(nodes, Notified(done, outs))
            && RunOk(Notified(done, outs), queue + Released(done, outs), slots, active, completed + 1, {})
            && LogOk(Notified(done, outs), log + [Ended(n)])
  {
    var running := WithState(nodes, n, Running);
    assert WithState(running, n, Done) == WithState(nodes, n, Done);
    RunOuts(running, n, queue, slots, active, completed);
    assert running[n].outs == nodes[n].outs && |running| == |nodes| && running[n].state == Running;
    hide RunOk, LogOk, SameGraph, Notified, Released, Distinct;
    CompletionKeepsRun(running, n, queue, slots, active, completed);
    EndExtendsLog(running, n, log);
    WithStateSameGraph(nodes, n, Running);
    CompletionSameGraph(running, n);
    SameGraphTransitive(nodes, running, Notified(WithState(running, n, Done), running[n].outs));
  }

  lemma RunOuts(nodes: seq<Node>, n: nat, queue: seq<nat>, slots: seq<Slot>, active: nat, completed: nat)
    requires n < |nodes| && RunOk(nodes, queue, slots, active, completed, {n})
    ensures EdgesOk(nodes)
    ensures Distinct(nodes[n].outs) && forall u :: u in nodes[n].outs ==> u < |nodes| && u != n
  {
    assert NodeEdgesOk(nodes, n);
  }

  /** When every node is done, the times at which they ended rank the graph. */
  lemma FinishedRunIsAcyclic(nodes: seq<Node>, log: seq<Event>)
    requires EdgesOk(nodes) && LogOk(nodes, log)
    requires forall n :: 0 <= n < |nodes| ==> nodes[n].state == Done
    ensures Acyclic(nodes)
  {
    var rank := seq(|nodes|, n requires 0 <= n < |nodes| => EndTime(nodes, log, n));
    forall d: nat, u: nat | Edge(nodes, d, u) ensures d < |nodes| && rank[d] < rank[u] {
      assert NodeEdgesOk(nodes, u);
      var ended := EndTime(nodes, log, u);
      assert EndOk(log, ended);
      var began :| 0 <= began < ended && log[began] == Began(u);
      assert BeginOk(nodes, log, began);
      var k :| 0 <= k < began && log[k] == Ended(d);
      assert k == EndTime(nodes, log, d);
    }
    RankedIsAcyclic(nodes, rank);
  }

  ghost function EndTime(nodes: seq<Node>, log: seq<Event>, n: nat): (i: int)
    requires LogOk(nodes, log) && n < |nodes| && nodes[n].state == Done
    ensures 0 <= i < |log| && log[i] == Ended(n)
  {
    var i :| 0 <= i < |log| && log[i] == Ended(n);
    i
  }

  lemma StalledNodeWaits(nodes: seq<Node>, slots: seq<Slot>, completed: nat, n: nat)
    requires RunOk(nodes, [], slots, 0, completed, {}) && n < |nodes| && nodes[n].state != Done
    ensures nodes[n].state == Pending && WaitsWithin(nodes, Below(|nodes|) - DoneNodes(nodes), n)
  {
    hide Below;
    assert forall i :: 0 <= i < |slots| && slots[i].Busy? ==> i in BusySlots(slots);
    assert !InSlot(slots, n);
    assert CounterOk(nodes, n) && NodeEdgesOk(nodes, n);
    hide EdgesOk, CountersOk, QueueOk, SlotsOk;
    var d :| d in UndoneDeps(nodes, n);
    assert d in Below(|nodes|) - DoneNodes(nodes) && Edge(nodes, d, n);
  }

  /** Nodes left over when nothing is queued or running wait on one another in a circle. */
  lemma StallHasCycle(nodes: seq<Node>, slots: seq<Slot>, completed: nat) returns (c: seq<nat>)
    requires RunOk(nodes, [], slots, 0, completed, {}) && completed < |nodes|
    ensures IsCycle(nodes, c) && forall n :: n in c ==> n < |nodes| && nodes[n].state == Pending
  {
    hide Below, EdgesOk, CountersOk, QueueOk, SlotsOk;
    var waiting := Below(|nodes|) - DoneNodes(nodes);
    assert Below(|nodes|) == DoneNodes(nodes) + waiting;
    assert |waiting| == |nodes| - completed;
    forall n {:trigger WaitsWithin(nodes, waiting, n)} | n in waiting
      ensures WaitsWithin(nodes, waiting, n)
    {
      StalledNodeWaits(nodes, slots, completed, n);
    }
    var first :| first in waiting;
    c := BackwardWalkCloses(nodes, waiting, [first]);
    forall n | n in c ensures n < |nodes| && nodes[n].state == Pending {
      StalledNodeWaits(nodes, slots, completed, n);
    }
  }

  // ---- the other steps --------------------------------------------------------

  lemma SameGraphTransitive(a: seq<Node>, b: seq<Node>, c: seq<Node>)
    requires SameGraph(a, b) && SameGraph(b, c)
    ensures SameGraph(a, c)
  {}

  lemma WithStateSameGraph(nodes: seq<Node>, n: nat, st: NodeState)
    requires n < |nodes|
    ensures SameGraph(nodes, WithState(nodes, n, st))
  {}

  lemma SameGraphReflexive(nodes: seq<Node>)
    ensures SameGraph(nodes, nodes)
  {}

  lemma SameGraphSize(a: seq<Node>, b: seq<Node>)
    requires SameGraph(a, b)
    ensures |a| == |b|
  {}

  lemma LogOkIsSafe(nodes: seq<Node>, log: seq<Event>)
    requires LogOk(nodes, log)
    ensures LogSafe(nodes, log)
  {}

  lemma LogSafeSameGraph(a: seq<Node>, b: seq<Node>, log: seq<Event>)
    requires SameGraph(a, b) && LogSafe(a, log)
    ensures LogSafe(b, log)
  {
    forall i | 0 <= i < |log| ensures BeginOk(b, log, i) {
      assert BeginOk(a, log, i);
      assert forall d: nat :: Edge(b, d, log[i].node) ==> Edge(a, d, log[i].node);
    }
  }

  lemma PopKeepsSlots(nodes: seq<Node>, n: nat, slots: seq<Slot>)
    requires n < |nodes| && nodes[n].state == Ready && SlotsOk(nodes, slots, {})
    ensures SlotsOk(nodes, slots, {n})
  {
  }

  lemma PopKeepsQueue(nodes: seq<Node>, queue: seq<nat>)
    requires QueueOk(nodes, queue, {}) && queue != []
    ensures queue[0] < |nodes| && nodes[queue[0]].state == Ready
    ensures QueueOk(nodes, queue[1..], {queue[0]})
  {
    var n, rest := queue[0], queue[1..];
    assert n in queue && queue == [n] + rest;
    forall m | m in rest ensures m != n && m in queue {
      var k :| 0 <= k < |rest| && rest[k] == m;
      assert queue[k + 1] == m;
    }
    assert Distinct(rest);
  }

  lemma PopKeepsRun(nodes: seq<Node>, queue: seq<nat>, slots: seq<Slot>, active: nat, completed: nat)
    requires RunOk(nodes, queue, slots, active, completed, {}) && queue != []
    ensures queue[0] < |nodes| && nodes[queue[0]].state == Ready
    ensures RunOk(nodes, queue[1..], slots, active, completed, {queue[0]})
  {
    hide EdgesOk, CountersOk, SlotsOk, QueueOk;
    PopKeepsQueue(nodes, queue);
    PopKeepsSlots(nodes, queue[0], slots);
  }

  lemma PushBackKeepsRun(nodes: seq<Node>, n: nat, queue: seq<nat>, slots: seq<Slot>, active: nat, completed: nat)
    requires n < |nodes| && nodes[n].state == Ready && RunOk(nodes, queue, slots, active, completed, {n})
    ensures WithState(nodes, n, Ready) == nodes
    ensures RunOk(nodes, queue + [n], slots, active, completed, {})
  {
    assert n !in queue;
  }

  /** Taking up a queued node: it may be run, skipped or spawned, because its dependencies ended. */
  lemma TakeUp(nodes: seq<Node>, n: nat, queue: seq<nat>, slots: seq<Slot>, active: nat, completed: nat, log: seq<Event>)
    requires n < |nodes| && nodes[n].state == Ready && LogOk(nodes, log)
    requires RunOk(nodes, queue, slots, active, completed, {n})
    ensures var running := WithState(nodes, n, Running);
            && SameGraph(nodes, running)
            && RunOk(running, queue, slots, active, completed, {n})
            && LogOk(running, log + [Began(n)])
  {
    HandOver(nodes, n, Running);
    BeginExtendsLog(nodes, n, log);
  }

  /** A running node is not queued, so it makes no difference to the queue whether it is in hand. */
  lemma RunningNotQueued(nodes: seq<Node>, n: nat, queue: seq<nat>)
    requires n < |nodes| && nodes[n].state == Running
    ensures QueueOk(nodes, queue, {n}) <==> QueueOk(nodes, queue, {})
  {}

  lemma OccupyKeepsSlots(nodes: seq<Node>, n: nat, slots: seq<Slot>, i: nat, polls: nat)
    requires n < |nodes| && nodes[n].state == Running && SlotsOk(nodes, slots, {n})
    requires i < |slots| && slots[i].Free?
    ensures SlotsOk(nodes, slots[i := Busy(n, polls)], {})
    ensures BusySlots(slots[i := Busy(n, polls)]) == BusySlots(slots) + {i}
  {
    var filled := slots[i := Busy(n, polls)];
    forall m | 0 <= m < |nodes| && nodes[m].state == Running ensures InSlot(filled, m) {
      if m == n {
        assert filled[i].node == m;
      } else {
        var k :| 0 <= k < |slots| && slots[k].Busy? && slots[k].node == m;
        assert filled[k] == slots[k];
      }
    }
  }

  lemma OccupyKeepsRun(nodes: seq<Node>, n: nat, queue: seq<nat>, slots: seq<Slot>, i: nat, polls: nat, active: nat, completed: nat)
    requires n < |nodes| && nodes[n].state == Running && RunOk(nodes, queue, slots, active, completed, {n})
    requires i < |slots| && slots[i].Free?
    ensures RunOk(nodes, queue, slots[i := Busy(n, polls)], active + 1, completed, {})
  {
    hide EdgesOk, CountersOk, QueueOk, SlotsOk;
    RunningNotQueued(nodes, n, queue);
    OccupyKeepsSlots(nodes, n, slots, i, polls);
    assert i !in BusySlots(slots);
  }

  lemma VacateKeepsSlots(nodes: seq<Node>, slots: seq<Slot>, i: nat)
    requires SlotsOk(nodes, slots, {}) && i < |slots| && slots[i].Busy?
    ensures slots[i].node < |nodes| && nodes[slots[i].node].state == Running
    ensures SlotsOk(nodes, slots[i := Free], {slots[i].node})
    ensures BusySlots(slots) == BusySlots(slots[i := Free]) + {i}
  {
    var emptied := slots[i := Free];
    forall m | 0 <= m < |nodes| && nodes[m].state == Running && m != slots[i].node ensures InSlot(emptied, m) {
      var k :| 0 <= k < |slots| && slots[k].Busy? && slots[k].node == m;
      assert emptied[k] == slots[k];
    }
  }

  lemma VacateKeepsRun(nodes: seq<Node>, queue: seq<nat>, slots: seq<Slot>, i: nat, active: nat, completed: nat)
    requires RunOk(nodes, queue, slots, active, completed, {}) && i < |slots| && slots[i].Busy?
    ensures var n := slots[i].node;
            && n < |nodes| && nodes[n].state == Running && WithState(nodes, n, Running) == nodes
            && active > 0 && RunOk(nodes, queue, slots[i := Free], active - 1, completed, {n})
  {
    hide EdgesOk, CountersOk, QueueOk, SlotsOk;
    VacateKeepsSlots(nodes, slots, i);
    RunningNotQueued(nodes, slots[i].node, queue);
    assert i !in BusySlots(slots[i := Free]);
  }

  lemma PollKeepsRun(nodes: seq<Node>, queue: seq<nat>, slots: seq<Slot>, i: nat, polls: nat, active: nat, completed: nat)
    requires RunOk(nodes, queue, slots, active, completed, {}) && i < |slots| && slots[i].Busy?
    ensures RunOk(nodes, queue, slots[i := Busy(slots[i].node, polls)], active, completed, {})
  {
    hide EdgesOk, CountersOk, QueueOk, SlotsOk;
    VacateKeepsRun(nodes, queue, slots, i, active, completed);
    OccupyKeepsRun(nodes, slots[i].node, queue, slots[i := Free], i, polls, active - 1, completed);
    assert slots[i := Free][i := Busy(slots[i].node, polls)] == slots[i := Busy(slots[i].node, polls)];
  }

  lemma FreeSlotUnused(slots: seq<Slot>, i: nat)
    requires i < |slots| && slots[i].Free?
    ensures |BusySlots(slots)| < |slots|
  {
    hide Below;
    var others := Below(|slots|) - {i};
    assert |others| == |slots| - 1;
    SubsetSize(BusySlots(slots), others);
  }

  /** With fewer running processes than slots, some slot is free. */
  lemma SomeSlotFree(slots: seq<Slot>)
    ensures |BusySlots(slots)| <= |slots|
    ensures |BusySlots(slots)| < |slots| <==> exists i :: 0 <= i < |slots| && slots[i].Free?
  {
    if i: nat :| i < |slots| && slots[i].Free? {
      FreeSlotUnused(slots, i);
    } else {
      hide Below;
      assert BusySlots(slots) == Below(|slots|);
    }
  }

  lemma CompletedBounded(nodes: seq<Node>, queue: seq<nat>, slots: seq<Slot>, active: nat, completed: nat, held: set<nat>)
    requires RunOk(nodes, queue, slots, active, completed, held)
    ensures completed <= |nodes|
    ensures completed == |nodes| <==> forall n :: 0 <= n < |nodes| ==> nodes[n].state == Done
  {
    hide Below, EdgesOk, CountersOk, QueueOk, SlotsOk;
    SubsetSize(DoneNodes(nodes), Below(|nodes|));
    if forall n :: 0 <= n < |nodes| ==> nodes[n].state == Done {
      assert DoneNodes(nodes) == Below(|nodes|);
    }
    forall n | completed == |nodes| && 0 <= n < |nodes| ensures nodes[n].state == Done {
      assert n in DoneNodes(nodes);
    }
  }

  lemma SlotCounts(nodes: seq<Node>, queue: seq<nat>, slots: seq<Slot>, active: nat, completed: nat)
    requires RunOk(nodes, queue, slots, active, completed, {})
    ensures completed <= |nodes| && active == |BusySlots(slots)| <= |slots|
  {
    CompletedBounded(nodes, queue, slots, active, completed, {});
    SomeSlotFree(slots);
  }

  lemma FinishedFacts(nodes: seq<Node>, queue: seq<nat>, slots: seq<Slot>, active: nat, completed: nat, log: seq<Event>)
    requires RunOk(nodes, queue, slots, active, completed, {}) && LogOk(nodes, log) && completed == |nodes|
    ensures LogSafe(nodes, log) && Acyclic(nodes) && BusySlots(slots) == {}
    ensures forall n :: 0 <= n < |nodes| ==> nodes[n].state == Done && Ended(n) in log
  {
    CompletedBounded(nodes, queue, slots, active, completed, {});
    FinishedRunIsAcyclic(nodes, log);
  }

  lemma ActiveIsBusy(nodes: seq<Node>, queue: seq<nat>, slots: seq<Slot>, active: nat, completed: nat, held: set<nat>)
    requires RunOk(nodes, queue, slots, active, completed, held)
    ensures active == |BusySlots(slots)| && completed == |DoneNodes(nodes)|
  {}

  /** How often running processes may still be polled in vain. */
  function Patience(slots: seq<Slot>): nat {
    if slots == [] then 0
    else (if slots[0].Busy? then slots[0].polls else 0) + Patience(slots[1..])
  }

  lemma {:induction false} PollCosts(slots: seq<Slot>, i: nat)
    requires i < |slots| && slots[i].Busy? && slots[i].polls > 0
    ensures Patience(slots[i := slots[i].(polls := slots[i].polls - 1)]) == Patience(slots) - 1
  {
    var polled := slots[i := slots[i].(polls := slots[i].polls - 1)];
    if i > 0 {
      assert polled[1..] == slots[1..][i - 1 := slots[i].(polls := slots[i].polls - 1)];
      PollCosts(slots[1..], i - 1);
    } else {
      assert polled[1..] == slots[1..];
    }
  }

  // ---- graph construction ----------------------------------------------------

  function PushDistinct(items: seq<nat>, value: nat): seq<nat> {
    if value in items then items else items + [value]
  }

  function WithEdge(nodes: seq<Node>, dep: nat, user: nat): seq<Node>
    requires dep < |nodes| && user < |nodes| && dep != user
  {
    var deps := PushDistinct(nodes[user].deps, dep);
    nodes[user := nodes[user].(deps := deps, remaining := |deps|)][dep := nodes[dep].(outs := PushDistinct(nodes[dep].outs, user))]
  }

  /** Every node still waits, with a counter equal to the length of its dependency list. */
  ghost predicate Unstarted(nodes: seq<Node>) {
    EdgesOk(nodes) && forall n :: 0 <= n < |nodes| ==> nodes[n].state == Pending && nodes[n].remaining == |nodes[n].deps|
  }

  /** Adding an edge twice is adding it once, and no other edge appears. */
  lemma EdgeAdded(nodes: seq<Node>, dep: nat, user: nat)
    requires Unstarted(nodes) && dep < |nodes| && user < |nodes| && dep != user
    ensures Unstarted(WithEdge(nodes, dep, user))
    ensures forall d: nat, u: nat :: Edge(WithEdge(nodes, dep, user), d, u) <==> Edge(nodes, d, u) || (d == dep && u == user)
  {
    var after := WithEdge(nodes, dep, user);
    forall n: nat | n < |after|
      ensures NodeEdgesOk(after, n) && after[n].state == Pending && after[n].remaining == |after[n].deps|
    {
      EdgeAddedAt(nodes, dep, user, n);
    }
  }

  lemma EdgeAddedAt(nodes: seq<Node>, dep: nat, user: nat, n: nat)
    requires Unstarted(nodes) && dep < |nodes| && user < |nodes| && dep != user && n < |nodes|
    ensures var after := WithEdge(nodes, dep, user);
            |after| == |nodes| && NodeEdgesOk(after, n) && after[n].state == Pending && after[n].remaining == |after[n].deps|
  {
    assert NodeEdgesOk(nodes, dep) && NodeEdgesOk(nodes, user) && NodeEdgesOk(nodes, n);
  }

  class Executor {
    var nodes: seq<Node>
    var ready: seq<nat>
    var readyHead: nat
    var slots: array<Slot>
    var active: nat
    var completed: nat
    ghost var log: seq<Event>
    ghost var answers: seq<Reply>

    constructor ()
      ensures nodes == [] && ready == [] && readyHead == 0 && active == 0 && completed == 0 && log == [] && answers == []
      ensures fresh(slots) && slots.Length == 0
    {
      nodes, ready, readyHead, active, completed, log, answers := [], [], 0, 0, 0, [], [];
      slots := new Slot[0];
    }

    method AddNode(work: Work) returns (index: nat)
      modifies this`nodes
      ensures index == |old(nodes)| && nodes == old(nodes) + [Node(work, Pending, 0, [], [])]
    {
      index := |nodes|;
      nodes := nodes + [Node(work, Pending, 0, [], [])];
    }

    static method IndexListPush(items: seq<nat>, value: nat) returns (r: seq<nat>)
      ensures r == PushDistinct(items, value)
    {
      for i := 0 to |items|
        invariant value !in items[..i]
      {
        if items[i] == value {
          return items;
        }
      }
      r := items + [value];
    }

    /** Rejects a self dependency; otherwise records the edge on both of its ends. */
    method AddEdge(dep: nat, user: nat) returns (ok: bool)
      requires Unstarted(nodes) && dep < |nodes| && user < |nodes|
      modifies this`nodes
      ensures ok <==> dep != user
      ensures Unstarted(nodes)
      ensures nodes == if ok then WithEdge(old(nodes), dep, user) else old(nodes)
    {
      if dep == user {
        return false;
      }
      var deps := IndexListPush(nodes[user].deps, dep);
      nodes := nodes[user := nodes[user].(deps := deps)];
      var outs := IndexListPush(nodes[dep].outs, user);
      nodes := nodes[dep := nodes[dep].(outs := outs)];
      nodes := nodes[user := nodes[user].(remaining := |nodes[user].deps|)];
      assert nodes == WithEdge(old(nodes), dep, user);
      EdgeAdded(old(nodes), dep, user);
      return true;
    }

    // ---- ready queue ---------------------------------------------------------

    ghost function Queue(): seq<nat>
      reads this
      requires readyHead <= |ready|
    {
      ready[readyHead..]
    }

    method ReadyPush(n: nat)
      requires n < |nodes| && readyHead <= |ready|
      modifies this`nodes, this`ready
      ensures nodes == WithState(old(nodes), n, Ready)
      ensures readyHead <= |ready| && Queue() == old(Queue()) + [n]
    {
      nodes := WithState(nodes, n, Ready);
      ready := ready + [n];
    }

    method ReadyPop() returns (n: Option<nat>)
      requires readyHead <= |ready|
      modifies this`ready, this`readyHead
      ensures readyHead <= |ready|
      ensures n == if old(Queue()) == [] then None else Some(old(Queue())[0])
      ensures Queue() == if old(Queue()) == [] then [] else old(Queue())[1..]
    {
      if |ready| - readyHead == 0 {
        return None;
      }
      n := Some(ready[readyHead]);
      readyHead := readyHead + 1;
      if readyHead == |ready| {
        readyHead, ready := 0, [];
      }
    }

    // ---- one step ------------------------------------------------------------

    ghost predicate Valid()
      reads this, slots
    {
      && readyHead <= |ready|
      && RunOk(nodes, Queue(), slots[..], active, completed, {})
      && LogOk(nodes, log)
      && Accounts(nodes, slots[..], log, answers, {})
    }

    /** Node `n` is out of the queue and the slots; seen as running, everything else is in order. */
    ghost predicate Holds(n: nat)
      reads this, slots
    {
      && readyHead <= |ready| && n < |nodes|
      && RunOk(WithState(nodes, n, Running), Queue(), slots[..], active, completed, {n})
      && LogOk(WithState(nodes, n, Running), log)
      && Accounts(nodes, slots[..], log, answers, {})
    }

    method NotifyUser(user: nat)
      requires user < |nodes| && readyHead <= |ready|
      modifies this`nodes, this`ready
      ensures readyHead <= |ready|
      ensures nodes == old(nodes)[user := Notify(old(nodes)[user])]
      ensures Queue() == old(Queue()) + (if Releases(old(nodes), user) then [user] else [])
    {
      if nodes[user].state == Pending {
        if nodes[user].remaining > 0 {
          nodes := nodes[user := nodes[user].(remaining := nodes[user].remaining - 1)];
        }
        if nodes[user].remaining == 0 {
          ReadyPush(user);
        }
      }
    }

    /** The next of several distinct users. */
    method NotifyNext(ghost start: seq<Node>, ghost outs: seq<nat>, ghost i: nat, user: nat)
      requires i < |outs| && user == outs[i] && Distinct(outs) && user < |start|
      requires nodes == Notified(start, outs[..i]) && readyHead <= |ready|
      modifies this`nodes, this`ready
      ensures readyHead <= |ready|
      ensures nodes == Notified(start, outs[..i + 1])
      ensures Queue() == old(Queue()) + (if Releases(start, user) then [user] else [])
    {
      hide Released;
      DistinctSoFar(outs, i);
      NotifiedStep(start, outs[..i], user);
      assert outs[..i + 1] == outs[..i] + [user];
      assert nodes[user] == start[user];
      NotifyUser(user);
    }

    method NotifyUsers(n: nat)
      requires n < |nodes| && readyHead <= |ready|
      requires Distinct(nodes[n].outs) && forall u :: u in nodes[n].outs ==> u < |nodes| && u != n
      modifies this`nodes, this`ready
      ensures readyHead <= |ready|
      ensures nodes == Notified(old(nodes), old(nodes[n].outs))
      ensures Queue() == old(Queue()) + Released(old(nodes), old(nodes[n].outs))
    {
      hide Notified, Releases, Released, Distinct, Notify;
      ghost var start, outs, queue := nodes, nodes[n].outs, Queue();
      NothingNotified(start);
      assert outs[..0] == [] && queue + [] == queue;
      var i := 0;
      while i < |nodes[n].outs|
        invariant 0 <= i <= |outs| && n < |nodes| == |start| && nodes[n].outs == outs
        invariant readyHead <= |ready|
        invariant nodes == Notified(start, outs[..i])
        invariant Queue() == queue + Released(start, outs[..i])
      {
        assert outs[i] in outs;
        ReleasedNext(start, outs, i, queue);
        OutsStay(start, outs[..i + 1], n);
        NotifyNext(start, outs, i, nodes[n].outs[i]);
        i := i + 1;
      }
      assert outs[..i] == outs;
    }

    /** Marks the node done, decrements its waiting users and queues those that reach zero. */
    method CompleteNode(n: nat)
      requires Holds(n) && Justified(nodes[n].work, n, answers)
      modifies this`nodes, this`ready, this`log
      ensures readyHead <= |ready| && SameGraph(old(nodes), nodes)
      ensures nodes == Notified(WithState(old(nodes), n, Done), old(nodes[n].outs))
      ensures Queue() == old(Queue()) + Released(WithState(old(nodes), n, Done), old(nodes[n].outs))
      ensures RunOk(nodes, Queue(), slots[..], active, completed + 1, {}) && LogOk(nodes, log)
      ensures log == old(log) + [Ended(n)] && Accounts(nodes, slots[..], log, answers, {})
    {
      hide RunOk, LogOk, Accounts, Justly, Justified;
      CompletionStep(nodes, n, Queue(), slots[..], active, completed, log);
      AccountsEnded(nodes, slots[..], log, answers, {}, n);
      nodes := WithState(nodes, n, Done);
      NotifyUsers(n);
      log := log + [Ended(n)];
      AccountsSameGraph(old(nodes), nodes, slots[..], log, answers, {});
    }

    // ---- the main loop -------------------------------------------------------

    /** Node `n` was popped and is still READY; everything else is in order. */
    ghost predicate Popped(n: nat)
      reads this, slots
    {
      && readyHead <= |ready| && n < |nodes| && nodes[n].state == Ready
      && RunOk(nodes, Queue(), slots[..], active, completed, {n})
      && LogOk(nodes, log)
      && Accounts(nodes, slots[..], log, answers, {n})
    }

    method Complete(n: nat)
      requires Holds(n) && Justified(nodes[n].work, n, answers)
      modifies this`nodes, this`ready, this`log, this`completed
      ensures Valid() && SameGraph(old(nodes), nodes)
      ensures completed == old(completed) + 1 && log == old(log) + [Ended(n)]
    {
      hide RunOk, LogOk, Accounts, Justified;
      CompleteNode(n);
      completed := completed + 1;
    }

    method FindFreeSlot() returns (slot: nat)
      ensures slot <= slots.Length
      ensures slot < slots.Length ==> slots[slot].Free?
      ensures slot == slots.Length ==> forall i :: 0 <= i < slots.Length ==> slots[i].Busy?
    {
      for i := 0 to slots.Length
        invariant forall k :: 0 <= k < i ==> slots[k].Busy?
      {
        if slots[i].Free? {
          return i;
        }
      }
      slot := slots.Length;
    }

    // ---- the environment ---------------------------------------------------------

    /** Asks the environment something that runs no action. What it answers is open, and remembered. */
    method Ask(q: Question, ghost held: set<nat>) returns (answer: Answer)
      requires NoError(answers) && !Runs(q) && Accounts(nodes, slots[..], log, answers, held) && MayFollow(answers, q)
      modifies this`answers
      ensures answers == old(answers) + [Reply(q, answer)] && Told(answers, answer == Error)
      ensures forall p, a :: Said(answers, p, a) <==> Said(old(answers), p, a) || (p == q && a == answer)
      ensures Accounts(nodes, slots[..], log, answers, held) && Justly(nodes, log, answers)
    {
      hide Accounts, Justly, Said;
      answer := *;
      AccountsAsked(nodes, slots[..], log, answers, held, Reply(q, answer));
      SaidMore(answers, Reply(q, answer));
      answers := answers + [Reply(q, answer)];
      assert answers[..|answers| - 1] == old(answers);
      assert held + {} == held;
      AccountsJustly(nodes, slots[..], log, answers, held);
    }

    /** Asks the environment to run a node in place or to start its process, which it was not asked before. */
    method AskToRun(q: Question) returns (answer: Answer)
      requires NoError(answers) && Runs(q) && !Undertaken(answers, q.node) && Accounts(nodes, slots[..], log, answers, {q.node})
      requires MayFollow(answers, q)
      modifies this`answers
      ensures answers == old(answers) + [Reply(q, answer)] && Told(answers, answer == Error)
      ensures forall p, a :: Said(answers, p, a) <==> Said(old(answers), p, a) || (p == q && a == answer)
      ensures Accounts(nodes, slots[..], log, answers, {q.node}) && Justly(nodes, log, answers)
    {
      hide Accounts, Justly, Said;
      answer := *;
      AccountsAsked(nodes, slots[..], log, answers, {q.node}, Reply(q, answer));
      SaidMore(answers, Reply(q, answer));
      answers := answers + [Reply(q, answer)];
      assert answers[..|answers| - 1] == old(answers);
      assert {q.node} + {q.node} == {q.node};
      AccountsJustly(nodes, slots[..], log, answers, {q.node});
    }

    /** The clock's answer once a process has used up its time. */
    method TimeOut(n: nat)
      requires NoError(answers) && Justly(nodes, log, answers) && Last(answers, Reply(Exit(n), No))
      modifies this`answers
      ensures answers == old(answers) + [Reply(Clock(n), Error)] && JustFailed(answers) && Justly(nodes, log, answers)
    {
      hide Justly;
      JustlyAsked(nodes, log, answers, Reply(Clock(n), Error));
      answers := answers + [Reply(Clock(n), Error)];
      assert answers[..|answers| - 1] == old(answers);
    }

    /** What becomes of a popped node: a failure, done on the spot, or a process to spawn. */
    method Judge(n: nat) returns (verdict: Verdict)
      requires n < |nodes| && NoError(answers) && Accounts(nodes, slots[..], log, answers, {n}) && !Undertaken(answers, n)
      requires Settled(answers)
      modifies this`answers
      ensures Told(answers, verdict == Abort) && Justly(nodes, log, answers) && Settled(answers)
      ensures verdict != Abort ==> Accounts(nodes, slots[..], log, answers, {n})
      ensures verdict == Settle ==> Justified(nodes[n].work, n, answers)
      ensures verdict == Spawn ==> nodes[n].work.IsProcess() && WentWell(answers, Prepare(n)) && !Undertaken(answers, n)
      ensures verdict == Spawn ==> Last(answers, Reply(Restore(n), No))
    {
      hide Accounts, Justly, Said, NoError, JustFailed;
      if !nodes[n].work.IsProcess() {
        var ran := AskToRun(RunInPlace(n));
        return if ran == Error then Abort else Settle;
      }
      var prepared := Ask(Prepare(n), {n});
      if prepared == Error {
        return Abort;
      }
      var hit := Ask(UpToDate(n), {n});
      if hit == Error {
        return Abort;
      }
      if hit == Yes {
        return Settle;
      }
      var restored := Ask(Restore(n), {n});
      verdict := if restored == Error then Abort else if restored == Yes then Settle else Spawn;
    }

    /** A popped node that is done on the spot: it ran in place, or its outputs are there already. */
    method SettleNode(n: nat)
      requires Popped(n) && Justified(nodes[n].work, n, answers)
      modifies this`nodes, this`ready, this`log, this`completed
      ensures Valid() && SameGraph(old(nodes), nodes) && completed == old(completed) + 1
      ensures log == old(log) + [Began(n), Ended(n)]
    {
      hide RunOk, LogOk, SameGraph, Accounts, Justly, Justified, NoError;
      TakeUp(nodes, n, Queue(), slots[..], active, completed, log);
      AccountsBegan(nodes, slots[..], log, answers, n);
      log := log + [Began(n)];
      Complete(n);
    }

    /** A node that runs in place and fails has begun all the same. */
    method BeginFailing(n: nat)
      requires readyHead <= |ready| && n < |nodes| && nodes[n].state == Ready && Justly(nodes, log, answers)
      requires RunOk(nodes, Queue(), slots[..], active, completed, {n}) && LogOk(nodes, log)
      modifies this`log
      ensures log == old(log) + [Began(n)] && LogSafe(nodes, log) && Justly(nodes, log, answers)
    {
      hide RunOk, LogOk, LogSafe, SameGraph, Justly, Accounts, NoError;
      JustlyBegan(nodes, log, answers, n);
      TakeUp(nodes, n, Queue(), slots[..], active, completed, log);
      LogOkIsSafe(WithState(nodes, n, Running), log + [Began(n)]);
      WithStateSameGraph(nodes, n, Running);
      LogSafeSameGraph(WithState(nodes, n, Running), nodes, log + [Began(n)]);
      log := log + [Began(n)];
    }

    /** A popped node for which every slot is occupied goes back to the end of the queue. */
    method PutBack(n: nat)
      requires Popped(n) && active >= slots.Length && !Undertaken(answers, n)
      modifies this`nodes, this`ready
      ensures Valid() && nodes == old(nodes) && active == slots.Length
    {
      hide RunOk, LogOk, Accounts, Undertaken, Justly, NoError;
      AccountsBack(nodes, slots[..], log, answers, n);
      ActiveIsBusy(nodes, Queue(), slots[..], active, completed, {n});
      PushBackKeepsRun(nodes, n, Queue(), slots[..], active, completed);
      SomeSlotFree(slots[..]);
      ReadyPush(n);
    }

    /** One popped node: run in place, skipped, restored from the cache, put back, or spawned. */
    method HandleNode(n: nat) returns (progressed: bool, stop: Option<Outcome>)
      requires Popped(n) && slots.Length >= 1 && NoError(answers) && !Undertaken(answers, n) && Settled(answers)
      modifies this`nodes, this`ready, this`log, this`completed, this`active, this`answers, slots
      ensures SameGraph(old(nodes), nodes) && old(log) <= log && LogSafe(nodes, log) && Justly(nodes, log, answers)
      ensures stop.Some? ==> stop.value == Failed && active >= |BusySlots(slots[..])|
      ensures Told(answers, stop.Some?) && Settled(answers)
      ensures stop.None? ==> Valid()
      ensures stop.None? && !progressed ==>
                active == slots.Length && active == old(active) && completed == old(completed) && slots[..] == old(slots[..])
      ensures stop.None? && progressed ==>
                || completed == old(completed) + 1
                || (completed == old(completed) && active == old(active) + 1 && |Queue()| == |old(Queue())|)
    {
      hide RunOk, LogOk, LogSafe, SameGraph, JustFailed, Accounts, Justly, NoError;
      SameGraphReflexive(nodes);
      LogOkIsSafe(nodes, log);
      ActiveIsBusy(nodes, Queue(), slots[..], active, completed, {n});
      progressed, stop := true, None;
      var verdict := Judge(n);
      if verdict == Abort {
        progressed, stop := false, Some(Failed);
        if !nodes[n].work.IsProcess() {
          BeginFailing(n);
        }
      } else if verdict == Settle {
        SettleNode(n);
        LogOkIsSafe(nodes, log);
        AccountsJustly(nodes, slots[..], log, answers, {});
      } else {
        progressed, stop := SpawnOrPutBack(n);
      }
    }

    /** A popped node that needs a process gets a slot, or waits for one. */
    method SpawnOrPutBack(n: nat) returns (progressed: bool, stop: Option<Outcome>)
      requires Popped(n) && slots.Length >= 1 && NoError(answers)
      requires nodes[n].work.IsProcess() && WentWell(answers, Prepare(n)) && !Undertaken(answers, n)
      requires Last(answers, Reply(Restore(n), No))
      modifies this`nodes, this`ready, this`log, this`completed, this`active, this`answers, slots
      ensures SameGraph(old(nodes), nodes) && old(log) <= log && LogSafe(nodes, log) && Justly(nodes, log, answers)
      ensures stop.Some? ==> stop.value == Failed && active >= |BusySlots(slots[..])|
      ensures Told(answers, stop.Some?) && Settled(answers)
      ensures stop.None? ==> Valid()
      ensures stop.None? && !progressed ==>
                active == slots.Length && active == old(active) && completed == old(completed) && slots[..] == old(slots[..])
      ensures stop.None? && progressed ==>
                || completed == old(completed) + 1
                || (completed == old(completed) && active == old(active) + 1 && |Queue()| == |old(Queue())|)
    {
      hide RunOk, LogOk, LogSafe, SameGraph, JustFailed, BusySlots, Accounts, Justly, NoError;
      SameGraphReflexive(nodes);
      LogOkIsSafe(nodes, log);
      ActiveIsBusy(nodes, Queue(), slots[..], active, completed, {n});
      if active >= slots.Length {
        PutBack(n);
        progressed, stop := false, None;
        AccountsJustly(nodes, slots[..], log, answers, {});
      } else {
        progressed, stop := StartNode(n);
        if stop.None? {
          LogOkIsSafe(nodes, log);
        } else {
          LogSafeSameGraph(old(nodes), nodes, log);
        }
      }
    }

    /** Records a spawned process; the environment fixes how long it may still take. */
    method Occupy(n: nat, slot: nat)
      requires Popped(n) && slot < slots.Length && slots[slot].Free? && Spawned(nodes, answers, n)
      modifies this`nodes, this`log, this`active, slots
      ensures Valid() && SameGraph(old(nodes), nodes) && log == old(log) + [Began(n)]
      ensures active == old(active) + 1 && completed == old(completed) && Queue() == old(Queue())
    {
      hide RunOk, LogOk, Accounts, Spawned, Justly, NoError;
      TakeUp(nodes, n, Queue(), slots[..], active, completed, log);
      var polls: nat := *;
      AccountsBegan(nodes, slots[..], log, answers, n);
      AccountsSlot(nodes, slots[..], log + [Began(n)], answers, {}, slot, Busy(n, polls));
      WithStateSameGraph(nodes, n, Running);
      AccountsSameGraph(nodes, WithState(nodes, n, Running), slots[..][slot := Busy(n, polls)], log + [Began(n)], answers, {});
      OccupyKeepsRun(WithState(nodes, n, Running), n, Queue(), slots[..], slot, polls, active, completed);
      log := log + [Began(n)];
      slots[slot] := Busy(n, polls);
      assert slots[..] == old(slots[..])[slot := Busy(n, polls)];
      nodes := WithState(nodes, n, Running);
      active := active + 1;
    }

    /** The action turned out to be up to date: it is done without ever having run. */
    method FinishUnspawned(n: nat)
      requires Popped(n) && Justified(nodes[n].work, n, answers)
      modifies this`nodes, this`ready, this`log, this`completed
      ensures Valid() && SameGraph(old(nodes), nodes) && log == old(log) + [Began(n), Ended(n)]
      ensures completed == old(completed) + 1
    {
      hide RunOk, LogOk, SameGraph, Accounts, Justified, Justly, NoError;
      TakeUp(nodes, n, Queue(), slots[..], active, completed, log);
      WithStateSameGraph(nodes, n, Done);
      AccountsBegan(nodes, slots[..], log, answers, n);
      AccountsSameGraph(nodes, WithState(nodes, n, Done), slots[..], log + [Began(n)], answers, {});
      assert WithState(WithState(nodes, n, Done), n, Running) == WithState(nodes, n, Running);
      log := log + [Began(n)];
      nodes := WithState(nodes, n, Done);
      Complete(n);
      SameGraphTransitive(old(nodes), WithState(old(nodes), n, Done), nodes);
    }

    /** Spawns the action of a popped node, or finds at the last moment that it is up to date. */
    method StartNode(n: nat) returns (progressed: bool, stop: Option<Outcome>)
      requires Popped(n) && active < slots.Length && NoError(answers)
      requires nodes[n].work.IsProcess() && WentWell(answers, Prepare(n)) && !Undertaken(answers, n)
      requires Last(answers, Reply(Restore(n), No))
      modifies this`nodes, this`ready, this`log, this`completed, this`active, this`answers, slots
      ensures Told(answers, stop.Some?) && Justly(nodes, log, answers) && Settled(answers)
      ensures SameGraph(old(nodes), nodes) && old(log) <= log
      ensures stop.Some? ==> stop.value == Failed && log == old(log) && active == old(active) && slots[..] == old(slots[..])
      ensures stop.None? ==> progressed && Valid()
      ensures stop.None? ==>
                || completed == old(completed) + 1
                || (completed == old(completed) && active == old(active) + 1 && |Queue()| == |old(Queue())|)
    {
      hide RunOk, LogOk, JustFailed, SameGraph, BusySlots, Accounts, Justly, NoError;
      SameGraphReflexive(nodes);
      ActiveIsBusy(nodes, Queue(), slots[..], active, completed, {n});
      SomeSlotFree(slots[..]);
      progressed, stop := false, None;
      var slot := FindFreeSlot();
      if slot >= slots.Length {
        stop := Some(NoFreeSlot);
      } else {
        var started := AskToRun(Start(n));
        match started {
          case Error => stop := Some(Failed);
          case Yes => Occupy(n, slot); progressed := true;
          case No => FinishUnspawned(n); progressed := true;
        }
        if started != Error {
          AccountsJustly(nodes, slots[..], log, answers, {});
        }
      }
    }

    /** Empties the ready queue, or stops early when every slot is occupied. */
    method DrainReady() returns (progressed: bool, stop: Option<Outcome>)
      requires Valid() && slots.Length >= 1 && NoError(answers) && Settled(answers)
      modifies this`nodes, this`ready, this`readyHead, this`log, this`completed, this`active, this`answers, slots
      ensures Told(answers, stop.Some?) && Settled(answers)
      ensures SameGraph(old(nodes), nodes) && old(log) <= log && LogSafe(nodes, log) && Justly(nodes, log, answers)
      ensures stop.Some? ==> stop.value == Failed && active >= |BusySlots(slots[..])|
      ensures stop.None? ==> Valid() && (Queue() == [] || active == slots.Length)
      ensures stop.None? && progressed ==>
                || completed > old(completed)
                || (completed == old(completed) && active > old(active))
      ensures stop.None? && !progressed ==>
                active == old(active) && completed == old(completed) && slots[..] == old(slots[..])
    {
      hide RunOk, LogOk, LogSafe, SameGraph, JustFailed, Accounts, Justly, NoError;
      SameGraphReflexive(nodes);
      LogOkIsSafe(nodes, log);
      progressed, stop := false, None;
      AccountsJustly(nodes, slots[..], log, answers, {});
      CompletedBounded(nodes, Queue(), slots[..], active, completed, {});
      while |ready| - readyHead > 0
        invariant stop == None && NoError(answers) && Settled(answers)
        invariant Valid() && SameGraph(old(nodes), nodes) && old(log) <= log && LogSafe(nodes, log) && Justly(nodes, log, answers)
        invariant completed <= |nodes|
        invariant progressed ==> completed > old(completed) || (completed == old(completed) && active > old(active))
        invariant !progressed ==> active == old(active) && completed == old(completed) && slots[..] == old(slots[..])
        decreases |nodes| - completed, |Queue()|
      {
        ghost var before := nodes;
        PopKeepsRun(nodes, Queue(), slots[..], active, completed);
        ReadyNotBegun(nodes, log, Queue()[0]);
        AccountsHeld(nodes, slots[..], log, answers, {}, Queue()[0]);
        assert {} + {Queue()[0]} == {Queue()[0]};
        var popped := ReadyPop();
        var n := popped.value;
        var moved: bool;
        moved, stop := HandleNode(n);
        SameGraphTransitive(old(nodes), before, nodes);
        if stop.Some? || !moved {
          return;
        }
        CompletedBounded(nodes, Queue(), slots[..], active, completed, {});
        SameGraphSize(before, nodes);
        progressed := true;
      }
    }

    /** A process that has not ended is asked after once more. */
    method KeepWaiting(i: nat)
      requires Valid() && i < slots.Length && slots[i].Busy? && slots[i].polls > 0
      modifies slots
      ensures Valid() && slots[i].Busy? && (forall k :: 0 <= k < slots.Length && k != i ==> slots[k] == old(slots[k]))
      ensures Patience(slots[..]) == old(Patience(slots[..])) - 1
    {
      hide RunOk, LogOk, Accounts, Justly, NoError;
      ghost var was := slots[..];
      PollKeepsRun(nodes, Queue(), was, i, slots[i].polls - 1, active, completed);
      AccountsBusy(nodes, was, log, answers, {}, i);
      AccountsSlot(nodes, was, log, answers, {}, i, Busy(slots[i].node, slots[i].polls - 1));
      PollCosts(was, i);
      slots[i] := Busy(slots[i].node, slots[i].polls - 1);
      assert slots[..] == was[i := was[i].(polls := was[i].polls - 1)];
    }

    /** A process that ended well frees its slot and completes its node. */
    method Collect(i: nat)
      requires Valid() && i < slots.Length && slots[i].Busy?
      requires Said(answers, Exit(slots[i].node), Yes) && WentWell(answers, Accept(slots[i].node))
      modifies this`nodes, this`ready, this`log, this`completed, this`active, slots
      ensures Valid() && SameGraph(old(nodes), nodes) && old(log) <= log && completed == old(completed) + 1
    {
      hide RunOk, LogOk, SameGraph, Accounts, Justly, NoError;
      VacateKeepsRun(nodes, Queue(), slots[..], i, active, completed);
      ghost var was := slots[..];
      var n := slots[i].node;
      AccountsBusy(nodes, was, log, answers, {}, i);
      AccountsSlot(nodes, was, log, answers, {}, i, Free);
      slots[i] := Free;
      assert slots[..] == was[i := Free];
      active := active - 1;
      Complete(n);
    }

    /** A process that failed, or ran past its time limit, only frees its slot. */
    method Abandon(i: nat)
      requires Valid() && i < slots.Length && slots[i].Busy?
      modifies slots
      ensures active >= |BusySlots(slots[..])|
    {
      hide RunOk, LogOk, Accounts, Justly, NoError;
      ghost var was := slots[..];
      VacateKeepsRun(nodes, Queue(), was, i, active, completed);
      ActiveIsBusy(nodes, Queue(), was[i := Free], active - 1, completed, {slots[i].node});
      slots[i] := Free;
      assert slots[..] == was[i := Free];
    }

    /** A process has ended: its exit status, the depfile check and the refresh queue decide. */
    method CollectIfAccepted(i: nat) returns (answer: Answer)
      requires Valid() && i < slots.Length && slots[i].Busy? && NoError(answers) && Last(answers, Reply(Exit(slots[i].node), Yes))
      modifies this`nodes, this`ready, this`log, this`completed, this`active, this`answers, slots
      ensures Told(answers, answer == Error) && Justly(nodes, log, answers) && Settled(answers)
      ensures SameGraph(old(nodes), nodes) && old(log) <= log && LogSafe(nodes, log)
      ensures answer == Error ==> active >= |BusySlots(slots[..])|
      ensures answer != Error ==> answer == Yes && Valid() && completed == old(completed) + 1
    {
      hide RunOk, LogOk, LogSafe, SameGraph, JustFailed, Accounts, Justly, NoError;
      SameGraphReflexive(nodes);
      LogOkIsSafe(nodes, log);
      var accepted := Ask(Accept(slots[i].node), {});
      if accepted == Error {
        Abandon(i);
        return Error;
      }
      Collect(i);
      LogOkIsSafe(nodes, log);
      AccountsJustly(nodes, slots[..], log, answers, {});
      return Yes;
    }

    /** A process still runs: it keeps its slot unless its time is up. */
    method WaitOrTimeOut(i: nat) returns (answer: Answer)
      requires Valid() && i < slots.Length && slots[i].Busy? && NoError(answers) && Last(answers, Reply(Exit(slots[i].node), No))
      modifies this`answers, slots
      ensures Told(answers, answer == Error) && answer != Yes && Justly(nodes, log, answers) && Settled(answers)
      ensures answer == Error ==> active >= |BusySlots(slots[..])|
      ensures answer == No ==>
                && Valid() && slots[i].Busy? && (forall k :: 0 <= k < slots.Length && k != i ==> slots[k] == old(slots[k]))
                && Patience(slots[..]) == old(Patience(slots[..])) - 1
    {
      hide RunOk, LogOk, JustFailed, BusySlots, Accounts, Justly, NoError;
      AccountsJustly(nodes, slots[..], log, answers, {});
      if slots[i].polls > 0 {
        KeepWaiting(i);
        answer := No;
      } else {
        var n := slots[i].node;
        Abandon(i);
        TimeOut(n);
        answer := Error;
      }
    }

    /** Asks after the process in one occupied slot: it still runs, it ended well, or the run aborts. */
    method PollSlot(i: nat) returns (answer: Answer)
      requires Valid() && i < slots.Length && slots[i].Busy? && NoError(answers) && Settled(answers)
      modifies this`nodes, this`ready, this`log, this`completed, this`active, this`answers, slots
      ensures Told(answers, answer == Error) && Justly(nodes, log, answers) && Settled(answers)
      ensures SameGraph(old(nodes), nodes) && old(log) <= log && LogSafe(nodes, log)
      ensures answer == Error ==> active >= |BusySlots(slots[..])|
      ensures answer == Yes ==> Valid() && completed == old(completed) + 1
      ensures answer == No ==>
                && Valid() && nodes == old(nodes) && log == old(log)
                && active == old(active) && completed == old(completed) && Queue() == old(Queue())
                && slots[i].Busy? && (forall k :: 0 <= k < slots.Length && k != i ==> slots[k] == old(slots[k]))
                && Patience(slots[..]) == old(Patience(slots[..])) - 1
    {
      hide RunOk, LogOk, LogSafe, SameGraph, JustFailed, BusySlots, Accounts, Justly, NoError;
      SameGraphReflexive(nodes);
      LogOkIsSafe(nodes, log);
      ActiveIsBusy(nodes, Queue(), slots[..], active, completed, {});
      var drained := Ask(Drain(slots[i].node), {});
      if drained == Error {
        return Error;
      }
      var done := Ask(Exit(slots[i].node), {});
      match done {
        case Error => answer := Error;
        case No => answer := WaitOrTimeOut(i);
        case Yes => answer := CollectIfAccepted(i);
      }
    }

    /** Looks at each occupied slot once, up to the first process found to have ended. */
    method PollSlots() returns (progressed: bool, stop: Option<Outcome>)
      requires Valid() && NoError(answers) && Settled(answers)
      modifies this`nodes, this`ready, this`log, this`completed, this`active, this`answers, slots
      ensures Told(answers, stop.Some?) && Settled(answers)
      ensures SameGraph(old(nodes), nodes) && old(log) <= log && LogSafe(nodes, log) && Justly(nodes, log, answers)
      ensures stop.Some? ==> stop.value == Failed && active >= |BusySlots(slots[..])|
      ensures stop.None? ==> Valid()
      ensures stop.None? && progressed ==> completed == old(completed) + 1
      ensures stop.None? && !progressed ==>
                && active == old(active) && completed == old(completed) && Queue() == old(Queue())
                && Patience(slots[..]) <= old(Patience(slots[..]))
                && (active > 0 ==> Patience(slots[..]) < old(Patience(slots[..])))
    {
      hide RunOk, LogOk, LogSafe, SameGraph, JustFailed, Accounts, Justly, NoError;
      SameGraphReflexive(nodes);
      LogOkIsSafe(nodes, log);
      AccountsJustly(nodes, slots[..], log, answers, {});
      ghost var polled := false;
      for i := 0 to slots.Length
        invariant Valid() && nodes == old(nodes) && log == old(log) && NoError(answers) && Justly(nodes, log, answers) && Settled(answers)
        invariant active == old(active) && completed == old(completed) && Queue() == old(Queue())
        invariant Patience(slots[..]) <= old(Patience(slots[..]))
        invariant polled ==> Patience(slots[..]) < old(Patience(slots[..]))
        invariant !polled ==> forall k :: 0 <= k < i ==> slots[k].Free?
      {
        if slots[i].Busy? {
          var answer := PollSlot(i);
          match answer {
            case Error => return false, Some(Failed);
            case Yes => return true, None;
            case No => polled := true;
          }
        }
      }
      ActiveIsBusy(nodes, Queue(), slots[..], active, completed, {});
      if !polled {
        assert BusySlots(slots[..]) == {};
      }
      return false, None;
    }

    method CancelActive()
      modifies slots
      ensures forall i :: 0 <= i < slots.Length ==> slots[i].Free?
    {
      for i := 0 to slots.Length
        invariant forall k :: 0 <= k < i ==> slots[k].Free?
      {
        if slots[i].Busy? {
          slots[i] := Free;
        }
      }
    }

    /** Queues the nodes that wait for nothing. */
    method QueueRoots()
      requires Unstarted(nodes) && ready == [] && readyHead == 0
      modifies this`nodes, this`ready
      ensures SameGraph(old(nodes), nodes) && EdgesOk(nodes) && CountersOk(nodes) && readyHead <= |ready|
      ensures QueueOk(nodes, Queue(), {})
      ensures forall n :: 0 <= n < |nodes| ==> nodes[n].state in {Pending, Ready}
    {
      for i := 0 to |nodes|
        invariant |nodes| == |old(nodes)| && readyHead <= |ready|
        invariant forall n :: 0 <= n < |nodes| ==>
                    nodes[n] == old(nodes)[n].(state := if n < i && old(nodes)[n].remaining == 0 then Ready else Pending)
        invariant Distinct(Queue())
        invariant forall n: nat :: n in Queue() <==> n < i && old(nodes)[n].remaining == 0
      {
        if nodes[i].remaining == 0 {
          ReadyPush(i);
        }
      }
      SameGraphEdges(old(nodes), nodes);
      forall n | 0 <= n < |nodes| ensures CounterOk(nodes, n) {
        FreshCounter(nodes, n);
      }
    }

    /** Nothing moved: without a process the run has stalled, otherwise it waits for one. */
    method StallOrWait() returns (stop: Option<Outcome>)
      requires Valid() && completed < |nodes| && NoError(answers) && Settled(answers)
      requires active == |BusySlots(slots[..])| && (active == 0 ==> Queue() == [])
      modifies this`answers, slots
      ensures Told(answers, stop == Some(Failed)) && LogSafe(nodes, log) && Justly(nodes, log, answers) && Settled(answers)
      ensures stop.None? ==> Valid() && active > 0 && slots[..] == old(slots[..])
      ensures stop.Some? ==> stop.value in {Failed, Stalled} && BusySlots(slots[..]) == {}
      ensures stop == Some(Stalled) ==> exists c :: IsCycle(nodes, c) && forall n :: n in c ==> n < |nodes| && nodes[n].state == Pending
    {
      hide RunOk, LogOk, LogSafe, JustFailed, Accounts, Justly, NoError;
      LogOkIsSafe(nodes, log);
      AccountsJustly(nodes, slots[..], log, answers, {});
      if active == 0 && |ready| - readyHead == 0 && completed < |nodes| {
        ghost var c := StallHasCycle(nodes, slots[..], completed);
        return Some(Stalled);
      }
      var waited := Ask(Wait, {});
      if waited == Error {
        CancelIfActive();
        return Some(Failed);
      }
      return None;
    }

    /** One turn of the loop: take up what is ready, look at the processes, and wait if nothing moved. */
    method Turn() returns (stop: Option<Outcome>)
      requires Valid() && slots.Length >= 1 && completed < |nodes| && NoError(answers) && Settled(answers)
      requires active == |BusySlots(slots[..])| <= slots.Length
      modifies this`nodes, this`ready, this`readyHead, this`log, this`completed, this`active, this`answers, slots
      ensures SameGraph(old(nodes), nodes) && LogSafe(nodes, log) && Told(answers, stop == Some(Failed))
      ensures Justly(nodes, log, answers) && Settled(answers)
      ensures stop.None? ==>
                && Valid()
                && ( || completed > old(completed) || (completed == old(completed) && active > old(active))
                     || (completed == old(completed) && active == old(active) && Patience(slots[..]) < old(Patience(slots[..]))))
      ensures stop.Some? ==> stop.value in {Failed, Stalled} && BusySlots(slots[..]) == {}
      ensures stop == Some(Stalled) ==> exists c :: IsCycle(nodes, c) && forall n :: n in c ==> n < |nodes| && nodes[n].state == Pending
    {
      hide RunOk, LogOk, LogSafe, SameGraph, JustFailed, IsCycle, Accounts, Justly, NoError;
      var drained, polled;
      drained, stop := DrainReady();
      if stop.Some? {
        CancelIfActive();
        return;
      }
      ghost var middle := nodes;
      SlotCounts(nodes, Queue(), slots[..], active, completed);
      polled, stop := PollSlots();
      SameGraphTransitive(old(nodes), middle, nodes);
      if stop.Some? {
        CancelIfActive();
        return;
      }
      SlotCounts(nodes, Queue(), slots[..], active, completed);
      SameGraphSize(old(nodes), nodes);
      if !drained && !polled {
        stop := StallOrWait();
      }
    }

    method MainLoop() returns (outcome: Outcome)
      requires Valid() && slots.Length >= 1 && NoError(answers) && Settled(answers)
      modifies this`nodes, this`ready, this`readyHead, this`log, this`completed, this`active, this`answers, slots
      ensures Told(answers, outcome == Failed) && Justly(nodes, log, answers) && Settled(answers)
      ensures SameGraph(old(nodes), nodes) && LogSafe(nodes, log)
      ensures outcome == Finished ==> (forall n :: 0 <= n < |nodes| ==> nodes[n].state == Done && Ended(n) in log)
      ensures outcome == Finished ==> Acyclic(nodes)
      ensures outcome == Stalled ==> exists c :: IsCycle(nodes, c) && forall n :: n in c ==> n < |nodes| && nodes[n].state == Pending
      ensures outcome != NoFreeSlot
      ensures BusySlots(slots[..]) == {}
    {
      hide RunOk, LogOk, LogSafe, SameGraph, JustFailed, IsCycle, Acyclic, Accounts, Justly, NoError;
      SameGraphReflexive(nodes);
      SlotCounts(nodes, Queue(), slots[..], active, completed);
      while completed < |nodes|
        invariant Valid() && SameGraph(old(nodes), nodes)
        invariant completed <= |nodes| && active == |BusySlots(slots[..])| <= slots.Length && NoError(answers) && Settled(answers)
        decreases |nodes| - completed, slots.Length - active, Patience(slots[..])
      {
        ghost var start := nodes;
        var stop := Turn();
        SameGraphTransitive(old(nodes), start, nodes);
        if stop.Some? {
          return stop.value;
        }
        SlotCounts(nodes, Queue(), slots[..], active, completed);
        SameGraphSize(start, nodes);
      }
      FinishedFacts(nodes, Queue(), slots[..], active, completed, log);
      var flushed := Ask(Refresh, {});
      return if flushed == Error then Failed else Finished;
    }

    method CancelIfActive()
      requires active >= |BusySlots(slots[..])|
      modifies slots
      ensures BusySlots(slots[..]) == {}
    {
      if active > 0 {
        CancelActive();
      }
    }

    /** The whole run: every exit of the loop, with the process environment left open.
        It terminates because each spawned process ends or meets its time limit, and it fails
        exactly when the environment reported an error, which is then the last thing it was asked. */
    method Execute(jobs: int) returns (outcome: Outcome)
      requires Unstarted(nodes) && ready == [] && readyHead == 0 && active == 0 && completed == 0
      requires log == [] && answers == []
      modifies this
      ensures Told(answers, outcome == Failed) && Justly(nodes, log, answers) && Settled(answers)
      ensures SameGraph(old(nodes), nodes) && LogSafe(nodes, log)
      ensures outcome == Finished ==> (forall n :: 0 <= n < |nodes| ==> nodes[n].state == Done && Ended(n) in log)
      ensures outcome == Finished ==> Acyclic(nodes)
      ensures outcome == Stalled ==> exists c :: IsCycle(nodes, c) && forall n :: n in c ==> n < |nodes| && nodes[n].state == Pending
      ensures outcome != NoFreeSlot
      ensures fresh(slots) && slots.Length == (if jobs > 1 then jobs else 1)
      ensures BusySlots(slots[..]) == {}
    {
      hide RunOk, LogOk, LogSafe, EdgesOk, CountersOk, QueueOk, SameGraph, JustFailed, Accounts, Justly, NoError;
      slots := new Slot[if jobs > 1 then jobs else 1](i => Free);
      QueueRoots();
      InitialRun(nodes, Queue(), slots[..]);
      NothingAsked(nodes, slots[..]);
      ghost var start := nodes;
      outcome := MainLoop();
      SameGraphTransitive(old(nodes), start, nodes);
    }
  }
}
