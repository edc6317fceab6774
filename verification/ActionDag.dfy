/** The action graph the executor schedules: nodes, deduplicated edges, cycles. */
module ActionDag {

  datatype NodeState = Pending | Ready | Running | Done

  /** What a node stands for; indices point into the declared targets, genrules and stages. */
  datatype Work =
    | Pch(target: nat)
    | Compile(target: nat, owner: nat, source: nat)
    | Final(target: nat)
    | ObjectLib(target: nat)
    | RunCommand(target: nat)
    | Group(target: nat)
    | Metadata(target: nat)
    | Generate(genrule: nat, configHeader: bool)
    | Stage(stage: nat)
  {
    /** The kinds that go through the asynchronous process runner. */
    predicate IsProcess() {
      Compile? || Pch? || Final? || RunCommand? || (Generate? && !configHeader)
    }
  }

  datatype Node = Node(work: Work, state: NodeState, remaining: nat, deps: seq<nat>, outs: seq<nat>)

  ghost predicate Distinct<T>(s: seq<T>) {
    forall i, j :: 0 <= i < j < |s| ==> s[i] != s[j]
  }

  ghost predicate Edge(nodes: seq<Node>, dep: nat, user: nat) {
    user < |nodes| && dep in nodes[user].deps
  }

  ghost predicate NodeEdgesOk(nodes: seq<Node>, n: nat)
    requires n < |nodes|
  {
    && Distinct(nodes[n].deps) && Distinct(nodes[n].outs)
    && (forall d :: d in nodes[n].deps ==> d < |nodes| && d != n && n in nodes[d].outs)
    && (forall u :: u in nodes[n].outs ==> u < |nodes| && u != n && n in nodes[u].deps)
  }

  /** `deps` and `outs` are two views of one irreflexive relation, each without repetition. */
  ghost predicate EdgesOk(nodes: seq<Node>) {
    forall n :: 0 <= n < |nodes| ==> NodeEdgesOk(nodes, n)
  }

  /** The graph part of two node arrays agrees; only scheduling state may differ. */
  ghost predicate SameGraph(a: seq<Node>, b: seq<Node>) {
    && |a| == |b|
    && forall n :: 0 <= n < |a| ==> a[n].work == b[n].work && a[n].deps == b[n].deps && a[n].outs == b[n].outs
  }

  ghost predicate IsWalk(nodes: seq<Node>, w: seq<nat>) {
    forall i :: 0 <= i < |w| - 1 ==> Edge(nodes, w[i], w[i + 1])
  }

  /** A closed walk along dependency edges. */
  ghost predicate IsCycle(nodes: seq<Node>, c: seq<nat>) {
    |c| >= 2 && c[0] == c[|c| - 1] && IsWalk(nodes, c)
  }

  ghost predicate Acyclic(nodes: seq<Node>) {
    forall c :: !IsCycle(nodes, c)
  }

  // ---- counting ----------------------------------------------------------

  ghost function Below(n: nat): (s: set<nat>)
    ensures forall i: nat :: i in s <==> i < n
    ensures |s| == n
  {
    if n == 0 then {} else Below(n - 1) + {n - 1}
  }

  lemma SubsetSize<T>(a: set<T>, b: set<T>)
    requires a <= b
    ensures |a| <= |b|
    ensures |a| == |b| ==> a == b
  {
    assert b == a + (b - a);
    assert |b| == |a| + |b - a|;
  }

  ghost function Elements<T>(s: seq<T>): set<T> {
    set x | x in s
  }

  lemma {:induction false} DistinctSize<T>(s: seq<T>)
    requires Distinct(s)
    ensures |Elements(s)| == |s|
  {
    if s == [] {
      assert Elements(s) == {};
    } else {
      var rest := s[1..];
      DistinctSize(rest);
      assert s == [s[0]] + rest;
      assert s[0] !in Elements(rest);
      assert Elements(s) == {s[0]} + Elements(rest);
    }
  }

  // ---- stalls are cycles -------------------------------------------------

  lemma WalkGrows(nodes: seq<Node>, walk: seq<nat>, d: nat)
    requires walk != [] && IsWalk(nodes, walk) && Edge(nodes, d, walk[0])
    ensures IsWalk(nodes, [d] + walk)
  {
    var longer := [d] + walk;
    forall i | 0 <= i < |longer| - 1 ensures Edge(nodes, longer[i], longer[i + 1]) {
      if i > 0 {
        assert Edge(nodes, walk[i - 1], walk[i]);
      }
    }
  }

  lemma WalkCloses(nodes: seq<Node>, walk: seq<nat>, k: nat)
    requires IsWalk(nodes, walk) && 0 < k < |walk| && walk[k] == walk[0]
    ensures IsCycle(nodes, walk[..k + 1])
  {
    var c := walk[..k + 1];
    forall i | 0 <= i < |c| - 1 ensures Edge(nodes, c[i], c[i + 1]) {
      assert Edge(nodes, walk[i], walk[i + 1]);
    }
  }

  ghost predicate WaitsWithin(nodes: seq<Node>, bad: set<nat>, n: nat) {
    exists d :: d in bad && Edge(nodes, d, n)
  }

  /** Walking backwards along undone dependencies must revisit a node, which closes a cycle. */
  lemma {:induction false} BackwardWalkCloses(nodes: seq<Node>, bad: set<nat>, walk: seq<nat>) returns (c: seq<nat>)
    requires forall n {:trigger WaitsWithin(nodes, bad, n)} :: n in bad ==> WaitsWithin(nodes, bad, n)
    requires walk != [] && Distinct(walk) && IsWalk(nodes, walk)
    requires forall x :: x in walk ==> x in bad
    ensures IsCycle(nodes, c) && forall x :: x in c ==> x in bad
    decreases |bad| - |walk|
  {
    assert walk[0] in walk && WaitsWithin(nodes, bad, walk[0]);
    var d :| d in bad && Edge(nodes, d, walk[0]);
    var longer := [d] + walk;
    WalkGrows(nodes, walk, d);
    assert forall x :: x in longer ==> x in bad;
    if d in walk {
      var k :| 0 <= k < |walk| && walk[k] == d;
      WalkCloses(nodes, longer, k + 1);
      c := longer[..k + 2];
    } else {
      DistinctSize(longer);
      SubsetSize(Elements(longer), bad);
      c := BackwardWalkCloses(nodes, bad, longer);
    }
  }

  // ---- ranks exclude cycles ----------------------------------------------

  ghost predicate Ranks(nodes: seq<Node>, rank: seq<int>) {
    && |rank| == |nodes|
    && forall d: nat, u: nat :: Edge(nodes, d, u) ==> d < |nodes| && rank[d] < rank[u]
  }

  lemma {:induction false} RankRises(nodes: seq<Node>, rank: seq<int>, c: seq<nat>, k: nat)
    requires Ranks(nodes, rank) && IsWalk(nodes, c)
    requires 0 < k < |c|
    ensures c[0] < |nodes| && c[k] < |nodes| && rank[c[0]] < rank[c[k]]
  {
    assert Edge(nodes, c[k - 1], c[k - 1 + 1]);
    if k > 1 {
      RankRises(nodes, rank, c, k - 1);
    }
  }

  lemma RankedIsAcyclic(nodes: seq<Node>, rank: seq<int>)
    requires Ranks(nodes, rank)
    ensures Acyclic(nodes)
  {
    forall c | IsCycle(nodes, c) ensures false {
      RankRises(nodes, rank, c, |c| - 1);
    }
  }
}
