/** The objects that a target's own sources and its object libraries contribute to its final action. */
module LinkObjects {
  import opened ActionDag
  import opened BuildGraph
  import opened CxxUnity
  import opened Lowering
  import opened ActionCycles
  import opened DeclaredCycles
  import opened Producers
  import opened ActionInputs
  import D = Discovery
  import opened Wrappers

  /** An object file: listed among the sources, of a unity batch, or of a single source. */
  datatype Object = Listed(path: string) | UnityObject(batch: nat) | SourceObject(source: nat)

  /** What compiling source `i` writes. */
  function Output(t: Target, i: nat): Object {
    var info := SourceInfo(t, i);
    if info.Some? then UnityObject(info.value.0) else SourceObject(i)
  }

  predicate Emits(t: Target, i: nat) {
    var info := SourceInfo(t, i);
    info.None? || info.value.1
  }

  function ObjectOf(t: Target, i: nat): Object
    requires i < |t.sources|
  {
    if t.sources[i].kind == ObjectFile then Listed(t.sources[i].path) else Output(t, i)
  }

  /** The objects of the first `n` sources, in order; a unity batch is named once, by its leader. */
  function OwnObjects(t: Target, n: nat): seq<Object>
    requires n <= |t.sources|
  {
    if n == 0 then []
    else OwnObjects(t, n - 1) + if Emits(t, n - 1) then [ObjectOf(t, n - 1)] else []
  }

  method CollectObjects(t: Target) returns (list: seq<Object>)
    ensures list == OwnObjects(t, |t.sources|)
  {
    list := [];
    for i := 0 to |t.sources|
      invariant list == OwnObjects(t, i)
    {
      var info := UnitySourceInfo(t, i);
      if info.Some? && !info.value.1 {
        continue;
      }
      if t.sources[i].kind == ObjectFile {
        list := list + [Listed(t.sources[i].path)];
      } else if info.Some? {
        list := list + [UnityObject(info.value.0)];
      } else {
        list := list + [SourceObject(i)];
      }
    }
  }

  /** Every source is compiled or is an object file; other sources are refused beforehand. */
  predicate Validated(t: Target) {
    forall i :: 0 <= i < |t.sources| ==> RequiresCompile(t.sources[i]) || t.sources[i].kind == ObjectFile
  }

  // ---- the list is complete ----------------------------------------------------------------------

  /** An object file, or a source with a compile of its own. */
  ghost predicate Contributes(t: Target, i: nat) {
    i < |t.sources| && (t.sources[i].kind == ObjectFile || HasOwnCompile(t, i))
  }

  /** What source `i` contributes: itself, the object of the batch it leads, or its own object. */
  ghost predicate Yields(t: Target, i: nat, x: Object) {
    && i < |t.sources|
    && match x
       case Listed(path) => t.sources[i].kind == ObjectFile && path == t.sources[i].path
       case UnityObject(b) => t.unity && t.sources[i].kind == CxxSource && |Batch(t, b)| > 0 && Batch(t, b)[0] == i
       case SourceObject(j) => j == i && CompiledKind(t.sources[i].kind) && !(t.unity && t.sources[i].kind == CxxSource)
  }

  /** How many of the first `n` sources contribute. */
  ghost function Contributors(t: Target, n: nat): nat {
    if n == 0 then 0 else Contributors(t, n - 1) + if Contributes(t, n - 1) then 1 else 0
  }

  lemma EmitsAsDeclared(t: Target, i: nat)
    requires Validated(t) && i < |t.sources|
    ensures Emits(t, i) <==> Contributes(t, i)
    ensures Emits(t, i) ==> Yields(t, i, ObjectOf(t, i))
  {
    OwnCompileAsDeclared(t, i);
    hide Batch, BatchSize, Implementations, HasOwnCompile;
    if t.unity && IsImplementation(t, i) {
      InfoAgreesWithBatch(t, i, SourceInfo(t, i).value.0);
    }
  }

  /** Every object file and every own compile has its object in the list, in the place its source has among the
      contributing ones, and nothing else is in it. */
  lemma {:induction false} ObjectsAsDeclared(t: Target, n: nat, i: nat)
    requires Validated(t) && i < n <= |t.sources|
    ensures |OwnObjects(t, n)| == Contributors(t, n) && Contributors(t, i) <= Contributors(t, n)
    ensures Contributes(t, i) ==> Contributors(t, i) < |OwnObjects(t, n)| && Yields(t, i, OwnObjects(t, n)[Contributors(t, i)])
  {
    hide Emits, Contributes, Yields, ObjectOf, Validated;
    EmitsAsDeclared(t, n - 1);
    if i < n - 1 {
      ObjectsAsDeclared(t, n - 1, i);
    } else if n > 1 {
      ObjectsAsDeclared(t, n - 1, n - 2);
    }
  }

  /** No object is in it twice. */
  lemma {:induction false} ObjectsOnce(t: Target, n: nat)
    requires Validated(t) && n <= |t.sources|
    requires forall i, j :: 0 <= i < j < |t.sources| ==> t.sources[i].path != t.sources[j].path
    ensures forall a, b :: 0 <= a < b < |OwnObjects(t, n)| ==> OwnObjects(t, n)[a] != OwnObjects(t, n)[b]
  {
    hide Emits, Yields, ObjectOf, Validated;
    if n > 0 {
      ObjectsOnce(t, n - 1);
      var was, x := OwnObjects(t, n - 1), ObjectOf(t, n - 1);
      forall a | 0 <= a < |was| && Emits(t, n - 1) ensures was[a] != x {
        var i := ObjectHasSource(t, n - 1, was[a]);
        EmitsAsDeclared(t, i);
        EmitsAsDeclared(t, n - 1);
        YieldsDiffer(t, i, n - 1, was[a], x);
      }
    }
  }

  lemma YieldsDiffer(t: Target, i: nat, j: nat, x: Object, y: Object)
    requires i != j && Yields(t, i, x) && Yields(t, j, y)
    requires t.sources[i].path != t.sources[j].path
    ensures x != y
  {
    hide Batch;
  }

  lemma {:induction false} ObjectHasSource(t: Target, n: nat, x: Object) returns (i: nat)
    requires n <= |t.sources| && x in OwnObjects(t, n)
    ensures i < n && Emits(t, i) && x == ObjectOf(t, i)
  {
    if x in OwnObjects(t, n - 1) {
      i := ObjectHasSource(t, n - 1, x);
    } else {
      i := n - 1;
    }
  }

  /** Two own compiles that write the same object are one. */
  lemma OutputsDiffer(t: Target, i: nat, j: nat)
    requires i < |t.sources| && j < |t.sources| && CompilesOwn(t, i) && CompilesOwn(t, j)
    requires Output(t, i) == Output(t, j)
    ensures i == j
  {
    hide Batch, Implementations;
    if SourceInfo(t, i).Some? {
      var b := SourceInfo(t, i).value.0;
      InfoAgreesWithBatch(t, i, b);
      InfoAgreesWithBatch(t, j, b);
    }
  }

  /** Each object of an own source is a listed file, or the output of exactly one own compile, which the head waits for. */
  lemma EveryObjectIsBuilt(g: Graph, heads: HeadMap, nodes: seq<Node>, t: nat, x: Object) returns (n: nat)
    requires NodesOk(g, heads, nodes) && BlocksOk(g, heads, nodes) && T(t) in heads && OwnsCompiles(g, t)
    requires forall d: nat, u: nat :: Edge(nodes, d, u) <==> Wanted(g, heads, nodes, d, u)
    requires Validated(g.targets[t]) && x in OwnObjects(g.targets[t], |g.targets[t].sources|) && !x.Listed?
    ensures n < |nodes| && nodes[n].work.Compile? && nodes[n].work.target == t && nodes[n].work.owner == t
    ensures Output(g.targets[t], nodes[n].work.source) == x && Edge(nodes, n, heads[T(t)])
    ensures forall m :: 0 <= m < |nodes| && Compiled(g, t, nodes[m].work, x) ==> m == n
  {
    var target := g.targets[t];
    var i := ObjectHasSource(target, |target.sources|, x);
    hide Wanted, BlocksOk, Batch, Implementations;
    n := LinkObjectsComplete(g, heads, nodes, t, i);
    forall m | 0 <= m < |nodes| && Compiled(g, t, nodes[m].work, x) ensures m == n {
      OwnCompileKnown(g, heads, nodes, t, m);
      OutputsDiffer(target, nodes[m].work.source, i);
    }
  }

  predicate Compiled(g: Graph, t: nat, w: Work, x: Object) {
    t < |g.targets| && w.Compile? && w.target == t && w.owner == t && Output(g.targets[t], w.source) == x
  }

  lemma OwnCompileKnown(g: Graph, heads: HeadMap, nodes: seq<Node>, t: nat, m: nat)
    requires NodesOk(g, heads, nodes) && OwnsCompiles(g, t) && m < |nodes|
    requires nodes[m].work.Compile? && nodes[m].work.target == t && nodes[m].work.owner == t
    ensures nodes[m].work.source < |g.targets[t].sources| && CompilesOwn(g.targets[t], nodes[m].work.source)
  {
    hide OwnCompiles, CompilesOwn, BorrowedCompiles, SourceInfo;
    var target, w := g.targets[t], nodes[m].work;
    assert w in WorksOf(g, T(t));
    assert w !in BorrowedCompiles(g, t, target.objects);
    assert w in OwnCompiles(g, t, |target.sources|);
  }

  // ---- the objects of libraries ------------------------------------------------------------------

  /** An object of a library's source, compiled once by the library or anew inside the consumer. */
  datatype LibraryObject = Own(library: nat, file: Object) | Consumed(library: nat, source: nat)

  function LibraryObjectOf(g: Graph, o: nat, j: nat): LibraryObject
    requires o < |g.targets| && j < |g.targets[o].sources|
  {
    var lib := g.targets[o];
    if lib.sources[j].kind != ObjectFile && lib.consumerContext then Consumed(o, j) else Own(o, ObjectOf(lib, j))
  }

  function ObjectsOfLibrary(g: Graph, o: nat, n: nat): seq<LibraryObject>
    requires o < |g.targets| && n <= |g.targets[o].sources|
  {
    if n == 0 then []
    else ObjectsOfLibrary(g, o, n - 1) + if Emits(g.targets[o], n - 1) then [LibraryObjectOf(g, o, n - 1)] else []
  }

  function ObjectsOfLibraries(g: Graph, names: seq<string>): seq<LibraryObject>
    requires forall k :: 0 <= k < |names| ==> FindTarget(g, names[k]).Some?
  {
    if names == [] then []
    else
      var o := FindTarget(g, names[|names| - 1]).value;
      ObjectsOfLibraries(g, names[..|names| - 1]) + ObjectsOfLibrary(g, o, |g.targets[o].sources|)
  }

  /** The final action lists the objects of each library, and is refused if a listed name is no target. */
  method CollectLibraryObjects(g: Graph, t: Target) returns (list: Option<seq<LibraryObject>>)
    ensures list.Some? <==> ObjectsNamed(g, t)
    ensures list.Some? ==> list.value == ObjectsOfLibraries(g, t.objects)
  {
    hide FindTarget, Emits;
    var all: seq<LibraryObject> := [];
    for i := 0 to |t.objects|
      invariant forall k :: 0 <= k < i ==> FindTarget(g, t.objects[k]).Some?
      invariant all == ObjectsOfLibraries(g, t.objects[..i])
    {
      var found := FindTarget(g, t.objects[i]);
      if found.None? {
        return None;
      }
      var o := found.value;
      var lib := g.targets[o];
      ghost var before := all;
      for j := 0 to |lib.sources|
        invariant all == before + ObjectsOfLibrary(g, o, j)
      {
        if Emits(lib, j) {
          all := all + [LibraryObjectOf(g, o, j)];
        }
      }
      assert t.objects[..i + 1][..i] == t.objects[..i];
    }
    assert t.objects[..|t.objects|] == t.objects;
    return Some(all);
  }

  /** What source `j` of a library contributes to a target that lists the library. */
  ghost predicate YieldsIn(g: Graph, o: nat, j: nat, x: LibraryObject) {
    && o < |g.targets| && j < |g.targets[o].sources| && x.library == o
    && match x
       case Own(_, file) => Yields(g.targets[o], j, file) && (file.Listed? || !g.targets[o].consumerContext)
       case Consumed(_, source) => source == j && g.targets[o].consumerContext && CompiledKind(g.targets[o].sources[j].kind)
  }

  lemma LibraryEmits(g: Graph, o: nat, j: nat)
    requires o < |g.targets| && j < |g.targets[o].sources| && Validated(g.targets[o])
    ensures Emits(g.targets[o], j) <==> Contributes(g.targets[o], j)
    ensures Emits(g.targets[o], j) ==> YieldsIn(g, o, j, LibraryObjectOf(g, o, j))
  {
    EmitsAsDeclared(g.targets[o], j);
    hide Emits, Contributes;
  }

  lemma {:induction false} LibraryAsDeclared(g: Graph, o: nat, n: nat, j: nat)
    requires o < |g.targets| && Validated(g.targets[o]) && j < n <= |g.targets[o].sources|
    ensures |ObjectsOfLibrary(g, o, n)| == Contributors(g.targets[o], n) && Contributors(g.targets[o], j) <= Contributors(g.targets[o], n)
    ensures Contributes(g.targets[o], j) ==>
              var k := Contributors(g.targets[o], j);
              k < |ObjectsOfLibrary(g, o, n)| && YieldsIn(g, o, j, ObjectsOfLibrary(g, o, n)[k])
  {
    hide Emits, Contributes, YieldsIn, LibraryObjectOf, Validated;
    LibraryEmits(g, o, n - 1);
    if j < n - 1 {
      LibraryAsDeclared(g, o, n - 1, j);
    } else if n > 1 {
      LibraryAsDeclared(g, o, n - 1, n - 2);
    }
  }

  lemma LibraryCount(g: Graph, o: nat)
    requires o < |g.targets| && Validated(g.targets[o])
    ensures |ObjectsOfLibrary(g, o, |g.targets[o].sources|)| == Contributors(g.targets[o], |g.targets[o].sources|)
  {
    hide Contributes, Emits;
    if |g.targets[o].sources| > 0 {
      LibraryAsDeclared(g, o, |g.targets[o].sources|, 0);
    }
  }

  /** Each name stands for a library whose sources are all compiled or object files. */
  ghost predicate Libraries(g: Graph, names: seq<string>) {
    forall k :: 0 <= k < |names| ==> FindTarget(g, names[k]).Some? && Validated(g.targets[FindTarget(g, names[k]).value])
  }

  /** How many objects the libraries contribute together. */
  ghost function Contributed(g: Graph, names: seq<string>): nat
    requires Libraries(g, names)
  {
    if names == [] then 0
    else
      var lib := g.targets[FindTarget(g, names[|names| - 1]).value];
      Contributed(g, names[..|names| - 1]) + Contributors(lib, |lib.sources|)
  }

  /** The objects of the libraries follow each other in the order of the names, none left out and none added. */
  lemma {:induction false} LibrariesAsDeclared(g: Graph, names: seq<string>, k: nat, j: nat)
    requires Libraries(g, names) && k < |names|
    ensures |ObjectsOfLibraries(g, names)| == Contributed(g, names)
    ensures var o := FindTarget(g, names[k]).value;
            j < |g.targets[o].sources| && Contributes(g.targets[o], j) ==>
              var place := Contributed(g, names[..k]) + Contributors(g.targets[o], j);
              place < |ObjectsOfLibraries(g, names)| && YieldsIn(g, o, j, ObjectsOfLibraries(g, names)[place])
  {
    hide FindTarget, Contributes, YieldsIn, Contributors, ObjectsOfLibrary;
    var front := names[..|names| - 1];
    var o := FindTarget(g, names[|names| - 1]).value;
    LibraryCount(g, o);
    if k < |names| - 1 {
      assert names[..k] == front[..k];
      LibrariesAsDeclared(g, front, k, j);
    } else {
      if front != [] {
        LibrariesAsDeclared(g, front, 0, 0);
      }
      if j < |g.targets[o].sources| {
        LibraryAsDeclared(g, o, |g.targets[o].sources|, j);
      }
    }
  }

  lemma {:induction false} LibraryHasName(g: Graph, names: seq<string>, x: LibraryObject) returns (name: string, o: nat, j: nat)
    requires forall k :: 0 <= k < |names| ==> FindTarget(g, names[k]).Some?
    requires x in ObjectsOfLibraries(g, names)
    ensures name in names && FindTarget(g, name) == Some(o)
    ensures o < |g.targets| && j < |g.targets[o].sources| && Emits(g.targets[o], j) && x == LibraryObjectOf(g, o, j)
  {
    hide FindTarget, Emits;
    var rest := names[..|names| - 1];
    if x in ObjectsOfLibraries(g, rest) {
      name, o, j := LibraryHasName(g, rest, x);
    } else {
      name := names[|names| - 1];
      o := FindTarget(g, name).value;
      j := SourceOfLibrary(g, o, |g.targets[o].sources|, x);
    }
  }

  lemma {:induction false} SourceOfLibrary(g: Graph, o: nat, n: nat, x: LibraryObject) returns (j: nat)
    requires o < |g.targets| && n <= |g.targets[o].sources| && x in ObjectsOfLibrary(g, o, n)
    ensures j < n && Emits(g.targets[o], j) && x == LibraryObjectOf(g, o, j)
  {
    if x in ObjectsOfLibrary(g, o, n - 1) {
      j := SourceOfLibrary(g, o, n - 1, x);
    } else {
      j := n - 1;
    }
  }

  /** What a node contributes to a consumer: the object of the library's own compile, or of the compile made for it. */
  predicate Provides(g: Graph, w: Work, t: nat, x: LibraryObject) {
    match x
    case Own(o, file) => Compiled(g, o, w, file)
    case Consumed(o, j) => w == Compile(t, o, j)
  }

  /** Every library object is a listed file or the output of exactly one compile, which the consumer waits for,
      directly or by way of the library. */
  lemma LibraryObjectIsBuilt(g: Graph, root: D.Root, heads: HeadMap, nodes: seq<Node>, t: nat, x: LibraryObject)
    returns (name: string, n: nat)
    requires Lowered(g, root, heads, nodes) && Received(g) && T(t) in heads && t < |g.targets|
    requires x in ObjectsOfLibraries(g, g.targets[t].objects) && !(x.Own? && x.file.Listed?)
    requires x.library < |g.targets| ==> Validated(g.targets[x.library])
    ensures name in g.targets[t].objects && FindTarget(g, name) == Some(x.library)
    ensures n < |nodes| && Provides(g, nodes[n].work, t, x)
    ensures forall m :: 0 <= m < |nodes| && Provides(g, nodes[m].work, t, x) ==> m == n
    ensures x.Consumed? ==> Edge(nodes, n, heads[T(t)])
    ensures x.Own? ==> T(x.library) in heads && Edge(nodes, n, heads[T(x.library)]) && Edge(nodes, heads[T(x.library)], heads[T(t)])
  {
    hide NodesOk, BlocksOk, Wanted, Fits, FindTarget, FindGenrule, D.Needed, External, ObjectsReceived;
    ReceivedAreNamed(g, t);
    var o, j;
    name, o, j := LibraryHasName(g, g.targets[t].objects, x);
    assert TargetReceived(g.targets[t]) && TargetReceived(g.targets[o]);
    hide ObjectsOfLibraries, Names, SourceInfo;
    if x.Consumed? {
      BorrowedInWorks(g, t, g.targets[t].objects, name, o, j);
      n := NodeOf(g, heads, nodes, T(t), Compile(t, o, j));
      CompileToHead(g, heads, nodes, t, n);
      BorrowedNodeOnce(g, heads, nodes, t, o, j, n);
    } else {
      DependencyAwaited(g, root, heads, nodes, t, name, T(o));
      n := LibraryOutput(g, heads, nodes, o, j);
    }
  }

  /** A library that compiles its own sources does so once for each object. */
  lemma LibraryOutput(g: Graph, heads: HeadMap, nodes: seq<Node>, o: nat, j: nat) returns (n: nat)
    requires NodesOk(g, heads, nodes) && BlocksOk(g, heads, nodes) && T(o) in heads && OwnsCompiles(g, o)
    requires forall d: nat, u: nat :: Edge(nodes, d, u) <==> Wanted(g, heads, nodes, d, u)
    requires j < |g.targets[o].sources| && CompilesOwn(g.targets[o], j)
    ensures n < |nodes| && Compiled(g, o, nodes[n].work, Output(g.targets[o], j)) && Edge(nodes, n, heads[T(o)])
    ensures forall m :: 0 <= m < |nodes| && Compiled(g, o, nodes[m].work, Output(g.targets[o], j)) ==> m == n
  {
    hide Wanted, BlocksOk, Output, NodesOk, SourceInfo, CompilesOwn;
    n := LinkObjectsComplete(g, heads, nodes, o, j);
    forall m | 0 <= m < |nodes| && Compiled(g, o, nodes[m].work, Output(g.targets[o], j)) ensures m == n {
      OwnCompileKnown(g, heads, nodes, o, m);
      OutputsDiffer(g.targets[o], nodes[m].work.source, j);
    }
  }

  // ---- a borrowed compile is made once --------------------------------------------------------------

  predicate Once(works: seq<Work>, w: Work) {
    forall a, b :: 0 <= a < |works| && 0 <= b < |works| && works[a] == w && works[b] == w ==> a == b
  }

  lemma OnceJoined(first: seq<Work>, rest: seq<Work>, w: Work)
    requires Once(first, w) && Once(rest, w) && !(w in first && w in rest)
    ensures Once(first + rest, w)
  {
    forall a, b | 0 <= a < |first + rest| && 0 <= b < |first + rest| && (first + rest)[a] == w && (first + rest)[b] == w ensures a == b {
      assert a < |first| ==> first[a] in first;
      assert b < |first| ==> first[b] in first;
      assert a >= |first| ==> rest[a - |first|] in rest;
      assert b >= |first| ==> rest[b - |first|] in rest;
    }
  }

  lemma {:induction false} BorrowedFromOnce(g: Graph, t: nat, o: nat, n: nat, w: Work)
    requires t < |g.targets| && o < |g.targets| && n <= |g.targets[o].sources|
    ensures Once(BorrowedFrom(g, t, o, n), w)
  {
    if n > 0 {
      BorrowedFromOnce(g, t, o, n - 1, w);
      OnceJoined(BorrowedFrom(g, t, o, n - 1), if RequiresCompile(g.targets[o].sources[n - 1]) then [Compile(t, o, n - 1)] else [], w);
    }
  }

  lemma {:induction false} BorrowedOnce(g: Graph, t: nat, names: seq<string>, w: Work)
    requires t < |g.targets| && forall j, k :: 0 <= j < k < |names| ==> names[j] != names[k]
    ensures Once(BorrowedCompiles(g, t, names), w)
  {
    hide FindTarget, BorrowedFrom;
    if names != [] {
      BorrowedOnce(g, t, names[1..], w);
      if Borrowed(g, names[0]).Some? {
        var o := Borrowed(g, names[0]).value;
        var first, rest := BorrowedFrom(g, t, o, |g.targets[o].sources|), BorrowedCompiles(g, t, names[1..]);
        BorrowedFromOnce(g, t, o, |g.targets[o].sources|, w);
        OnceJoined(first, rest, w);
      }
    }
  }

  lemma BorrowedOnceInWorks(g: Graph, t: nat, o: nat, j: nat)
    requires t < |g.targets| && o < |g.targets| && !g.targets[t].IsPassive() && g.targets[o].consumerContext
    requires ObjectsReceived(g, g.targets[t])
    ensures Once(WorksOf(g, T(t)), Compile(t, o, j))
  {
    hide OwnCompiles, BorrowedCompiles;
    var target, w := g.targets[t], Compile(t, o, j);
    var pch := if target.pch.Some? then [Pch(t)] else [];
    var own := if target.consumerContext then [] else OwnCompiles(g, t, |target.sources|);
    var borrowed := BorrowedCompiles(g, t, target.objects);
    var last := [if target.kind == ObjectLibrary then ObjectLib(t) else Final(t)];
    BorrowedOnce(g, t, target.objects, w);
    assert w !in own && w !in pch && w !in last;
    OnceJoined(pch, own, w);
    OnceJoined(pch + own, borrowed, w);
    OnceJoined(pch + own + borrowed, last, w);
    assert WorksOf(g, T(t)) == pch + own + borrowed + last;
  }

  lemma BorrowedNodeOnce(g: Graph, heads: HeadMap, nodes: seq<Node>, t: nat, o: nat, j: nat, n: nat)
    requires BlocksOk(g, heads, nodes) && T(t) in heads && t < |g.targets| && Received(g)
    requires n < |nodes| && nodes[n].work == Compile(t, o, j) && nodes[n].work in WorksOf(g, T(t))
    requires o < |g.targets| && g.targets[o].consumerContext && !g.targets[t].IsPassive()
    ensures forall m :: 0 <= m < |nodes| && nodes[m].work == Compile(t, o, j) ==> m == n
  {
    hide WorksOf, ObjectsReceived;
    assert ObjectsReceived(g, g.targets[t]);
    BorrowedOnceInWorks(g, t, o, j);
    assert BlockOk(g, heads, nodes, T(t));
    hide BlocksOk, Received;
    var works := WorksOf(g, T(t));
    var first := heads[T(t)] + 1 - |works|;
    forall m | 0 <= m < |nodes| && nodes[m].work == Compile(t, o, j) ensures m == n {
      assert Owner(nodes[m].work) == T(t) == Owner(nodes[n].work);
      assert works[m - first] == nodes[m].work && works[n - first] == nodes[n].work;
    }
  }

  lemma {:induction false} BorrowedListed(g: Graph, t: nat, names: seq<string>, name: string, o: nat, j: nat)
    requires t < |g.targets| && name in names && FindTarget(g, name) == Some(o)
    requires g.targets[o].consumerContext && j < |g.targets[o].sources| && RequiresCompile(g.targets[o].sources[j])
    ensures Compile(t, o, j) in BorrowedCompiles(g, t, names)
  {
    hide FindTarget;
    if names[0] != name {
      BorrowedListed(g, t, names[1..], name, o, j);
    }
  }

  lemma BorrowedInWorks(g: Graph, t: nat, names: seq<string>, name: string, o: nat, j: nat)
    requires t < |g.targets| && names == g.targets[t].objects && name in names && FindTarget(g, name) == Some(o)
    requires TargetReceived(g.targets[t])
    requires g.targets[o].consumerContext && j < |g.targets[o].sources| && RequiresCompile(g.targets[o].sources[j])
    ensures Compile(t, o, j) in WorksOf(g, T(t))
  {
    hide FindTarget, OwnCompiles, BorrowedCompiles;
    BorrowedListed(g, t, names, name, o, j);
  }
}
