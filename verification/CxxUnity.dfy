/** C++ unity batches and module interfaces of one target. */
module CxxUnity {
  import opened Wrappers
  import opened BuildGraph

  predicate IsImplementation(t: Target, i: nat) {
    i < |t.sources| && t.sources[i].kind == CxxSource
  }

  predicate IsInterface(t: Target, i: nat) {
    i < |t.sources| && t.sources[i].kind == CxxModule
  }

  function BatchSize(t: Target): (n: nat)
    ensures n > 0
  {
    if t.unityBatchSize > 0 then t.unityBatchSize else 8
  }

  // ---- specification ------------------------------------------------------------

  /** The implementation sources among the first `n`, in declaration order. */
  function Implementations(t: Target, n: nat): (s: seq<nat>)
    requires n <= |t.sources|
    ensures |s| <= n
  {
    if n == 0 then []
    else Implementations(t, n - 1) + (if IsImplementation(t, n - 1) then [n - 1] else [])
  }

  function Units(t: Target): seq<nat> {
    Implementations(t, |t.sources|)
  }

  function Min(a: nat, b: nat): nat {
    if a < b then a else b
  }

  /** Batch `b`: a window of `BatchSize` consecutive implementation sources. */
  function Batch(t: Target, b: nat): seq<nat> {
    var all := Units(t);
    all[Min(b * BatchSize(t), |all|)..Min(b * BatchSize(t) + BatchSize(t), |all|)]
  }

  function BatchCount(t: Target): nat {
    (|Units(t)| + BatchSize(t) - 1) / BatchSize(t)
  }

  function Paths(t: Target, indices: seq<nat>): seq<string>
    requires forall i :: i in indices ==> i < |t.sources|
  {
    seq(|indices|, k requires 0 <= k < |indices| =>
      assert indices[k] in indices; t.sources[indices[k]].path)
  }

  /** The batch of an implementation source and whether it leads it; nothing for any other source. */
  function SourceInfo(t: Target, i: nat): Option<(nat, bool)> {
    if !t.unity || !IsImplementation(t, i) then None
    else
      var ordinal := |Implementations(t, i)|;
      Some((ordinal / BatchSize(t), ordinal % BatchSize(t) == 0))
  }

  lemma {:induction false} UnitAt(t: Target, n: nat, i: nat)
    requires i < n <= |t.sources| && IsImplementation(t, i)
    ensures |Implementations(t, i)| < |Implementations(t, n)|
    ensures Implementations(t, n)[|Implementations(t, i)|] == i
  {
    if i < n - 1 {
      UnitAt(t, n - 1, i);
    }
  }

  lemma {:induction false} UnitsAreImplementations(t: Target, n: nat)
    requires n <= |t.sources|
    ensures forall k :: 0 <= k < |Implementations(t, n)| ==>
              var i := Implementations(t, n)[k];
              i < n && IsImplementation(t, i) && |Implementations(t, i)| == k
  {
    if n > 0 {
      UnitsAreImplementations(t, n - 1);
    }
  }

  // ---- the partition --------------------------------------------------------------

  function JoinedBatches(t: Target, n: nat): seq<nat> {
    if n == 0 then [] else JoinedBatches(t, n - 1) + Batch(t, n - 1)
  }

  lemma {:induction false} JoinedIsPrefix(t: Target, n: nat)
    ensures JoinedBatches(t, n) == Units(t)[..Min(n * BatchSize(t), |Units(t)|)]
  {
    hide Implementations;
    if n > 0 {
      JoinedIsPrefix(t, n - 1);
      var all, size := Units(t), BatchSize(t);
      hide Units, BatchSize;
      assert (n - 1) * size + size == n * size;
      var lo, hi := Min((n - 1) * size, |all|), Min(n * size, |all|);
      assert all[..lo] + all[lo..hi] == all[..hi];
    }
  }

  lemma DivisionCovers(total: nat, size: nat)
    requires size > 0
    ensures ((total + size - 1) / size) * size >= total
    ensures total > 0 ==> ((total + size - 1) / size - 1) * size < total
  {}

  lemma BatchNonEmpty(t: Target, b: nat)
    ensures |Batch(t, b)| <= BatchSize(t)
    ensures b < BatchCount(t) <==> |Batch(t, b)| > 0
  {
    var size, total := BatchSize(t), |Units(t)|;
    DivisionCovers(total, size);
    if b < BatchCount(t) {
      ProductMonotone(b, BatchCount(t) - 1, size);
    } else {
      ProductMonotone(BatchCount(t), b, size);
    }
  }

  /** All batches but the last are full. */
  lemma FullBatch(t: Target, b: nat)
    requires b + 1 < BatchCount(t)
    ensures |Batch(t, b)| == BatchSize(t)
  {
    BatchNonEmpty(t, b + 1);
    assert b * BatchSize(t) + BatchSize(t) == (b + 1) * BatchSize(t);
  }

  lemma {:induction false} UnitsAre(t: Target, n: nat)
    requires n <= |t.sources|
    ensures forall i: nat :: i in Implementations(t, n) <==> i < n && t.sources[i].kind == CxxSource
  {
    if n > 0 {
      UnitsAre(t, n - 1);
    }
  }

  lemma {:induction false} UnitsRise(t: Target, n: nat)
    requires n <= |t.sources|
    ensures forall j, k :: 0 <= j < k < |Implementations(t, n)| ==> Implementations(t, n)[j] < Implementations(t, n)[k]
  {
    if n > 0 {
      UnitsRise(t, n - 1);
      UnitsAre(t, n - 1);
      var front := Implementations(t, n - 1);
      assert forall k :: 0 <= k < |front| ==> front[k] in front;
    }
  }

  lemma ProductMonotone(a: nat, b: nat, size: nat)
    requires a <= b
    ensures a * size <= b * size
  {}

  /** The batches laid end to end are exactly the implementation sources, in order, none left over. */
  lemma BatchesPartition(t: Target)
    ensures JoinedBatches(t, BatchCount(t)) == Units(t)
    ensures forall i: nat :: i in Units(t) <==> i < |t.sources| && t.sources[i].kind == CxxSource
    ensures forall j, k :: 0 <= j < k < |Units(t)| ==> Units(t)[j] < Units(t)[k]
    ensures forall b: nat :: |Batch(t, b)| > 0 <==> b < BatchCount(t)
    ensures var size := if t.unityBatchSize > 0 then t.unityBatchSize else 8;
            forall b: nat :: |Batch(t, b)| <= size && (b < BatchCount(t) - 1 ==> |Batch(t, b)| == size)
  {
    UnitsAre(t, |t.sources|);
    UnitsRise(t, |t.sources|);
    BatchesJoin(t);
    hide Batch, BatchCount, JoinedBatches, Implementations;
    forall b: nat
      ensures (|Batch(t, b)| > 0 <==> b < BatchCount(t)) && |Batch(t, b)| <= BatchSize(t)
              && (b < BatchCount(t) - 1 ==> |Batch(t, b)| == BatchSize(t))
    {
      BatchNonEmpty(t, b);
      if b < BatchCount(t) - 1 {
        FullBatch(t, b);
      }
    }
  }

  lemma BatchesJoin(t: Target)
    ensures JoinedBatches(t, BatchCount(t)) == Units(t)
  {
    hide Implementations, BatchSize;
    DivisionCovers(|Units(t)|, BatchSize(t));
    JoinedIsPrefix(t, BatchCount(t));
  }

  lemma DivMod(x: nat, size: nat, b: nat)
    requires size > 0
    ensures x / size == b <==> b * size <= x < b * size + size
    ensures x / size == b ==> (x % size == 0 <==> x == b * size)
  {
    assert x == (x / size) * size + x % size;
    if x / size < b {
      assert (x / size + 1) * size <= b * size;
    } else if x / size > b {
      assert (b + 1) * size <= (x / size) * size;
    }
  }

  lemma WindowPlace(all: seq<nat>, k: nat, start: nat, size: nat)
    requires k < |all| && forall j :: 0 <= j < |all| && all[j] == all[k] ==> j == k
    ensures var w := all[Min(start, |all|)..Min(start + size, |all|)];
            && (all[k] in w <==> start <= k < start + size)
            && (all[k] in w ==> w[0] == all[start] && (w[0] == all[k] <==> k == start))
  {
    var w := all[Min(start, |all|)..Min(start + size, |all|)];
    if all[k] in w {
      var j :| 0 <= j < |w| && w[j] == all[k];
      assert all[start + j] == all[k];
    }
    if start <= k < start + size {
      assert w[k - start] == all[k];
    }
  }

  /** Batch `b` lists exactly the sources whose place among all is in its window, the first one first. */
  lemma PlaceInBatch(t: Target, i: nat, b: nat)
    requires t.unity && IsImplementation(t, i)
    ensures var k := |Implementations(t, i)|; var start := b * BatchSize(t);
            && (i in Batch(t, b) <==> start <= k < start + BatchSize(t))
            && (i in Batch(t, b) ==> (Batch(t, b)[0] == i <==> k == start))
  {
    hide BatchSize;
    UnitAt(t, |t.sources|, i);
    UnitsAreImplementations(t, |t.sources|);
    hide Implementations;
    WindowPlace(Units(t), |Implementations(t, i)|, b * BatchSize(t), BatchSize(t));
  }

  /** A source is told it belongs to batch `b`, and leads it, exactly when the batch lists it, and lists it first. */
  lemma InfoAgreesWithBatch(t: Target, i: nat, b: nat)
    requires t.unity && IsImplementation(t, i)
    ensures SourceInfo(t, i).value.0 == b <==> i in Batch(t, b)
    ensures i in Batch(t, b) ==> (SourceInfo(t, i).value.1 <==> Batch(t, b)[0] == i)
  {
    hide Implementations, Batch, BatchSize;
    PlaceInBatch(t, i, b);
    DivMod(|Implementations(t, i)|, BatchSize(t), b);
  }

  // ---- the loops --------------------------------------------------------------------

  method UnitySourceInfo(t: Target, index: nat) returns (info: Option<(nat, bool)>)
    ensures info == SourceInfo(t, index)
  {
    if !t.unity || !IsImplementation(t, index) {
      return None;
    }
    var size := if t.unityBatchSize > 0 then t.unityBatchSize else 8;
    var ordinal := 0;
    for i := 0 to |t.sources|
      invariant i <= index && ordinal == |Implementations(t, i)|
    {
      if IsImplementation(t, i) {
        if i == index {
          return Some((ordinal / size, ordinal % size == 0));
        }
        ordinal := ordinal + 1;
      }
    }
    return None;
  }

  method UnityBatchCount(t: Target) returns (n: nat)
    ensures n == if t.unity then BatchCount(t) else 0
  {
    if !t.unity {
      return 0;
    }
    var count := 0;
    for i := 0 to |t.sources|
      invariant count == |Implementations(t, i)|
    {
      if IsImplementation(t, i) {
        count := count + 1;
      }
    }
    var size := if t.unityBatchSize > 0 then t.unityBatchSize else 8;
    n := (count + size - 1) / size;
  }

  lemma PathsAppend(t: Target, indices: seq<nat>, i: nat)
    requires forall k :: k in indices ==> k < |t.sources|
    ensures Paths(t, []) == [] && |Paths(t, indices)| == |indices|
    ensures i < |t.sources| ==> Paths(t, indices + [i]) == Paths(t, indices) + [t.sources[i].path]
  {}

  /** Extending a list by one element extends a window of it exactly when the element falls inside. */
  lemma WindowGrows(all: seq<nat>, x: nat, begin: nat, end: nat)
    requires begin <= end
    ensures Window([], begin, end) == []
    ensures Window(all + [x], begin, end) == Window(all, begin, end) + (if begin <= |all| < end then [x] else [])
  {
    var longer := all + [x];
    if |all| < begin {
      assert Window(longer, begin, end) == [];
    } else if |all| < end {
      assert longer[begin..|all| + 1] == all[begin..] + [x];
    } else {
      assert longer[begin..end] == all[begin..end];
    }
  }

  /** The implementation sources whose ordinals fall in a window. */
  function Window(all: seq<nat>, begin: nat, end: nat): seq<nat>
    requires begin <= end
  {
    all[Min(begin, |all|)..Min(end, |all|)]
  }

  /** The paths of one batch, or nothing when the batch is empty. */
  method UnityBatchSources(t: Target, batch: nat) returns (sources: Option<seq<string>>)
    ensures forall i :: i in Batch(t, batch) ==> i < |t.sources|
    ensures sources == if Batch(t, batch) == [] then None else Some(Paths(t, Batch(t, batch)))
  {
    var size := if t.unityBatchSize > 0 then t.unityBatchSize else 8;
    var begin := batch * size;
    var end := begin + size;
    BatchIsWindow(t, batch, begin, end);
    var list := CollectWindow(t, begin, end);
    PathsAppend(t, Batch(t, batch), 0);
    sources := if |list| > 0 then Some(list) else None;
  }

  method CollectWindow(t: Target, begin: nat, end: nat) returns (list: seq<string>)
    requires begin <= end
    ensures forall i :: i in Window(Units(t), begin, end) ==> i < |t.sources|
    ensures list == Paths(t, Window(Units(t), begin, end))
  {
    hide IsImplementation, Paths, Window;
    PathsAppend(t, [], 0);
    WindowGrows([], 0, begin, end);
    var ordinal := 0;
    list := [];
    ghost var picked: seq<nat> := [];
    for i := 0 to |t.sources|
      invariant ordinal == |Implementations(t, i)|
      invariant picked == Window(Implementations(t, i), begin, end)
      invariant (forall k :: k in picked ==> k < |t.sources|) && list == Paths(t, picked)
    {
      assert Implementations(t, i + 1) == if IsImplementation(t, i) then Implementations(t, i) + [i] else Implementations(t, i);
      if IsImplementation(t, i) {
        WindowGrows(Implementations(t, i), i, begin, end);
        PathsAppend(t, picked, i);
        if begin <= ordinal < end {
          list := list + [t.sources[i].path];
          picked := picked + [i];
        }
        ordinal := ordinal + 1;
      }
    }
  }

  lemma BatchIsWindow(t: Target, b: nat, begin: nat, end: nat)
    requires begin == b * BatchSize(t) && end == begin + BatchSize(t)
    ensures Batch(t, b) == Window(Units(t), begin, end)
  {}

  // ---- module interfaces ---------------------------------------------------------------

  /** The interfaces whose compiled form source `index` reads: earlier ones for an interface, all for an implementation. */
  ghost predicate ReadsInterface(t: Target, index: nat, dep: nat) {
    && t.modules && IsInterface(t, dep)
    && ((IsInterface(t, index) && dep < index) || IsImplementation(t, index))
  }

  method CollectModuleInputs(t: Target, index: nat) returns (interfaces: seq<nat>)
    ensures forall d: nat :: d in interfaces <==> ReadsInterface(t, index, d)
    ensures forall i, j :: 0 <= i < j < |interfaces| ==> interfaces[i] < interfaces[j]
  {
    interfaces := [];
    if !t.modules || (!IsInterface(t, index) && !IsImplementation(t, index)) {
      return;
    }
    var isInterface := IsInterface(t, index);
    for i := 0 to |t.sources|
      invariant forall d: nat :: d in interfaces <==> d < i && ReadsInterface(t, index, d)
      invariant forall i, j :: 0 <= i < j < |interfaces| ==> interfaces[i] < interfaces[j]
    {
      if IsInterface(t, i) {
        if isInterface && i >= index {
          break;
        }
        assert forall k :: 0 <= k < |interfaces| ==> interfaces[k] in interfaces;
        interfaces := interfaces + [i];
      }
    }
  }

  // ---- what a C++ strategy asks of its target -------------------------------------------

  predicate UsesStrategy(t: Target) {
    t.pch.Some? || t.unity || t.modules
  }

  predicate HasCxxSource(t: Target) {
    exists i: nat :: i < |t.sources| && (IsImplementation(t, i) || IsInterface(t, i))
  }

  predicate HasInterface(t: Target) {
    exists i: nat :: i < |t.sources| && IsInterface(t, i)
  }

  /** What follows the last slash or backslash. */
  function Basename(path: string): string {
    if path == [] then []
    else
      var rest := path[1..];
      if (path[0] == '/' || path[0] == '\\') && '/' !in rest && '\\' !in rest then rest
      else if '/' in path || '\\' in path then Basename(rest)
      else path
  }

  /** A file name without its last suffix. */
  function Stem(name: string): string {
    if name == [] then []
    else if name[0] == '.' && '.' !in name[1..] then []
    else [name[0]] + Stem(name[1..])
  }

  /** The name of an interface's compiled form, which has to fit a buffer of 256 characters. */
  function InterfaceName(t: Target, i: nat): Option<string>
    requires i < |t.sources|
  {
    var name := Stem(Basename(t.sources[i].path));
    if 0 < |name| < 256 then Some(name) else None
  }

  predicate Separator(c: char) {
    c == '/' || c == '\\'
  }

  /** The base name has no separator, and what comes before it is nothing or ends with one. */
  lemma {:induction false} BasenameIs(path: string) returns (dir: string)
    ensures path == dir + Basename(path) && (dir == [] || Separator(dir[|dir| - 1]))
    ensures forall c :: c in Basename(path) ==> !Separator(c)
  {
    dir := [];
    if path != [] {
      var rest := path[1..];
      assert path == [path[0]] + rest;
      if Separator(path[0]) && '/' !in rest && '\\' !in rest {
        dir := [path[0]];
      } else if '/' in path || '\\' in path {
        var d := BasenameIs(rest);
        dir := [path[0]] + d;
        if d == [] {
          assert rest == Basename(rest);
        }
      }
    }
  }

  /** A stem is what comes before the last dot, or the whole name if there is none. */
  lemma {:induction false} StemIs(name: string) returns (suffix: string)
    ensures name == Stem(name) + suffix
    ensures suffix == [] ==> '.' !in name
    ensures suffix != [] ==> suffix[0] == '.' && '.' !in suffix[1..]
  {
    if name == [] {
      suffix := [];
    } else if name[0] == '.' && '.' !in name[1..] {
      suffix := name;
    } else {
      suffix := StemIs(name[1..]);
      assert name == [name[0]] + name[1..];
    }
  }

  predicate NamesDiffer(t: Target, i: nat, j: nat) {
    i < j < |t.sources| && IsInterface(t, i) && IsInterface(t, j) ==>
      InterfaceName(t, i).Some? && InterfaceName(t, j).Some? && InterfaceName(t, i) != InterfaceName(t, j)
  }

  /** The strategy check, as far as the declarations decide it: a precompiled header, unity batches and modules
      need a C++ source of the target's own that it compiles itself; modules need an interface of its own, and
      the interfaces' names have to differ. */
  ghost predicate StrategiesOk(t: Target) {
    UsesStrategy(t) ==>
      && HasCxxSource(t) && !(t.kind == ObjectLibrary && t.consumerContext)
      && (t.modules ==> HasInterface(t) && forall i: nat, j: nat :: NamesDiffer(t, i, j))
  }

  /** Whoever uses no strategy is accepted. Otherwise the target has a C++ source and compiles it itself, and with modules it
      has an interface, each interface's name is 1 to 255 characters long, and no two have one name. */
  lemma StrategiesAre(t: Target)
    ensures StrategiesOk(t) <==>
              || (t.pch.None? && !t.unity && !t.modules)
              || ( && (exists i :: 0 <= i < |t.sources| && t.sources[i].kind in {CxxSource, CxxModule})
                   && (t.kind == ObjectLibrary ==> !t.consumerContext)
                   && (t.modules ==>
                         && (exists i :: 0 <= i < |t.sources| && t.sources[i].kind == CxxModule)
                         && forall i, j :: 0 <= i < j < |t.sources| && t.sources[i].kind == CxxModule && t.sources[j].kind == CxxModule ==>
                              var x, y := Stem(Basename(t.sources[i].path)), Stem(Basename(t.sources[j].path));
                              1 <= |x| <= 255 && 1 <= |y| <= 255 && x != y))
  {
    hide Stem, Basename;
    assert HasCxxSource(t) <==> exists i :: 0 <= i < |t.sources| && t.sources[i].kind in {CxxSource, CxxModule} by {
      assert forall i: nat :: i < |t.sources| ==> (IsImplementation(t, i) || IsInterface(t, i) <==> t.sources[i].kind in {CxxSource, CxxModule});
    }
    assert HasInterface(t) <==> exists i :: 0 <= i < |t.sources| && t.sources[i].kind == CxxModule by {
      assert forall i: nat :: i < |t.sources| ==> (IsInterface(t, i) <==> t.sources[i].kind == CxxModule);
    }
    NamesAre(t);
    hide HasCxxSource, HasInterface, NamesDiffer;
  }

  lemma NamesAre(t: Target)
    ensures (forall i: nat, j: nat :: NamesDiffer(t, i, j)) <==>
              forall i, j :: 0 <= i < j < |t.sources| && t.sources[i].kind == CxxModule && t.sources[j].kind == CxxModule ==>
                var x, y := Stem(Basename(t.sources[i].path)), Stem(Basename(t.sources[j].path));
                1 <= |x| <= 255 && 1 <= |y| <= 255 && x != y
  {
    hide Stem, Basename;
    forall i: nat, j: nat
      ensures NamesDiffer(t, i, j) <==>
                (i < j < |t.sources| && t.sources[i].kind == CxxModule && t.sources[j].kind == CxxModule ==>
                   var x, y := Stem(Basename(t.sources[i].path)), Stem(Basename(t.sources[j].path));
                   1 <= |x| <= 255 && 1 <= |y| <= 255 && x != y)
    {}
  }

  method ValidateStrategies(t: Target) returns (ok: bool)
    ensures ok <==> StrategiesOk(t)
  {
    if !UsesStrategy(t) {
      return true;
    }
    var cxx, interface := false, false;
    for i := 0 to |t.sources|
      invariant cxx <==> exists k: nat :: k < i && (IsImplementation(t, k) || IsInterface(t, k))
      invariant interface <==> exists k: nat :: k < i && IsInterface(t, k)
    {
      cxx := cxx || IsImplementation(t, i) || IsInterface(t, i);
      interface := interface || IsInterface(t, i);
    }
    if !cxx || (t.kind == ObjectLibrary && t.consumerContext) || (t.modules && !interface) {
      return false;
    }
    if t.modules {
      ok := InterfaceNamesDiffer(t);
    } else {
      ok := true;
    }
  }

  /** Every pair of interfaces, in order. */
  method InterfaceNamesDiffer(t: Target) returns (ok: bool)
    ensures ok <==> forall i: nat, j: nat :: NamesDiffer(t, i, j)
  {
    hide InterfaceName;
    for i := 0 to |t.sources|
      invariant forall k: nat, j: nat :: k < i ==> NamesDiffer(t, k, j)
    {
      if !IsInterface(t, i) {
        continue;
      }
      for j := i + 1 to |t.sources|
        invariant forall k: nat, m: nat :: k < i || (k == i && m < j) ==> NamesDiffer(t, k, m)
      {
        if !IsInterface(t, j) {
          continue;
        }
        var left, right := InterfaceName(t, i), InterfaceName(t, j);
        if left.None? || right.None? || left == right {
          assert !NamesDiffer(t, i, j);
          return false;
        }
      }
    }
    return true;
  }

  /** A target with a strategy that may use it compiles some C++ source of its own: the first one, if no other. */
  lemma StrategyCompiles(t: Target) returns (i: nat)
    requires StrategiesOk(t) && UsesStrategy(t)
    ensures i < |t.sources| && (IsImplementation(t, i) || IsInterface(t, i))
    ensures SourceInfo(t, i).Some? ==> SourceInfo(t, i).value.1
  {
    i := FirstCxx(t, 0);
    NoneBefore(t, i);
  }

  ghost function FirstCxx(t: Target, from: nat): (i: nat)
    requires from <= |t.sources| && exists k: nat :: from <= k < |t.sources| && (IsImplementation(t, k) || IsInterface(t, k))
    ensures from <= i < |t.sources| && (IsImplementation(t, i) || IsInterface(t, i))
    ensures forall k :: from <= k < i ==> !IsImplementation(t, k)
    decreases |t.sources| - from
  {
    if IsImplementation(t, from) || IsInterface(t, from) then from else FirstCxx(t, from + 1)
  }

  lemma {:induction false} NoneBefore(t: Target, n: nat)
    requires n <= |t.sources| && forall k :: 0 <= k < n ==> !IsImplementation(t, k)
    ensures Implementations(t, n) == []
  {
    if n > 0 {
      NoneBefore(t, n - 1);
    }
  }
}
