/** Carrying states from build to build: the merge, the skipped write, and the daemon's copy in memory. */
module StateMemory {
  import opened Wrappers

  /** `body` stands for everything that is compared; `status` says whether the action ran or was skipped. */
  datatype Row = Row(id: string, body: string, status: string)

  /** What the first row with this id says. */
  function Lookup(rows: seq<Row>, id: string): Option<string> {
    if rows == [] then None
    else if rows[0].id == id then Some(rows[0].body)
    else Lookup(rows[1..], id)
  }

  /** Equal as tables, up to order and status. */
  ghost predicate SameTable(a: seq<Row>, b: seq<Row>) {
    forall id :: Lookup(a, id) == Lookup(b, id)
  }

  predicate Has(rows: seq<Row>, id: string) {
    exists i :: 0 <= i < |rows| && rows[i].id == id
  }

  predicate Distinct(rows: seq<Row>) {
    forall i, j :: 0 <= i < j < |rows| ==> rows[i].id != rows[j].id
  }

  lemma {:induction false} LookupHas(rows: seq<Row>, id: string)
    ensures Lookup(rows, id).Some? <==> Has(rows, id)
    decreases |rows|
  {
    if rows != [] {
      LookupHas(rows[1..], id);
      if rows[0].id != id {
        assert Has(rows, id) ==> Has(rows[1..], id) by {
          if Has(rows, id) {
            var i :| 0 <= i < |rows| && rows[i].id == id;
            assert rows[1..][i - 1].id == id;
          }
        }
        assert Has(rows[1..], id) ==> Has(rows, id) by {
          if Has(rows[1..], id) {
            var i :| 0 <= i < |rows[1..]| && rows[1..][i].id == id;
            assert rows[i + 1].id == id;
          }
        }
      }
    }
  }

  lemma {:induction false} LookupJoin(a: seq<Row>, b: seq<Row>, id: string)
    ensures Lookup(a + b, id) == if Lookup(a, id).Some? then Lookup(a, id) else Lookup(b, id)
    decreases |a|
  {
    if a == [] {
      assert a + b == b;
    } else {
      assert (a + b)[1..] == a[1..] + b;
      LookupJoin(a[1..], b, id);
    }
  }

  lemma {:induction false} LookupAt(rows: seq<Row>, i: nat)
    requires i < |rows| && Distinct(rows)
    ensures Lookup(rows, rows[i].id) == Some(rows[i].body)
    decreases |rows|
  {
    if i > 0 {
      LookupAt(rows[1..], i - 1);
    }
  }

  /** Where ids repeat, the first row counts. */
  lemma {:induction false} LookupIsFirst(rows: seq<Row>, i: nat)
    requires i < |rows| && forall j :: 0 <= j < i ==> rows[j].id != rows[i].id
    ensures Lookup(rows, rows[i].id) == Some(rows[i].body)
    decreases |rows|
  {
    if i > 0 {
      LookupIsFirst(rows[1..], i - 1);
    }
  }

  lemma {:induction false} LookupIsARow(rows: seq<Row>, id: string) returns (i: nat)
    requires Lookup(rows, id).Some?
    ensures i < |rows| && rows[i].id == id && Some(rows[i].body) == Lookup(rows, id)
    decreases |rows|
  {
    if rows[0].id == id {
      i := 0;
    } else {
      var j := LookupIsARow(rows[1..], id);
      i := j + 1;
    }
  }

  // ---- the merge ---------------------------------------------------------------------------

  /** The visited rows, then the previous ones whose id is not there yet. */
  function Preserved(next: seq<Row>, prev: seq<Row>): seq<Row>
    decreases |prev|
  {
    if prev == [] then next
    else
      var front := Preserved(next, prev[..|prev| - 1]);
      var last := prev[|prev| - 1];
      if Has(front, last.id) then front else front + [last]
  }

  /** What the visited rows say, and where they say nothing, the previous ones. */
  function Override(visited: seq<Row>, prev: seq<Row>, id: string): Option<string> {
    if Lookup(visited, id).Some? then Lookup(visited, id) else Lookup(prev, id)
  }

  /** The merged table is the previous one overridden by what was visited. */
  lemma {:induction false} MergeOverrides(next: seq<Row>, prev: seq<Row>, id: string)
    ensures Lookup(Preserved(next, prev), id) == Override(next, prev, id)
    ensures Has(prev, id) ==> Has(Preserved(next, prev), id)
    decreases |prev|
  {
    if prev != [] {
      var before, last := prev[..|prev| - 1], prev[|prev| - 1];
      MergeOverrides(next, before, id);
      assert prev == before + [last];
      LookupJoin(before, [last], id);
      var front := Preserved(next, before);
      LookupHas(front, id);
      LookupHas(prev, id);
      LookupHas(before, id);
      LookupHas(Preserved(next, prev), id);
      if !Has(front, last.id) {
        LookupJoin(front, [last], id);
      }
    }
  }

  lemma {:induction false} MergeStaysDistinct(next: seq<Row>, prev: seq<Row>)
    requires Distinct(next)
    ensures Distinct(Preserved(next, prev))
    decreases |prev|
  {
    if prev != [] {
      MergeStaysDistinct(next, prev[..|prev| - 1]);
    }
  }

  // ---- the skipped write ---------------------------------------------------------------------

  /** As many rows as before, and each says what the first previous row with its id says. */
  predicate Unchanged(prev: seq<Row>, next: seq<Row>) {
    |prev| == |next| && forall i :: 0 <= i < |next| ==> Lookup(prev, next[i].id) == Some(next[i].body)
  }

  function Ids(rows: seq<Row>): set<string> {
    set i | 0 <= i < |rows| :: rows[i].id
  }

  lemma IdsHas(rows: seq<Row>, id: string)
    ensures id in Ids(rows) <==> Has(rows, id)
  {
  }

  lemma {:induction false} IdsBound(rows: seq<Row>)
    ensures |Ids(rows)| <= |rows|
    ensures Distinct(rows) ==> |Ids(rows)| == |rows|
    decreases |rows|
  {
    if rows != [] {
      var front, last := rows[..|rows| - 1], rows[|rows| - 1];
      IdsBound(front);
      assert Ids(rows) == Ids(front) + {last.id} by {
        forall x ensures x in Ids(rows) <==> x in Ids(front) + {last.id} {
          if x in Ids(front) {
            var i :| 0 <= i < |front| && front[i].id == x;
            assert rows[i].id == x;
          }
          if x == last.id {
            assert rows[|rows| - 1].id == x;
          }
        }
      }
      if Distinct(rows) {
        assert last.id !in Ids(front);
      }
    }
  }

  lemma EqualSets<T>(a: set<T>, b: set<T>)
    requires a <= b && |b| <= |a|
    ensures a == b
  {
    assert b == a + (b - a);
    assert |b| == |a| + |b - a|;
  }

  /** For rows with distinct ids, an unchanged table is the same table: the rows can be counted. */
  lemma UnchangedIsSame(prev: seq<Row>, next: seq<Row>)
    requires Distinct(next) && Unchanged(prev, next)
    ensures SameTable(prev, next)
  {
    hide Ids;
    forall x | x in Ids(next) ensures x in Ids(prev) {
      IdsHas(next, x);
      IdsHas(prev, x);
      LookupHas(prev, x);
    }
    IdsBound(prev);
    IdsBound(next);
    EqualSets(Ids(next), Ids(prev));
    forall id ensures Lookup(prev, id) == Lookup(next, id) {
      IdsHas(next, id);
      IdsHas(prev, id);
      LookupHas(prev, id);
      LookupHas(next, id);
      if Has(next, id) {
        var i :| 0 <= i < |next| && next[i].id == id;
        LookupAt(next, i);
      }
    }
  }

  /** After the merge no count is needed: whatever ids repeat, an unchanged table is the same table. */
  lemma MergedUnchangedIsSame(prev: seq<Row>, visited: seq<Row>)
    requires Unchanged(prev, Preserved(visited, prev))
    ensures SameTable(prev, Preserved(visited, prev))
  {
    var next := Preserved(visited, prev);
    forall id ensures Lookup(prev, id) == Lookup(next, id) {
      LookupHas(prev, id);
      LookupHas(next, id);
      MergeOverrides(visited, prev, id);
      if Lookup(next, id).Some? {
        var i := LookupIsARow(next, id);
      }
    }
  }

  /** Between tables with distinct ids the test misses nothing either. */
  lemma SameIsUnchanged(prev: seq<Row>, next: seq<Row>)
    requires Distinct(prev) && Distinct(next) && SameTable(prev, next)
    ensures Unchanged(prev, next)
  {
    hide Ids;
    forall x ensures x in Ids(next) <==> x in Ids(prev) {
      IdsHas(next, x);
      IdsHas(prev, x);
      LookupHas(prev, x);
      LookupHas(next, x);
    }
    assert Ids(next) == Ids(prev);
    IdsBound(prev);
    IdsBound(next);
    forall i | 0 <= i < |next| ensures Lookup(prev, next[i].id) == Some(next[i].body) {
      LookupAt(next, i);
    }
  }

  // ---- one record per depfile -----------------------------------------------------------------

  function Place(rows: seq<Row>, id: string): (r: Option<nat>)
    ensures r.Some? ==> r.value < |rows| && rows[r.value].id == id
    ensures r.None? ==> !Has(rows, id)
  {
    if rows == [] then None
    else if rows[0].id == id then Some(0)
    else
      var later := Place(rows[1..], id);
      assert Has(rows, id) && rows[0].id != id ==> Has(rows[1..], id) by {
        if Has(rows, id) && rows[0].id != id {
          var i :| 0 <= i < |rows| && rows[i].id == id;
          assert rows[1..][i - 1].id == id;
        }
      }
      if later.None? then None else Some(later.value + 1)
  }

  /** A new record replaces the one for the same depfile in place. */
  function Recorded(rows: seq<Row>, row: Row): seq<Row> {
    var at := Place(rows, row.id);
    if at.None? then rows + [row] else rows[at.value := row]
  }

  function RecordedAll(rows: seq<Row>, more: seq<Row>): seq<Row>
    decreases |more|
  {
    if more == [] then rows else Recorded(RecordedAll(rows, more[..|more| - 1]), more[|more| - 1])
  }

  lemma {:induction false} RecordedDistinct(rows: seq<Row>, more: seq<Row>)
    requires Distinct(rows)
    ensures Distinct(RecordedAll(rows, more))
    decreases |more|
  {
    if more != [] {
      RecordedDistinct(rows, more[..|more| - 1]);
      var was, row := RecordedAll(rows, more[..|more| - 1]), more[|more| - 1];
      assert forall i :: 0 <= i < |was| && Place(was, row.id).None? ==> was[i].id != row.id;
    }
  }

  /** Records of distinct depfiles are copied as they are. */
  lemma {:induction false} RecordedCopies(rows: seq<Row>)
    requires Distinct(rows)
    ensures RecordedAll([], rows) == rows
    decreases |rows|
  {
    if rows != [] {
      var front, last := rows[..|rows| - 1], rows[|rows| - 1];
      RecordedCopies(front);
      assert !Has(front, last.id);
      assert rows == front + [last];
    }
  }

  // ---- the daemon ---------------------------------------------------------------------------------

  /** What a loader takes: rows it accepts one by one, and no more than so many (StateDb.StateLoadsBack, DepsLoadBack). */
  datatype Loader = Loader(accepts: Row -> bool, most: nat)
  {
    predicate Takes(rows: seq<Row>) {
      |rows| <= most && forall i :: 0 <= i < |rows| ==> accepts(rows[i])
    }
  }

  /** What was written to a file. */
  function Rows(file: Option<seq<Row>>): seq<Row> {
    if file.Some? then file.value else []
  }

  /** What loading the file gives: all that was written, or nothing. */
  function Read(loader: Loader, file: Option<seq<Row>>): seq<Row> {
    if loader.Takes(Rows(file)) then Rows(file) else []
  }

  /** The table is what was written to the file, or what loading it gives. */
  ghost predicate Says(loader: Loader, file: Option<seq<Row>>, table: seq<Row>) {
    SameTable(table, Rows(file)) || SameTable(table, Read(loader, file))
  }

  /** A file that its loader takes says one thing only; one that it refuses is forgotten by whoever loads it. */
  lemma RefusedIsForgotten(loader: Loader, file: Option<seq<Row>>)
    ensures SameTable(Rows(file), Read(loader, file)) <==>
              (|Rows(file)| <= loader.most && forall i :: 0 <= i < |Rows(file)| ==> loader.accepts(Rows(file)[i])) || Rows(file) == []
    ensures file.Some? && |file.value| <= loader.most && (forall i :: 0 <= i < |file.value| ==> loader.accepts(file.value[i])) ==>
              Read(loader, file) == file.value
    ensures file.None? || |file.value| > loader.most || (exists i :: 0 <= i < |file.value| && !loader.accepts(file.value[i])) ==>
              Read(loader, file) == []
  {
    var rows := Rows(file);
    if !loader.Takes(rows) && rows != [] {
      assert Lookup(rows, rows[0].id).Some? && Lookup([], rows[0].id).None?;
    }
  }

  /** The two files, and the daemon's copies of them. */
  class StateCache {
    const states: Loader
    const deps: Loader
    var disk: Option<seq<Row>>
    var memory: Option<seq<Row>>
    var depsDisk: Option<seq<Row>>
    var depsMemory: Option<seq<Row>>

    /** What memory answers is what the files say. */
    ghost predicate Coherent()
      reads this
    {
      && (memory.Some? ==> Says(states, disk, memory.value))
      && (depsMemory.Some? ==> Says(deps, depsDisk, depsMemory.value))
      && Distinct(Rows(depsDisk)) && Distinct(Rows(depsMemory))
    }

    constructor (states: Loader, deps: Loader, disk: Option<seq<Row>>, depsDisk: Option<seq<Row>>)
      requires Distinct(Rows(depsDisk))
      ensures Coherent() && this.disk == disk && this.depsDisk == depsDisk && memory.None? && depsMemory.None?
      ensures this.states == states && this.deps == deps
    {
      this.states, this.deps, this.disk, this.depsDisk, memory, depsMemory := states, deps, disk, depsDisk, None, None;
    }

    /** The previous states: from memory, or from the file on the first build. */
    method LoadState() returns (prev: seq<Row>)
      requires Coherent()
      modifies this`memory
      ensures Coherent() && memory == Some(prev) && Says(states, disk, prev)
      ensures old(memory).None? ==> prev == Read(states, disk)
    {
      if memory.Some? {
        return memory.value;
      }
      prev := Read(states, disk);
      memory := Some(prev);
    }

    /** The same for the depfile records; an empty file is not worth keeping. */
    method LoadDeps() returns (prev: seq<Row>)
      requires Coherent()
      modifies this`depsMemory
      ensures Coherent() && Says(deps, depsDisk, prev) && Distinct(prev)
      ensures old(depsMemory).None? ==> prev == Read(deps, depsDisk)
    {
      if depsMemory.Some? {
        RecordedCopies(depsMemory.value);
        prev := CloneDeps(depsMemory.value);
        return;
      }
      prev := Read(deps, depsDisk);
      if |prev| > 0 {
        RecordedCopies(prev);
        var copy := CloneDeps(prev);
        depsMemory := Some(copy);
      }
    }

    static method CloneDeps(rows: seq<Row>) returns (copy: seq<Row>)
      ensures copy == RecordedAll([], rows)
    {
      copy := [];
      for i := 0 to |rows|
        invariant copy == RecordedAll([], rows[..i])
      {
        assert rows[..i + 1][..i] == rows[..i];
        copy := Record(copy, rows[i]);
      }
      assert rows[..|rows|] == rows;
    }

    static method Record(rows: seq<Row>, row: Row) returns (r: seq<Row>)
      ensures r == Recorded(rows, row)
    {
      for i := 0 to |rows|
        invariant forall j :: 0 <= j < i ==> rows[j].id != row.id
      {
        if rows[i].id == row.id {
          PlaceIs(rows, row.id, i);
          return rows[i := row];
        }
      }
      assert Place(rows, row.id).None?;
      r := rows + [row];
    }

    static method NextHas(rows: seq<Row>, id: string) returns (has: bool)
      ensures has == Has(rows, id)
    {
      for i := 0 to |rows|
        invariant forall j :: 0 <= j < i ==> rows[j].id != id
      {
        if rows[i].id == id {
          return true;
        }
      }
      has := false;
    }

    /** Carries over the rows this build did not visit. */
    static method PreserveUnvisited(visited: seq<Row>, prev: seq<Row>) returns (next: seq<Row>)
      ensures next == Preserved(visited, prev)
    {
      next := visited;
      for i := 0 to |prev|
        invariant next == Preserved(visited, prev[..i])
      {
        assert prev[..i + 1][..i] == prev[..i];
        var has := NextHas(next, prev[i].id);
        if !has {
          next := next + [prev[i]];
        }
      }
      assert prev[..|prev|] == prev;
    }

    static method IsUnchanged(prev: seq<Row>, next: seq<Row>) returns (same: bool)
      ensures same == Unchanged(prev, next)
    {
      if |prev| != |next| {
        return false;
      }
      for i := 0 to |next|
        invariant forall j :: 0 <= j < i ==> Lookup(prev, next[j].id) == Some(next[j].body)
      {
        if Lookup(prev, next[i].id) != Some(next[i].body) {
          return false;
        }
      }
      same := true;
    }

    /** Writes the merged states unless the previous ones say the same. */
    method WriteState(prev: seq<Row>, visited: seq<Row>)
      requires Says(states, disk, prev)
      modifies this`disk, this`memory
      ensures memory == Some(Preserved(visited, prev)) && disk.Some?
      ensures Says(states, disk, Preserved(visited, prev))
    {
      var next := PreserveUnvisited(visited, prev);
      var same := IsUnchanged(prev, next);
      if same && disk.Some? {
        MergedUnchangedIsSame(prev, visited);
      } else {
        disk := Some(next);
      }
      memory := Some(next);
    }

    /** Writes the depfile records of this build, if there are any and they are not what the file says. */
    method WriteDeps(prev: seq<Row>, next: seq<Row>)
      requires Says(deps, depsDisk, prev) && Distinct(next)
      requires Distinct(Rows(depsDisk)) && Distinct(Rows(depsMemory))
      requires depsMemory.Some? ==> Says(deps, depsDisk, depsMemory.value)
      modifies this`depsDisk, this`depsMemory
      ensures next == [] ==> depsDisk == old(depsDisk) && depsMemory == old(depsMemory)
      ensures next != [] ==> depsMemory == Some(next) && Says(deps, depsDisk, next)
      ensures Distinct(Rows(depsDisk)) && Distinct(Rows(depsMemory))
    {
      if |next| == 0 {
        return;
      }
      var same := IsUnchanged(prev, next);
      if same && depsDisk.Some? {
        UnchangedIsSame(prev, next);
      } else {
        depsDisk := Some(next);
      }
      RecordedCopies(next);
      var copy := CloneDeps(next);
      depsMemory := Some(copy);
    }

    /** One build: it sees what the files say, and stores only when it succeeds. A fresh process sees what loading
        the files gives; as long as the loaders take what is written, memory and files say one thing. */
    method Build(visited: seq<Row>, records: seq<Row>, success: bool) returns (prev: seq<Row>, depsPrev: seq<Row>)
      requires Coherent()
      modifies this
      ensures Coherent()
      ensures Says(states, old(disk), prev) && Says(deps, old(depsDisk), depsPrev)
      ensures old(memory).None? ==> prev == Read(states, old(disk))
      ensures old(depsMemory).None? ==> depsPrev == Read(deps, old(depsDisk))
      ensures states.Takes(Rows(old(disk))) ==> SameTable(prev, Rows(old(disk)))
      ensures deps.Takes(Rows(old(depsDisk))) ==> SameTable(depsPrev, Rows(old(depsDisk)))
      ensures !success ==> disk == old(disk) && depsDisk == old(depsDisk)
      ensures success ==> Says(states, disk, Preserved(visited, prev))
      ensures success && states.Takes(Rows(old(disk))) && states.Takes(Rows(disk)) ==>
                forall id :: Lookup(Read(states, disk), id) == Override(visited, Rows(old(disk)), id)
      ensures success ==> if records == [] then depsDisk == old(depsDisk) else Says(deps, depsDisk, RecordedAll([], records))
    {
      hide Unchanged, Distinct, Preserved, Recorded, RecordedAll;
      prev := LoadState();
      depsPrev := LoadDeps();
      var next := CloneDeps(records);
      assert Distinct(next) by { NoRows(); RecordedDistinct([], records); }
      if !success {
        return;
      }
      WriteState(prev, visited);
      if states.Takes(Rows(old(disk))) && states.Takes(Rows(disk)) {
        forall id ensures Lookup(Read(states, disk), id) == Override(visited, Rows(old(disk)), id) {
          MergeOverrides(visited, prev, id);
        }
      }
      RecordedSome(records);
      WriteDeps(depsPrev, next);
    }
  }

  lemma {:induction false} PlaceIs(rows: seq<Row>, id: string, i: nat)
    requires i < |rows| && rows[i].id == id && forall j :: 0 <= j < i ==> rows[j].id != id
    ensures Place(rows, id) == Some(i)
  {
    if i > 0 {
      PlaceIs(rows[1..], id, i - 1);
    }
  }

  lemma NoRows()
    ensures Distinct([])
  {
  }

  lemma RecordedSome(records: seq<Row>)
    ensures RecordedAll([], records) == [] <==> records == []
  {
    if records != [] {
      var was := RecordedAll([], records[..|records| - 1]);
      assert Recorded(was, records[|records| - 1]) != [];
    }
  }
}
