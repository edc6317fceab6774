/** The open-addressing index over the previous build's action states. */
module StateIndex {
  import opened Wrappers
  import ActionDag

  /** Where a linear scan first meets the id. */
  function FirstMatch(ids: seq<string>, id: string): (r: Option<nat>)
    ensures r.Some? ==> r.value < |ids| && ids[r.value] == id && forall j :: 0 <= j < r.value ==> ids[j] != id
    ensures r.None? ==> forall j :: 0 <= j < |ids| ==> ids[j] != id
  {
    if ids == [] then None
    else
      var earlier := FirstMatch(ids[..|ids| - 1], id);
      if earlier.Some? then earlier
      else if ids[|ids| - 1] == id then Some(|ids| - 1)
      else None
  }

  lemma FirstMatchIsFirst(ids: seq<string>, id: string, k: nat)
    requires k < |ids| && ids[k] == id && forall j :: 0 <= j < k ==> ids[j] != id
    ensures FirstMatch(ids, id) == Some(k)
  {
    var r := FirstMatch(ids, id);
    assert r.Some?;
    assert r.value <= k;
  }

  datatype Slot = Empty | Used(id: string, index: nat)

  /** The slot `d` steps after `home`, going round at the end. */
  function Around(cap: nat, home: nat, d: nat): (pos: nat)
    requires home < cap && d < cap
    ensures pos < cap
  {
    if home + d < cap then home + d else home + d - cap
  }

  /** The steps from `home` to `pos`. */
  function Steps(cap: nat, home: nat, pos: nat): (d: nat)
    requires home < cap && pos < cap
    ensures d < cap && Around(cap, home, d) == pos
    ensures forall e: nat :: e < cap && Around(cap, home, e) == pos ==> e == d
  {
    if home <= pos then pos - home else pos + cap - home
  }

  predicate PowerOfTwo(n: nat) {
    n == 1 || (n > 0 && n % 2 == 0 && PowerOfTwo(n / 2))
  }

  function Power(k: nat): nat {
    if k == 0 then 1 else 2 * Power(k - 1)
  }

  lemma {:induction false} PowersAre(k: nat)
    ensures PowerOfTwo(Power(k))
  {
    if k > 0 {
      PowersAre(k - 1);
      assert Power(k) / 2 == Power(k - 1) && Power(k) % 2 == 0;
    }
  }

  /** Halving evenly down to one is being a power of two. */
  lemma {:induction false} PowerIs(n: nat)
    ensures PowerOfTwo(n) <==> exists k: nat :: n == Power(k)
  {
    if k: nat :| n == Power(k) {
      PowersAre(k);
    }
    if n == 1 {
      assert n == Power(0);
    } else if PowerOfTwo(n) {
      PowerIs(n / 2);
      var k: nat :| n / 2 == Power(k);
      assert n == Power(k + 1);
    }
  }

  function Home(hash: string -> nat, cap: nat, id: string): (pos: nat)
    requires cap > 0
    ensures pos < cap
  {
    hash(id) % cap
  }

  /** Nothing is empty between an id's home and the slot that holds it. */
  ghost predicate Reached(hash: string -> nat, slots: seq<Slot>, pos: nat)
    requires pos < |slots|
  {
    slots[pos].Used? ==>
      var home := Home(hash, |slots|, slots[pos].id);
      forall d: nat :: d < Steps(|slots|, home, pos) ==> slots[Around(|slots|, home, d)].Used?
  }

  predicate HoldsFirst(slots: seq<Slot>, ids: seq<string>, pos: nat)
    requires pos < |slots|
  {
    slots[pos].Used? ==> FirstMatch(ids, slots[pos].id) == Some(slots[pos].index)
  }

  predicate Listed(slots: seq<Slot>, id: string) {
    exists pos :: 0 <= pos < |slots| && slots[pos].Used? && slots[pos].id == id
  }

  predicate OncePerId(slots: seq<Slot>) {
    forall p: nat, q: nat :: p < |slots| && q < |slots| && slots[p].Used? && slots[q].Used? && slots[p].id == slots[q].id ==> p == q
  }

  /** The index of `ids`: each distinct id in one slot, reached from its home, with its first position. */
  ghost predicate IndexOf(hash: string -> nat, slots: seq<Slot>, ids: seq<string>) {
    && (forall pos: nat :: pos < |slots| ==> Reached(hash, slots, pos) && HoldsFirst(slots, ids, pos))
    && (forall i :: 0 <= i < |ids| ==> Listed(slots, ids[i]))
    && OncePerId(slots)
  }

  /** At most this many slots are in use. */
  ghost predicate Occupies(slots: seq<Slot>, n: nat) {
    exists taken: set<nat> :: |taken| <= n && Covers(taken, slots)
  }

  ghost predicate Covers(taken: set<nat>, slots: seq<Slot>) {
    forall pos: nat :: pos < |slots| && slots[pos].Used? ==> pos in taken
  }

  lemma SomeEmpty(slots: seq<Slot>, n: nat) returns (pos: nat)
    requires Occupies(slots, n) && n < |slots|
    ensures pos < |slots| && slots[pos].Empty?
  {
    var taken: set<nat> :| |taken| <= n && Covers(taken, slots);
    var all := ActionDag.Below(|slots|);
    if all <= taken {
      ActionDag.SubsetSize(all, taken);
    }
    pos :| pos in all && pos !in taken;
  }

  /** A probe that meets an empty slot has shown that the id is not listed. */
  lemma EmptyMeansAbsent(hash: string -> nat, slots: seq<Slot>, ids: seq<string>, id: string, d: nat)
    requires |slots| > 0 && IndexOf(hash, slots, ids) && d < |slots|
    requires slots[Around(|slots|, Home(hash, |slots|, id), d)].Empty?
    requires forall e: nat :: e < d ==> Passed(hash, slots, id, e)
    ensures !Listed(slots, id)
  {
    hide FirstMatch;
    forall pos: nat | pos < |slots| && slots[pos].Used? ensures slots[pos].id != id {
      var e := Steps(|slots|, Home(hash, |slots|, id), pos);
      assert Reached(hash, slots, pos);
      if e < d {
        assert Passed(hash, slots, id, e);
      }
    }
  }

  predicate Passed(hash: string -> nat, slots: seq<Slot>, id: string, d: nat) {
    && d < |slots|
    && var s := slots[Around(|slots|, Home(hash, |slots|, id), d)];
       s.Used? && s.id != id
  }

  /** Putting a new id into the first empty slot after its home extends the index. */
  lemma InsertExtends(hash: string -> nat, slots: seq<Slot>, ids: seq<string>, id: string, d: nat)
    requires |slots| > 0 && IndexOf(hash, slots, ids) && d < |slots|
    requires slots[Around(|slots|, Home(hash, |slots|, id), d)].Empty?
    requires forall e: nat :: e < d ==> Passed(hash, slots, id, e)
    ensures IndexOf(hash, slots[Around(|slots|, Home(hash, |slots|, id), d) := Used(id, |ids|)], ids + [id])
  {
    hide FirstMatch;
    var cap, home := |slots|, Home(hash, |slots|, id);
    var at := Around(cap, home, d);
    var now := slots[at := Used(id, |ids|)];
    EmptyMeansAbsent(hash, slots, ids, id, d);
    forall i | 0 <= i < |ids| ensures ids[i] != id {
      assert Listed(slots, ids[i]);
    }
    FirstMatchIsFirst(ids + [id], id, |ids|);
    forall pos: nat | pos < cap ensures Reached(hash, now, pos) && HoldsFirst(now, ids + [id], pos) {
      assert Reached(hash, slots, pos) && HoldsFirst(slots, ids, pos);
      if pos == at {
        forall e: nat | e < d ensures now[Around(cap, home, e)].Used? {
          assert Passed(hash, slots, id, e);
        }
      } else if slots[pos].Used? {
        FirstMatchIsFirst(ids + [id], slots[pos].id, slots[pos].index);
      }
    }
    forall i | 0 <= i < |ids + [id]| ensures Listed(now, (ids + [id])[i]) {
      if i < |ids| {
        assert Listed(slots, ids[i]);
        var pos :| 0 <= pos < |slots| && slots[pos].Used? && slots[pos].id == ids[i];
        assert now[pos] == slots[pos];
      } else {
        assert now[at].id == id;
      }
    }
    forall p: nat | p < cap && p != at && slots[p].Used? ensures slots[p].id != id {
      assert !Listed(slots, id);
    }
  }

  lemma KnownIdExtends(hash: string -> nat, slots: seq<Slot>, ids: seq<string>, id: string)
    requires IndexOf(hash, slots, ids) && Listed(slots, id)
    ensures IndexOf(hash, slots, ids + [id])
  {
    hide FirstMatch;
    forall pos: nat | pos < |slots| ensures HoldsFirst(slots, ids + [id], pos) {
      assert HoldsFirst(slots, ids, pos);
      if slots[pos].Used? {
        FirstMatchIsFirst(ids + [id], slots[pos].id, slots[pos].index);
      }
    }
  }

  lemma OneMoreTaken(slots: seq<Slot>, n: nat, pos: nat, s: Slot)
    requires pos < |slots| && Occupies(slots, n)
    ensures Occupies(slots[pos := s], n + 1)
  {
    var taken: set<nat> :| |taken| <= n && Covers(taken, slots);
    var more := taken + {pos};
    assert |more| <= n + 1 && Covers(more, slots[pos := s]);
  }

  class StateTable {
    const hash: string -> nat
    var ids: seq<string>
    var index: array?<Slot>

    ghost predicate Valid()
      reads this, index
    {
      index != null ==>
        && index.Length >= 32 && index.Length >= 2 * |ids| && PowerOfTwo(index.Length)
        && IndexOf(hash, index[..], ids) && Occupies(index[..], |ids|)
    }

    constructor (hash: string -> nat, ids: seq<string>)
      ensures Valid() && this.ids == ids && this.hash == hash && index == null
    {
      this.hash, this.ids, index := hash, ids, null;
    }

    /** Doubles a capacity of 32 until it is at least twice the number of entries. */
    method Capacity() returns (cap: nat)
      ensures cap >= 32 && cap >= 2 * |ids| && PowerOfTwo(cap)
      ensures cap > 32 ==> cap < 4 * |ids|
    {
      cap := 32;
      assert PowerOfTwo(2) && PowerOfTwo(4) && PowerOfTwo(8) && PowerOfTwo(16);
      while cap < |ids| * 2
        invariant cap >= 32 && PowerOfTwo(cap) && (cap > 32 ==> cap < 4 * |ids|)
        decreases 2 * |ids| - cap
      {
        cap := cap * 2;
      }
    }

    /** Walks from the id's home to its slot or to the first empty one. */
    method Probe(slots: array<Slot>, id: string, n: nat) returns (pos: nat, ghost d: nat)
      requires 0 < slots.Length && n < slots.Length && Occupies(slots[..], n)
      ensures pos < slots.Length && d < slots.Length
      ensures pos == Around(slots.Length, Home(hash, slots.Length, id), d)
      ensures forall e: nat :: e < d ==> Passed(hash, slots[..], id, e)
      ensures slots[pos].Used? ==> slots[pos].id == id
    {
      var cap := slots.Length;
      ghost var home := Home(hash, cap, id);
      ghost var gap := SomeEmpty(slots[..], n);
      ghost var last := Steps(cap, home, gap);
      pos, d := hash(id) % cap, 0;
      while slots[pos].Used?
        invariant d <= last < cap && pos == Around(cap, home, d)
        invariant forall e: nat :: e < d ==> Passed(hash, slots[..], id, e)
        decreases last - d
      {
        if slots[pos].id == id {
          break;
        }
        assert Passed(hash, slots[..], id, d);
        pos, d := if pos + 1 == cap then 0 else pos + 1, d + 1;
      }
    }

    /** Indexes the ids in order; an id already listed keeps its first position. */
    method Build()
      requires Valid()
      modifies this`index
      ensures Valid() && ids == old(ids) && (index == null <==> ids == [])
      ensures index != null ==> fresh(index)
    {
      index := null;
      if |ids| == 0 {
        return;
      }
      var cap := Capacity();
      var slots := new Slot[cap](_ => Empty);
      assert Occupies(slots[..], 0) by {
        assert Covers({}, slots[..]);
      }
      for i := 0 to |ids|
        invariant fresh(slots) && slots.Length == cap && index == null
        invariant IndexOf(hash, slots[..], ids[..i]) && Occupies(slots[..], i)
      {
        hide IndexOf, Occupies, Passed, Around, Home;
        var pos;
        ghost var d;
        pos, d := Probe(slots, ids[i], i);
        assert ids[..i + 1] == ids[..i] + [ids[i]];
        ghost var before := slots[..];
        if slots[pos].Empty? {
          InsertExtends(hash, before, ids[..i], ids[i], d);
          OneMoreTaken(before, i, pos, Used(ids[i], i));
          slots[pos] := Used(ids[i], i);
          assert slots[..] == before[pos := Used(ids[i], i)];
        } else {
          assert Listed(before, ids[i]) by { assert before[pos].id == ids[i]; }
          KnownIdExtends(hash, before, ids[..i], ids[i]);
          MoreRoom(before, i);
        }
      }
      assert ids[..|ids|] == ids;
      index := slots;
    }

    /** The first entry with this id, through the index when there is one. */
    method Find(id: string) returns (r: Option<nat>)
      requires Valid()
      ensures r == FirstMatch(ids, id)
    {
      if index != null {
        var pos;
        ghost var d;
        pos, d := Probe(index, id, |ids|);
        if index[pos].Used? {
          assert HoldsFirst(index[..], ids, pos);
          return Some(index[pos].index);
        }
        EmptyMeansAbsent(hash, index[..], ids, id, d);
        AbsentEverywhere(index[..], hash, ids, id);
        return None;
      }
      for i := 0 to |ids|
        invariant forall j :: 0 <= j < i ==> ids[j] != id
      {
        if ids[i] == id {
          FirstMatchIsFirst(ids, id, i);
          return Some(i);
        }
      }
      r := None;
    }
  }

  lemma MoreRoom(slots: seq<Slot>, n: nat)
    requires Occupies(slots, n)
    ensures Occupies(slots, n + 1)
  {
    var taken: set<nat> :| |taken| <= n && Covers(taken, slots);
    assert |taken| <= n + 1;
  }

  lemma AbsentEverywhere(slots: seq<Slot>, hash: string -> nat, ids: seq<string>, id: string)
    requires IndexOf(hash, slots, ids) && !Listed(slots, id)
    ensures FirstMatch(ids, id) == None
  {
    forall j | 0 <= j < |ids| ensures ids[j] != id {
      assert Listed(slots, ids[j]);
    }
  }
}
