/** A growable, NULL-terminated argument vector that counts its bytes. */
module ArgvStorage {
  import opened Wrappers

  const SIZE_MAX: nat := 0xFFFF_FFFF_FFFF_FFFF
  const POINTER_SIZE: nat := 8
  const FIRST_CAP: nat := 8

  /** Bytes of the strings with their NULs. */
  function Bytes(args: seq<string>): nat {
    if args == [] then 0 else Bytes(args[..|args| - 1]) + |args[|args| - 1]| + 1
  }

  lemma {:induction false} BytesOfPrefix(args: seq<string>, k: nat)
    requires k <= |args|
    ensures Bytes(args[..k]) <= Bytes(args)
    decreases |args| - k
  {
    if k < |args| {
      assert args[..k + 1][..k] == args[..k];
      BytesOfPrefix(args, k + 1);
    } else {
      assert args[..k] == args;
    }
  }

  lemma BytesPush(args: seq<string>, arg: string)
    ensures Bytes(args + [arg]) == Bytes(args) + |arg| + 1
  {
    assert (args + [arg])[..|args|] == args;
  }

  /** The capacity after doubling `cap` until `count` fits, or `count` itself when doubling would overflow. */
  function Doubled(cap: nat, count: nat): (r: nat)
    requires 0 < cap <= SIZE_MAX && count <= SIZE_MAX
    ensures cap <= r <= SIZE_MAX && count <= r
    decreases count - cap
  {
    if cap >= count then cap
    else if cap > SIZE_MAX / 2 then count
    else Doubled(cap * 2, count)
  }

  /** Whether so many slots, and one for the NULL, can be asked for at all. */
  predicate CanHold(cap: nat, count: nat)
    requires cap <= SIZE_MAX && count <= SIZE_MAX
  {
    count <= cap ||
    (count < SIZE_MAX && (Doubled(if cap > 0 then cap else FIRST_CAP, count) + 1) * POINTER_SIZE <= SIZE_MAX)
  }

  /** Doubling is the only loss: a count that fits within half the address space is always accepted. */
  lemma {:induction false} DoubledAtMostTwice(cap: nat, count: nat)
    requires 0 < cap <= SIZE_MAX && cap < count <= SIZE_MAX
    ensures Doubled(cap, count) < 2 * count
    decreases count - cap
  {
    if cap <= SIZE_MAX / 2 && cap * 2 < count {
      DoubledAtMostTwice(cap * 2, count);
    }
  }

  /** Growing at least doubles, as long as a word holds that. */
  lemma DoubledGrows(cap: nat, count: nat)
    requires 0 < cap < count <= SIZE_MAX && cap <= SIZE_MAX / 2
    ensures Doubled(cap, count) >= 2 * cap
  {}

  /** A count can be held whenever sixteen bytes an item fit a word, and never when eight do not. */
  lemma WhatCanBeHeld(cap: nat, count: nat)
    requires cap <= SIZE_MAX && count <= SIZE_MAX
    ensures count <= cap || 16 * count + 64 <= SIZE_MAX ==> CanHold(cap, count)
    ensures CanHold(cap, count) ==> count <= cap || 8 * count + 8 <= SIZE_MAX
  {
    hide Doubled;
    var from := if cap > 0 then cap else FIRST_CAP;
    if cap < count && from < count {
      DoubledAtMostTwice(from, count);
    } else if cap < count {
      DoubledEnough(from, count);
    }
  }

  lemma DoubledEnough(cap: nat, count: nat)
    requires 0 < cap <= SIZE_MAX && count <= cap
    ensures Doubled(cap, count) == cap
  {}

  class Argv {
    var items: array?<Option<string>>
    var len: nat
    var cap: nat
    var bytes: nat

    /** Items up to `len` are strings, then comes the NULL, and every count fits a machine word. */
    ghost predicate Valid()
      reads this, items
    {
      && (items == null ==> len == 0 && cap == 0)
      && (items != null ==> items.Length == cap + 1 && len <= cap && items[len] == None)
      && (items != null ==> items.Length * POINTER_SIZE <= SIZE_MAX)
      && (forall i :: 0 <= i < len ==> items[i].Some?)
      && bytes == Bytes(Contents()) <= SIZE_MAX
    }

    ghost function Contents(): (r: seq<string>)
      reads this, items
      requires items == null ==> len == 0
      requires items != null ==> len <= items.Length
      requires forall i :: 0 <= i < len ==> items[i].Some?
      ensures |r| == len
    {
      seq(len, i requires 0 <= i < len && items != null && len <= items.Length && items[i].Some? reads this, items => items[i].value)
    }

    constructor ()
      ensures Valid() && Contents() == [] && items == null
    {
      items, len, cap, bytes := null, 0, 0, 0;
    }

    /** Makes room for `count` items and their NULL; `memory` says that no allocation fails. */
    method Reserve(count: nat, memory: bool) returns (ok: bool)
      requires Valid() && count <= SIZE_MAX
      modifies this`items, this`cap, items
      ensures Valid() && Contents() == old(Contents()) && len == old(len)
      ensures cap >= old(cap) && (ok ==> count <= cap)
      ensures ok ==> CanHold(old(cap), count)
      ensures memory && CanHold(old(cap), count) ==> ok
      ensures items == old(items) || fresh(items)
      ensures !ok ==> items == old(items) && cap == old(cap)
    {
      if count <= cap {
        if items != null {
          items[len] := None;
          assert Contents() == old(Contents());
        }
        return true;
      }
      if count == SIZE_MAX {
        return false;
      }
      var ncap := NextCap(if cap > 0 then cap else FIRST_CAP, count);
      if ncap == SIZE_MAX {
        return false;
      }
      var slots := ncap + 1;
      if slots > SIZE_MAX / POINTER_SIZE {
        return false;
      }
      var got: bool := *;
      if !got && !memory {
        return false;
      }
      Grow(ncap);
      ok := true;
    }

    static method NextCap(cap: nat, count: nat) returns (ncap: nat)
      requires 0 < cap <= SIZE_MAX && count <= SIZE_MAX
      ensures ncap == Doubled(cap, count)
    {
      ncap := cap;
      while ncap < count
        invariant cap <= ncap <= SIZE_MAX
        invariant Doubled(cap, count) == Doubled(ncap, count)
        decreases count - ncap
      {
        if ncap > SIZE_MAX / 2 {
          ncap := count;
          break;
        }
        ncap := ncap * 2;
      }
    }

    /** Moves the items into a larger block. */
    method Grow(ncap: nat)
      requires Valid() && cap <= ncap && (ncap + 1) * POINTER_SIZE <= SIZE_MAX
      modifies this`items, this`cap
      ensures Valid() && Contents() == old(Contents()) && cap == ncap && fresh(items)
    {
      hide Bytes;
      var fresher := new Option<string>[ncap + 1];
      ghost var was := Contents();
      var i := 0;
      while i < len
        modifies fresher
        invariant i <= len
        invariant forall j :: 0 <= j < i ==> items != null && fresher[j] == items[j]
      {
        fresher[i] := items[i];
        i := i + 1;
      }
      items, cap := fresher, ncap;
      items[len] := None;
      assert Contents() == was;
    }

    /** Puts `value` into the next slot, which is there, and the NULL after it. */
    method Put(value: string)
      requires Valid() && len < cap && Bytes(Contents()) + |value| + 1 <= SIZE_MAX
      modifies this`len, this`bytes, items
      ensures Valid() && Contents() == old(Contents()) + [value]
    {
      hide Bytes;
      ghost var was := Contents();
      BytesPush(was, value);
      items[len] := Some(value);
      len := len + 1;
      items[len] := None;
      bytes := bytes + |value| + 1;
      assert Contents() == was + [value];
    }

    /** Appends a copy of `value`, or changes nothing. */
    method Push(value: string, memory: bool) returns (ok: bool)
      requires Valid()
      modifies this, items
      ensures Valid() && cap >= old(cap)
      ensures Contents() == if ok then old(Contents()) + [value] else old(Contents())
      ensures ok ==> Bytes(old(Contents())) + |value| + 1 <= SIZE_MAX && CanHold(old(cap), old(len) + 1)
      ensures memory && Bytes(old(Contents())) + |value| + 1 <= SIZE_MAX && CanHold(old(cap), old(len) + 1) ==> ok
      ensures items == old(items) || fresh(items)
    {
      hide Bytes, CanHold;
      var n := |value|;
      if len == SIZE_MAX || n >= SIZE_MAX || bytes > SIZE_MAX - (n + 1) {
        return false;
      }
      var got: bool := *;
      if !got && !memory {
        return false;
      }
      ok := Reserve(len + 1, memory);
      if ok {
        Put(value);
      }
    }

    method Snapshot() returns (r: seq<string>)
      requires Valid()
      ensures r == Contents()
    {
      r := [];
      for i := 0 to len
        invariant r == Contents()[..i]
      {
        r := r + [items[i].value];
      }
    }

    method Free()
      requires Valid()
      modifies this
      ensures Valid() && Contents() == [] && items == null && bytes == 0
    {
      items, len, cap, bytes := null, 0, 0, 0;
    }

    /** A new vector with copies of all strings. */
    method Copied(memory: bool) returns (ok: bool, copy: Argv)
      requires Valid()
      ensures fresh(copy) && copy.Valid() && (copy.items == null || fresh(copy.items))
      ensures ok ==> copy.Contents() == Contents()
      ensures memory && CanHold(0, len) ==> ok
    {
      hide Bytes, CanHold;
      copy := new Argv();
      ghost var all := Contents();
      ok := copy.Reserve(len, memory);
      if !ok {
        return;
      }
      var i := 0;
      assert all[..0] == [];
      while i < len
        invariant fresh(copy) && (copy.items == null || fresh(copy.items)) && copy.Valid()
        invariant i <= |all| == len && copy.Contents() == all[..i] && copy.cap >= len
      {
        CloneRoom(all, i, copy.cap);
        assert items[i].value == all[i];
        ok := copy.Push(items[i].value, memory);
        if !ok {
          return;
        }
        assert all[..i + 1] == all[..i] + [all[i]];
        i := i + 1;
      }
      assert all[..i] == all;
      ok := true;
    }

    /** Replaces the contents by a deep copy of `src`, or changes nothing. */
    method CloneFrom(src: Argv, memory: bool) returns (ok: bool)
      requires Valid() && src.Valid()
      modifies this
      ensures Valid()
      ensures Contents() == if ok then old(src.Contents()) else old(Contents())
      ensures ok ==> items == null || fresh(items)
      ensures !ok ==> items == old(items)
      ensures src != this ==> src.Valid() && src.Contents() == old(src.Contents())
      ensures memory && CanHold(0, old(src.len)) ==> ok
    {
      hide Bytes, CanHold;
      var copy;
      ok, copy := src.Copied(memory);
      if ok {
        items, len, cap, bytes := copy.items, copy.len, copy.cap, copy.bytes;
        assert Contents() == copy.Contents();
      }
    }
  }

  /** A clone never runs out of room or of countable bytes. */
  lemma CloneRoom(all: seq<string>, i: nat, cap: nat)
    requires i < |all| <= cap <= SIZE_MAX && Bytes(all) <= SIZE_MAX
    ensures Bytes(all[..i]) + |all[i]| + 1 <= SIZE_MAX && CanHold(cap, i + 1)
  {
    BytesOfPrefix(all, i + 1);
    assert all[..i + 1][..i] == all[..i];
  }
}
