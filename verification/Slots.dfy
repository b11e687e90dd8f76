/** Fixed 32-slot arrays: the shifting loops every bounded table of the engine uses, and the
    append-only table of keyed records built on them. */
module Slots {
  import opened Options
  import opened Keys

  const CAPACITY: nat := 32

  /** Close the gap at `pos`: entries after it move one slot left, the last one stays doubled. */
  method ShiftLeft<T>(slots: array<T>, pos: nat, len: nat)
    requires slots.Length == CAPACITY && pos < len <= CAPACITY
    modifies slots
    ensures slots[..] == old(slots[..pos] + slots[pos + 1..len] + slots[len - 1..])
  {
    ghost var s := slots[..];
    var k := 0;
    while k < CAPACITY
      invariant 0 <= k <= CAPACITY
      invariant forall j :: 0 <= j < CAPACITY && j < k && pos <= j < len - 1 ==> slots[j] == s[j + 1]
      invariant forall j :: 0 <= j < CAPACITY && !(j < k && pos <= j < len - 1) ==> slots[j] == s[j]
    {
      var j := k;
      if j >= pos && j + 1 < len {
        slots[j] := slots[j + 1];
      }
      k := k + 1;
    }
  }

  /** Open a gap at `pos`: entries from it on move one slot right, the first one stays doubled. */
  method ShiftRight<T>(slots: array<T>, pos: nat, len: nat)
    requires slots.Length == CAPACITY && pos <= len < CAPACITY
    modifies slots
    ensures slots[..] == old(slots[..pos] + [slots[pos]] + slots[pos..len] + slots[len + 1..])
  {
    ghost var s := slots[..];
    var k := 0;
    while k < CAPACITY
      invariant 0 <= k <= CAPACITY
      invariant forall j :: 0 <= j < CAPACITY && j >= CAPACITY - k && pos < j <= len ==> slots[j] == s[j - 1]
      invariant forall j :: 0 <= j < CAPACITY && !(j >= CAPACITY - k && pos < j <= len) ==> slots[j] == s[j]
    {
      var j := CAPACITY - 1 - k;
      if j > pos && j <= len {
        slots[j] := slots[j - 1];
      }
      k := k + 1;
    }
  }

  /** The values of a run of filled slots. */
  ghost function Values<T>(s: seq<Option<T>>): (r: seq<T>)
    requires forall i :: 0 <= i < |s| ==> s[i].Some?
    ensures |r| == |s| && forall i :: 0 <= i < |s| ==> r[i] == s[i].value
  {
    seq(|s|, i requires 0 <= i < |s| => s[i].value)
  }

  // ---- keyed records, oldest first ----

  /** Position of the first record for `key`. */
  ghost function Find<V>(s: seq<(PhysicalKey, V)>, key: PhysicalKey): (r: Option<nat>)
    ensures r.Some? ==> r.value < |s| && s[r.value].0 == key
    ensures r.Some? ==> forall j :: 0 <= j < r.value ==> s[j].0 != key
    ensures r == None <==> forall j :: 0 <= j < |s| ==> s[j].0 != key
  {
    if s == [] then None
    else if s[0].0 == key then Some(0)
    else
      var r := Find(s[1..], key);
      if r.Some? then Some(r.value + 1) else None
  }

  ghost function Drop<T>(s: seq<T>, i: nat): seq<T>
    requires i < |s|
  {
    s[..i] + s[i + 1..]
  }

  /** The records left once the first one for `key` is taken out. */
  ghost function Without<V>(s: seq<(PhysicalKey, V)>, key: PhysicalKey): seq<(PhysicalKey, V)> {
    match Find(s, key)
    case None => s
    case Some(i) => Drop(s, i)
  }

  ghost function Lookup<V>(s: seq<(PhysicalKey, V)>, key: PhysicalKey): Option<V> {
    match Find(s, key)
    case None => None
    case Some(i) => Some(s[i].1)
  }

  /** Append, dropping the record when the table is full. */
  ghost function Append<T>(s: seq<T>, x: T): seq<T> {
    if |s| < CAPACITY then s + [x] else s
  }

  class SlotTable<V> {
    const slots: array<Option<(PhysicalKey, V)>>
    var len: nat

    ghost predicate Valid()
      reads this, slots
    {
      && slots.Length == CAPACITY && len <= CAPACITY
      && (forall i :: 0 <= i < len ==> slots[i].Some?)
      && (forall i :: len <= i < CAPACITY ==> slots[i] == None)
    }

    ghost function View(): (r: seq<(PhysicalKey, V)>)
      requires Valid()
      reads this, slots
      ensures |r| == len <= CAPACITY
    {
      Values(slots[..len])
    }

    constructor ()
      ensures Valid() && View() == [] && fresh(slots)
    {
      slots := new Option<(PhysicalKey, V)>[CAPACITY](_ => None);
      len := 0;
    }

    method Push(key: PhysicalKey, v: V)
      requires Valid()
      modifies this, slots
      ensures Valid() && View() == Append(old(View()), (key, v))
    {
      if len < CAPACITY {
        ghost var before := View();
        slots[len] := Some((key, v));
        len := len + 1;
        assert View() == before + [(key, v)];
      }
    }

    /** Find and remove the first record for `key`. */
    method Remove(key: PhysicalKey) returns (removed: Option<V>)
      requires Valid()
      modifies this, slots
      ensures Valid()
      ensures removed == Lookup(old(View()), key)
      ensures View() == Without(old(View()), key)
    {
      var found: Option<nat> := None;
      var i := 0;
      while i < CAPACITY
        invariant 0 <= i <= CAPACITY && found == None
        invariant forall j :: 0 <= j < i && slots[j].Some? ==> slots[j].value.0 != key
      {
        if slots[i].Some? && slots[i].value.0 == key {
          found := Some(i);
          break;
        }
        i := i + 1;
      }
      ghost var before := View();
      assert forall j :: 0 <= j < len ==> before[j] == slots[j].value;
      if found == None {
        assert Find(before, key) == None;
        return None;
      }
      var pos := found.value;
      assert before[pos].0 == key;
      assert Find(before, key) == Some(pos);
      removed := Some(slots[pos].value.1);
      RemoveAt(pos);
    }

    method RemoveAt(pos: nat)
      requires Valid() && pos < len
      modifies this, slots
      ensures Valid() && View() == Drop(old(View()), pos)
    {
      ghost var before := View();
      ghost var s := slots[..];
      ShiftLeft(slots, pos, len);
      slots[len - 1] := None;
      len := len - 1;
      assert slots[..len] == s[..pos] + s[pos + 1..len + 1];
      assert View() == Drop(before, pos);
    }

    method Clear()
      requires Valid()
      modifies this, slots
      ensures Valid() && View() == []
    {
      for i := 0 to CAPACITY
        invariant forall j :: 0 <= j < i ==> slots[j] == None
      {
        slots[i] := None;
      }
      len := 0;
    }
  }
}
