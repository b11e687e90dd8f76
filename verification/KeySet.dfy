/** The fixed 32-slot sorted array of held keys, proved to be a sorted mathematical set. */
module SortedKeys {
  import opened Options
  import opened Keys
  import opened Slots

  ghost predicate Sorted(s: seq<PhysicalKey>) {
    forall i, j :: 0 <= i < j < |s| ==> s[i] < s[j]
  }

  ghost function Elements(s: seq<PhysicalKey>): set<PhysicalKey> {
    set k | k in s
  }

  lemma ElementsAppend(s: seq<PhysicalKey>, x: PhysicalKey)
    ensures Elements(s + [x]) == Elements(s) + {x}
  {
  }

  lemma ElementsSplice(s: seq<PhysicalKey>, t: seq<PhysicalKey>, x: PhysicalKey)
    ensures Elements(s + [x] + t) == Elements(s + t) + {x}
  {
  }

  ghost function Largest(s: set<PhysicalKey>): (m: PhysicalKey)
    requires s != {}
    ensures m in s && forall k :: k in s ==> k <= m
  {
    var x :| x in s;
    if s == {x} then x
    else
      var y := Largest(s - {x});
      assert forall k :: k in s ==> k == x || k in s - {x};
      if x < y then y else x
  }

  lemma SortedAppend(s: seq<PhysicalKey>, m: PhysicalKey)
    requires Sorted(s) && forall k :: k in Elements(s) ==> k < m
    ensures Sorted(s + [m])
  {
    forall i, j | 0 <= i < j < |s| + 1 ensures (s + [m])[i] < (s + [m])[j] {
      assert s[i] in Elements(s);
    }
  }

  /** The keys of a set in ascending order. */
  ghost function Ascending(s: set<PhysicalKey>): (r: seq<PhysicalKey>)
    ensures Sorted(r) && Elements(r) == s && |r| == |s|
  {
    if s == {} then EmptyListing(); [] else
    var m := Largest(s);
    var r := Ascending(s - {m});
    AscendingStep(r, s, m);
    r + [m]
  }

  lemma EmptyListing()
    ensures Elements([]) == {}
  {
  }

  lemma AscendingStep(r: seq<PhysicalKey>, s: set<PhysicalKey>, m: PhysicalKey)
    requires Sorted(r) && m in s && Elements(r) == s - {m} && forall k :: k in s ==> k <= m
    ensures Sorted(r + [m]) && Elements(r + [m]) == s
  {
    SortedAppend(r, m);
    ElementsAppend(r, m);
  }

  lemma SortedFront(s: seq<PhysicalKey>)
    requires Sorted(s) && s != []
    ensures Sorted(s[..|s| - 1])
    ensures Elements(s[..|s| - 1]) == Elements(s) - {s[|s| - 1]}
    ensures forall k :: k in Elements(s) ==> k <= s[|s| - 1]
  {
    var x := s[|s| - 1];
    assert s == s[..|s| - 1] + [x];
    ElementsAppend(s[..|s| - 1], x);
    assert x !in Elements(s[..|s| - 1]);
  }

  /** A sorted listing is determined by its elements. */
  lemma {:induction false} SortedListingIsUnique(a: seq<PhysicalKey>, b: seq<PhysicalKey>)
    requires Sorted(a) && Sorted(b) && Elements(a) == Elements(b)
    ensures a == b
  {
    if a == [] {
      assert forall i :: 0 <= i < |b| ==> b[i] in Elements(b);
    } else {
      assert a[0] in Elements(b);
      var x, y := a[|a| - 1], b[|b| - 1];
      assert x in Elements(b) && y in Elements(a);
      SortedFront(a);
      SortedFront(b);
      SortedListingIsUnique(a[..|a| - 1], b[..|b| - 1]);
      assert a == a[..|a| - 1] + [x] && b == b[..|b| - 1] + [y];
    }
  }

  /** A sorted listing has as many entries as its set has elements. */
  lemma ListingSize(s: seq<PhysicalKey>)
    requires Sorted(s)
    ensures |Elements(s)| == |s|
  {
    SortedListingIsUnique(s, Ascending(Elements(s)));
  }

  lemma SortedSplice(s: seq<PhysicalKey>, pos: nat, x: PhysicalKey)
    requires Sorted(s) && pos <= |s|
    requires forall j :: 0 <= j < pos ==> s[j] < x
    requires forall j :: pos <= j < |s| ==> s[j] > x
    ensures Sorted(s[..pos] + [x] + s[pos..])
  {
    var t := s[..pos] + [x] + s[pos..];
    forall i, j | 0 <= i < j < |t| ensures t[i] < t[j] {
      assert t[i] == if i < pos then s[i] else if i == pos then x else s[i - 1];
      assert t[j] == if j < pos then s[j] else if j == pos then x else s[j - 1];
    }
  }

  lemma SortedDrop(s: seq<PhysicalKey>, pos: nat)
    requires Sorted(s) && pos < |s|
    ensures Sorted(Drop(s, pos))
    ensures Elements(Drop(s, pos)) == Elements(s) - {s[pos]}
  {
    ElementsSplice(s[..pos], s[pos + 1..], s[pos]);
    assert s == s[..pos] + [s[pos]] + s[pos + 1..];
  }

  /** Opening a slot in a sorted run of filled slots adds one element. */
  lemma ListingSplice(s: seq<Option<PhysicalKey>>, before: seq<PhysicalKey>, pos: nat, x: PhysicalKey)
    requires (forall i :: 0 <= i < |s| ==> s[i].Some?) && before == Values(s)
    requires Sorted(before) && pos <= |s|
    requires forall j :: 0 <= j < pos ==> before[j] < x
    requires forall j :: pos <= j < |s| ==> before[j] > x
    ensures var t := s[..pos] + [Some(x)] + s[pos..];
            && (forall i :: 0 <= i < |t| ==> t[i].Some?)
            && Sorted(Values(t)) && Elements(Values(t)) == Elements(before) + {x}
  {
    SortedSplice(before, pos, x);
    ElementsSplice(before[..pos], before[pos..], x);
    assert before == before[..pos] + before[pos..];
    assert Values(s[..pos] + [Some(x)] + s[pos..]) == before[..pos] + [x] + before[pos..];
  }

  class KeySet {
    const slots: array<Option<PhysicalKey>>
    var len: nat

    ghost predicate Valid()
      reads this, slots
    {
      && slots.Length == CAPACITY && len <= CAPACITY
      && (forall i :: 0 <= i < len ==> slots[i].Some?)
      && (forall i :: len <= i < CAPACITY ==> slots[i] == None)
      && Sorted(Values(slots[..len]))
    }

    ghost function Listing(): (r: seq<PhysicalKey>)
      requires Valid()
      reads this, slots
      ensures |r| == len && Sorted(r)
    {
      Values(slots[..len])
    }

    /** The set this array stands for. */
    ghost function View(): (r: set<PhysicalKey>)
      requires Valid()
      reads this, slots
    {
      Elements(Listing())
    }

    constructor ()
      ensures Valid() && View() == {} && fresh(slots)
    {
      slots := new Option<PhysicalKey>[CAPACITY](_ => None);
      len := 0;
    }

    method Contains(key: PhysicalKey) returns (found: bool)
      requires Valid()
      ensures found <==> key in View()
    {
      found := false;
      var i := 0;
      while i < CAPACITY
        invariant 0 <= i <= CAPACITY
        invariant found <==> exists j :: 0 <= j < i && slots[j] == Some(key)
      {
        if slots[i] == Some(key) {
          found := true;
        }
        i := i + 1;
      }
      assert forall j :: 0 <= j < len ==> Listing()[j] == slots[j].value;
    }

    /** The number of held keys is the number of elements. */
    lemma Size()
      requires Valid()
      ensures len == |View()| && Listing() == Ascending(View())
    {
      ListingSize(Listing());
      SortedListingIsUnique(Listing(), Ascending(View()));
    }

    /** Iterate over the keys in order. */
    method Iter() returns (it: KeyIter)
      requires Valid()
      ensures it.Valid() && fresh(it) && it.Rest() == Ascending(View())
    {
      hide Filled, Ascending, Sorted, Values, Elements;
      it := new KeyIter(this);
      KeyIter.StartsFull(this);
    }

    /** Occurrences of `key`: one or zero, as membership says. */
    method CountOf(key: PhysicalKey) returns (n: nat)
      requires Valid()
      ensures n == if key in View() then 1 else 0
    {
      n := 0;
      var i := 0;
      while i < CAPACITY
        invariant 0 <= i <= CAPACITY
        invariant n == if exists j :: 0 <= j < i && slots[j] == Some(key) then 1 else 0
      {
        if slots[i] == Some(key) {
          assert forall j :: 0 <= j < i && i < len ==> Listing()[j] < Listing()[i];
          n := n + 1;
        }
        i := i + 1;
      }
      assert forall j :: 0 <= j < len ==> Listing()[j] == slots[j].value;
    }

    /** The first slot holding a greater key, or the end. */
    method SortedPosition(key: PhysicalKey) returns (pos: nat)
      requires Valid() && key !in View()
      ensures pos <= len
      ensures forall j :: 0 <= j < pos ==> Listing()[j] < key
      ensures forall j :: pos <= j < len ==> Listing()[j] > key
    {
      pos := len;
      var i := 0;
      while i < CAPACITY
        invariant 0 <= i <= CAPACITY && pos == len
        invariant forall j :: 0 <= j < i && j < len ==> Listing()[j] < key
      {
        if slots[i].Some? && slots[i].value > key {
          pos := i;
          break;
        }
        assert i < len ==> Listing()[i] in View();
        i := i + 1;
      }
    }

    /** Insert keeping the order; a duplicate changes nothing and a full array drops the key. */
    method Insert(key: PhysicalKey)
      requires Valid()
      modifies this, slots
      ensures Valid()
      ensures View() == if |old(View())| < CAPACITY then old(View()) + {key} else old(View())
    {
      hide Sorted, Values, Elements, Ascending, View, Listing;
      Size();
      var present := Contains(key);
      if len >= CAPACITY || present {
        assert present ==> View() == View() + {key};
        return;
      }
      var pos := SortedPosition(key);
      InsertAt(pos, key);
    }

    method InsertAt(pos: nat, key: PhysicalKey)
      requires Valid() && pos <= len < CAPACITY
      requires forall j :: 0 <= j < pos ==> Listing()[j] < key
      requires forall j :: pos <= j < len ==> Listing()[j] > key
      modifies this, slots
      ensures Valid() && View() == old(View()) + {key}
    {
      ghost var filled := slots[..len];
      ListingSplice(filled, Listing(), pos, key);
      OpenSlot(pos, key);
      assert slots[..len] == filled[..pos] + [Some(key)] + filled[pos..];
    }

    /** Shift the tail right and fill the gap. */
    method OpenSlot(pos: nat, key: PhysicalKey)
      requires Valid() && pos <= len < CAPACITY
      modifies this, slots
      ensures len == old(len) + 1
      ensures slots[..len] == old(slots[..pos]) + [Some(key)] + old(slots[pos..len])
      ensures forall i :: len <= i < CAPACITY ==> slots[i] == None
    {
      ghost var s := slots[..];
      ShiftRight(slots, pos, len);
      slots[pos] := Some(key);
      len := len + 1;
      assert slots[..len] == s[..pos] + [Some(key)] + s[pos..len - 1];
    }

    /** Remove `key`; says whether it was present. */
    method Remove(key: PhysicalKey) returns (was: bool)
      requires Valid()
      modifies this, slots
      ensures Valid()
      ensures View() == old(View()) - {key}
      ensures was <==> key in old(View())
    {
      ghost var before := Listing();
      var found: Option<nat> := None;
      var i := 0;
      while i < CAPACITY
        invariant 0 <= i <= CAPACITY && found == None
        invariant forall j :: 0 <= j < i && j < len ==> before[j] != key
      {
        if slots[i] == Some(key) {
          found := Some(i);
          break;
        }
        i := i + 1;
      }
      if found == None {
        return false;
      }
      RemoveAt(found.value);
      was := true;
    }

    method RemoveAt(pos: nat)
      requires Valid() && pos < len
      modifies this, slots
      ensures Valid()
      ensures View() == old(View()) - {old(Listing()[pos])}
    {
      ghost var before := Listing();
      ghost var s := slots[..];
      SortedDrop(before, pos);
      ShiftLeft(slots, pos, len);
      slots[len - 1] := None;
      len := len - 1;
      assert slots[..len] == s[..pos] + s[pos + 1..len + 1];
      assert Values(slots[..len]) == Drop(before, pos);
    }

    method Clear()
      requires Valid()
      modifies this, slots
      ensures Valid() && View() == {}
    {
      for i := 0 to CAPACITY
        invariant forall j :: 0 <= j < i ==> slots[j] == None
      {
        slots[i] := None;
      }
      len := 0;
    }

    /** Copy the keys, ascending, to the front of `buf`. */
    method CopyInto(buf: array<PhysicalKey>) returns (n: nat)
      requires Valid() && buf.Length == CAPACITY
      modifies buf
      ensures n == len && buf[..n] == Ascending(View())
    {
      n := 0;
      var i := 0;
      while i < CAPACITY
        invariant 0 <= i <= CAPACITY
        invariant n == if i <= len then i else len
        invariant forall j :: 0 <= j < n ==> buf[j] == slots[j].value
      {
        if slots[i].Some? {
          buf[n] := slots[i].value;
          n := n + 1;
        }
        i := i + 1;
      }
      assert buf[..n] == Listing();
      Size();
    }

    /** Sorted order makes duplicates impossible, so the neighbour scan never finds one. */
    method HasDuplicates() returns (dup: bool)
      requires Valid()
      ensures dup <==> exists i, j :: 0 <= i < j < len && slots[i] == slots[j]
      ensures !dup
    {
      dup := false;
      var i := 0;
      while i + 1 < CAPACITY
        invariant 0 <= i < CAPACITY
        invariant dup <==> exists j :: 0 <= j < i && slots[j].Some? && slots[j] == slots[j + 1]
      {
        if slots[i].Some? && slots[i] == slots[i + 1] {
          dup := true;
        }
        i := i + 1;
      }
      assert forall j :: 0 <= j < len ==> Listing()[j] == slots[j].value;
    }
  }

  /** The values of the filled slots, in slot order. */
  ghost function Filled(s: seq<Option<PhysicalKey>>): seq<PhysicalKey> {
    if s == [] then []
    else if s[0].Some? then [s[0].value] + Filled(s[1..])
    else Filled(s[1..])
  }

  lemma {:induction false} FilledValues(s: seq<Option<PhysicalKey>>)
    requires forall i :: 0 <= i < |s| ==> s[i].Some?
    ensures Filled(s) == Values(s)
  {
    if s != [] {
      FilledValues(s[1..]);
      assert Values(s) == [s[0].value] + Values(s[1..]);
    }
  }

  lemma {:induction false} FilledLast(s: seq<Option<PhysicalKey>>)
    requires s != []
    ensures Filled(s) == Filled(s[..|s| - 1]) + Filled(s[|s| - 1..])
  {
    if |s| > 1 {
      FilledLast(s[1..]);
      assert s[..|s| - 1][1..] == s[1..][..|s| - 2];
      assert s[|s| - 1..] == s[1..][|s| - 2..];
    } else {
      assert s[|s| - 1..] == s;
    }
  }

  /** Iteration over a slot array from both ends; the keys not yet produced are `Rest()`. */
  class KeyIter {
    const slots: array<Option<PhysicalKey>>
    var front: nat
    var back: nat

    ghost predicate Valid()
      reads this
    {
      slots.Length == CAPACITY && front <= back <= CAPACITY
    }

    ghost function Rest(): (r: seq<PhysicalKey>)
      requires Valid()
      reads this, slots
    {
      Filled(slots[front..back])
    }

    constructor (keys: KeySet)
      requires keys.Valid()
      ensures Valid() && slots == keys.slots && front == 0 && back == keys.len
    {
      slots := keys.slots;
      front := 0;
      back := keys.len;
    }

    /** All keys are still to come, in order, when the iteration starts. */
    static lemma StartsFull(keys: KeySet)
      requires keys.Valid()
      ensures Filled(keys.slots[0..keys.len]) == Ascending(keys.View())
    {
      keys.Size();
      FilledValues(keys.slots[0..keys.len]);
      assert keys.slots[0..keys.len] == keys.slots[..keys.len];
      hide Filled, Ascending;
    }

    method Next() returns (k: Option<PhysicalKey>)
      requires Valid()
      modifies this
      ensures Valid()
      ensures old(Rest()) == [] ==> k == None && Rest() == []
      ensures old(Rest()) != [] ==> k == Some(old(Rest())[0]) && Rest() == old(Rest())[1..]
    {
      while front < CAPACITY
        invariant Valid() && Rest() == old(Rest())
        decreases CAPACITY - front
      {
        if front >= back {
          return None;
        }
        assert slots[front..back][1..] == slots[front + 1..back];
        var slot := slots[front];
        front := front + 1;
        if slot.Some? {
          return slot;
        }
      }
      k := None;
    }

    method NextBack() returns (k: Option<PhysicalKey>)
      requires Valid()
      modifies this
      ensures Valid()
      ensures old(Rest()) == [] ==> k == None && Rest() == []
      ensures old(Rest()) != [] ==>
                k == Some(old(Rest())[|old(Rest())| - 1]) && Rest() == old(Rest())[..|old(Rest())| - 1]
    {
      while back > 0
        invariant Valid() && Rest() == old(Rest())
        decreases back
      {
        if back <= front {
          return None;
        }
        FilledLast(slots[front..back]);
        assert slots[front..back][..back - front - 1] == slots[front..back - 1];
        assert slots[front..back][back - front - 1..] == [slots[back - 1]];
        back := back - 1;
        var slot := slots[back];
        if slot.Some? {
          return slot;
        }
      }
      k := None;
    }
  }
}
