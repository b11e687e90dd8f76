/** The autorepeat engine: a bounded table of held repeatable keys, each with the moment its next
    repeat is due; the engine as it runs is proved against the table functions. */
module Repeats {
  import opened Options
  import opened Keys
  import opened Slots

  datatype RepeatSettings = RepeatSettings(enabled: bool, delay: Duration, cadence: Duration)

  datatype RepeatState = RepeatState(nextAt: Moment, repeating: bool)

  type Tracks = seq<(PhysicalKey, RepeatState)>

  const ONE_DAY: Duration := 24 * 3600 * 1000 * NANOS_PER_MILLI

  /** When a key pressed now first repeats; far away when repeats are off. */
  function FirstAt(rs: RepeatSettings, now: Moment): Moment {
    After(now, if rs.enabled then rs.delay else ONE_DAY)
  }

  ghost function Track(rs: RepeatSettings, tracks: Tracks, key: PhysicalKey, now: Moment, repeatable: bool): Tracks {
    var rest := Without(tracks, key);
    if repeatable then Append(rest, (key, RepeatState(FirstAt(rs, now), false))) else rest
  }

  /** The tracks after a tick. */
  function Ticked(rs: RepeatSettings, tracks: Tracks, now: Moment): Tracks {
    if tracks == [] then []
    else
      var (k, t) := tracks[0];
      [(k, if rs.enabled && now >= t.nextAt then RepeatState(After(now, rs.cadence), true) else t)]
      + Ticked(rs, tracks[1..], now)
  }

  /** The keys a tick repeats, in table order. */
  function Due(rs: RepeatSettings, tracks: Tracks, now: Moment): seq<PhysicalKey> {
    if tracks == [] then []
    else (if rs.enabled && now >= tracks[0].1.nextAt then [tracks[0].0] else []) + Due(rs, tracks[1..], now)
  }

  lemma {:induction false} DueSnoc(rs: RepeatSettings, tracks: Tracks, t: (PhysicalKey, RepeatState), now: Moment)
    ensures Due(rs, tracks + [t], now)
         == Due(rs, tracks, now) + (if rs.enabled && now >= t.1.nextAt then [t.0] else [])
  {
    if tracks == [] {
      assert tracks + [t] == [t];
    } else {
      DueSnoc(rs, tracks[1..], t, now);
      assert (tracks + [t])[1..] == tracks[1..] + [t];
    }
  }

  lemma {:induction false} TickedAt(rs: RepeatSettings, tracks: Tracks, now: Moment)
    ensures |Ticked(rs, tracks, now)| == |tracks|
    ensures forall i :: 0 <= i < |tracks| ==>
              Ticked(rs, tracks, now)[i]
              == (tracks[i].0, if rs.enabled && now >= tracks[i].1.nextAt
                               then RepeatState(After(now, rs.cadence), true) else tracks[i].1)
  {
    if tracks != [] {
      TickedAt(rs, tracks[1..], now);
      forall i | 0 < i < |tracks| ensures Ticked(rs, tracks, now)[i] == Ticked(rs, tracks[1..], now)[i - 1] {
      }
    }
  }

  lemma {:induction false} NothingDue(rs: RepeatSettings, tracks: Tracks, now: Moment)
    requires !rs.enabled
    ensures Ticked(rs, tracks, now) == tracks && Due(rs, tracks, now) == []
  {
    if tracks != [] {
      NothingDue(rs, tracks[1..], now);
      assert tracks == [(tracks[0].0, tracks[0].1)] + tracks[1..];
    }
  }

  class RepeatEngine {
    const settings: RepeatSettings
    const held: SlotTable<RepeatState>

    ghost function Repr(): set<object> { {this, held, held.slots} }

    ghost predicate Valid()
      reads Repr()
    {
      held.Valid()
    }

    ghost function View(): Tracks
      requires Valid()
      reads Repr()
    {
      held.View()
    }

    constructor (rs: RepeatSettings)
      ensures Valid() && View() == [] && settings == rs && fresh(Repr())
    {
      settings := rs;
      held := new SlotTable();
    }

    method KeyDown(key: PhysicalKey, now: Moment, repeatable: bool)
      requires Valid()
      modifies Repr()
      ensures Valid() && View() == Track(settings, old(View()), key, now, repeatable)
    {
      var replaced := held.Remove(key);
      if !repeatable {
        return;
      }
      var next := if settings.enabled then After(now, settings.delay) else After(now, ONE_DAY);
      held.Push(key, RepeatState(next, false));
    }

    method KeyUp(key: PhysicalKey)
      requires Valid()
      modifies Repr()
      ensures Valid() && View() == Without(old(View()), key)
    {
      var removed := held.Remove(key);
    }

    method Tick(now: Moment) returns (due: seq<PhysicalKey>)
      requires Valid()
      modifies Repr()
      ensures Valid()
      ensures View() == Ticked(settings, old(View()), now) && due == Due(settings, old(View()), now)
    {
      due := [];
      if !settings.enabled {
        NothingDue(settings, View(), now);
        return;
      }
      ghost var tracks := View();
      ghost var n := held.len;
      ghost var s := held.slots[..];
      var slots := held.slots;
      TickedAt(settings, tracks, now);
      var i := 0;
      while i < CAPACITY
        modifies held.slots
        invariant 0 <= i <= CAPACITY && n == held.len
        invariant forall j :: i <= j < CAPACITY ==> slots[j] == s[j]
        invariant forall j :: n <= j < CAPACITY ==> slots[j] == None
        invariant forall j :: 0 <= j < i && j < n ==> slots[j] == Some(Ticked(settings, tracks, now)[j])
        invariant due == Due(settings, tracks[..if i < n then i else n], now)
      {
        if slots[i].Some? {
          assert slots[i].value == tracks[i];
          DueSnoc(settings, tracks[..i], tracks[i], now);
          assert tracks[..i + 1] == tracks[..i] + [tracks[i]];
          var (key, state) := slots[i].value;
          if now >= state.nextAt {
            due := due + [key];
            slots[i] := Some((key, RepeatState(After(now, settings.cadence), true)));
          }
        }
        i := i + 1;
      }
      assert tracks[..n] == tracks;
      assert View() == Ticked(settings, tracks, now);
    }

    method ReleaseAll()
      requires Valid()
      modifies Repr()
      ensures Valid() && View() == []
    {
      held.Clear();
    }

    /** Whether `key` is tracked and past its first repeat. */
    method IsRepeating(key: PhysicalKey) returns (r: bool)
      requires Valid()
      ensures r <==> exists i :: 0 <= i < |View()| && View()[i].0 == key && View()[i].1.repeating
    {
      var i := 0;
      while i < CAPACITY
        invariant 0 <= i <= CAPACITY
        invariant forall j :: 0 <= j < i && j < |View()| ==> !(View()[j].0 == key && View()[j].1.repeating)
      {
        if held.slots[i].Some? {
          assert View()[i] == held.slots[i].value;
          if held.slots[i].value.0 == key && held.slots[i].value.1.repeating {
            return true;
          }
        }
        i := i + 1;
      }
      r := false;
    }
  }
}
