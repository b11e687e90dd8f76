/** What a sink sees: a stream of events is balanced when no held key is pressed again and no
    free key is released or repeated. */
module Sinks {
  import opened Keys

  datatype Sink = Broken | Holding(keys: set<PhysicalKey>)

  ghost function Feed(s: Sink, e: KeyEvent): Sink {
    match s
    case Broken => Broken
    case Holding(keys) =>
      match e
      case Down(k) => if k in keys then Broken else Holding(keys + {k})
      case Repeat(k) => if k in keys then s else Broken
      case Up(k) => if k in keys then Holding(keys - {k}) else Broken
  }

  ghost function Replay(s: Sink, events: seq<KeyEvent>): Sink
    decreases |events|
  {
    if events == [] then s else Replay(Feed(s, events[0]), events[1..])
  }

  lemma {:induction false} ReplayConcat(s: Sink, a: seq<KeyEvent>, b: seq<KeyEvent>)
    ensures Replay(s, a + b) == Replay(Replay(s, a), b)
    decreases |a|
  {
    if a == [] {
      assert a + b == b;
    } else {
      ReplayConcat(Feed(s, a[0]), a[1..], b);
      assert (a + b)[1..] == a[1..] + b;
    }
  }

  lemma ReplayFirst(s: Sink, e: KeyEvent, rest: seq<KeyEvent>)
    ensures Replay(s, [e] + rest) == Replay(Feed(s, e), rest)
  {
    assert ([e] + rest)[1..] == rest;
  }
}
