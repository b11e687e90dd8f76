/** Typing as the program runs it: the loops that drive the keyboard engine character by character,
    proved to do what `Typing.TypeText` says. */
module TextMode {
  import opened Options
  import opened Keys
  import opened Slots
  import opened Keyboard
  import opened Layouts
  import opened Drivers
  import opened KeyboardDrivers
  import opened Typing
  import Spec = Typing

  /** The actions of a chord laid out flat, as the loops perform them. */
  function Engages(kinds: seq<ModifierKind>): seq<Step> {
    seq(|kinds|, i requires 0 <= i < |kinds| => (DownAction, Preferred(kinds[i])))
  }

  function Disengages(kinds: seq<ModifierKind>): seq<Step> {
    seq(|kinds|, i requires 0 <= i < |kinds| => (UpAction, Preferred(kinds[|kinds| - 1 - i])))
  }

  lemma {:induction false} FlatChord(kinds: seq<ModifierKind>, key: PhysicalKey)
    ensures Chord(kinds, key) == Engages(kinds) + [(TapAction, key)] + Disengages(kinds)
  {
    if kinds != [] {
      FlatChord(kinds[1..], key);
      var p := Preferred(kinds[0]);
      assert Engages(kinds) == [(DownAction, p)] + Engages(kinds[1..]);
      assert Disengages(kinds) == Disengages(kinds[1..]) + [(UpAction, p)];
    }
  }

  /** After `steps` without a refusal, `es` has gone to the active destination. */
  ghost predicate Progress(r0: Routed, r: Routed, steps: seq<Step>, now: Moment, es: seq<KeyEvent>) {
    RunActions(r0.driver, steps, now) == Typed(r.driver, es, None) && r == Deliver(r0.(driver := r.driver), es)
  }

  /** The whole of `t` has happened to `r0`. */
  ghost predicate Happened(r0: Routed, r: Routed, t: Typed) {
    r == Deliver(r0.(driver := t.next), t.events)
  }

  lemma ProgressStep(r0: Routed, r: Routed, steps: seq<Step>, now: Moment, es: seq<KeyEvent>, step: Step, r': Routed)
    requires Progress(r0, r, steps, now, es)
    requires var o := Handle(r.driver, step.0, step.1, now); r' == Deliver(r.(driver := o.next), Emitted(o))
    ensures var o := Handle(r.driver, step.0, step.1, now);
            && (o.Sent? ==> Progress(r0, r', steps + [step], now, es + o.events))
            && (o.Refused? ==>
                  && RunActions(r0.driver, steps + [step], now) == Typed(r'.driver, es, Some(Backend(o.limit)))
                  && r' == Deliver(r0.(driver := r'.driver), es))
  {
    hide Handle;
    RunOne(r.driver, step, now);
    RunActionsConcat(r0.driver, steps, [step], now);
    var o := Handle(r.driver, step.0, step.1, now);
    DeliverTwice(r0.(driver := o.next), es, Emitted(o));
    assert es + [] == es;
  }

  lemma RefusalEnds(d: Driver, a: seq<Step>, b: seq<Step>, now: Moment)
    requires RunActions(d, a, now).error.Some?
    ensures RunActions(d, a + b, now) == RunActions(d, a, now)
  {
    RunActionsConcat(d, a, b, now);
  }

  /** Perform one step of a chord. */
  method Perform(driver: KeyboardDriver, ghost r0: Routed, ghost steps: seq<Step>, step: Step, now: Moment,
                 ghost es: seq<KeyEvent>)
    returns (error: Option<TextError>, ghost more: seq<KeyEvent>)
    requires driver.Valid() && Progress(r0, driver.View(), steps, now, es)
    modifies driver.Repr()
    ensures driver.Valid()
    ensures error == None ==> Progress(r0, driver.View(), steps + [step], now, more)
    ensures error.Some? ==> var t := RunActions(r0.driver, steps + [step], now);
                            t.error == error && Happened(r0, driver.View(), t)
  {
    hide Handle, Progress, Deliver;
    ghost var r := driver.View();
    var limit := driver.HandleAction(step.0, step.1, now);
    ProgressStep(r0, r, steps, now, es, step, driver.View());
    more := es + Emitted(Handle(r.driver, step.0, step.1, now));
    error := if limit.Some? then Some(Backend(limit.value)) else None;
  }

  /** Perform the steps in order, stopping at the first refusal. */
  method PerformAll(driver: KeyboardDriver, ghost r0: Routed, ghost done: seq<Step>, steps: seq<Step>, now: Moment,
                    ghost es: seq<KeyEvent>)
    returns (error: Option<TextError>, ghost more: seq<KeyEvent>)
    requires driver.Valid() && Progress(r0, driver.View(), done, now, es)
    modifies driver.Repr()
    ensures driver.Valid()
    ensures error == None ==> Progress(r0, driver.View(), done + steps, now, more)
    ensures error.Some? ==> var t := RunActions(r0.driver, done + steps, now);
                            t.error == error && Happened(r0, driver.View(), t)
  {
    hide Progress, RunActions, Happened;
    more := es;
    assert done + steps[..0] == done;
    for i := 0 to |steps|
      invariant driver.Valid() && Progress(r0, driver.View(), done + steps[..i], now, more)
    {
      assert done + steps[..i + 1] == done + steps[..i] + [steps[i]];
      error, more := Perform(driver, r0, done + steps[..i], steps[i], now, more);
      if error.Some? {
        RefusalEnds(r0.driver, done + steps[..i + 1], steps[i + 1..], now);
        assert done + steps[..i + 1] + steps[i + 1..] == done + steps;
        return;
      }
    }
    error := None;
    assert done + steps[..|steps|] == done + steps;
  }

  /** One character: modifiers down, tap, modifiers up in reverse order. */
  method TypeOne(driver: KeyboardDriver, key: PhysicalKey, extra: set<ModifierKind>, now: Moment)
    returns (error: Option<TextError>)
    requires driver.Valid()
    modifies driver.Repr()
    ensures driver.Valid()
    ensures var t := RunActions(old(driver.Engine()), Chord(InOrder(KINDS, extra), key), now);
            error == t.error && Happened(old(driver.View()), driver.View(), t)
  {
    hide Progress, RunActions, Happened, Chord, InOrder, Engages, Disengages;
    var kinds := InOrder(KINDS, extra);
    ghost var r0 := driver.View();
    ghost var es: seq<KeyEvent> := [];
    var downs, ups := Engages(kinds), Disengages(kinds);
    FlatChord(kinds, key);
    ProgressStart(r0, now);
    assert [] + downs == downs;
    error, es := PerformAll(driver, r0, [], downs, now, es);
    if error.Some? {
      RefusalEnds(r0.driver, downs, [(TapAction, key)] + ups, now);
      assert downs + ([(TapAction, key)] + ups) == downs + [(TapAction, key)] + ups;
      return;
    }
    error, es := Perform(driver, r0, downs, (TapAction, key), now, es);
    if error.Some? {
      RefusalEnds(r0.driver, downs + [(TapAction, key)], ups, now);
      return;
    }
    error, es := PerformAll(driver, r0, downs + [(TapAction, key)], ups, now, es);
    if error == None {
      Finished(r0, driver.View(), downs + [(TapAction, key)] + ups, now, es);
    }
  }

  lemma ProgressStart(r0: Routed, now: Moment)
    ensures Progress(r0, r0, [], now, [])
  {
    DeliverNothing(r0);
  }

  lemma Finished(r0: Routed, r: Routed, all: seq<Step>, now: Moment, es: seq<KeyEvent>)
    requires Progress(r0, r, all, now, es)
    ensures var t := RunActions(r0.driver, all, now); t.error == None && Happened(r0, r, t)
  {
  }

  /** Type `text` through the engine, one resolved chord per character. */
  method TypeText(driver: KeyboardDriver, text: string, resolve: Resolver, now: Moment) returns (error: Option<TextError>)
    requires driver.Valid()
    modifies driver.Repr()
    ensures driver.Valid()
    ensures var t := Spec.TypeText(old(driver.Engine()), text, resolve, now);
            error == t.error && Happened(old(driver.View()), driver.View(), t)
  {
    hide RunActions, Happened;
    ghost var r0 := driver.View();
    ghost var d0 := driver.Engine();
    ghost var done := Typed(d0, [], None);
    HappenedStart(r0);
    assert text[0..] == text;
    ghost var goal := Spec.TypeText(d0, text, resolve, now);
    After(done, goal);
    for i := 0 to |text|
      invariant driver.Valid() && done.error == None && done.next == driver.Engine()
      invariant Happened(r0, driver.View(), done)
      invariant goal == Then(done, Spec.TypeText(done.next, text[i..], resolve, now))
    {
      ghost var r := driver.View();
      ghost var t := TypeChar(done.next, text[i], resolve, now);
      TextUnfolds(done, text[i..], resolve, now);
      assert text[i..][1..] == text[i + 1..];
      var found := resolve(text[i]);
      if found == None {
        HappenedNothing(r0, r, done, t);
        return Some(Unmappable(text[i]));
      }
      error := TypeOne(driver, found.value.0, found.value.1, now);
      HappenedThen(r0, r, driver.View(), done, t);
      if error.Some? {
        return;
      }
      done := Then(done, t);
    }
    error := None;
    assert text[|text|..] == [];
    AfterNothing(done);
  }

  /** One stretch of typing followed by another. */
  ghost function Then(a: Typed, b: Typed): Typed {
    b.(events := a.events + b.events)
  }

  lemma After(done: Typed, t: Typed)
    requires done.events == []
    ensures Then(done, t) == t
  {
    assert [] + t.events == t.events;
  }

  lemma AfterNothing(done: Typed)
    requires done.error == None
    ensures Then(done, Typed(done.next, [], None)) == done
  {
    assert done.events + [] == done.events;
  }

  lemma TextUnfolds(done: Typed, text: string, resolve: Resolver, now: Moment)
    requires text != []
    ensures var t := TypeChar(done.next, text[0], resolve, now);
            Then(done, Spec.TypeText(done.next, text, resolve, now))
            == if t.error.Some? then Then(done, t)
               else Then(Then(done, t), Spec.TypeText(t.next, text[1..], resolve, now))
  {
    hide Spec.TypeChar;
    var t := TypeChar(done.next, text[0], resolve, now);
    if t.error == None {
      var rest := Spec.TypeText(t.next, text[1..], resolve, now);
      assert done.events + (t.events + rest.events) == done.events + t.events + rest.events;
    }
  }

  lemma HappenedStart(r0: Routed)
    ensures Happened(r0, r0, Typed(r0.driver, [], None))
  {
    DeliverNothing(r0);
  }

  lemma HappenedThen(r0: Routed, r: Routed, r': Routed, a: Typed, b: Typed)
    requires Happened(r0, r, a) && Happened(r, r', b)
    ensures Happened(r0, r', Then(a, b)) && r'.driver == b.next
  {
    DeliverTwice(r0.(driver := b.next), a.events, b.events);
  }

  lemma HappenedNothing(r0: Routed, r: Routed, a: Typed, b: Typed)
    requires Happened(r0, r, a) && b.next == a.next && b.events == []
    ensures Happened(r0, r, Then(a, b))
  {
    assert a.events + [] == a.events;
  }
}
