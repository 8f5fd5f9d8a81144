/**
 * The hotkey handlers as objects whose fields every key event updates:
 * KeyCombinationHandler (the pressed-key set), KeyOrCombinationHandler (an
 * alternation over combination handlers), KeySequenceHandler (the step index
 * and the time of the last completed step) and the subscription that counts
 * the matches a handler reports while it is subscribed.
 *
 * Each Feed is proved to move the object's abstract state (its Model) exactly
 * as the corresponding function of KeyMatching does.
 */
module KeyHandlers {
  import opened Wrappers
  import opened KeyMatching

  /** Matches one key combination: fires when the last of its keys goes down. */
  class KeyCombinationHandler {
    const keys: set<VirtualKeyCode>
    var pressed: set<VirtualKeyCode>

    function Model(): Chord
      reads this
    {
      Chord(keys, pressed)
    }

    ghost predicate Valid()
      reads this
    {
      Model().Valid()
    }

    constructor (keys: set<VirtualKeyCode>)
      ensures Valid() && Model() == Chord(keys, {})
    {
      this.keys := keys;
      pressed := {};
    }

    method Feed(e: KeyEvent) returns (matched: bool)
      requires Valid()
      modifies this
      ensures Valid()
      ensures Fed(Model(), matched) == ChordFeed(old(Model()), e)
    {
      matched := false;
      if e.key in keys {
        if e.isKeyDown {
          matched := e.key !in pressed && pressed + {e.key} == keys;
          pressed := pressed + {e.key};
        } else {
          pressed := pressed - {e.key};
        }
      }
    }

    /** Forgets every key seen down. */
    method Reset()
      modifies this
      ensures Valid() && Model() == old(Model()).Reset()
    {
      pressed := {};
    }
  }

  /** Matches when any of its branches matches; every branch sees every event. */
  class KeyOrCombinationHandler {
    const branches: seq<KeyCombinationHandler>

    /** The objects whose fields this handler's events change: its branches. */
    ghost function Repr(): set<object>
    {
      set b | b in branches
    }

    function Model(): seq<Chord>
      reads branches
    {
      seq(|branches|, i requires 0 <= i < |branches| reads branches => branches[i].Model())
    }

    ghost predicate Valid()
      reads branches
    {
      && (forall i, j :: 0 <= i < j < |branches| ==> branches[i] != branches[j])
      && (forall i :: 0 <= i < |branches| ==> branches[i].Valid())
    }

    constructor (branches: seq<KeyCombinationHandler>)
      requires forall i, j :: 0 <= i < j < |branches| ==> branches[i] != branches[j]
      requires forall i :: 0 <= i < |branches| ==> branches[i].Valid()
      ensures this.branches == branches && Valid()
    {
      this.branches := branches;
    }

    method Feed(e: KeyEvent) returns (winner: Option<nat>)
      requires Valid()
      modifies branches
      ensures Valid()
      ensures Model() == AnyOfNext(old(Model()), e)
      ensures winner == FirstMatch(old(Model()), e)
    {
      ghost var before := Model();
      winner := None;
      var i := 0;
      while i < |branches|
        invariant 0 <= i <= |branches|
        invariant Valid()
        invariant forall j :: 0 <= j < i ==> branches[j].Model() == ChordFeed(before[j], e).next
        invariant forall j :: i <= j < |branches| ==> branches[j].Model() == before[j]
        invariant winner.None? <==> forall j :: 0 <= j < i ==> !ChordFeed(before[j], e).matched
        invariant winner.Some? ==> winner.value < i && ChordFeed(before[winner.value], e).matched
        invariant winner.Some? ==> forall j :: 0 <= j < winner.value ==> !ChordFeed(before[j], e).matched
      {
        var m := branches[i].Feed(e);
        if m && winner.None? {
          winner := Some(i);
        }
        i := i + 1;
      }
      FirstMatchUnique(before, e, winner);
    }

    /** Forgets every key seen down by every branch. */
    method Reset()
      requires Valid()
      modifies branches
      ensures Valid() && Model() == ResetAll(old(Model()))
    {
      var i := 0;
      while i < |branches|
        invariant 0 <= i <= |branches|
        invariant Valid()
        invariant forall j :: 0 <= j < i ==> branches[j].Model() == old(branches[j].Model()).Reset()
        invariant forall j :: i <= j < |branches| ==> branches[j].Model() == old(branches[j].Model())
      {
        branches[i].Reset();
        i := i + 1;
      }
    }
  }

  /** A step of a sequence handler: one combination handler or one alternation. */
  datatype Step = Single(combination: KeyCombinationHandler) | Either(alternation: KeyOrCombinationHandler)

  ghost function StepRepr(s: Step): set<object>
  {
    match s
    case Single(h) => {h}
    case Either(o) => o.Repr()
  }

  ghost predicate StepValid(s: Step)
    reads StepRepr(s)
  {
    match s
    case Single(h) => h.Valid()
    case Either(o) => o.Valid()
  }

  function StepModel(s: Step): StepState
    reads StepRepr(s)
  {
    match s
    case Single(h) => One(h.Model())
    case Either(o) => AnyOf(o.Model())
  }

  method FeedStep(s: Step, e: KeyEvent) returns (matched: bool)
    requires StepValid(s)
    modifies StepRepr(s)
    ensures StepValid(s)
    ensures Fed(StepModel(s), matched) == StepFeed(old(StepModel(s)), e)
  {
    match s
    case Single(h) =>
      matched := h.Feed(e);
    case Either(o) =>
      var winner := o.Feed(e);
      matched := winner.Some?;
  }

  method ResetStep(s: Step)
    requires StepValid(s)
    modifies StepRepr(s)
    ensures StepValid(s)
    ensures StepModel(s) == old(StepModel(s)).Reset()
  {
    match s
    case Single(h) =>
      h.Reset();
    case Either(o) =>
      o.Reset();
  }

  /**
   * Matches an ordered list of steps, each to be completed within the timeout
   * of the previous one (0 for no timeout). Only the step being waited for
   * sees an event.
   */
  class KeySequenceHandler {
    const steps: seq<Step>
    const timeoutMs: nat
    const resetOnStrayKey: bool
    var index: nat
    var lastStepAt: nat
    ghost const Repr: set<object>

    ghost predicate Valid()
      reads this, Repr
    {
      && this in Repr
      && (forall i :: 0 <= i < |steps| ==> StepRepr(steps[i]) <= Repr && this !in StepRepr(steps[i]))
      && (forall i, j :: 0 <= i < j < |steps| ==> StepRepr(steps[i]) !! StepRepr(steps[j]))
      && (forall i :: 0 <= i < |steps| ==> StepValid(steps[i]))
      && (index < |steps| || (index == 0 && steps == []))
    }

    ghost function Model(): SequenceState
      reads this, Repr
      requires Valid()
    {
      SequenceState(
        seq(|steps|, i requires 0 <= i < |steps| reads Repr => StepModel(steps[i])),
        timeoutMs, resetOnStrayKey, index, lastStepAt)
    }

    constructor (steps: seq<Step>, timeoutMs: nat, resetOnStrayKey: bool)
      requires forall i, j :: 0 <= i < j < |steps| ==> StepRepr(steps[i]) !! StepRepr(steps[j])
      requires forall i :: 0 <= i < |steps| ==> StepValid(steps[i])
      ensures Valid() && Repr == {this} + StepsRepr(steps) && fresh(Repr - StepsRepr(steps))
      ensures this.steps == steps
      ensures Model() == SequenceState(
        seq(|steps|, i requires 0 <= i < |steps| reads StepsRepr(steps) => StepModel(steps[i])),
        timeoutMs, resetOnStrayKey, 0, 0)
    {
      this.steps := steps;
      this.timeoutMs := timeoutMs;
      this.resetOnStrayKey := resetOnStrayKey;
      index := 0;
      lastStepAt := 0;
      Repr := {this} + StepsRepr(steps);
    }

    /**
     * Makes step `k` the one waited for, with nothing of it pressed, and
     * records `at` as the time the previous step was completed.
     */
    method EnterStep(k: nat, at: nat)
      requires Valid() && k < |steps|
      modifies Repr
      ensures Valid()
      ensures Model() == old(Model()).Enter(k).(lastStepAt := at)
    {
      ResetStep(steps[k]);
      index, lastStepAt := k, at;
      assert forall j :: 0 <= j < |steps| && j != k ==> StepModel(steps[j]) == old(StepModel(steps[j]));
    }

    /** Feeds the event to the step waited for, and to no other. */
    method FeedActive(e: KeyEvent) returns (stepMatched: bool)
      requires Valid() && steps != []
      modifies Repr
      ensures Valid() && index == old(index) && lastStepAt == old(lastStepAt)
      ensures var f := StepFeed(old(Model()).steps[index], e);
        stepMatched == f.matched && Model() == old(Model()).(steps := old(Model()).steps[index := f.next])
    {
      stepMatched := FeedStep(steps[index], e);
      assert forall j :: 0 <= j < |steps| && j != index ==> StepModel(steps[j]) == old(StepModel(steps[j]));
    }

    method Feed(e: KeyEvent) returns (matched: bool)
      requires Valid()
      modifies Repr
      ensures Valid()
      ensures Fed(Model(), matched) == SequenceFeed(old(Model()), e)
    {
      if steps == [] {
        assert SequenceFeed(Model(), e) == Fed(Model(), false);
        return false;
      }
      if index > 0 && timeoutMs > 0 && e.timeMs > lastStepAt + timeoutMs {
        EnterStep(0, lastStepAt);
      }
      matched := Advance(e);
    }

    /** Feeds the event to the step waited for, then moves on as that step's outcome demands. */
    method Advance(e: KeyEvent) returns (matched: bool)
      requires Valid() && steps != []
      modifies Repr
      ensures Valid()
      ensures Fed(Model(), matched) == KeyMatching.Advance(old(Model()), e)
    {
      ghost var p := Model();
      var stray := resetOnStrayKey && index > 0 && e.isKeyDown && e.key !in StepModel(steps[index]).Keys();
      assert stray == p.Abandons(e);
      var stepMatched := FeedActive(e);
      ghost var f := StepFeed(p.steps[p.index], e);
      ghost var fed := p.(steps := p.steps[p.index := f.next]);
      assert Model() == fed && stepMatched == f.matched;
      if stepMatched && index == |steps| - 1 {
        EnterStep(0, lastStepAt);
        matched := true;
        assert Model() == fed.Enter(0);
      } else if stepMatched {
        EnterStep(index + 1, e.timeMs);
        matched := false;
        assert Model() == fed.Enter(p.index + 1).(lastStepAt := e.timeMs);
      } else if stray {
        EnterStep(0, lastStepAt);
        matched := false;
        assert Model() == fed.Enter(0);
      } else {
        matched := false;
        assert Model() == fed;
      }
    }
  }

  ghost function StepsRepr(steps: seq<Step>): set<object>
  {
    set i, o | 0 <= i < |steps| && o in StepRepr(steps[i]) :: o
  }

  /** The objects of a two-step sequence handler's steps. */
  lemma StepsReprOfTwo(a: Step, b: Step)
    ensures StepsRepr([a, b]) == StepRepr(a) + StepRepr(b)
  {
    forall o | o in StepsRepr([a, b]) ensures o in StepRepr(a) + StepRepr(b) {
      var i :| 0 <= i < 2 && o in StepRepr([a, b][i]);
    }
    assert StepRepr(a) <= StepsRepr([a, b]) by { assert [a, b][0] == a; }
    assert StepRepr(b) <= StepsRepr([a, b]) by { assert [a, b][1] == b; }
  }

  /** Any of the three handlers, as a subscription holds it. */
  datatype Handler =
    | CombinationHandler(combination: KeyCombinationHandler)
    | OrHandler(alternation: KeyOrCombinationHandler)
    | SequenceHandler(sequence: KeySequenceHandler)

  ghost function HandlerRepr(h: Handler): set<object>
  {
    match h
    case CombinationHandler(c) => {c}
    case OrHandler(o) => o.Repr()
    case SequenceHandler(q) => {q} + q.Repr
  }

  ghost predicate HandlerValid(h: Handler)
    reads HandlerRepr(h)
  {
    match h
    case CombinationHandler(c) => c.Valid()
    case OrHandler(o) => o.Valid()
    case SequenceHandler(q) => q.Valid()
  }

  ghost function HandlerModel(h: Handler): (m: HandlerState)
    reads HandlerRepr(h)
    requires HandlerValid(h)
  {
    match h
    case CombinationHandler(c) => Combination(c.Model())
    case OrHandler(o) => Alternation(o.Model())
    case SequenceHandler(q) => Sequence(q.Model())
  }

  method FeedHandler(h: Handler, e: KeyEvent) returns (matched: bool)
    requires HandlerValid(h)
    modifies HandlerRepr(h)
    ensures HandlerValid(h)
    ensures Fed(HandlerModel(h), matched) == HandlerFeed(old(HandlerModel(h)), e)
  {
    match h
    case CombinationHandler(c) =>
      matched := c.Feed(e);
    case OrHandler(o) =>
      var winner := o.Feed(e);
      matched := winner.Some?;
    case SequenceHandler(q) =>
      matched := q.Feed(e);
  }

  /**
   * A handler subscribed to the keyboard events, with a callback that counts
   * its matches. Once disposed, the handler no longer sees events and the
   * count no longer changes.
   */
  class Subscription {
    const handler: Handler
    var subscribed: bool
    var pressCount: nat

    ghost predicate Valid()
      reads this, HandlerRepr(handler)
    {
      this !in HandlerRepr(handler) && HandlerValid(handler)
    }

    constructor (handler: Handler)
      requires HandlerValid(handler)
      ensures Valid() && this.handler == handler && subscribed && pressCount == 0
    {
      this.handler := handler;
      subscribed := true;
      pressCount := 0;
    }

    /** Delivers one event: the handler sees it only while subscribed. */
    method Deliver(e: KeyEvent)
      requires Valid()
      modifies this, HandlerRepr(handler)
      ensures Valid() && subscribed == old(subscribed)
      ensures old(subscribed) ==>
        var f := HandlerFeed(old(HandlerModel(handler)), e);
        HandlerModel(handler) == f.next && pressCount == old(pressCount) + (if f.matched then 1 else 0)
      ensures !old(subscribed) ==>
        HandlerModel(handler) == old(HandlerModel(handler)) && pressCount == old(pressCount)
    {
      if subscribed {
        var matched := FeedHandler(handler, e);
        if matched {
          pressCount := pressCount + 1;
        }
      }
    }

    /** Delivers a list of events in order. */
    method DeliverAll(es: seq<KeyEvent>)
      requires Valid()
      modifies this, HandlerRepr(handler)
      ensures Valid() && subscribed == old(subscribed)
      ensures old(subscribed) ==>
        var r := Replay(old(HandlerModel(handler)), es);
        HandlerModel(handler) == r.state && pressCount == old(pressCount) + r.matches
      ensures !old(subscribed) ==>
        HandlerModel(handler) == old(HandlerModel(handler)) && pressCount == old(pressCount)
    {
      ghost var start := HandlerModel(handler);
      var i := 0;
      while i < |es|
        invariant 0 <= i <= |es|
        invariant Valid() && subscribed == old(subscribed)
        invariant subscribed ==>
          var r := Replay(start, es[..i]);
          HandlerModel(handler) == r.state && pressCount == old(pressCount) + r.matches
        invariant !subscribed ==>
          HandlerModel(handler) == start && pressCount == old(pressCount)
      {
        ghost var before := HandlerModel(handler);
        Deliver(es[i]);
        if subscribed {
          ReplayAppend(start, es[..i], [es[i]]);
          assert es[..i + 1] == es[..i] + [es[i]];
          assert Replay(before, [es[i]]).state == HandlerFeed(before, es[i]).next;
        }
        i := i + 1;
      }
      assert es[..i] == es;
    }

    /** Ends the subscription (the end of the `using` block). */
    method Dispose()
      modifies this
      ensures !subscribed && pressCount == old(pressCount)
    {
      subscribed := false;
    }
  }
}
