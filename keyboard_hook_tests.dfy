/**
 * The scenarios of KeyboardHookTests, replayed on the model: the raw events a
 * key-combination press injects, the general facts about combinations that
 * the scenarios rest on, and the three scenarios themselves, driven through
 * the handler objects and a subscription that counts the matches.
 */
module KeyboardHookTests {
  import opened KeyMatching
  import opened KeyHandlers

  /**
   * The events KeyboardInputGenerator.KeyCombinationPress(k1, ..., kn) is
   * assumed to inject at time `t`: every key goes down in the given order,
   * then every key comes up in the same order.
   */
  function KeyCombinationPress(ks: seq<VirtualKeyCode>, t: nat): (r: seq<KeyEvent>)
    ensures |r| == 2 * |ks|
    ensures forall i :: 0 <= i < |ks| ==> r[i] == KeyEvent(ks[i], true, t) && r[|ks| + i] == KeyEvent(ks[i], false, t)
  {
    KeyDowns(ks, t) + KeyUps(ks, t)
  }

  function KeyDowns(ks: seq<VirtualKeyCode>, t: nat): seq<KeyEvent>
  {
    seq(|ks|, i requires 0 <= i < |ks| => KeyEvent(ks[i], true, t))
  }

  function KeyUps(ks: seq<VirtualKeyCode>, t: nat): seq<KeyEvent>
  {
    seq(|ks|, i requires 0 <= i < |ks| => KeyEvent(ks[i], false, t))
  }

  // ---------------------------------------------------------------------
  // Events a handler is known to ignore
  // ---------------------------------------------------------------------

  function Ones(b: bool): nat { if b then 1 else 0 }

  /** Feeding a sequence an event its waited-for step ignores, that does not expire and is no stray key-down. */
  lemma Ignored(q: SequenceState, e: KeyEvent)
    requires q.Valid() && q.steps != [] && !q.Expired(e.timeMs)
    requires e.key !in q.steps[q.index].Keys() || (!e.isKeyDown && q.steps[q.index].Reset() == q.steps[q.index])
    requires !q.Abandons(e)
    ensures HandlerFeed(Sequence(q), e) == Fed(Sequence(q), false)
  {
    StepIgnores(q.steps[q.index], e);
    IgnoredBySequence(q, e);
  }

  // ---------------------------------------------------------------------
  // Combinations under presses; TestKeyHandler_SingleCombination
  // ---------------------------------------------------------------------

  function KeySet(ks: seq<VirtualKeyCode>): set<VirtualKeyCode> { set k | k in ks }

  /**
   * Key-downs add the required keys among them to the pressed set, and match
   * once exactly when they take an incomplete combination to complete; on a
   * complete one (a held chord, auto-repeat) they never match again.
   */
  lemma {:induction false} DownsOnChord(c: Chord, ks: seq<VirtualKeyCode>, t: nat)
    requires c.Valid()
    ensures var after := Chord(c.keys, c.pressed + KeySet(ks) * c.keys);
      Replay(Combination(c), KeyDowns(ks, t)) == Outcome(Combination(after), Ones(!c.Complete() && after.Complete()))
    decreases |ks|
  {
    var es := KeyDowns(ks, t);
    if ks == [] {
      assert es == [];
      assert c.pressed + KeySet(ks) * c.keys == c.pressed;
    } else {
      assert es[0] == KeyEvent(ks[0], true, t);
      assert es[1..] == KeyDowns(ks[1..], t);
      var f := ChordFeed(c, es[0]);
      DownsOnChord(f.next, ks[1..], t);
      assert KeySet(ks) == {ks[0]} + KeySet(ks[1..]);
      assert f.next.pressed + KeySet(ks[1..]) * c.keys == c.pressed + KeySet(ks) * c.keys;
    }
  }

  /** Key-ups release the required keys among them and never match. */
  lemma {:induction false} UpsOnChord(c: Chord, ks: seq<VirtualKeyCode>, t: nat)
    requires c.Valid()
    ensures Replay(Combination(c), KeyUps(ks, t)) == Outcome(Combination(Chord(c.keys, c.pressed - KeySet(ks))), 0)
    decreases |ks|
  {
    var es := KeyUps(ks, t);
    if ks == [] {
      assert es == [];
      assert c.pressed - KeySet(ks) == c.pressed;
    } else {
      assert es[0] == KeyEvent(ks[0], false, t);
      assert es[1..] == KeyUps(ks[1..], t);
      var f := ChordFeed(c, es[0]);
      UpsOnChord(f.next, ks[1..], t);
      assert KeySet(ks) == {ks[0]} + KeySet(ks[1..]);
      assert f.next.pressed - KeySet(ks[1..]) == c.pressed - KeySet(ks);
    }
  }

  /**
   * One press of some keys on a released combination leaves it released, and
   * matches once if the press includes every required key, and never otherwise.
   */
  lemma PressCycle(keys: set<VirtualKeyCode>, ks: seq<VirtualKeyCode>, t: nat)
    ensures Replay(Combination(Chord(keys, {})), KeyCombinationPress(ks, t))
         == Outcome(Combination(Chord(keys, {})), Ones(keys != {} && keys <= KeySet(ks)))
  {
    var c := Chord(keys, {});
    var held := Chord(keys, {} + KeySet(ks) * keys);
    DownsOnChord(c, ks, t);
    UpsOnChord(held, ks, t);
    ReplayAppend(Combination(c), KeyDowns(ks, t), KeyUps(ks, t));
    assert held.pressed - KeySet(ks) == {};
    assert held.Complete() <==> keys <= KeySet(ks);
  }

  /**
   * TestKeyHandler_SingleCombination, with the first press at time `start`:
   * Back+RightShift pressed twice while subscribed counts two matches; a
   * third press after the subscription is disposed changes nothing.
   */
  method SingleCombinationScenario(start: nat) returns (inside: nat, afterDispose: nat)
    ensures inside == 2 && afterDispose == 2
  {
    var handler := new KeyCombinationHandler({Back, RightShift});
    var subscription := new Subscription(CombinationHandler(handler));
    PressCycle({Back, RightShift}, [Back, RightShift], start);
    PressCycle({Back, RightShift}, [Back, RightShift], start + 20);
    assert KeySet([Back, RightShift]) == {Back, RightShift};
    subscription.DeliverAll(KeyCombinationPress([Back, RightShift], start));
    subscription.DeliverAll(KeyCombinationPress([Back, RightShift], start + 20));
    subscription.Dispose();
    inside := subscription.pressCount;
    subscription.DeliverAll(KeyCombinationPress([Back, RightShift], start + 40));
    afterDispose := subscription.pressCount;
  }

  // ---------------------------------------------------------------------
  // TestKeyHandler_Sequence: Print, then Shift+A, no timeout
  // ---------------------------------------------------------------------

  /** The sequence handler of the test as a value, waiting at step `index`. */
  function PrintThenShiftA(resetOnStrayKey: bool, printDown: set<VirtualKeyCode>, shiftA: set<VirtualKeyCode>,
                           index: nat, lastStepAt: nat): SequenceState
  {
    SequenceState([One(Chord({Print}, printDown)), One(Chord({Shift, KeyA}, shiftA))], 0, resetOnStrayKey, index, lastStepAt)
  }

  function PrintShiftAHandler(resetOnStrayKey: bool, printDown: set<VirtualKeyCode>, shiftA: set<VirtualKeyCode>, index: nat, lastStepAt: nat): HandlerState
  {
    Sequence(PrintThenShiftA(resetOnStrayKey, printDown, shiftA, index, lastStepAt))
  }

  // Each lemma below follows the events of one key-combination press through
  // the handler; each Deliver method hands those events to a subscription.

  /** Print completes step 1 and the sequence waits for Shift+A. */
  lemma FirstPrint(resetOnStrayKey: bool, shiftA: set<VirtualKeyCode>, last: nat, t: nat)
    requires shiftA <= {Shift, KeyA}
    ensures HandlerFeed(PrintShiftAHandler(resetOnStrayKey, {}, shiftA, 0, last), KeyEvent(Print, true, t)) == Fed(PrintShiftAHandler(resetOnStrayKey, {Print}, {}, 1, t), false)
    ensures HandlerFeed(PrintShiftAHandler(resetOnStrayKey, {Print}, {}, 1, t), KeyEvent(Print, false, t)) == Fed(PrintShiftAHandler(resetOnStrayKey, {Print}, {}, 1, t), false)
  {
    var none: set<VirtualKeyCode> := {};
    assert none + {Print} == {Print};
    var f := HandlerFeed(PrintShiftAHandler(resetOnStrayKey, {}, shiftA, 0, last), KeyEvent(Print, true, t));
    assert f.next.sequence.steps == PrintThenShiftA(resetOnStrayKey, {Print}, {}, 1, t).steps;
    Ignored(PrintThenShiftA(resetOnStrayKey, {Print}, {}, 1, t), KeyEvent(Print, false, t));
  }

  /** Without the reset policy, the wrong chord Shift+B leaves the sequence waiting for Shift+A. */
  lemma WrongChordIgnored(last: nat, t: nat)
    ensures HandlerFeed(PrintShiftAHandler(false, {Print}, {}, 1, last), KeyEvent(Shift, true, t)) == Fed(PrintShiftAHandler(false, {Print}, {Shift}, 1, last), false)
    ensures HandlerFeed(PrintShiftAHandler(false, {Print}, {Shift}, 1, last), KeyEvent(KeyB, true, t)) == Fed(PrintShiftAHandler(false, {Print}, {Shift}, 1, last), false)
    ensures HandlerFeed(PrintShiftAHandler(false, {Print}, {Shift}, 1, last), KeyEvent(Shift, false, t)) == Fed(PrintShiftAHandler(false, {Print}, {}, 1, last), false)
    ensures HandlerFeed(PrintShiftAHandler(false, {Print}, {}, 1, last), KeyEvent(KeyB, false, t)) == Fed(PrintShiftAHandler(false, {Print}, {}, 1, last), false)
  {
    var none: set<VirtualKeyCode> := {};
    assert none + {Shift} == {Shift} && {Shift} - {Shift} == none;
    var f1 := HandlerFeed(PrintShiftAHandler(false, {Print}, {}, 1, last), KeyEvent(Shift, true, t));
    assert f1.next.sequence.steps == PrintThenShiftA(false, {Print}, {Shift}, 1, last).steps;
    Ignored(PrintThenShiftA(false, {Print}, {Shift}, 1, last), KeyEvent(KeyB, true, t));
    var f3 := HandlerFeed(PrintShiftAHandler(false, {Print}, {Shift}, 1, last), KeyEvent(Shift, false, t));
    assert f3.next.sequence.steps == PrintThenShiftA(false, {Print}, {}, 1, last).steps;
    Ignored(PrintThenShiftA(false, {Print}, {}, 1, last), KeyEvent(KeyB, false, t));
  }

  /** With the reset policy, the stray KeyB sends the sequence back to its first step. */
  lemma WrongChordResets(last: nat, t: nat)
    ensures HandlerFeed(PrintShiftAHandler(true, {Print}, {}, 1, last), KeyEvent(Shift, true, t)) == Fed(PrintShiftAHandler(true, {Print}, {Shift}, 1, last), false)
    ensures HandlerFeed(PrintShiftAHandler(true, {Print}, {Shift}, 1, last), KeyEvent(KeyB, true, t)) == Fed(PrintShiftAHandler(true, {}, {Shift}, 0, last), false)
    ensures HandlerFeed(PrintShiftAHandler(true, {}, {Shift}, 0, last), KeyEvent(Shift, false, t)) == Fed(PrintShiftAHandler(true, {}, {Shift}, 0, last), false)
    ensures HandlerFeed(PrintShiftAHandler(true, {}, {Shift}, 0, last), KeyEvent(KeyB, false, t)) == Fed(PrintShiftAHandler(true, {}, {Shift}, 0, last), false)
  {
    var none: set<VirtualKeyCode> := {};
    assert none + {Shift} == {Shift};
    var f1 := HandlerFeed(PrintShiftAHandler(true, {Print}, {}, 1, last), KeyEvent(Shift, true, t));
    assert f1.next.sequence.steps == PrintThenShiftA(true, {Print}, {Shift}, 1, last).steps;
    var f2 := HandlerFeed(PrintShiftAHandler(true, {Print}, {Shift}, 1, last), KeyEvent(KeyB, true, t));
    assert f2.next.sequence.steps == PrintThenShiftA(true, {}, {Shift}, 0, last).steps;
    Ignored(PrintThenShiftA(true, {}, {Shift}, 0, last), KeyEvent(Shift, false, t));
    Ignored(PrintThenShiftA(true, {}, {Shift}, 0, last), KeyEvent(KeyB, false, t));
  }

  /** Without the reset policy, a second Print goes to the Shift+A step, which ignores it. */
  lemma SecondPrintIgnored(last: nat, t: nat)
    ensures HandlerFeed(PrintShiftAHandler(false, {Print}, {}, 1, last), KeyEvent(Print, true, t)) == Fed(PrintShiftAHandler(false, {Print}, {}, 1, last), false)
    ensures HandlerFeed(PrintShiftAHandler(false, {Print}, {}, 1, last), KeyEvent(Print, false, t)) == Fed(PrintShiftAHandler(false, {Print}, {}, 1, last), false)
  {
    Ignored(PrintThenShiftA(false, {Print}, {}, 1, last), KeyEvent(Print, true, t));
    Ignored(PrintThenShiftA(false, {Print}, {}, 1, last), KeyEvent(Print, false, t));
  }

  /** Shift+A completes the last step: one match, and the sequence starts over. */
  lemma ShiftACompletes(resetOnStrayKey: bool, last: nat, t: nat)
    ensures HandlerFeed(PrintShiftAHandler(resetOnStrayKey, {Print}, {}, 1, last), KeyEvent(Shift, true, t)) == Fed(PrintShiftAHandler(resetOnStrayKey, {Print}, {Shift}, 1, last), false)
    ensures HandlerFeed(PrintShiftAHandler(resetOnStrayKey, {Print}, {Shift}, 1, last), KeyEvent(KeyA, true, t)) == Fed(PrintShiftAHandler(resetOnStrayKey, {}, {Shift, KeyA}, 0, last), true)
    ensures HandlerFeed(PrintShiftAHandler(resetOnStrayKey, {}, {Shift, KeyA}, 0, last), KeyEvent(Shift, false, t)) == Fed(PrintShiftAHandler(resetOnStrayKey, {}, {Shift, KeyA}, 0, last), false)
    ensures HandlerFeed(PrintShiftAHandler(resetOnStrayKey, {}, {Shift, KeyA}, 0, last), KeyEvent(KeyA, false, t)) == Fed(PrintShiftAHandler(resetOnStrayKey, {}, {Shift, KeyA}, 0, last), false)
  {
    var none: set<VirtualKeyCode> := {};
    assert none + {Shift} == {Shift} && {Shift} + {KeyA} == {Shift, KeyA};
    var f1 := HandlerFeed(PrintShiftAHandler(resetOnStrayKey, {Print}, {}, 1, last), KeyEvent(Shift, true, t));
    assert f1.next.sequence.steps == PrintThenShiftA(resetOnStrayKey, {Print}, {Shift}, 1, last).steps;
    var f2 := HandlerFeed(PrintShiftAHandler(resetOnStrayKey, {Print}, {Shift}, 1, last), KeyEvent(KeyA, true, t));
    assert f2.matched;
    assert f2.next.sequence.steps == PrintThenShiftA(resetOnStrayKey, {}, {Shift, KeyA}, 0, last).steps;
    Ignored(PrintThenShiftA(resetOnStrayKey, {}, {Shift, KeyA}, 0, last), KeyEvent(Shift, false, t));
    Ignored(PrintThenShiftA(resetOnStrayKey, {}, {Shift, KeyA}, 0, last), KeyEvent(KeyA, false, t));
  }

  /** The sequence handler of the test, freshly built. */
  method NewPrintThenShiftA(resetOnStrayKey: bool) returns (handler: KeySequenceHandler)
    ensures handler.Valid() && handler.Model() == PrintThenShiftA(resetOnStrayKey, {}, {}, 0, 0)
    ensures fresh(handler) && fresh(handler.Repr)
  {
    var printKey := new KeyCombinationHandler({Print});
    var shiftA := new KeyCombinationHandler({Shift, KeyA});
    assert StepModel(Single(printKey)) == One(Chord({Print}, {}));
    assert StepModel(Single(shiftA)) == One(Chord({Shift, KeyA}, {}));
    StepsReprOfTwo(Single(printKey), Single(shiftA));
    handler := new KeySequenceHandler([Single(printKey), Single(shiftA)], 0, resetOnStrayKey);
    assert handler.Model().steps == PrintThenShiftA(resetOnStrayKey, {}, {}, 0, 0).steps;
  }

  /** Delivers a press of Print (Print down, Print up) while the sequence waits for step 1. */
  method DeliverFirstPrint(subscription: Subscription, resetOnStrayKey: bool, shiftA: set<VirtualKeyCode>, last: nat, t: nat)
    requires subscription.Valid() && subscription.subscribed && shiftA <= {Shift, KeyA}
    requires HandlerModel(subscription.handler) == PrintShiftAHandler(resetOnStrayKey, {}, shiftA, 0, last)
    modifies subscription, HandlerRepr(subscription.handler)
    ensures subscription.Valid() && subscription.subscribed && subscription.pressCount == old(subscription.pressCount)
    ensures HandlerModel(subscription.handler) == PrintShiftAHandler(resetOnStrayKey, {Print}, {}, 1, t)
  {
    FirstPrint(resetOnStrayKey, shiftA, last, t);
    var press := KeyCombinationPress([Print], t);
    subscription.Deliver(press[0]);
    subscription.Deliver(press[1]);
  }

  /** Delivers a press of Print while the sequence, without the reset policy, waits for Shift+A. */
  method DeliverSecondPrint(subscription: Subscription, last: nat, t: nat)
    requires subscription.Valid() && subscription.subscribed
    requires HandlerModel(subscription.handler) == PrintShiftAHandler(false, {Print}, {}, 1, last)
    modifies subscription, HandlerRepr(subscription.handler)
    ensures subscription.Valid() && subscription.subscribed && subscription.pressCount == old(subscription.pressCount)
    ensures HandlerModel(subscription.handler) == PrintShiftAHandler(false, {Print}, {}, 1, last)
  {
    SecondPrintIgnored(last, t);
    var press := KeyCombinationPress([Print], t);
    subscription.Deliver(press[0]);
    subscription.Deliver(press[1]);
  }

  /** Delivers a press of Shift+B (Shift down, B down, Shift up, B up) while the sequence waits for Shift+A. */
  method DeliverWrongChord(subscription: Subscription, resetOnStrayKey: bool, last: nat, t: nat)
    requires subscription.Valid() && subscription.subscribed
    requires HandlerModel(subscription.handler) == PrintShiftAHandler(resetOnStrayKey, {Print}, {}, 1, last)
    modifies subscription, HandlerRepr(subscription.handler)
    ensures subscription.Valid() && subscription.subscribed && subscription.pressCount == old(subscription.pressCount)
    ensures HandlerModel(subscription.handler) == if resetOnStrayKey then PrintShiftAHandler(true, {}, {Shift}, 0, last) else PrintShiftAHandler(false, {Print}, {}, 1, last)
  {
    if resetOnStrayKey {
      WrongChordResets(last, t);
    } else {
      WrongChordIgnored(last, t);
    }
    var press := KeyCombinationPress([Shift, KeyB], t);
    subscription.Deliver(press[0]);
    subscription.Deliver(press[1]);
    subscription.Deliver(press[2]);
    subscription.Deliver(press[3]);
  }

  /** Delivers a press of Shift+A while the sequence waits for Shift+A. */
  method DeliverShiftA(subscription: Subscription, resetOnStrayKey: bool, last: nat, t: nat)
    requires subscription.Valid() && subscription.subscribed
    requires HandlerModel(subscription.handler) == PrintShiftAHandler(resetOnStrayKey, {Print}, {}, 1, last)
    modifies subscription, HandlerRepr(subscription.handler)
    ensures subscription.Valid() && subscription.subscribed && subscription.pressCount == old(subscription.pressCount) + 1
    ensures HandlerModel(subscription.handler) == PrintShiftAHandler(resetOnStrayKey, {}, {Shift, KeyA}, 0, last)
  {
    ShiftACompletes(resetOnStrayKey, last, t);
    var press := KeyCombinationPress([Shift, KeyA], t);
    subscription.Deliver(press[0]);
    subscription.Deliver(press[1]);
    subscription.Deliver(press[2]);
    subscription.Deliver(press[3]);
  }

  /**
   * TestKeyHandler_Sequence, with either policy for a wrong chord and the
   * first press at time `start`, 20 ms between presses: the count after
   * Print, after the wrong chord Shift+B, and after Print, Shift+A.
   */
  method SequenceScenario(resetOnStrayKey: bool, start: nat) returns (afterPrint: nat, afterWrongChord: nat, afterSequence: nat)
    ensures afterPrint == 0 && afterWrongChord == 0 && afterSequence == 1
  {
    var handler := NewPrintThenShiftA(resetOnStrayKey);
    var subscription := new Subscription(SequenceHandler(handler));
    DeliverFirstPrint(subscription, resetOnStrayKey, {}, 0, start);
    afterPrint := subscription.pressCount;
    DeliverWrongChord(subscription, resetOnStrayKey, start, start + 20);
    afterWrongChord := subscription.pressCount;
    if resetOnStrayKey {
      DeliverFirstPrint(subscription, true, {Shift}, start, start + 40);
      DeliverShiftA(subscription, true, start + 40, start + 60);
    } else {
      DeliverSecondPrint(subscription, start, start + 40);
      DeliverShiftA(subscription, false, start, start + 60);
    }
    afterSequence := subscription.pressCount;
    subscription.Dispose();
  }

  // ---------------------------------------------------------------------
  // TestKeyHandler_SequenceWithOptionalKeys: Print, then Shift+A or
  // Shift+B, with 200 ms allowed between the steps
  // ---------------------------------------------------------------------

  /** A two-branch alternation step, computed branch by branch. */
  lemma TwoBranches(c1: Chord, c2: Chord, e: KeyEvent)
    ensures StepFeed(AnyOf([c1, c2]), e)
         == Fed(AnyOf([ChordFeed(c1, e).next, ChordFeed(c2, e).next]), ChordFeed(c1, e).matched || ChordFeed(c2, e).matched)
    ensures AnyOf([c1, c2]).Keys() == c1.keys + c2.keys
    ensures AnyOf([c1, c2]).Reset() == AnyOf([c1.Reset(), c2.Reset()])
  {
    var f := StepFeed(AnyOf([c1, c2]), e);
    assert f.next.branches == [ChordFeed(c1, e).next, ChordFeed(c2, e).next];
    assert f.matched <==> ChordFeed([c1, c2][0], e).matched || ChordFeed([c1, c2][1], e).matched;
    forall k | k in AnyOf([c1, c2]).Keys() ensures k in c1.keys + c2.keys {
      var i :| 0 <= i < 2 && k in [c1, c2][i].keys;
    }
    assert c2.keys <= AnyOf([c1, c2]).Keys() by { assert [c1, c2][1] == c2; }
    assert ResetAll([c1, c2]) == [c1.Reset(), c2.Reset()];
  }

  /** The sequence handler of the test as a value, waiting at step `index`. */
  function PrintThenShiftAOrB(resetOnStrayKey: bool, printDown: set<VirtualKeyCode>, shiftA: set<VirtualKeyCode>, shiftB: set<VirtualKeyCode>,
                              index: nat, lastStepAt: nat): SequenceState
  {
    SequenceState([One(Chord({Print}, printDown)), Alternative(shiftA, shiftB)], 200, resetOnStrayKey, index, lastStepAt)
  }

  /** The second step of the test: Shift+A or Shift+B. */
  function Alternative(shiftA: set<VirtualKeyCode>, shiftB: set<VirtualKeyCode>): StepState
  {
    AnyOf([Chord({Shift, KeyA}, shiftA), Chord({Shift, KeyB}, shiftB)])
  }

  function PrintShiftAOrBHandler(resetOnStrayKey: bool, printDown: set<VirtualKeyCode>, shiftA: set<VirtualKeyCode>, shiftB: set<VirtualKeyCode>,
              index: nat, lastStepAt: nat): HandlerState
  {
    Sequence(PrintThenShiftAOrB(resetOnStrayKey, printDown, shiftA, shiftB, index, lastStepAt))
  }

  lemma OptionalValid(resetOnStrayKey: bool, printDown: set<VirtualKeyCode>, shiftA: set<VirtualKeyCode>, shiftB: set<VirtualKeyCode>, index: nat, last: nat)
    requires printDown <= {Print} && shiftA <= {Shift, KeyA} && shiftB <= {Shift, KeyB} && index < 2
    ensures PrintThenShiftAOrB(resetOnStrayKey, printDown, shiftA, shiftB, index, last).Valid()
  {
  }

  // What the alternation step does with the events of the test.

  lemma AlternativeKeys(shiftA: set<VirtualKeyCode>, shiftB: set<VirtualKeyCode>)
    ensures Alternative(shiftA, shiftB).Keys() == {Shift, KeyA, KeyB}
  {
    TwoBranches(Chord({Shift, KeyA}, shiftA), Chord({Shift, KeyB}, shiftB), KeyEvent(Shift, true, 0));
  }

  lemma AlternativeReset(shiftA: set<VirtualKeyCode>, shiftB: set<VirtualKeyCode>)
    ensures Alternative(shiftA, shiftB).Reset() == Alternative({}, {})
  {
    TwoBranches(Chord({Shift, KeyA}, shiftA), Chord({Shift, KeyB}, shiftB), KeyEvent(Shift, true, 0));
  }

  lemma AlternativeShift(t: nat)
    ensures StepFeed(Alternative({}, {}), KeyEvent(Shift, true, t)) == Fed(Alternative({Shift}, {Shift}), false)
  {
    var none: set<VirtualKeyCode> := {};
    assert none + {Shift} == {Shift};
    TwoBranches(Chord({Shift, KeyA}, {}), Chord({Shift, KeyB}, {}), KeyEvent(Shift, true, t));
  }

  lemma AlternativeA(t: nat)
    ensures StepFeed(Alternative({Shift}, {Shift}), KeyEvent(KeyA, true, t)) == Fed(Alternative({Shift, KeyA}, {Shift}), true)
  {
    var e := KeyEvent(KeyA, true, t);
    var bs := Alternative({Shift}, {Shift}).branches;
    assert {Shift} + {KeyA} == {Shift, KeyA};
    assert ChordFeed(bs[0], e) == Fed(Chord({Shift, KeyA}, {Shift, KeyA}), true);
    assert ChordFeed(bs[1], e) == Fed(bs[1], false);
    assert AnyOfNext(bs, e) == Alternative({Shift, KeyA}, {Shift}).branches;
  }

  lemma AlternativeB(t: nat)
    ensures StepFeed(Alternative({Shift}, {Shift}), KeyEvent(KeyB, true, t)) == Fed(Alternative({Shift}, {Shift, KeyB}), true)
  {
    var e := KeyEvent(KeyB, true, t);
    var bs := Alternative({Shift}, {Shift}).branches;
    assert {Shift} + {KeyB} == {Shift, KeyB};
    assert ChordFeed(bs[0], e) == Fed(bs[0], false);
    assert ChordFeed(bs[1], e) == Fed(Chord({Shift, KeyB}, {Shift, KeyB}), true);
    assert AnyOfNext(bs, e) == Alternative({Shift}, {Shift, KeyB}).branches;
  }

  /** Print completes step 1, whatever the alternation last saw, and the time is recorded. */
  lemma OptionalFirstPrint(resetOnStrayKey: bool, shiftA: set<VirtualKeyCode>, shiftB: set<VirtualKeyCode>, last: nat, t: nat)
    requires shiftA <= {Shift, KeyA} && shiftB <= {Shift, KeyB}
    ensures HandlerFeed(PrintShiftAOrBHandler(resetOnStrayKey, {}, shiftA, shiftB, 0, last), KeyEvent(Print, true, t)) == Fed(PrintShiftAOrBHandler(resetOnStrayKey, {Print}, {}, {}, 1, t), false)
    ensures HandlerFeed(PrintShiftAOrBHandler(resetOnStrayKey, {Print}, {}, {}, 1, t), KeyEvent(Print, false, t)) == Fed(PrintShiftAOrBHandler(resetOnStrayKey, {Print}, {}, {}, 1, t), false)
  {
    var q := PrintThenShiftAOrB(resetOnStrayKey, {}, shiftA, shiftB, 0, last);
    var none: set<VirtualKeyCode> := {};
    assert none + {Print} == {Print};
    AlternativeReset(shiftA, shiftB);
    AlternativeKeys({}, {});
    OptionalValid(resetOnStrayKey, {}, shiftA, shiftB, 0, last);
    CompletesStep(q, KeyEvent(Print, true, t));
    assert q.steps[0 := One(Chord({Print}, {Print}))][1 := Alternative({}, {})] == PrintThenShiftAOrB(resetOnStrayKey, {Print}, {}, {}, 1, t).steps;
    OptionalValid(resetOnStrayKey, {Print}, {}, {}, 1, t);
    Ignored(PrintThenShiftAOrB(resetOnStrayKey, {Print}, {}, {}, 1, t), KeyEvent(Print, false, t));
  }

  /** Shift goes down in both branches of the alternation. */
  lemma OptionalShiftDown(resetOnStrayKey: bool, last: nat, t: nat)
    requires t <= last + 200
    ensures HandlerFeed(PrintShiftAOrBHandler(resetOnStrayKey, {Print}, {}, {}, 1, last), KeyEvent(Shift, true, t)) == Fed(PrintShiftAOrBHandler(resetOnStrayKey, {Print}, {Shift}, {Shift}, 1, last), false)
  {
    var q := PrintThenShiftAOrB(resetOnStrayKey, {Print}, {}, {}, 1, last);
    AlternativeShift(t);
    AlternativeKeys({}, {});
    OptionalValid(resetOnStrayKey, {Print}, {}, {}, 1, last);
    Progresses(q, KeyEvent(Shift, true, t));
    assert q.steps[1 := Alternative({Shift}, {Shift})] == PrintThenShiftAOrB(resetOnStrayKey, {Print}, {Shift}, {Shift}, 1, last).steps;
  }

  /** B in time completes the alternation through its second branch: one match, and the releases are ignored. */
  lemma OptionalShiftB(resetOnStrayKey: bool, last: nat, t: nat)
    requires t <= last + 200
    ensures HandlerFeed(PrintShiftAOrBHandler(resetOnStrayKey, {Print}, {Shift}, {Shift}, 1, last), KeyEvent(KeyB, true, t)) == Fed(PrintShiftAOrBHandler(resetOnStrayKey, {}, {Shift}, {Shift, KeyB}, 0, last), true)
    ensures HandlerFeed(PrintShiftAOrBHandler(resetOnStrayKey, {}, {Shift}, {Shift, KeyB}, 0, last), KeyEvent(Shift, false, t)) == Fed(PrintShiftAOrBHandler(resetOnStrayKey, {}, {Shift}, {Shift, KeyB}, 0, last), false)
    ensures HandlerFeed(PrintShiftAOrBHandler(resetOnStrayKey, {}, {Shift}, {Shift, KeyB}, 0, last), KeyEvent(KeyB, false, t)) == Fed(PrintShiftAOrBHandler(resetOnStrayKey, {}, {Shift}, {Shift, KeyB}, 0, last), false)
  {
    var q := PrintThenShiftAOrB(resetOnStrayKey, {Print}, {Shift}, {Shift}, 1, last);
    AlternativeB(t);
    OptionalValid(resetOnStrayKey, {Print}, {Shift}, {Shift}, 1, last);
    CompletesLast(q, KeyEvent(KeyB, true, t));
    assert q.steps[1 := Alternative({Shift}, {Shift, KeyB})][0 := One(Chord({Print}, {}))]
        == PrintThenShiftAOrB(resetOnStrayKey, {}, {Shift}, {Shift, KeyB}, 0, last).steps;
    OptionalValid(resetOnStrayKey, {}, {Shift}, {Shift, KeyB}, 0, last);
    Ignored(PrintThenShiftAOrB(resetOnStrayKey, {}, {Shift}, {Shift, KeyB}, 0, last), KeyEvent(Shift, false, t));
    Ignored(PrintThenShiftAOrB(resetOnStrayKey, {}, {Shift}, {Shift, KeyB}, 0, last), KeyEvent(KeyB, false, t));
  }

  /** A in time completes the alternation through its first branch: one match, and the releases are ignored. */
  lemma OptionalShiftA(resetOnStrayKey: bool, last: nat, t: nat)
    requires t <= last + 200
    ensures HandlerFeed(PrintShiftAOrBHandler(resetOnStrayKey, {Print}, {Shift}, {Shift}, 1, last), KeyEvent(KeyA, true, t)) == Fed(PrintShiftAOrBHandler(resetOnStrayKey, {}, {Shift, KeyA}, {Shift}, 0, last), true)
    ensures HandlerFeed(PrintShiftAOrBHandler(resetOnStrayKey, {}, {Shift, KeyA}, {Shift}, 0, last), KeyEvent(Shift, false, t)) == Fed(PrintShiftAOrBHandler(resetOnStrayKey, {}, {Shift, KeyA}, {Shift}, 0, last), false)
    ensures HandlerFeed(PrintShiftAOrBHandler(resetOnStrayKey, {}, {Shift, KeyA}, {Shift}, 0, last), KeyEvent(KeyA, false, t)) == Fed(PrintShiftAOrBHandler(resetOnStrayKey, {}, {Shift, KeyA}, {Shift}, 0, last), false)
  {
    var q := PrintThenShiftAOrB(resetOnStrayKey, {Print}, {Shift}, {Shift}, 1, last);
    AlternativeA(t);
    OptionalValid(resetOnStrayKey, {Print}, {Shift}, {Shift}, 1, last);
    CompletesLast(q, KeyEvent(KeyA, true, t));
    assert q.steps[1 := Alternative({Shift, KeyA}, {Shift})][0 := One(Chord({Print}, {}))]
        == PrintThenShiftAOrB(resetOnStrayKey, {}, {Shift, KeyA}, {Shift}, 0, last).steps;
    OptionalValid(resetOnStrayKey, {}, {Shift, KeyA}, {Shift}, 0, last);
    Ignored(PrintThenShiftAOrB(resetOnStrayKey, {}, {Shift, KeyA}, {Shift}, 0, last), KeyEvent(Shift, false, t));
    Ignored(PrintThenShiftAOrB(resetOnStrayKey, {}, {Shift, KeyA}, {Shift}, 0, last), KeyEvent(KeyA, false, t));
  }

  /**
   * Shift+A after the 200 ms have run out: the first event returns the
   * sequence to step 1, which ignores Shift and A, so nothing matches.
   */
  lemma OptionalShiftATooLate(resetOnStrayKey: bool, last: nat, t: nat)
    requires t > last + 200
    ensures HandlerFeed(PrintShiftAOrBHandler(resetOnStrayKey, {Print}, {}, {}, 1, last), KeyEvent(Shift, true, t)) == Fed(PrintShiftAOrBHandler(resetOnStrayKey, {}, {}, {}, 0, last), false)
    ensures HandlerFeed(PrintShiftAOrBHandler(resetOnStrayKey, {}, {}, {}, 0, last), KeyEvent(KeyA, true, t)) == Fed(PrintShiftAOrBHandler(resetOnStrayKey, {}, {}, {}, 0, last), false)
    ensures HandlerFeed(PrintShiftAOrBHandler(resetOnStrayKey, {}, {}, {}, 0, last), KeyEvent(Shift, false, t)) == Fed(PrintShiftAOrBHandler(resetOnStrayKey, {}, {}, {}, 0, last), false)
    ensures HandlerFeed(PrintShiftAOrBHandler(resetOnStrayKey, {}, {}, {}, 0, last), KeyEvent(KeyA, false, t)) == Fed(PrintShiftAOrBHandler(resetOnStrayKey, {}, {}, {}, 0, last), false)
  {
    var q := PrintThenShiftAOrB(resetOnStrayKey, {Print}, {}, {}, 1, last);
    var e := KeyEvent(Shift, true, t);
    OptionalValid(resetOnStrayKey, {Print}, {}, {}, 1, last);
    var p := q.Enter(0);
    assert p == PrintThenShiftAOrB(resetOnStrayKey, {}, {}, {}, 0, last);
    assert StepFeed(p.steps[0], e) == Fed(p.steps[0], false);
    assert p.steps[0 := p.steps[0]] == p.steps;
    assert SequenceFeed(q, e) == Fed(p, false);
    OptionalValid(resetOnStrayKey, {}, {}, {}, 0, last);
    Ignored(p, KeyEvent(KeyA, true, t));
    Ignored(p, KeyEvent(Shift, false, t));
    Ignored(p, KeyEvent(KeyA, false, t));
  }

  /** The alternation Shift+A or Shift+B, freshly built. */
  method NewShiftAOrB() returns (either: KeyOrCombinationHandler)
    ensures either.Valid() && either.Model() == [Chord({Shift, KeyA}, {}), Chord({Shift, KeyB}, {})]
    ensures fresh(either.Repr())
  {
    var shiftA := new KeyCombinationHandler({Shift, KeyA});
    var shiftB := new KeyCombinationHandler({Shift, KeyB});
    either := new KeyOrCombinationHandler([shiftA, shiftB]);
  }

  /** The sequence handler of the test, freshly built. */
  method NewPrintThenShiftAOrB(resetOnStrayKey: bool) returns (handler: KeySequenceHandler)
    ensures handler.Valid() && handler.Model() == PrintThenShiftAOrB(resetOnStrayKey, {}, {}, {}, 0, 0)
    ensures fresh(handler) && fresh(handler.Repr)
  {
    var printKey := new KeyCombinationHandler({Print});
    var either := NewShiftAOrB();
    assert StepModel(Single(printKey)) == One(Chord({Print}, {}));
    assert StepModel(Either(either)) == Alternative({}, {});
    StepsReprOfTwo(Single(printKey), Either(either));
    handler := new KeySequenceHandler([Single(printKey), Either(either)], 200, resetOnStrayKey);
    assert handler.Model().steps == PrintThenShiftAOrB(resetOnStrayKey, {}, {}, {}, 0, 0).steps;
  }

  /** Delivers a press of Print while the sequence waits for step 1. */
  method DeliverOptionalPrint(subscription: Subscription, resetOnStrayKey: bool, shiftA: set<VirtualKeyCode>, shiftB: set<VirtualKeyCode>, last: nat, t: nat)
    requires subscription.Valid() && subscription.subscribed && shiftA <= {Shift, KeyA} && shiftB <= {Shift, KeyB}
    requires HandlerModel(subscription.handler) == PrintShiftAOrBHandler(resetOnStrayKey, {}, shiftA, shiftB, 0, last)
    modifies subscription, HandlerRepr(subscription.handler)
    ensures subscription.Valid() && subscription.subscribed && subscription.pressCount == old(subscription.pressCount)
    ensures HandlerModel(subscription.handler) == PrintShiftAOrBHandler(resetOnStrayKey, {Print}, {}, {}, 1, t)
  {
    OptionalFirstPrint(resetOnStrayKey, shiftA, shiftB, last, t);
    var press := KeyCombinationPress([Print], t);
    subscription.Deliver(press[0]);
    subscription.Deliver(press[1]);
  }

  /** Delivers a press of Shift+B within 200 ms of Print. */
  method DeliverOptionalShiftB(subscription: Subscription, resetOnStrayKey: bool, last: nat, t: nat)
    requires subscription.Valid() && subscription.subscribed && t <= last + 200
    requires HandlerModel(subscription.handler) == PrintShiftAOrBHandler(resetOnStrayKey, {Print}, {}, {}, 1, last)
    modifies subscription, HandlerRepr(subscription.handler)
    ensures subscription.Valid() && subscription.subscribed && subscription.pressCount == old(subscription.pressCount) + 1
    ensures HandlerModel(subscription.handler) == PrintShiftAOrBHandler(resetOnStrayKey, {}, {Shift}, {Shift, KeyB}, 0, last)
  {
    OptionalShiftDown(resetOnStrayKey, last, t);
    OptionalShiftB(resetOnStrayKey, last, t);
    var press := KeyCombinationPress([Shift, KeyB], t);
    subscription.Deliver(press[0]);
    subscription.Deliver(press[1]);
    subscription.Deliver(press[2]);
    subscription.Deliver(press[3]);
  }

  /** Delivers a press of Shift+A within 200 ms of Print. */
  method DeliverOptionalShiftA(subscription: Subscription, resetOnStrayKey: bool, last: nat, t: nat)
    requires subscription.Valid() && subscription.subscribed && t <= last + 200
    requires HandlerModel(subscription.handler) == PrintShiftAOrBHandler(resetOnStrayKey, {Print}, {}, {}, 1, last)
    modifies subscription, HandlerRepr(subscription.handler)
    ensures subscription.Valid() && subscription.subscribed && subscription.pressCount == old(subscription.pressCount) + 1
    ensures HandlerModel(subscription.handler) == PrintShiftAOrBHandler(resetOnStrayKey, {}, {Shift, KeyA}, {Shift}, 0, last)
  {
    OptionalShiftDown(resetOnStrayKey, last, t);
    OptionalShiftA(resetOnStrayKey, last, t);
    var press := KeyCombinationPress([Shift, KeyA], t);
    subscription.Deliver(press[0]);
    subscription.Deliver(press[1]);
    subscription.Deliver(press[2]);
    subscription.Deliver(press[3]);
  }

  /** Delivers a press of Shift+A more than 200 ms after Print. */
  method DeliverLateShiftA(subscription: Subscription, resetOnStrayKey: bool, last: nat, t: nat)
    requires subscription.Valid() && subscription.subscribed && t > last + 200
    requires HandlerModel(subscription.handler) == PrintShiftAOrBHandler(resetOnStrayKey, {Print}, {}, {}, 1, last)
    modifies subscription, HandlerRepr(subscription.handler)
    ensures subscription.Valid() && subscription.subscribed && subscription.pressCount == old(subscription.pressCount)
    ensures HandlerModel(subscription.handler) == PrintShiftAOrBHandler(resetOnStrayKey, {}, {}, {}, 0, last)
  {
    OptionalShiftATooLate(resetOnStrayKey, last, t);
    var press := KeyCombinationPress([Shift, KeyA], t);
    subscription.Deliver(press[0]);
    subscription.Deliver(press[1]);
    subscription.Deliver(press[2]);
    subscription.Deliver(press[3]);
  }

  /**
   * TestKeyHandler_SequenceWithOptionalKeys, with the first press at time
   * `start` and 20 ms between presses, except 400 ms before the last: the
   * counts after Print, after Shift+B, after Print and Shift+A, and after
   * Print and the late Shift+A, under either wrong-chord policy.
   */
  method OptionalKeysScenario(resetOnStrayKey: bool, start: nat) returns (afterPrint: nat, afterShiftB: nat, afterShiftA: nat, afterTimeout: nat)
    ensures afterPrint == 0 && afterShiftB == 1 && afterShiftA == 2 && afterTimeout == 2
  {
    var handler := NewPrintThenShiftAOrB(resetOnStrayKey);
    var subscription := new Subscription(SequenceHandler(handler));
    DeliverOptionalPrint(subscription, resetOnStrayKey, {}, {}, 0, start);
    afterPrint := subscription.pressCount;
    DeliverOptionalShiftB(subscription, resetOnStrayKey, start, start + 20);
    afterShiftB := subscription.pressCount;
    DeliverOptionalPrint(subscription, resetOnStrayKey, {Shift}, {Shift, KeyB}, start, start + 40);
    DeliverOptionalShiftA(subscription, resetOnStrayKey, start + 40, start + 60);
    afterShiftA := subscription.pressCount;
    DeliverOptionalPrint(subscription, resetOnStrayKey, {Shift, KeyA}, {Shift}, start + 40, start + 80);
    DeliverLateShiftA(subscription, resetOnStrayKey, start + 80, start + 480);
    afterTimeout := subscription.pressCount;
    subscription.Dispose();
  }
}
