/**
 * The hotkey matching engine as values: a combination (chord) matcher, an
 * alternation over chords, a sequence of steps with an inter-step timeout,
 * and the replay of a list of key events through any of them.
 *
 * The handler classes in KeyHandlers are proved to update their fields
 * exactly as the functions here say; the scenario lemmas in
 * KeyboardHookTests are stated over these functions.
 */
module KeyMatching {
  import opened Wrappers

  /** A Win32 virtual-key code, as carried by a low-level keyboard hook event. */
  newtype VirtualKeyCode = k: int | 0 <= k < 0x100

  const Back: VirtualKeyCode := 0x08
  const Shift: VirtualKeyCode := 0x10
  const Print: VirtualKeyCode := 0x2A
  const KeyA: VirtualKeyCode := 0x41
  const KeyB: VirtualKeyCode := 0x42
  const RightShift: VirtualKeyCode := 0xA1

  /** One key transition with the time (in milliseconds) at which it arrived. */
  datatype KeyEvent = KeyEvent(key: VirtualKeyCode, isKeyDown: bool, timeMs: nat)

  /** What a matcher returns for one event: its next state and whether it matched. */
  datatype Fed<S> = Fed(next: S, matched: bool)

  // ---------------------------------------------------------------------
  // Combination
  // ---------------------------------------------------------------------

  /** A combination matcher: the keys it requires and those it has seen go down. */
  datatype Chord = Chord(keys: set<VirtualKeyCode>, pressed: set<VirtualKeyCode>) {
    predicate Valid() { pressed <= keys }
    predicate Complete() { pressed == keys }
    function Reset(): Chord { Chord(keys, {}) }
  }

  /**
   * Feeds one event to a combination. A required key going down is added to
   * the pressed set, going up is removed; other keys are ignored. The chord
   * matches on the event that makes the pressed set complete.
   */
  function ChordFeed(c: Chord, e: KeyEvent): (r: Fed<Chord>)
    ensures r.next.keys == c.keys
    ensures c.Valid() ==> r.next.Valid()
    ensures e.key in c.keys ==> (e.key in r.next.pressed <==> e.isKeyDown)
    ensures e.key !in c.keys ==> r.next == c && !r.matched
    ensures forall k :: k != e.key ==> (k in r.next.pressed <==> k in c.pressed)
    ensures c.Valid() ==> (r.matched <==> !c.Complete() && r.next.Complete())
  {
    if e.key !in c.keys then Fed(c, false)
    else if e.isKeyDown then
      var pressed := c.pressed + {e.key};
      Fed(Chord(c.keys, pressed), e.key !in c.pressed && pressed == c.keys)
    else
      Fed(Chord(c.keys, c.pressed - {e.key}), false)
  }

  // ---------------------------------------------------------------------
  // Alternation
  // ---------------------------------------------------------------------

  ghost predicate AllValid(cs: seq<Chord>) {
    forall i :: 0 <= i < |cs| ==> cs[i].Valid()
  }

  /** Every branch of an alternation receives the event. */
  function AnyOfNext(cs: seq<Chord>, e: KeyEvent): (r: seq<Chord>)
    ensures |r| == |cs|
    ensures forall i :: 0 <= i < |cs| ==> r[i] == ChordFeed(cs[i], e).next
  {
    seq(|cs|, i requires 0 <= i < |cs| => ChordFeed(cs[i], e).next)
  }

  /** Some branch of an alternation matches on this event. */
  predicate AnyMatch(cs: seq<Chord>, e: KeyEvent)
  {
    exists i :: 0 <= i < |cs| && ChordFeed(cs[i], e).matched
  }

  /** The branch an alternation reports: the first one that matched on this event. */
  function FirstMatch(cs: seq<Chord>, e: KeyEvent): (r: Option<nat>)
    ensures r.None? <==> forall i :: 0 <= i < |cs| ==> !ChordFeed(cs[i], e).matched
    ensures r.Some? ==> r.value < |cs| && ChordFeed(cs[r.value], e).matched
    ensures r.Some? ==> forall i :: 0 <= i < r.value ==> !ChordFeed(cs[i], e).matched
  {
    if cs == [] then None
    else if ChordFeed(cs[0], e).matched then Some(0)
    else match FirstMatch(cs[1..], e)
      case None => None
      case Some(i) => Some(i + 1)
  }

  /** The three properties of FirstMatch single it out. */
  lemma FirstMatchUnique(cs: seq<Chord>, e: KeyEvent, w: Option<nat>)
    requires w.None? <==> forall i :: 0 <= i < |cs| ==> !ChordFeed(cs[i], e).matched
    requires w.Some? ==> w.value < |cs| && ChordFeed(cs[w.value], e).matched
    requires w.Some? ==> forall i :: 0 <= i < w.value ==> !ChordFeed(cs[i], e).matched
    ensures w == FirstMatch(cs, e)
  {
  }

  /** The branches of an alternation with nothing pressed. */
  function ResetAll(cs: seq<Chord>): (r: seq<Chord>)
    ensures |r| == |cs|
    ensures forall i :: 0 <= i < |cs| ==> r[i] == cs[i].Reset()
  {
    seq(|cs|, i requires 0 <= i < |cs| => cs[i].Reset())
  }

  /** The keys some branch requires. */
  function UnionKeys(cs: seq<Chord>): (r: set<VirtualKeyCode>)
    ensures forall i :: 0 <= i < |cs| ==> cs[i].keys <= r
    ensures forall k :: k in r ==> exists i :: 0 <= i < |cs| && k in cs[i].keys
  {
    set i, k | 0 <= i < |cs| && k in cs[i].keys :: k
  }

  /** The keys of an alternation depend only on the keys of its branches. */
  lemma SameKeysSameUnion(a: seq<Chord>, b: seq<Chord>)
    requires |a| == |b| && forall i :: 0 <= i < |a| ==> a[i].keys == b[i].keys
    ensures UnionKeys(a) == UnionKeys(b)
  {
    forall k ensures k in UnionKeys(a) <==> k in UnionKeys(b) {
      if k in UnionKeys(a) {
        var i :| 0 <= i < |a| && k in a[i].keys;
        assert k in b[i].keys;
      }
      if k in UnionKeys(b) {
        var i :| 0 <= i < |b| && k in b[i].keys;
        assert k in a[i].keys;
      }
    }
  }

  // ---------------------------------------------------------------------
  // Sequence steps and sequences
  // ---------------------------------------------------------------------

  /** A sequence step: a single combination or an alternation of combinations. */
  datatype StepState = One(chord: Chord) | AnyOf(branches: seq<Chord>) {
    ghost predicate Valid() {
      match this
      case One(c) => c.Valid()
      case AnyOf(bs) => AllValid(bs)
    }

    function Keys(): set<VirtualKeyCode> {
      match this
      case One(c) => c.keys
      case AnyOf(bs) => UnionKeys(bs)
    }

    /** The step with nothing pressed, as it is when the sequence enters it. */
    function Reset(): (r: StepState)
      ensures r.Valid() && r.Keys() == Keys() && r.One? == One?
    {
      match this
      case One(c) => One(c.Reset())
      case AnyOf(bs) =>
        var cleared := ResetAll(bs);
        SameKeysSameUnion(bs, cleared);
        AnyOf(cleared)
    }
  }

  /** Feeds one event to a step; an alternation step matches when some branch does. */
  function StepFeed(s: StepState, e: KeyEvent): (r: Fed<StepState>)
    ensures s.Valid() ==> r.next.Valid()
    ensures r.next.One? <==> s.One?
    ensures r.next.Keys() == s.Keys()
    ensures r.matched ==> e.isKeyDown && e.key in s.Keys()
    ensures s.One? ==> r.next.chord == ChordFeed(s.chord, e).next
    ensures s.One? && s.Valid() ==> (r.matched <==> !s.chord.Complete() && r.next.chord.Complete())
    ensures s.AnyOf? ==> r.next.branches == AnyOfNext(s.branches, e)
    ensures s.AnyOf? ==> (r.matched <==> AnyMatch(s.branches, e))
  {
    match s
    case One(c) =>
      var f := ChordFeed(c, e);
      Fed(One(f.next), f.matched)
    case AnyOf(bs) =>
      var next := AnyOfNext(bs, e);
      SameKeysSameUnion(bs, next);
      Fed(AnyOf(next), AnyMatch(bs, e))
  }

  /**
   * A sequence matcher: its ordered steps, its timeout (0 for none), whether a
   * key-down foreign to the step being waited for abandons the progress, the
   * index of that step and the time the previous step was completed.
   */
  datatype SequenceState = SequenceState(
    steps: seq<StepState>,
    timeoutMs: nat,
    resetOnStrayKey: bool,
    index: nat,
    lastStepAt: nat)
  {
    ghost predicate Valid() {
      && (index < |steps| || (index == 0 && steps == []))
      && forall i :: 0 <= i < |steps| ==> steps[i].Valid()
    }

    /**
     * The time allowed since the previous step has run out when `now` arrives:
     * never with a timeout of 0, never while waiting for the first step, and
     * not while the gap is at most the timeout.
     */
    predicate Expired(now: nat)
      ensures timeoutMs == 0 || index == 0 ==> !Expired(now)
      ensures now <= lastStepAt + timeoutMs ==> !Expired(now)
    {
      index > 0 && timeoutMs > 0 && now > lastStepAt + timeoutMs
    }

    /**
     * A key-down the waited-for step does not use, which abandons the progress
     * made so far when the reset policy is on.
     */
    predicate Abandons(e: KeyEvent)
      requires index < |steps|
    {
      resetOnStrayKey && index > 0 && e.isKeyDown && e.key !in steps[index].Keys()
    }

    /** The step the event at `now` is fed to: the first one once the gap has expired. */
    function ActiveIndex(now: nat): nat {
      if Expired(now) then 0 else index
    }

    /** Makes step `k` the one waited for, with nothing of it pressed yet. */
    function Enter(k: nat): (r: SequenceState)
      requires k < |steps|
      ensures Valid() ==> r.Valid()
      ensures r.index == k && |r.steps| == |steps|
    {
      this.(index := k, steps := steps[k := steps[k].Reset()])
    }
  }

  /**
   * Feeds one event to a sequence. An expired gap first returns the sequence to
   * its first step; the event then goes to the step waited for, and only to it.
   * Completing the last step matches and starts over; completing another step
   * advances to the next one and records the time.
   */
  function SequenceFeed(q: SequenceState, e: KeyEvent): (r: Fed<SequenceState>)
    requires q.Valid()
    ensures r.next.Valid()
    ensures |r.next.steps| == |q.steps|
    ensures r.next.timeoutMs == q.timeoutMs && r.next.resetOnStrayKey == q.resetOnStrayKey
    ensures var a := q.ActiveIndex(e.timeMs);
      r.next.index == 0 || r.next.index == a || r.next.index == a + 1
    ensures r.next.index == q.ActiveIndex(e.timeMs) + 1 ==> r.next.lastStepAt == e.timeMs
    ensures r.matched ==> r.next.index == 0
    ensures r.matched ==> |q.steps| == 1 || (q.index == |q.steps| - 1 && !q.Expired(e.timeMs))
    ensures q.Expired(e.timeMs) && |q.steps| > 1 ==> !r.matched
    ensures !q.Expired(e.timeMs) && q.steps != [] ==>
      (r.matched <==> q.index == |q.steps| - 1 && StepFeed(q.steps[q.index], e).matched)
  {
    if q.steps == [] then Fed(q, false)
    else Advance(if q.Expired(e.timeMs) then q.Enter(0) else q, e)
  }

  /** What the waited-for step makes of an event, once an expired sequence has been sent back to step 1. */
  function Advance(p: SequenceState, e: KeyEvent): (r: Fed<SequenceState>)
    requires p.Valid() && p.steps != []
    ensures r.next.Valid()
    ensures |r.next.steps| == |p.steps|
    ensures r.next.timeoutMs == p.timeoutMs && r.next.resetOnStrayKey == p.resetOnStrayKey
    ensures r.matched <==> StepFeed(p.steps[p.index], e).matched && p.index == |p.steps| - 1
  {
    var f := StepFeed(p.steps[p.index], e);
    var fed := p.(steps := p.steps[p.index := f.next]);
    if f.matched && p.index == |p.steps| - 1 then
      Fed(fed.Enter(0), true)
    else if f.matched then
      Fed(fed.Enter(p.index + 1).(lastStepAt := e.timeMs), false)
    else if p.Abandons(e) then
      Fed(fed.Enter(0), false)
    else
      Fed(fed, false)
  }

  /**
   * Where Advance leaves the sequence: back at step 1 after a match or an
   * abandoning key-down, at the next step (with the time recorded) after
   * completing an earlier step, and where it was otherwise.
   */
  lemma AdvanceMoves(p: SequenceState, e: KeyEvent)
    requires p.Valid() && p.steps != []
    ensures var r := Advance(p, e); var f := StepFeed(p.steps[p.index], e);
      && (r.matched ==> r.next.index == 0 && r.next.lastStepAt == p.lastStepAt)
      && (f.matched && p.index < |p.steps| - 1 ==> r.next.index == p.index + 1 && r.next.lastStepAt == e.timeMs)
      && (!f.matched && p.Abandons(e) ==> r.next.index == 0 && r.next.lastStepAt == p.lastStepAt)
      && (!f.matched && !p.Abandons(e) ==> r.next.index == p.index && r.next.lastStepAt == p.lastStepAt)
  {
  }

  /**
   * What Advance does to the steps: the waited-for step takes the event, the
   * step entered starts with nothing pressed, and no other step changes.
   */
  lemma AdvanceSteps(p: SequenceState, e: KeyEvent)
    requires p.Valid() && p.steps != []
    ensures var r := Advance(p, e); var f := StepFeed(p.steps[p.index], e);
      && (r.next.index != p.index ==>
            r.next.steps[p.index] == f.next && r.next.steps[r.next.index] == p.steps[r.next.index].Reset())
      && (r.next.index == p.index && !r.matched ==> r.next.steps[p.index] == f.next)
      && (r.next.index == p.index && r.matched ==> r.next.steps[p.index] == f.next.Reset())
      && (forall i :: 0 <= i < |p.steps| && i != p.index && i != r.next.index ==> r.next.steps[i] == p.steps[i])
  {
    var f := StepFeed(p.steps[p.index], e);
    if !f.matched && !p.Abandons(e) {
      assert Advance(p, e) == Fed(p.(steps := p.steps[p.index := f.next]), false);
    } else if f.matched && p.index < |p.steps| - 1 {
      AdvanceToNext(p, e);
      UpdatedTwice(p.steps, p.index, f.next, p.index + 1, p.steps[p.index + 1].Reset());
    } else {
      AdvanceToStart(p, e);
      if p.index != 0 {
        UpdatedTwice(p.steps, p.index, f.next, 0, p.steps[0].Reset());
      }
    }
  }

  /** A match, or a key-down that abandons the progress: step 1 is entered and cleared, and the time is kept. */
  lemma AdvanceToStart(p: SequenceState, e: KeyEvent)
    requires p.Valid() && p.steps != []
    requires var f := StepFeed(p.steps[p.index], e);
      (f.matched && p.index == |p.steps| - 1) || (!f.matched && p.Abandons(e))
    ensures var f := StepFeed(p.steps[p.index], e); var taken := p.steps[p.index := f.next];
      Advance(p, e) == Fed(p.(steps := taken[0 := taken[0].Reset()], index := 0), f.matched)
  {
    var fed := p.(steps := p.steps[p.index := StepFeed(p.steps[p.index], e).next]);
    assert Advance(p, e) == Fed(fed.Enter(0), StepFeed(p.steps[p.index], e).matched);
  }

  /** Completing a step other than the last: the next step is entered, cleared, and the time recorded. */
  lemma AdvanceToNext(p: SequenceState, e: KeyEvent)
    requires p.Valid() && p.index < |p.steps| - 1 && StepFeed(p.steps[p.index], e).matched
    ensures var k := p.index + 1; var taken := p.steps[p.index := StepFeed(p.steps[p.index], e).next];
      Advance(p, e) == Fed(p.(steps := taken[k := p.steps[k].Reset()], index := k, lastStepAt := e.timeMs), false)
  {
    var fed := p.(steps := p.steps[p.index := StepFeed(p.steps[p.index], e).next]);
    assert Advance(p, e) == Fed(fed.Enter(p.index + 1).(lastStepAt := e.timeMs), false);
  }

  /** Two updates of a sequence at different places: each place holds its new value, and the rest is as it was. */
  lemma UpdatedTwice<T>(s: seq<T>, i: nat, x: T, k: nat, y: T)
    requires i < |s| && k < |s| && i != k
    ensures var t := s[i := x][k := y];
      && |t| == |s| && t[i] == x && t[k] == y
      && forall j :: 0 <= j < |s| && j != i && j != k ==> t[j] == s[j]
  {
  }

  /** An event the waited-for step ignores, and that neither expires nor abandons the progress, changes nothing. */
  lemma IgnoredBySequence(q: SequenceState, e: KeyEvent)
    requires q.Valid() && q.steps != [] && !q.Expired(e.timeMs)
    requires StepFeed(q.steps[q.index], e) == Fed(q.steps[q.index], false)
    requires !q.Abandons(e)
    ensures SequenceFeed(q, e) == Fed(q, false)
  {
    assert q.steps[q.index := q.steps[q.index]] == q.steps;
  }

  /** An event that completes the step waited for, when that step is the last. */
  lemma CompletesLast(q: SequenceState, e: KeyEvent)
    requires q.Valid() && q.steps != [] && !q.Expired(e.timeMs)
    requires q.index == |q.steps| - 1 && StepFeed(q.steps[q.index], e).matched
    ensures SequenceFeed(q, e) == Fed(q.(steps := q.steps[q.index := StepFeed(q.steps[q.index], e).next]).Enter(0), true)
  {
    var fed := q.(steps := q.steps[q.index := StepFeed(q.steps[q.index], e).next]);
    assert Advance(q, e) == Fed(fed.Enter(0), true);
  }

  /** An event that completes the step waited for, when another step follows. */
  lemma CompletesStep(q: SequenceState, e: KeyEvent)
    requires q.Valid() && q.steps != [] && !q.Expired(e.timeMs)
    requires q.index < |q.steps| - 1 && StepFeed(q.steps[q.index], e).matched
    ensures SequenceFeed(q, e)
         == Fed(q.(steps := q.steps[q.index := StepFeed(q.steps[q.index], e).next]).Enter(q.index + 1).(lastStepAt := e.timeMs), false)
  {
    var fed := q.(steps := q.steps[q.index := StepFeed(q.steps[q.index], e).next]);
    assert Advance(q, e) == Fed(fed.Enter(q.index + 1).(lastStepAt := e.timeMs), false);
  }

  /** An event that the step waited for takes in without completing, and that abandons nothing. */
  lemma Progresses(q: SequenceState, e: KeyEvent)
    requires q.Valid() && q.steps != [] && !q.Expired(e.timeMs)
    requires !StepFeed(q.steps[q.index], e).matched
    requires !q.Abandons(e)
    ensures SequenceFeed(q, e) == Fed(q.(steps := q.steps[q.index := StepFeed(q.steps[q.index], e).next]), false)
  {
    var fed := q.(steps := q.steps[q.index := StepFeed(q.steps[q.index], e).next]);
    assert Advance(q, e) == Fed(fed, false);
  }

  /** A key-down that the waited-for step does not complete and that abandons the progress sends the sequence back to step 1. */
  lemma Abandoned(q: SequenceState, e: KeyEvent)
    requires q.Valid() && q.steps != [] && !q.Expired(e.timeMs)
    requires !StepFeed(q.steps[q.index], e).matched && q.Abandons(e)
    ensures SequenceFeed(q, e) == Fed(q.(steps := q.steps[q.index := StepFeed(q.steps[q.index], e).next]).Enter(0), false)
  {
    var fed := q.(steps := q.steps[q.index := StepFeed(q.steps[q.index], e).next]);
    assert Advance(q, e) == Fed(fed.Enter(0), false);
  }

  /**
   * An event arriving after the timeout has run out: the sequence first goes
   * back to step 1, cleared, and the event is then handled there, exactly as
   * AdvanceMoves and AdvanceSteps describe for a sequence at step 1.
   */
  lemma Expires(q: SequenceState, e: KeyEvent)
    requires q.Valid() && q.steps != [] && q.Expired(e.timeMs)
    ensures q.Enter(0).Valid() && q.Enter(0).index == 0
    ensures q.Enter(0).steps == q.steps[0 := q.steps[0].Reset()]
    ensures SequenceFeed(q, e) == Advance(q.Enter(0), e)
  {
  }

  /** A step ignores a key it does not use, and a key-up while nothing of it is pressed. */
  lemma StepIgnores(s: StepState, e: KeyEvent)
    requires e.key !in s.Keys() || (!e.isKeyDown && s.Reset() == s)
    ensures StepFeed(s, e) == Fed(s, false)
  {
    match s
    case One(c) =>
      if e.key in s.Keys() {
        assert c.pressed == {};
        assert c.pressed - {e.key} == c.pressed;
      }
    case AnyOf(bs) =>
      forall i | 0 <= i < |bs| ensures ChordFeed(bs[i], e) == Fed(bs[i], false) {
        if e.key in bs[i].keys {
          assert e.key in s.Keys();
          assert bs[i] == ResetAll(bs)[i];
          assert bs[i].pressed - {e.key} == bs[i].pressed;
        }
      }
      assert AnyOfNext(bs, e) == bs;
  }

  // ---------------------------------------------------------------------
  // Any handler, and the replay of an event list
  // ---------------------------------------------------------------------

  datatype HandlerState =
    | Combination(chord: Chord)
    | Alternation(branches: seq<Chord>)
    | Sequence(sequence: SequenceState)
  {
    ghost predicate Valid() {
      match this
      case Combination(c) => c.Valid()
      case Alternation(bs) => AllValid(bs)
      case Sequence(q) => q.Valid()
    }
  }

  /** Hands an event to the matcher of the handler's kind and reports its verdict; the kind is kept. */
  function HandlerFeed(h: HandlerState, e: KeyEvent): (r: Fed<HandlerState>)
    requires h.Valid()
    ensures r.next.Valid()
    ensures h.Combination? ==> r.next.Combination? && Fed(r.next.chord, r.matched) == ChordFeed(h.chord, e)
    ensures h.Alternation? ==>
      r.next.Alternation? && r.next.branches == AnyOfNext(h.branches, e) && (r.matched <==> AnyMatch(h.branches, e))
    ensures h.Sequence? ==> r.next.Sequence? && Fed(r.next.sequence, r.matched) == SequenceFeed(h.sequence, e)
  {
    match h
    case Combination(c) =>
      var f := ChordFeed(c, e);
      Fed(Combination(f.next), f.matched)
    case Alternation(bs) =>
      Fed(Alternation(AnyOfNext(bs, e)), AnyMatch(bs, e))
    case Sequence(q) =>
      var f := SequenceFeed(q, e);
      Fed(Sequence(f.next), f.matched)
  }

  /** The state after a list of events and the number of matches along the way. */
  datatype Outcome = Outcome(state: HandlerState, matches: nat)

  function Replay(h: HandlerState, es: seq<KeyEvent>): (r: Outcome)
    requires h.Valid()
    ensures r.state.Valid()
    ensures r.matches <= |es|
    decreases |es|
  {
    if es == [] then Outcome(h, 0)
    else
      var f := HandlerFeed(h, es[0]);
      var rest := Replay(f.next, es[1..]);
      Outcome(rest.state, rest.matches + (if f.matched then 1 else 0))
  }

  /** Replaying two lists one after the other is replaying their concatenation. */
  lemma {:induction false} ReplayAppend(h: HandlerState, a: seq<KeyEvent>, b: seq<KeyEvent>)
    requires h.Valid()
    ensures Replay(h, a + b).state == Replay(Replay(h, a).state, b).state
    ensures Replay(h, a + b).matches == Replay(h, a).matches + Replay(Replay(h, a).state, b).matches
    decreases |a|
  {
    if a == [] {
      assert a + b == b;
    } else {
      assert (a + b)[0] == a[0];
      assert (a + b)[1..] == a[1..] + b;
      ReplayAppend(HandlerFeed(h, a[0]).next, a[1..], b);
    }
  }
}
