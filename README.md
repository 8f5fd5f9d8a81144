# Dapplo.Windows in Dafny: hotkey matching, the NativePoint converter and the top-level window query

This project models three pieces of Dapplo.Windows and proves their properties:

- **The hotkey matching engine.** This is the behaviour of `KeyCombinationHandler`, `KeyOrCombinationHandler` and `KeySequenceHandler`, as fixed by the scenarios of `KeyboardHookTests`.
  - A combination matches once per press cycle: it fires on the key-down that completes its set of required keys.
  - An alternation matches when any of its branches matches.
  - A sequence is an ordered list of steps. Only the step being waited for sees an event. Completing the last step matches and starts the sequence over.
  - A gap longer than the sequence's `Timeout` between two steps sends the sequence back to its first step.
  - A subscription counts the matches while it is subscribed, and stops counting once it is disposed (the end of the `using` block).
- **`NativePointTypeConverter`.** It reads a `NativePoint` from `"X,Y"`, with each part read by `Int32.TryParse` under `NumberStyles.Integer` and the invariant culture. It writes a point back as `X,Y`.
- **`InteropWindowQuery`.** This covers:
  - the class names that are ignored;
  - `IsTopLevel`, the ordered guards that decide whether a window is a top-level window;
  - `GetTopWindows`, the walk over the windows from top to bottom along `GW_HWNDNEXT`;
  - `GetTopLevelWindows`, which keeps the top-level windows of that walk.

Modules, one file each:

| file | module | what it holds |
|---|---|---|
| `wrappers.dfy` | `Wrappers` | `Option` and `Result` |
| `key_matching.dfy` | `KeyMatching` | the matchers as values: what one event does to a combination, a step, a sequence or any handler, and the replay of an event list |
| `key_handlers.dfy` | `KeyHandlers` | the handler classes and the subscription. Each `Feed` is proved to move the object's state exactly as the matching function of `KeyMatching` does |
| `keyboard_hook_tests.dfy` | `KeyboardHookTests` | what a key-combination press injects, general facts about presses on a combination, and the three test scenarios driven through the handler objects |
| `native_point_converter.dfy` | `NativePointConverter` | `String.Split`, `Int32.TryParse`, `Int32.ToString` and the converter |
| `interop_window_query.dfy` | `InteropWindowQuery` | the window snapshot, the `IsTopLevel` guards, the Z-order walk and the filter |

Modelling decisions:

- **Key events and time.** A key event carries its virtual-key code, whether the key went down, and its time in milliseconds. `Task.Delay(d)` between presses is a gap of `d` in the event times. Each of the three scenarios takes its start time `start` as a parameter, so it is proved for every start time. Later presses come at fixed gaps after `start`.
- **What a press injects.** `KeyboardInputGenerator.KeyCombinationPress(k1, ..., kn)` is modelled as every key going down in the given order, then every key coming up in the same order, all at one time.
- **The handler rules.** The rules of the three handler classes are inferred from what the test scenarios require:
  - A combination keeps the set of its required keys that are down. A repeated key-down does not match again.
  - Entering a step (advancing, starting over, a timeout, an abandoned sequence) clears what that step had seen pressed.
  - A timeout of 0 means no timeout. A sequence is expired when an event arrives more than `Timeout` after the previous step was completed. The check happens before the event is fed to a step.
- **Nesting.** A step of a sequence is a combination or an alternation of combinations, and each branch of an alternation is a combination. A sequence is never a step or a branch; this is exactly the nesting the scenarios use.
- **The wrong-chord policy.** Whether a key-down foreign to the step being waited for abandons the progress is a flag, `resetOnStrayKey`. Both sequence scenarios are proved to give their counts under both settings.
- **The converter's base class.** The base `TypeConverter`'s answer to `CanConvertFrom` and `CanConvertTo` is a parameter. A conversion handed to the base class is the failure `Delegated`.
- **The operating system's windows.** The window attributes are a snapshot record. What User32 answers is a `Desktop` value:
  - the topmost child of a window;
  - the window below a window;
  - the snapshot of each window.

  A handle without a snapshot has no class name, no title and no size. IntPtr.Zero has no window below it.

## Model

| member | source | states |
|---|---|---|
| KeyMatching.ChordFeed | src/Dapplo.Windows.Tests/KeyboardHookTests.cs:49-58 | A required key going down is marked pressed, and going up is unmarked. A key the combination does not use changes nothing and never matches. The combination matches exactly on the event that takes its pressed set from incomplete to complete. |
| KeyMatching.AnyOfNext | src/Dapplo.Windows.Tests/KeyboardHookTests.cs:96-98 | Every branch of an alternation receives the event, and only that changes each branch. |
| KeyMatching.FirstMatch | src/Dapplo.Windows.Tests/KeyboardHookTests.cs:96-98 | The branch an alternation reports is the first branch that matched. It is none exactly when no branch matched. |
| KeyMatching.StepFeed | src/Dapplo.Windows.Tests/KeyboardHookTests.cs:94-99 | A step keeps its kind, its keys and its validity. It matches only on a key-down of one of its keys. A combination step moves as ChordFeed says and matches exactly when the event takes it from incomplete to complete. An alternation step feeds every branch, as AnyOfNext says, and matches exactly when some branch matches. |
| KeyMatching.SequenceFeed | src/Dapplo.Windows.Tests/KeyboardHookTests.cs:94-103 | The configuration is kept. The next index is 0, the active index or the one after it, and moving on records the event's time. A match happens only when the last step completes before the timeout, and it restarts the sequence at step 1. An expired sequence of several steps does not match. |
| KeyMatching.Advance | src/Dapplo.Windows.Tests/KeyboardHookTests.cs:94-99 | Once expiry is settled, the sequence keeps its steps' number, its timeout and its policy, and stays valid. It matches exactly when the waited-for step matches and that step is the last. |
| KeyMatching.AdvanceMoves | src/Dapplo.Windows.Tests/KeyboardHookTests.cs:108-118 | After a match the sequence is back at step 1. Completing an earlier step moves to the next step and records the event's time. An abandoning key-down sends it back to step 1. Any other event leaves the index and the recorded time as they were. |
| KeyMatching.AdvanceSteps | src/Dapplo.Windows.Tests/KeyboardHookTests.cs:94-99 | The waited-for step takes the event. A step that is entered starts with nothing pressed. No other step changes. |
| KeyMatching.AdvanceToStart | src/Dapplo.Windows.Tests/KeyboardHookTests.cs:83-85 | A match, or a key-down that abandons the progress, enters step 1 cleared and keeps the recorded time; the waited-for step keeps what the event did to it. |
| KeyMatching.AdvanceToNext | src/Dapplo.Windows.Tests/KeyboardHookTests.cs:108-111 | Completing a step other than the last enters the next step cleared and records the event's time. |
| KeyMatching.IgnoredBySequence | src/Dapplo.Windows.Tests/KeyboardHookTests.cs:78-81 | An event the waited-for step ignores changes nothing, provided it neither expires the sequence nor abandons its progress. |
| KeyMatching.Expires | src/Dapplo.Windows.Tests/KeyboardHookTests.cs:120-125 | An event after the timeout has run out first sends the sequence back to step 1, cleared, and is then handled at step 1 as Advance says. |
| KeyMatching.CompletesLast | src/Dapplo.Windows.Tests/KeyboardHookTests.cs:111-118 | An event that completes the last step in time matches and restarts the sequence. |
| KeyMatching.CompletesStep | src/Dapplo.Windows.Tests/KeyboardHookTests.cs:108 | An event that completes an earlier step in time moves to the next step and records the time. |
| KeyMatching.Progresses | src/Dapplo.Windows.Tests/KeyboardHookTests.cs:111 | An event the waited-for step takes in without completing, and that abandons nothing, only updates that step. |
| KeyMatching.Abandoned | src/Dapplo.Windows.Tests/KeyboardHookTests.cs:78-80 | Under the reset policy, a key-down the waited-for step does not use, after step 1, sends the sequence back to step 1 without a match. |
| KeyMatching.StepIgnores | src/Dapplo.Windows.Tests/KeyboardHookTests.cs:78-81 | A step ignores a key it does not use. It also ignores a key-up while nothing of it is pressed. |
| KeyMatching.HandlerFeed | src/Dapplo.Windows.Tests/KeyboardHookTests.cs:50 | Any handler takes the event as its kind says: a combination as ChordFeed, an alternation as AnyOfNext with a match exactly when some branch matches, a sequence as SequenceFeed. Validity and the kind are kept. |
| KeyMatching.SequenceState.Expired | src/Dapplo.Windows.Tests/KeyboardHookTests.cs:120-125 | A sequence with no timeout, or one still waiting for its first step, never expires. Neither does one whose last step was completed no more than the timeout ago. |
| KeyMatching.Replay | src/Dapplo.Windows.Tests/KeyboardHookTests.cs:50 | Replaying events through a handler keeps it valid and counts at most one match per event. |
| KeyMatching.ReplayAppend | src/Dapplo.Windows.Tests/KeyboardHookTests.cs:53-56 | Replaying two event lists one after the other equals replaying their concatenation, and the match counts add up. |
| KeyHandlers.KeyCombinationHandler.constructor | src/Dapplo.Windows.Tests/KeyboardHookTests.cs:49 | A new combination handler requires the given keys and has none pressed. |
| KeyHandlers.KeyCombinationHandler.Feed | src/Dapplo.Windows.Tests/KeyboardHookTests.cs:49-58 | Updates the pressed set and reports a match exactly as ChordFeed does. |
| KeyHandlers.KeyCombinationHandler.Reset | src/Dapplo.Windows.Tests/KeyboardHookTests.cs:68-70 | Forgets every pressed key and keeps the required keys. |
| KeyHandlers.KeyOrCombinationHandler.constructor | src/Dapplo.Windows.Tests/KeyboardHookTests.cs:96-98 | A new alternation handler holds the given combination handlers as its branches, in order. |
| KeyHandlers.KeyOrCombinationHandler.Feed | src/Dapplo.Windows.Tests/KeyboardHookTests.cs:96-98 | A loop feeds every branch. The branches end as AnyOfNext says, and the reported winner is FirstMatch. |
| KeyHandlers.KeyOrCombinationHandler.Reset | src/Dapplo.Windows.Tests/KeyboardHookTests.cs:96-98 | A loop clears every branch. |
| KeyHandlers.FeedStep | src/Dapplo.Windows.Tests/KeyboardHookTests.cs:94-99 | A step object moves as StepFeed says. |
| KeyHandlers.ResetStep | src/Dapplo.Windows.Tests/KeyboardHookTests.cs:94-99 | A step object is cleared as StepState.Reset says. |
| KeyHandlers.KeySequenceHandler.constructor | src/Dapplo.Windows.Tests/KeyboardHookTests.cs:94-103 | A new sequence handler holds the given steps, timeout and policy, and waits at step 1. |
| KeyHandlers.KeySequenceHandler.EnterStep | src/Dapplo.Windows.Tests/KeyboardHookTests.cs:94-103 | Makes a step the one waited for, clears it and records the time. No other step changes. |
| KeyHandlers.KeySequenceHandler.FeedActive | src/Dapplo.Windows.Tests/KeyboardHookTests.cs:68-70 | Only the step waited for sees the event. |
| KeyHandlers.KeySequenceHandler.Feed | src/Dapplo.Windows.Tests/KeyboardHookTests.cs:94-125 | The handler's state moves, and the match is reported, exactly as SequenceFeed says. |
| KeyHandlers.KeySequenceHandler.Advance | src/Dapplo.Windows.Tests/KeyboardHookTests.cs:94-118 | Once expiry is settled, the handler moves exactly as KeyMatching.Advance says. |
| KeyHandlers.FeedHandler | src/Dapplo.Windows.Tests/KeyboardHookTests.cs:50 | Any handler object moves as HandlerFeed says. |
| KeyHandlers.Subscription.constructor | src/Dapplo.Windows.Tests/KeyboardHookTests.cs:48-50 | A new subscription is subscribed, with a count of 0. |
| KeyHandlers.Subscription.Deliver | src/Dapplo.Windows.Tests/KeyboardHookTests.cs:50 | While subscribed, the handler takes the event and the count grows by one exactly on a match. Once disposed, nothing changes. |
| KeyHandlers.Subscription.DeliverAll | src/Dapplo.Windows.Tests/KeyboardHookTests.cs:50-57 | A loop delivers a list of events. The handler ends as Replay says, and the count grows by Replay's number of matches. |
| KeyHandlers.Subscription.Dispose | src/Dapplo.Windows.Tests/KeyboardHookTests.cs:50-61 | Ends the subscription and keeps the count. |
| KeyboardHookTests.KeyCombinationPress | src/Dapplo.Windows.Tests/KeyboardHookTests.cs:53 | A press of n keys injects 2n events: each key goes down in the given order, then each key comes up in the same order, all at one time. |
| KeyboardHookTests.DownsOnChord | src/Dapplo.Windows.Tests/KeyboardHookTests.cs:53 | Key-downs add the required keys among them. They match once exactly when they take an incomplete combination to complete. |
| KeyboardHookTests.UpsOnChord | src/Dapplo.Windows.Tests/KeyboardHookTests.cs:53 | Key-ups release the required keys among them and never match. |
| KeyboardHookTests.PressCycle | src/Dapplo.Windows.Tests/KeyboardHookTests.cs:53-55 | One press of some keys on a released combination leaves it released. It matches once if the press includes every required key, and never otherwise. |
| KeyboardHookTests.SingleCombinationScenario | src/Dapplo.Windows.Tests/KeyboardHookTests.cs:45-62 | Two presses of Back+RightShift while subscribed count 2. A third press after disposal leaves the count at 2. |
| KeyboardHookTests.FirstPrint | src/Dapplo.Windows.Tests/KeyboardHookTests.cs:75 | Print completes step 1 without a match, and the sequence waits for Shift+A. |
| KeyboardHookTests.WrongChordIgnored | src/Dapplo.Windows.Tests/KeyboardHookTests.cs:78-80 | Without the reset policy, Shift+B leaves the sequence waiting for Shift+A, with no match. |
| KeyboardHookTests.WrongChordResets | src/Dapplo.Windows.Tests/KeyboardHookTests.cs:78-80 | With the reset policy, the key B sends the sequence back to step 1, with no match. |
| KeyboardHookTests.SecondPrintIgnored | src/Dapplo.Windows.Tests/KeyboardHookTests.cs:81 | Without the reset policy, a second Print is ignored by the Shift+A step. |
| KeyboardHookTests.ShiftACompletes | src/Dapplo.Windows.Tests/KeyboardHookTests.cs:83-85 | Shift+A completes the last step. It matches once, and the sequence starts over. |
| KeyboardHookTests.DeliverFirstPrint | src/Dapplo.Windows.Tests/KeyboardHookTests.cs:75 | A press of Print delivered to the subscription moves the sequence to step 2 and leaves the count unchanged. |
| KeyboardHookTests.DeliverWrongChord | src/Dapplo.Windows.Tests/KeyboardHookTests.cs:78-80 | A press of Shift+B leaves the count unchanged under either policy. |
| KeyboardHookTests.DeliverSecondPrint | src/Dapplo.Windows.Tests/KeyboardHookTests.cs:81 | Without the reset policy, a second press of Print changes nothing. |
| KeyboardHookTests.DeliverShiftA | src/Dapplo.Windows.Tests/KeyboardHookTests.cs:83-85 | A press of Shift+A at step 2 adds one to the count and restarts the sequence. |
| KeyboardHookTests.SequenceScenario | src/Dapplo.Windows.Tests/KeyboardHookTests.cs:64-88 | Under either policy, the counts are 0 after Print, 0 after Shift+B, and 1 after Print, Shift+A. |
| KeyboardHookTests.TwoBranches | src/Dapplo.Windows.Tests/KeyboardHookTests.cs:96-98 | A two-branch alternation step, fed, cleared or asked for its keys, acts branch by branch. |
| KeyboardHookTests.AlternativeKeys | src/Dapplo.Windows.Tests/KeyboardHookTests.cs:96-98 | The keys of the Shift+A or Shift+B step are Shift, A and B. |
| KeyboardHookTests.AlternativeReset | src/Dapplo.Windows.Tests/KeyboardHookTests.cs:96-98 | Clearing that step clears both branches. |
| KeyboardHookTests.AlternativeShift | src/Dapplo.Windows.Tests/KeyboardHookTests.cs:96-98 | Shift goes down in both branches without a match. |
| KeyboardHookTests.AlternativeA | src/Dapplo.Windows.Tests/KeyboardHookTests.cs:96-98 | With Shift held, A completes the first branch: a match. |
| KeyboardHookTests.AlternativeB | src/Dapplo.Windows.Tests/KeyboardHookTests.cs:96-98 | With Shift held, B completes the second branch: a match. |
| KeyboardHookTests.OptionalFirstPrint | src/Dapplo.Windows.Tests/KeyboardHookTests.cs:108 | Print completes step 1 whatever the alternation last saw, and records the time. |
| KeyboardHookTests.OptionalShiftDown | src/Dapplo.Windows.Tests/KeyboardHookTests.cs:111 | Within 200 ms of Print, Shift goes down in both branches. |
| KeyboardHookTests.OptionalShiftB | src/Dapplo.Windows.Tests/KeyboardHookTests.cs:111-113 | Within 200 ms of Print, B completes the sequence through the second branch. The releases are ignored. |
| KeyboardHookTests.OptionalShiftA | src/Dapplo.Windows.Tests/KeyboardHookTests.cs:116-118 | Within 200 ms of Print, A completes the sequence through the first branch. The releases are ignored. |
| KeyboardHookTests.OptionalShiftATooLate | src/Dapplo.Windows.Tests/KeyboardHookTests.cs:120-125 | More than 200 ms after Print, Shift sends the sequence back to step 1. Nothing of Shift+A then matches. |
| KeyboardHookTests.DeliverOptionalPrint | src/Dapplo.Windows.Tests/KeyboardHookTests.cs:108 | A press of Print moves the sequence to the alternation step and leaves the count unchanged. |
| KeyboardHookTests.DeliverOptionalShiftB | src/Dapplo.Windows.Tests/KeyboardHookTests.cs:111-113 | A press of Shift+B in time adds one to the count. |
| KeyboardHookTests.DeliverOptionalShiftA | src/Dapplo.Windows.Tests/KeyboardHookTests.cs:116-118 | A press of Shift+A in time adds one to the count. |
| KeyboardHookTests.DeliverLateShiftA | src/Dapplo.Windows.Tests/KeyboardHookTests.cs:122-125 | A press of Shift+A after the timeout leaves the count unchanged. |
| KeyboardHookTests.OptionalKeysScenario | src/Dapplo.Windows.Tests/KeyboardHookTests.cs:90-127 | Under either wrong-chord policy, the counts are 0 after Print, 1 after Shift+B, 2 after Print and Shift+A, and still 2 after Print and a Shift+A 400 ms later. |
| NativePointConverter.Split | src/Dapplo.Windows.Common/TypeConverters/NativePointTypeConverter.cs:55 | There is one more part than there are commas. No part contains a comma. Joined with commas, the parts give the string back. |
| NativePointConverter.SplitWithout | src/Dapplo.Windows.Common/TypeConverters/NativePointTypeConverter.cs:55-56 | A string without a comma splits into itself alone. |
| NativePointConverter.SplitAt | src/Dapplo.Windows.Common/TypeConverters/NativePointTypeConverter.cs:55-57 | The text before the first comma is the first part. |
| NativePointConverter.Digits | src/Dapplo.Windows.Common/TypeConverters/NativePointTypeConverter.cs:72 | The decimal digits of a value are non-empty and all digits, and they read back as that value. |
| NativePointConverter.FormatInt32 | src/Dapplo.Windows.Common/TypeConverters/NativePointTypeConverter.cs:72 | A written integer is non-empty, has no comma, and neither starts nor ends with white space. |
| NativePointConverter.DigitsCanonical | src/Dapplo.Windows.Common/TypeConverters/NativePointTypeConverter.cs:72 | The digits of a value have no leading zero: the first digit is '0' only for 0, which is written "0". |
| NativePointConverter.FormatCanonical | src/Dapplo.Windows.Common/TypeConverters/NativePointTypeConverter.cs:72 | A written integer starts with '-' exactly when it is negative. The rest is the digits of its magnitude, with no leading zero, so there is no "+7", "007" or "-0". |
| NativePointConverter.ParseUnsigned | src/Dapplo.Windows.Common/TypeConverters/NativePointTypeConverter.cs:57-58 | Digits without a sign read as their value when it fits in 32 bits. |
| NativePointConverter.ParseNegative | src/Dapplo.Windows.Common/TypeConverters/NativePointTypeConverter.cs:57-58 | Digits after '-' read as the negated value when it fits in 32 bits. |
| NativePointConverter.TryParseInt32 | src/Dapplo.Windows.Common/TypeConverters/NativePointTypeConverter.cs:57-58 | Text with no decimal digit in it is never a number. What it reads as in full is stated by ParseNumeral, ParseAccepts, ParsePositive, ParseOverflow and ParseIgnoresWhite. |
| NativePointConverter.ParseNumeral | src/Dapplo.Windows.Common/TypeConverters/NativePointTypeConverter.cs:57-58 | White space, an optional '+' or '-', at least one digit and white space read as the signed value of the digits when it fits in 32 bits, and as no number otherwise. |
| NativePointConverter.ParseAccepts | src/Dapplo.Windows.Common/TypeConverters/NativePointTypeConverter.cs:57-58 | Whatever reads as a number has that shape (white space, an optional sign, digits, white space), and the number is the signed value of its digits. |
| NativePointConverter.ParsePositive | src/Dapplo.Windows.Common/TypeConverters/NativePointTypeConverter.cs:57-58 | A '+' in front of the digits does not change what they read as. |
| NativePointConverter.ParseOverflow | src/Dapplo.Windows.Common/TypeConverters/NativePointTypeConverter.cs:57-58 | Digits whose value is 2^31 or more, with or without '+', are not a number. |
| NativePointConverter.ParseFormat | src/Dapplo.Windows.Common/TypeConverters/NativePointTypeConverter.cs:57-72 | Every Int32, once written, reads back as itself. |
| NativePointConverter.ParseIgnoresWhite | src/Dapplo.Windows.Common/TypeConverters/NativePointTypeConverter.cs:57-58 | White space before and after a part does not change what it reads as. |
| NativePointConverter.CanConvertFrom | src/Dapplo.Windows.Common/TypeConverters/NativePointTypeConverter.cs:37-40 | True for string. Any other source type gets the base converter's answer. |
| NativePointConverter.CanConvertTo | src/Dapplo.Windows.Common/TypeConverters/NativePointTypeConverter.cs:44-47 | True for string. Any other destination type gets the base converter's answer. |
| NativePointConverter.ConvertFrom | src/Dapplo.Windows.Common/TypeConverters/NativePointTypeConverter.cs:51-64 | Only a string with exactly one comma can become a point. Anything else goes to the base converter. |
| NativePointConverter.ConvertTo | src/Dapplo.Windows.Common/TypeConverters/NativePointTypeConverter.cs:68-75 | Succeeds exactly for a point written to string. The text is then X as Int32.ToString writes it, one comma, and Y as Int32.ToString writes it, so it has exactly one comma. |
| NativePointConverter.RoundTrip | src/Dapplo.Windows.Common/TypeConverters/NativePointTypeConverter.cs:55-72 | A point written to a string and read back is the same point. |
| NativePointConverter.ConvertFromParts | src/Dapplo.Windows.Common/TypeConverters/NativePointTypeConverter.cs:55-60 | A string of two comma-free parts around one comma becomes a point exactly when both parts parse. The first part is X and the second is Y. |
| NativePointConverter.ConvertFromNeedsOneComma | src/Dapplo.Windows.Common/TypeConverters/NativePointTypeConverter.cs:55-63 | A string with no comma, or with several, goes to the base converter. |
| NativePointConverter.ConvertMatchesCanConvert | src/Dapplo.Windows.Common/TypeConverters/NativePointTypeConverter.cs:37-70 | The converter itself converts only from and to the types it says it handles. |
| InteropWindowQuery.IsTopLevel | Dapplo.Windows/Desktop/InteropWindowQuery.cs:48-92 | A window is not top-level in any of these cases: an ignored class (Progman, Button, Dwm); an empty title; empty bounds; a parent; WS_EX_TOOLWINDOW; WS_EX_NOREDIRECTIONBITMAP on a window that is not a Windows 8 app; no WS_VISIBLE; minimized. |
| InteropWindowQuery.PassingAllGuards | Dapplo.Windows/Desktop/InteropWindowQuery.cs:58-91 | A window that passes every guard is top-level exactly when it is not minimized. |
| InteropWindowQuery.Win8AppsKeepRedirectionExemption | Dapplo.Windows/Desktop/InteropWindowQuery.cs:82-85 | For a Windows 8 app, WS_EX_NOREDIRECTIONBITMAP does not change the answer. |
| InteropWindowQuery.ZOrder | Dapplo.Windows/Desktop/InteropWindowQuery.cs:114-122 | The walk starts with the topmost child, even when it is 0. Each later handle is the window below the previous one. No later handle is 0, and the window below the last one is 0. |
| InteropWindowQuery.GetTopWindows | Dapplo.Windows/Desktop/InteropWindowQuery.cs:114-122 | The do-while loop yields exactly ZOrder. |
| InteropWindowQuery.FilterTopLevel | Dapplo.Windows/Desktop/InteropWindowQuery.cs:98-107 | A handle is kept exactly when it is in the list and its window is top-level. The result is no longer than the list. |
| InteropWindowQuery.NullNeverTopLevel | Dapplo.Windows/Desktop/InteropWindowQuery.cs:98-107 | Handle 0 is never among the top-level windows. |
| InteropWindowQuery.FilterAppend | Dapplo.Windows/Desktop/InteropWindowQuery.cs:100-106 | Filtering keeps order: filtering two lists one after the other gives the two filtered lists one after the other. |
| InteropWindowQuery.GetTopLevelWindows | Dapplo.Windows/Desktop/InteropWindowQuery.cs:98-107 | The loop yields exactly the top-level windows of GetTopWindows for the desktop, in Z-order. |

## Left out

- The keyboard hook, the Rx `Where`/`Subscribe` plumbing, input injection and `Task.Delay`: events are explicit, timestamped values, and a delay is a gap between timestamps.
- KeyboardHookTests.DeliverFirstPrint, DeliverWrongChord, DeliverSecondPrint, DeliverShiftA, DeliverOptionalPrint, DeliverOptionalShiftB, DeliverOptionalShiftA, DeliverLateShiftA: these assume that `KeyCombinationPress` injects all key-downs in order, then all key-ups in order, at one time. The real injection goes through `SendInput`, and its exact event order is not part of this model.
- The rules of `KeyCombinationHandler`, `KeyOrCombinationHandler` and `KeySequenceHandler` are inferred from the test scenarios, not read from the handler classes (see the decisions above).
- Deeper nesting of handlers is not modelled: a sequence as a step or a branch, an alternation or a sequence inside an alternation. Steps and branches are only the kinds listed under the decisions above.
- Handler configuration errors are not modelled: a handler with no keys or no steps is accepted and never matches.
- KeyHandlers.KeyOrCombinationHandler.constructor: requires distinct branch objects. The same handler object given twice as a branch is not modelled.
- KeyHandlers.KeySequenceHandler.constructor: requires step objects that share no handler object. A handler object used in two steps, which the source would accept, is not modelled.
- The `Handled` suppression experiments (src/Dapplo.Windows.Tests/KeyboardHookTests.cs:149-180) are left out: they are commented out as tests and depend on hook propagation.
- `KeyHelper.VirtualKeyCodesFromString` and `VirtualCodeToLocaleDisplayText` (src/Dapplo.Windows.Tests/KeyboardHookTests.cs:130-147) are left out: they are helpers outside the matching engine, and the display text depends on the keyboard layout and locale.
- KeyMatching.ChordFeed: keys are compared by exact virtual-key code. A generic modifier (Shift, Control, Menu) among a handler's keys is not matched by its Left/Right variant, so the model assumes the events carry the codes the handler lists.
- NativePointConverter.TryParseInt32: does not accept the trailing NUL characters that .NET's parser also skips. It reads only ASCII digits with the invariant culture's '+' and '-'.
- NativePointConverter.FormatInt32: writes invariant digits. The culture passed to `ConvertTo` is not modelled, because the interpolated string uses the current culture.
- The base `TypeConverter` conversions themselves are the failure `Delegated`. Its `CanConvertFrom`/`CanConvertTo` answers are parameters.
- `GetLinkedWindows` (Dapplo.Windows/Desktop/InteropWindowQuery.cs:147-170), `GetActiveWindow` and `GetDesktopWindow` are left out: they are thin wrappers over User32 and process calls.
- How `InteropWindow` fetches and caches its attributes is left out: a snapshot holds the values its getters would return.
- InteropWindowQuery.GetTopWindows: only walks that reach handle 0 are modelled (a ghost bound `n`). On a `GW_HWNDNEXT` cycle the source would enumerate forever. Lazy `yield` enumeration is modelled as the complete list.
- Windows appearing, closing or changing while the walk is under way are not modelled.
