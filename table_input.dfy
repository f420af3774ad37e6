/**
 * The debounced text input of a table cell.  It keeps the text being typed
 * (`internalValue`) apart from the committed `value` prop; every change of
 * the local text replaces the pending 300-unit timer, and when a timer
 * expires it commits the local text it captured unless that text equals the
 * captured `value` (or both are empty).  An external `value` replaces the
 * local text only while the input is not focused.  In single-line mode a
 * change whose text ends in a newline is ignored.  On the transition to
 * focused the input focuses its text area once and puts the caret at the end.
 *
 * Time is explicit: `now` advances only by `AdvanceStep`, and the pending
 * timer is a deadline together with the `value` and `internalValue` that the
 * timer's callback closed over when it was scheduled.
 */
module DebouncedInput {
  import opened Wrappers

  /** The `value` and `internalValue` of the input: a string, `null` or `undefined`. */
  datatype InputText = Undefined | Null | Chars(s: string)

  const DebounceDelay: nat := 300

  /** JavaScript falsiness of a string-or-nullish value. */
  predicate Falsy(t: InputText) {
    t.Undefined? || t.Null? || (t.Chars? && t.s == "")
  }

  /** The text shown: `internalValue ?? ""`. */
  function Display(t: InputText): (r: string)
    ensures |r| == 0 <==> Falsy(t)
    ensures t.Chars? ==> r == t.s
  {
    match t
    case Chars(s) => s
    case _ => ""
  }

  /** The test in `doUpdate`: does an expiring timer call `updateValue`? */
  predicate ShouldCommit(value: InputText, internalValue: InputText)
    ensures ShouldCommit(value, internalValue) ==> internalValue != value
    ensures Falsy(value) ==> (ShouldCommit(value, internalValue) <==> internalValue.Chars? && internalValue.s != "")
    ensures !Falsy(value) ==> (ShouldCommit(value, internalValue) <==> internalValue != value)
  {
    var emptyInitialValue := Falsy(value) || (value.Chars? && |value.s| == 0);
    if emptyInitialValue && Falsy(internalValue) then false
    else internalValue != value
  }

  predicate EndsWithNewline(text: string) {
    |text| > 0 && text[|text| - 1] == '\n'
  }

  /** The filter in `onChange`: multi-line inputs take every text, single-line ones no trailing newline. */
  predicate AcceptsChange(multiline: bool, text: string)
    ensures multiline ==> AcceptsChange(multiline, text)
    ensures !multiline ==> (AcceptsChange(multiline, text) <==> !(|text| > 0 && text[|text| - 1] == '\n'))
  {
    multiline || !EndsWithNewline(text)
  }

  /** `focus()` followed by `selectionStart = selectionEnd = caret`. */
  datatype DomAction = FocusAndPlaceCaret(caret: nat)

  datatype FocusOutcome = FocusOutcome(latch: bool, focusAt: Option<nat>)

  /**
   * The focus effect on the `focusedState` latch.  `caret` is the length of
   * the text in the text area.  The input is focused exactly on a rising edge;
   * afterwards the latch always equals `focused`.
   */
  function FocusStep(focused: bool, latch: bool, caret: nat): (r: FocusOutcome)
    ensures r.latch == focused
    ensures r.focusAt.Some? <==> focused && !latch
    ensures r.focusAt.Some? ==> r.focusAt.value == caret
  {
    if focused && !latch then FocusOutcome(true, Some(caret))
    else FocusOutcome(focused, None)
  }

  /** Running the focus effect again changes nothing: it may run on every render. */
  lemma FocusStepIdempotent(focused: bool, latch: bool, caret: nat, caret': nat)
    ensures var r := FocusStep(focused, latch, caret);
      FocusStep(focused, r.latch, caret') == FocusOutcome(r.latch, None)
  {
  }

  /** A scheduled `doUpdate`, with the `value` and `internalValue` it closed over. */
  datatype Timer = Timer(deadline: int, value: InputText, internalValue: InputText)

  datatype InputState = InputState(
    value: InputText,
    focused: bool,
    internalValue: InputText,
    latch: bool,
    now: int,
    timer: Option<Timer>,
    commits: seq<InputText>,
    actions: seq<DomAction>)

  /** What holds between events: the latch has settled and a pending timer lies ahead, within the delay. */
  predicate InputInvariant(s: InputState) {
    s.latch == s.focused && TimerInvariant(s)
  }

  /** A pending timer lies ahead, within the delay, and carries the current local text. */
  predicate TimerInvariant(s: InputState) {
    s.timer.Some? ==>
      && s.now < s.timer.value.deadline <= s.now + DebounceDelay
      && s.timer.value.internalValue == s.internalValue
  }

  /** The effect on `[internalValue]`: clear the pending timer and schedule a new one. */
  function TimerEffect(s: InputState): (r: InputState)
    ensures r.timer.Some? && r.timer.value.deadline == s.now + DebounceDelay
    ensures r.timer.value.value == s.value && r.timer.value.internalValue == s.internalValue
    ensures r.(timer := s.timer) == s
    ensures TimerInvariant(r)
  {
    s.(timer := Some(Timer(s.now + DebounceDelay, s.value, s.internalValue)))
  }

  /** The focus effect, with the caret at the end of the displayed text. */
  function FocusEffect(s: InputState): (r: InputState)
    ensures r.latch == s.focused
    ensures r.actions == s.actions + if s.focused && !s.latch then [FocusAndPlaceCaret(|Display(s.internalValue)|)] else []
    ensures r.(latch := s.latch, actions := s.actions) == s
    ensures TimerInvariant(s) ==> InputInvariant(r)
  {
    var o := FocusStep(s.focused, s.latch, |Display(s.internalValue)|);
    s.(latch := o.latch, actions := s.actions + if o.focusAt.Some? then [FocusAndPlaceCaret(o.focusAt.value)] else [])
  }

  /**
   * The effects after a render, in the order they are declared: the timer
   * effect when `internalValue` changed, the external-sync effect when `value`
   * or `focused` changed, and the focus effect (its `ref` is new on every
   * render, so it always runs).  A sync sets `internalValue`, which renders
   * once more: the timer effect and the focus effect run again.
   */
  function AfterRender(s: InputState, internalChanged: bool, propsChanged: bool): (r: InputState)
    ensures r.value == s.value && r.focused == s.focused && r.now == s.now && r.commits == s.commits
    ensures r.latch == s.focused
    ensures r.actions == s.actions + if s.focused && !s.latch then [FocusAndPlaceCaret(|Display(s.internalValue)|)] else []
    ensures var sync := propsChanged && !s.focused && s.value != s.internalValue;
      && r.internalValue == (if sync then s.value else s.internalValue)
      && r.timer == (if sync then Some(Timer(s.now + DebounceDelay, s.value, s.value))
                     else if internalChanged then Some(Timer(s.now + DebounceDelay, s.value, s.internalValue))
                     else s.timer)
    ensures internalChanged || TimerInvariant(s) ==> InputInvariant(r)
  {
    var s1 := if internalChanged then TimerEffect(s) else s;
    var sync := propsChanged && !s.focused && s.value != s.internalValue;
    var s2 := FocusEffect(s1);
    if sync then FocusEffect(TimerEffect(s2.(internalValue := s2.value))) else s2
  }

  /** Mounting: the local text starts as `value`; all three effects run once. */
  function Mount(value: InputText, focused: bool, now: int): (s: InputState)
    ensures InputInvariant(s)
    ensures s.value == value && s.focused == focused && s.now == now
    ensures s.internalValue == value && s.commits == []
    ensures s.timer == Some(Timer(now + DebounceDelay, value, value))
    ensures s.actions == if focused then [FocusAndPlaceCaret(|Display(value)|)] else []
  {
    AfterRender(InputState(value, focused, value, false, now, None, [], []), true, true)
  }

  /**
   * `onChange` with the text area's new text.  A rejected text, or one equal to
   * the local text, changes nothing; otherwise it becomes the local text and
   * the pending timer is replaced by one for it, `DebounceDelay` from now.
   */
  function ChangeStep(s: InputState, text: string, multiline: bool): (r: InputState)
    ensures !AcceptsChange(multiline, text) ==> r == s
    ensures Chars(text) == s.internalValue ==> r == s
    ensures AcceptsChange(multiline, text) && Chars(text) != s.internalValue ==>
      r.internalValue == Chars(text) && r.timer == Some(Timer(s.now + DebounceDelay, s.value, Chars(text)))
    ensures r.value == s.value && r.focused == s.focused && r.now == s.now && r.commits == s.commits
    ensures InputInvariant(s) ==> InputInvariant(r) && r.actions == s.actions
  {
    if AcceptsChange(multiline, text) && Chars(text) != s.internalValue then
      AfterRender(s.(internalValue := Chars(text)), true, false)
    else s
  }

  /**
   * A render with new props `value` and `focused`.  While unfocused, a changed
   * prop set with a `value` that is not the local text replaces the local text
   * (and restarts the timer); while focused the local text is kept.  On a
   * rising edge of `focused` the text area is focused once, caret at the end.
   */
  function PropsStep(s: InputState, value: InputText, focused: bool): (r: InputState)
    ensures r.value == value && r.focused == focused && r.now == s.now && r.commits == s.commits
    ensures var changed := value != s.value || focused != s.focused;
      if changed && !focused && value != s.internalValue then
        r.internalValue == value && r.timer == Some(Timer(s.now + DebounceDelay, value, value))
      else
        r.internalValue == s.internalValue && r.timer == s.timer
    ensures InputInvariant(s) ==> InputInvariant(r)
    ensures InputInvariant(s) ==>
      r.actions == s.actions + if focused && !s.focused then [FocusAndPlaceCaret(|Display(s.internalValue)|)] else []
  {
    var changed := value != s.value || focused != s.focused;
    AfterRender(s.(value := value, focused := focused), false, changed)
  }

  /** What an expiring timer commits. */
  function Fired(t: Timer): (c: seq<InputText>)
    ensures |c| <= 1
    ensures c == [] || c == [t.internalValue]
  {
    if ShouldCommit(t.value, t.internalValue) then [t.internalValue] else []
  }

  /** `d` units of time pass; a timer due by then fires once and is gone. */
  function AdvanceStep(s: InputState, d: nat): (r: InputState)
    ensures r.now == s.now + d
    ensures r.value == s.value && r.focused == s.focused && r.internalValue == s.internalValue
    ensures r.actions == s.actions && r.latch == s.latch
    ensures s.timer.Some? && s.timer.value.deadline <= s.now + d ==>
      r.timer == None && r.commits == s.commits + Fired(s.timer.value)
    ensures !(s.timer.Some? && s.timer.value.deadline <= s.now + d) ==>
      r.timer == s.timer && r.commits == s.commits
    ensures InputInvariant(s) ==> InputInvariant(r)
  {
    match s.timer
    case Some(t) =>
      if t.deadline <= s.now + d then s.(now := s.now + d, timer := None, commits := s.commits + Fired(t))
      else s.(now := s.now + d)
    case None => s.(now := s.now + d)
  }

  /** Unmounting clears the pending timer: nothing is committed any more. */
  function UnmountStep(s: InputState): (r: InputState)
    ensures r.timer == None && r.commits == s.commits
    ensures AdvanceStep(r, DebounceDelay).commits == s.commits
  {
    s.(timer := None)
  }

  /** A burst of keystrokes with no time passing. */
  function Changes(s: InputState, texts: seq<string>, multiline: bool): InputState
    decreases |texts|
  {
    if texts == [] then s else Changes(ChangeStep(s, texts[0], multiline), texts[1..], multiline)
  }

  /**
   * A burst commits nothing by itself and leaves either the timer it found
   * (when the local text never changed) or one timer for the final local text.
   */
  lemma {:induction false} BurstKeepsOneTimer(s: InputState, texts: seq<string>, multiline: bool)
    requires InputInvariant(s)
    ensures var r := Changes(s, texts, multiline);
      && InputInvariant(r)
      && r.commits == s.commits && r.now == s.now && r.value == s.value && r.actions == s.actions
      && ((r.timer == s.timer && r.internalValue == s.internalValue) ||
          r.timer == Some(Timer(s.now + DebounceDelay, s.value, r.internalValue)))
    decreases |texts|
  {
    if texts != [] {
      BurstKeepsOneTimer(ChangeStep(s, texts[0], multiline), texts[1..], multiline);
    }
  }

  /**
   * Debounce: however many keystrokes fall inside one window, when the delay
   * has passed at most one commit follows, and if the local text changed it
   * carries the final text.
   */
  lemma DebounceCommitsAtMostOnce(s: InputState, texts: seq<string>, multiline: bool)
    requires InputInvariant(s)
    ensures var r := Changes(s, texts, multiline);
      var f := AdvanceStep(r, DebounceDelay);
      && f.timer == None
      && (f.commits == s.commits || f.commits == s.commits + [r.internalValue])
      && |s.commits| <= |f.commits| <= |s.commits| + 1
      && (r.internalValue != s.internalValue ==>
            f.commits == s.commits + (if ShouldCommit(s.value, r.internalValue) then [r.internalValue] else []))
  {
    BurstKeepsOneTimer(s, texts, multiline);
  }

  /** A keystroke that sets the text area to `text`, followed by `pause` units of time. */
  datatype Keystroke = Keystroke(text: string, pause: nat)

  /** Keystrokes with time passing after each one. */
  function TimedChanges(s: InputState, keys: seq<Keystroke>, multiline: bool): InputState
    decreases |keys|
  {
    if keys == [] then s
    else TimedChanges(AdvanceStep(ChangeStep(s, keys[0].text, multiline), keys[0].pause), keys[1..], multiline)
  }

  /** Every keystroke is accepted and changes the local text, starting from `prev`. */
  predicate EveryKeyChanges(prev: InputText, keys: seq<Keystroke>, multiline: bool)
    decreases |keys|
  {
    keys == [] ||
    (AcceptsChange(multiline, keys[0].text) && Chars(keys[0].text) != prev &&
     EveryKeyChanges(Chars(keys[0].text), keys[1..], multiline))
  }

  /**
   * Debounce with time passing: keystrokes each followed by a pause shorter
   * than the delay commit nothing, however long the burst lasts in total,
   * because each keystroke restarts the timer.  The timer left behind holds
   * the final text and the `value` of the burst's start, and one more full
   * delay commits that final text at most once.
   */
  lemma {:induction false} TimedBurstCommitsOnce(s: InputState, keys: seq<Keystroke>, multiline: bool)
    requires InputInvariant(s)
    requires keys != []
    requires forall k :: 0 <= k < |keys| ==> keys[k].pause < DebounceDelay
    requires EveryKeyChanges(s.internalValue, keys, multiline)
    ensures var r := TimedChanges(s, keys, multiline);
      var last := Chars(keys[|keys| - 1].text);
      && InputInvariant(r)
      && r.commits == s.commits && r.value == s.value && r.internalValue == last
      && r.timer.Some? && r.timer.value.value == s.value && r.timer.value.internalValue == last
      && r.timer.value.deadline == r.now - keys[|keys| - 1].pause + DebounceDelay
      && AdvanceStep(r, DebounceDelay).commits ==
           s.commits + (if ShouldCommit(s.value, last) then [last] else [])
    decreases |keys|
  {
    var s' := AdvanceStep(ChangeStep(s, keys[0].text, multiline), keys[0].pause);
    if |keys| > 1 {
      assert forall k :: 0 <= k < |keys[1..]| ==> keys[1..][k].pause < DebounceDelay by {
        forall k | 0 <= k < |keys[1..]| ensures keys[1..][k].pause < DebounceDelay {
          assert keys[1..][k] == keys[k + 1];
        }
      }
      TimedBurstCommitsOnce(s', keys[1..], multiline);
      assert keys[1..][|keys[1..]| - 1] == keys[|keys| - 1];
    }
  }

  /**
   * Two keystrokes 200 units apart: the first timer would be due at 300, but
   * the second keystroke restarted it, so nothing is committed at 400 and
   * "ab" is committed at 500.
   */
  lemma KeystrokeRestartsTimer()
    ensures var s := Mount(Chars(""), true, 0);
      var r := TimedChanges(s, [Keystroke("a", 200), Keystroke("ab", 200)], false);
      && r.now == 400 && r.commits == []
      && AdvanceStep(r, 100).commits == [Chars("ab")]
  {
    var s := Mount(Chars(""), true, 0);
    var keys := [Keystroke("a", 200), Keystroke("ab", 200)];
    assert keys[1..] == [Keystroke("ab", 200)];
    assert keys[1..][1..] == [];
  }

  /** Typing "a", "ab", "abc" into an empty single-line input commits "abc", once. */
  lemma TypingThreeCharactersCommitsOnce(now: int)
    ensures var s := Mount(Chars(""), true, now);
      var f := AdvanceStep(Changes(s, ["a", "ab", "abc"], false), DebounceDelay);
      f.commits == [Chars("abc")]
  {
    var s := Mount(Chars(""), true, now);
    var r := Changes(s, ["a", "ab", "abc"], false);
    DebounceCommitsAtMostOnce(s, ["a", "ab", "abc"], false);
    assert r.internalValue == Chars("abc") by {
      var s1 := ChangeStep(s, "a", false);
      var s2 := ChangeStep(s1, "ab", false);
      var s3 := ChangeStep(s2, "abc", false);
      assert ["a", "ab", "abc"][1..] == ["ab", "abc"];
      assert ["ab", "abc"][1..] == ["abc"];
      assert Changes(s2, ["abc"], false) == Changes(s3, [], false);
    }
  }

  /** Number of rising edges of `focused`, starting from `from`. */
  function RisingEdges(from: bool, fs: seq<bool>): nat
    decreases |fs|
  {
    if fs == [] then 0 else (if fs[0] && !from then 1 else 0) + RisingEdges(fs[0], fs[1..])
  }

  /** A sequence of renders that only change `focused`. */
  function FocusChanges(s: InputState, fs: seq<bool>): InputState
    decreases |fs|
  {
    if fs == [] then s else FocusChanges(PropsStep(s, s.value, fs[0]), fs[1..])
  }

  /** Focus once: the text area is focused exactly once per rising edge of `focused`. */
  lemma {:induction false} FocusedOncePerRisingEdge(s: InputState, fs: seq<bool>)
    requires InputInvariant(s)
    ensures var r := FocusChanges(s, fs);
      InputInvariant(r) && |r.actions| == |s.actions| + RisingEdges(s.focused, fs) &&
      r.actions[..|s.actions|] == s.actions
    decreases |fs|
  {
    if fs != [] {
      var s' := PropsStep(s, s.value, fs[0]);
      FocusedOncePerRisingEdge(s', fs[1..]);
      var r := FocusChanges(s', fs[1..]);
      assert r.actions[..|s.actions|] == r.actions[..|s'.actions|][..|s.actions|];
    }
  }

  /** The input's state held in place, one method per event. */
  class TableInput {
    const multiline: bool
    var value: InputText
    var focused: bool
    var internalValue: InputText
    var focusedState: bool
    var now: int
    var timer: Option<Timer>
    var commits: seq<InputText>
    var actions: seq<DomAction>

    function State(): InputState
      reads this
    {
      InputState(value, focused, internalValue, focusedState, now, timer, commits, actions)
    }

    constructor (value: InputText, focused: bool, multiline: bool, now: int)
      ensures this.multiline == multiline
      ensures State() == Mount(value, focused, now)
    {
      this.multiline := multiline;
      this.value := value;
      this.focused := focused;
      internalValue := value;
      focusedState := false;
      this.now := now;
      timer := None;
      commits := [];
      actions := [];
      new;
      Rendered(true, true);
    }

    /** `setTimeout(doUpdate, 300)` after `clearTimeout` of the previous handle. */
    method ScheduleUpdate()
      modifies this
      ensures State() == TimerEffect(old(State()))
    {
      timer := Some(Timer(now + DebounceDelay, value, internalValue));
    }

    method FocusLatch()
      modifies this
      ensures State() == FocusEffect(old(State()))
    {
      if focused && !focusedState {
        focusedState := true;
        actions := actions + [FocusAndPlaceCaret(|Display(internalValue)|)];
      } else {
        focusedState := focused;
      }
    }

    /** The effects after a render. */
    method Rendered(internalChanged: bool, propsChanged: bool)
      modifies this
      ensures State() == AfterRender(old(State()), internalChanged, propsChanged)
    {
      if internalChanged {
        ScheduleUpdate();
      }
      var sync := propsChanged && !focused && value != internalValue;
      FocusLatch();
      if sync {
        internalValue := value;
        ScheduleUpdate();
        FocusLatch();
      }
    }

    /** The text area's `onChange`. */
    method OnChange(newValue: string)
      modifies this
      ensures State() == ChangeStep(old(State()), newValue, multiline)
    {
      if multiline || !EndsWithNewline(newValue) {
        if Chars(newValue) != internalValue {
          internalValue := Chars(newValue);
          Rendered(true, false);
        }
      }
    }

    /** The parent renders the input with `newValue` and `newFocused`. */
    method PropsChanged(newValue: InputText, newFocused: bool)
      modifies this
      ensures State() == PropsStep(old(State()), newValue, newFocused)
    {
      var changed := newValue != value || newFocused != focused;
      value := newValue;
      focused := newFocused;
      Rendered(false, changed);
    }

    /** Time passes; a due timer runs `doUpdate` (which may call `updateValue`). */
    method AdvanceTime(d: nat)
      modifies this
      ensures State() == AdvanceStep(old(State()), d)
    {
      now := now + d;
      if timer.Some? && timer.value.deadline <= now {
        var t := timer.value;
        timer := None;
        if ShouldCommit(t.value, t.internalValue) {
          commits := commits + [t.internalValue];
        }
      }
    }

    /** The cleanup of the timer effect on unmount. */
    method Unmount()
      modifies this
      ensures State() == UnmountStep(old(State()))
    {
      timer := None;
    }
  }
}
