/**
 * The value controller of an editable table cell.  It keeps a working copy
 * (`internalValue`) of the field's value, overwrites it when the `value` prop
 * changes, re-validates it whenever it diverges from `value`, and on each
 * successful validation notifies the table through `onValueChange`.
 *
 * Validation is asynchronous: issuing one appends the captured working value
 * to `pending`; each outstanding validation later resolves or rejects, in any
 * order.  A stale resolution is not discarded: it still clears the error and
 * commits the value it captured.
 *
 * The step functions below specify each event on a `CellState`; the class
 * `CellController` implements them on fields updated in place.
 */
module Controller {
  import opened Wrappers
  import opened Values

  datatype ValidationError = ValidationError(message: string)

  /** One call of `onValueChange({value, name, setError, setSaved})`. */
  datatype Commit = Commit(value: Value, name: string)

  datatype CellState = CellState(
    value: Value,
    internalValue: Value,
    error: Option<ValidationError>,
    saved: bool,
    pending: seq<Value>,
    commits: seq<Commit>)

  /** `updateValue` stores `null` for `undefined` and anything else as it is. */
  function Normalize(v: Value): (r: Value)
    ensures r != Undefined
    ensures v == Undefined ==> r == Null
    ensures v != Undefined ==> r == v
  {
    if v == Undefined then Null else v
  }

  /** `s` without its `i`-th element. */
  function RemoveAt(s: seq<Value>, i: nat): (r: seq<Value>)
    requires i < |s|
    ensures |r| == |s| - 1
    ensures forall j :: 0 <= j < i ==> r[j] == s[j]
    ensures forall j :: i <= j < |r| ==> r[j] == s[j + 1]
  {
    s[..i] + s[i + 1..]
  }

  /**
   * The effect on `[internalValue]`: when the working value is not deep-equal
   * to `value`, mark the cell unsaved and issue a validation of it.
   */
  function InternalValueEffect(s: CellState): (r: CellState)
    ensures r.value == s.value && r.internalValue == s.internalValue
    ensures r.error == s.error && r.commits == s.commits
    ensures DeepEqual(s.value, s.internalValue) ==> r == s
    ensures !DeepEqual(s.value, s.internalValue) ==> !r.saved && r.pending == s.pending + [s.internalValue]
  {
    if !DeepEqual(s.value, s.internalValue) then
      s.(saved := false, pending := s.pending + [s.internalValue])
    else s
  }

  /**
   * The effect on `[value]`: a `value` that is not identical to the working
   * value overwrites it (and the working value's own effect then runs).
   */
  function ValueEffect(s: CellState): (r: CellState)
    ensures r.value == s.value && r.internalValue == s.value
    ensures r.pending == s.pending && r.saved == s.saved
    ensures r.error == s.error && r.commits == s.commits
  {
    DeepEqualReflexive(s.value);
    if s.value != s.internalValue then InternalValueEffect(s.(internalValue := s.value)) else s
  }

  /** A freshly mounted cell: both effects run once and do nothing. */
  function Mount(value: Value): (s: CellState)
    ensures s.value == value && s.internalValue == value
    ensures s.error == None && !s.saved && s.pending == [] && s.commits == []
  {
    DeepEqualReflexive(value);
    InternalValueEffect(ValueEffect(CellState(value, value, None, false, [], [])))
  }

  /**
   * The table passes `v` as the `value` prop.  The effect on `[value]` runs
   * only when `v` is not the previous prop; then `v` wins over local edits.
   * Adopting the external value never issues a validation nor commits.
   */
  function ValuePropStep(s: CellState, v: Value): (r: CellState)
    ensures r.value == v
    ensures v != s.value ==> r.internalValue == v
    ensures v == s.value ==> r == s
    ensures r.pending == s.pending && r.saved == s.saved
    ensures r.commits == s.commits && r.error == s.error
  {
    DeepEqualReflexive(v);
    if v == s.value then s else ValueEffect(s.(value := v))
  }

  /**
   * A widget calls `updateValue(v)`.  The normalised value becomes the working
   * value; when that changes it and it is not deep-equal to `value`, the cell
   * becomes unsaved and a validation of exactly that value is issued.
   */
  function UpdateValueStep(s: CellState, v: Value): (r: CellState)
    ensures r.internalValue == Normalize(v)
    ensures r.value == s.value && r.commits == s.commits && r.error == s.error
    ensures Normalize(v) == s.internalValue ==> r == s
    ensures DeepEqual(s.value, Normalize(v)) ==> r.pending == s.pending && r.saved == s.saved
    ensures Normalize(v) != s.internalValue && !DeepEqual(s.value, Normalize(v)) ==>
      !r.saved && r.pending == s.pending + [Normalize(v)]
  {
    var u := Normalize(v);
    if u == s.internalValue then s else InternalValueEffect(s.(internalValue := u))
  }

  /**
   * The `i`-th outstanding validation succeeds: the error is cleared and, when
   * the table gave an `onValueChange`, the value captured at issue time is
   * committed under the field's `name` (even if it is stale by now).
   */
  function ResolvedStep(s: CellState, i: nat, name: string, notify: bool): (r: CellState)
    requires i < |s.pending|
    ensures r.error == None
    ensures r.value == s.value && r.internalValue == s.internalValue && r.saved == s.saved
    ensures r.pending == RemoveAt(s.pending, i)
    ensures notify ==> r.commits == s.commits + [Commit(s.pending[i], name)]
    ensures !notify ==> r.commits == s.commits
  {
    var captured := s.pending[i];
    s.(error := None,
       pending := RemoveAt(s.pending, i),
       commits := if notify then s.commits + [Commit(captured, name)] else s.commits)
  }

  /** The `i`-th outstanding validation fails: the error is set, nothing is committed. */
  function RejectedStep(s: CellState, i: nat, e: ValidationError): (r: CellState)
    requires i < |s.pending|
    ensures r.error == Some(e)
    ensures r.commits == s.commits
    ensures r.value == s.value && r.internalValue == s.internalValue && r.saved == s.saved
    ensures r.pending == RemoveAt(s.pending, i)
  {
    s.(error := Some(e), pending := RemoveAt(s.pending, i))
  }

  /** Events a cell reacts to, including the `setSaved`/`setError` callbacks it hands out. */
  datatype Event =
    | ValueProp(v: Value)
    | WidgetUpdate(v: Value)
    | Resolved(i: nat)
    | Rejected(i: nat, e: ValidationError)
    | SetSavedCallback(saved: bool)
    | SetErrorCallback(e: ValidationError)

  /** One event; a resolution or rejection naming no outstanding validation is no event. */
  function Step(s: CellState, ev: Event, name: string, notify: bool): CellState {
    match ev
    case ValueProp(v) => ValuePropStep(s, v)
    case WidgetUpdate(v) => UpdateValueStep(s, v)
    case Resolved(i) => if i < |s.pending| then ResolvedStep(s, i, name, notify) else s
    case Rejected(i, e) => if i < |s.pending| then RejectedStep(s, i, e) else s
    case SetSavedCallback(b) => s.(saved := b)
    case SetErrorCallback(e) => s.(error := Some(e))
  }

  function Run(s: CellState, evs: seq<Event>, name: string, notify: bool): CellState
    decreases |evs|
  {
    if evs == [] then s else Run(Step(s, evs[0], name, notify), evs[1..], name, notify)
  }

  function CountResolved(evs: seq<Event>): nat {
    if evs == [] then 0 else (if evs[0].Resolved? then 1 else 0) + CountResolved(evs[1..])
  }

  /**
   * Commits only ever grow, and each one needs a successful validation: a run
   * adds at most as many commits as it has resolutions.
   */
  lemma {:induction false} CommitsNeedResolutions(s: CellState, evs: seq<Event>, name: string, notify: bool)
    ensures var r := Run(s, evs, name, notify);
      |s.commits| <= |r.commits| <= |s.commits| + CountResolved(evs) && r.commits[..|s.commits|] == s.commits
    decreases |evs|
  {
    if evs != [] {
      var s' := Step(s, evs[0], name, notify);
      CommitsNeedResolutions(s', evs[1..], name, notify);
      var r := Run(s', evs[1..], name, notify);
      assert r.commits[..|s.commits|] == r.commits[..|s'.commits|][..|s.commits|];
    }
  }

  /**
   * Idempotence: as long as every widget update is deep-equal to the external
   * value, nothing is validated, nothing is committed and `saved`/`error`
   * are left alone.
   */
  lemma {:induction false} InSyncUpdatesNeverCommit(s: CellState, vs: seq<Value>, name: string, notify: bool)
    requires forall k :: 0 <= k < |vs| ==> DeepEqual(s.value, Normalize(vs[k]))
    ensures var r := Run(s, WidgetUpdates(vs), name, notify);
      r.value == s.value && r.pending == s.pending && r.commits == s.commits &&
      r.saved == s.saved && r.error == s.error
    decreases |vs|
  {
    if vs != [] {
      var s' := UpdateValueStep(s, vs[0]);
      assert WidgetUpdates(vs)[1..] == WidgetUpdates(vs[1..]);
      InSyncUpdatesNeverCommit(s', vs[1..], name, notify);
    }
  }

  function WidgetUpdates(vs: seq<Value>): (evs: seq<Event>)
    ensures |evs| == |vs|
    ensures forall k :: 0 <= k < |vs| ==> evs[k] == WidgetUpdate(vs[k])
  {
    if vs == [] then [] else [WidgetUpdate(vs[0])] + WidgetUpdates(vs[1..])
  }

  /**
   * The latent ordering race: two edits `b` then `c` are validated, the newer
   * one resolves first, and the older resolution still commits afterwards.
   * The last commit carries `b` while the working value is `c`.
   */
  lemma StaleResolutionCommitsLast(a: Value, b: Value, c: Value, name: string)
    requires a != Undefined && b != Undefined && c != Undefined
    requires !DeepEqual(a, b) && !DeepEqual(a, c) && b != c
    ensures var s1 := Step(Mount(a), WidgetUpdate(b), name, true);
      var s2 := Step(s1, WidgetUpdate(c), name, true);
      var s3 := Step(s2, Resolved(1), name, true);
      var s4 := Step(s3, Resolved(0), name, true);
      s4.internalValue == c && s4.pending == [] && s4.commits == [Commit(c, name), Commit(b, name)]
  {
    var s0 := Mount(a);
    var s1 := Step(s0, WidgetUpdate(b), name, true);
    assert s1.internalValue == b && s1.pending == [b];
    var s2 := Step(s1, WidgetUpdate(c), name, true);
    assert s2.internalValue == c && s2.pending == [b, c];
    var s3 := Step(s2, Resolved(1), name, true);
    assert s3.pending == [b] && s3.commits == [Commit(c, name)];
  }

  /** The cell's state held in place, one method per event. */
  class CellController {
    const name: string
    const notify: bool
    var value: Value
    var internalValue: Value
    var error: Option<ValidationError>
    var saved: bool
    var pending: seq<Value>
    var commits: seq<Commit>

    function State(): CellState
      reads this
    {
      CellState(value, internalValue, error, saved, pending, commits)
    }

    /** Mounting with the initial `value` prop; `notify` says whether `onValueChange` was given. */
    constructor (name: string, value: Value, notify: bool)
      ensures this.name == name && this.notify == notify
      ensures State() == Mount(value)
    {
      this.name := name;
      this.notify := notify;
      this.value := value;
      internalValue := value;
      error := None;
      saved := false;
      pending := [];
      commits := [];
      DeepEqualReflexive(value);
    }

    /** The effect on `[internalValue]`. */
    method InternalValueChanged()
      modifies this
      ensures State() == InternalValueEffect(old(State()))
    {
      if !DeepEqual(value, internalValue) {
        saved := false;
        pending := pending + [internalValue];
      }
    }

    /** A render with `v` as the `value` prop. */
    method ValuePropChanged(v: Value)
      modifies this
      ensures State() == ValuePropStep(old(State()), v)
    {
      if v != value {
        value := v;
        if value != internalValue {
          internalValue := value;
          InternalValueChanged();
        }
      }
    }

    /** `updateValue`, as called by the widget. */
    method UpdateValue(newValue: Value)
      modifies this
      ensures State() == UpdateValueStep(old(State()), newValue)
    {
      var updatedValue: Value;
      if newValue == Undefined {
        updatedValue := Null;
      } else {
        updatedValue := newValue;
      }
      if updatedValue != internalValue {
        internalValue := updatedValue;
        InternalValueChanged();
      }
    }

    /** The `then` handler of the `i`-th outstanding validation. */
    method ValidationResolved(i: nat)
      requires i < |pending|
      modifies this
      ensures State() == ResolvedStep(old(State()), i, name, notify)
    {
      var captured := pending[i];
      pending := pending[..i] + pending[i + 1..];
      error := None;
      if notify {
        commits := commits + [Commit(captured, name)];
      }
    }

    /** The `catch` handler of the `i`-th outstanding validation. */
    method ValidationRejected(i: nat, e: ValidationError)
      requires i < |pending|
      modifies this
      ensures State() == RejectedStep(old(State()), i, e)
    {
      pending := pending[..i] + pending[i + 1..];
      error := Some(e);
    }

    /** The `setSaved` callback handed to `onValueChange`. */
    method SetSaved(b: bool)
      modifies this
      ensures State() == old(State()).(saved := b)
    {
      saved := b;
    }

    /** The `setError` callback handed to `onValueChange`. */
    method SetError(e: ValidationError)
      modifies this
      ensures State() == old(State()).(error := Some(e))
    {
      error := Some(e);
    }
  }
}
