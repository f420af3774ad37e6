/**
 * The field dispatcher of an editable table cell: from a property
 * descriptor and the cell's UI state it picks the editing widget (or the
 * read-only preview) and the four presentational flags of the cell, or
 * raises the configuration error of an array property that names no element
 * type.  Also the derived `disabled`, tooltip and popup settings of the cell.
 */
module Dispatcher {
  import opened Wrappers

  datatype EnumValue = EnumValue(id: string, caption: string)

  /** `property.disabled`: absent or `false`, `true`, or a config object. */
  datatype Disabled =
    | NotDisabled
    | DisabledFlag
    | DisabledConfig(disabledMessage: Option<string>)

  /**
   * A resolved property descriptor.  `enumValues`, `storage`, `markdown`,
   * `multiline`, `Field` and `Preview` are reduced to what the cell tests of
   * them (presence, that is, JavaScript truthiness); a reference `path` is
   * `Some` exactly when it is a string.
   */
  datatype Property = Property(
    dataType: DataType,
    disabled: Disabled,
    customField: bool,
    customPreview: bool)

  datatype DataType =
    | StringType(storage: bool, markdown: bool, multiline: bool, enumValues: Option<seq<EnumValue>>)
    | NumberType(enumValues: Option<seq<EnumValue>>)
    | BooleanType
    | DateType
    | ReferenceType(path: Option<string>)
    | ArrayType(of: ArrayOf, oneOf: bool)
    | MapType
    | GeopointType

  /** The `of` prop of an array: absent, a list of descriptors, or one descriptor. */
  datatype ArrayOf = NoOf | OfList(properties: seq<Property>) | OfOne(property: Property)

  datatype ValueType = StringValues | NumberValues

  /** The closed set of components a cell can render. */
  datatype Widget =
    | StorageUpload
    | SingleSelect(valueType: ValueType, enumValues: seq<EnumValue>)
    | NumberInput
    | TextInput(multiline: bool)
    | Switch
    | DateField
    | ReferenceField(path: string)
    | MultiSelect(valueType: ValueType, enumValues: seq<EnumValue>)
    | MultiReferenceField(path: string)
    | Preview

  datatype Flags = Flags(allowScroll: bool, showExpandIcon: bool, removePadding: bool, fullHeight: bool)

  const NoFlags := Flags(false, false, false, false)

  /** What the cell renders. */
  datatype Cell = Cell(widget: Widget, flags: Flags)

  /** A dispatch either picks a cell or throws a configuration error. */
  datatype Outcome<T> = Ok(value: T) | ConfigError(message: string)

  /** The state of the `let` variables when the if/else chain is left. */
  datatype Branch = Branch(widget: Option<Widget>, flags: Flags)

  const ArrayConfigPrefix := "You need to specify an 'of' or 'oneOf' prop (or specify a custom field) in your array property "

  function ArrayConfigMessage(name: string): (m: string)
    ensures |m| >= |name| && m[|m| - |name|..] == name
  {
    ArrayConfigPrefix + name
  }

  predicate IsDisabled(p: Property) {
    !p.disabled.NotDisabled?
  }

  predicate IsStorageString(p: Property) {
    p.dataType.StringType? && p.dataType.storage
  }

  function EnumValuesOf(t: DataType): Option<seq<EnumValue>> {
    match t
    case StringType(_, _, _, ev) => ev
    case NumberType(ev) => ev
    case _ => None
  }

  /** `isStorageProperty`: a string with storage, or an array of one such string. */
  predicate IsStorageProperty(p: Property)
    ensures IsStorageProperty(p) <==>
      IsStorageString(p) || (p.dataType.ArrayType? && p.dataType.of.OfOne? && IsStorageString(p.dataType.of.property))
    ensures p.dataType.ArrayType? && p.dataType.of.OfList? ==> !IsStorageProperty(p)
    ensures !p.dataType.StringType? && !p.dataType.ArrayType? ==> !IsStorageProperty(p)
  {
    if p.dataType.StringType? && p.dataType.storage then true
    else if p.dataType.ArrayType? then
      match p.dataType.of
      case OfList(_) => false
      case NoOf => false
      case OfOne(q) => q.dataType.StringType? && q.dataType.storage
    else false
  }

  /** The condition under which the cell may render an editor at all. */
  predicate Editable(p: Property, readOnly: bool, selected: bool) {
    !readOnly && !p.customField && (!p.customPreview || selected)
  }

  /** The if/else chain, entered only when the cell is editable. */
  function Cascade(name: string, p: Property, selected: bool): Outcome<Branch> {
    if IsStorageProperty(p) then
      Ok(Branch(Some(StorageUpload), Flags(false, true, true, true)))
    else if selected && p.dataType.NumberType? then
      match p.dataType.enumValues
      case Some(ev) => Ok(Branch(Some(SingleSelect(NumberValues, ev)), Flags(false, false, false, true)))
      case None => Ok(Branch(Some(NumberInput), Flags(true, false, false, false)))
    else if selected && p.dataType.StringType? then
      if p.dataType.enumValues.Some? then
        Ok(Branch(Some(SingleSelect(StringValues, p.dataType.enumValues.value)), Flags(false, false, false, true)))
      else if !p.dataType.storage && !p.dataType.markdown then
        Ok(Branch(Some(TextInput(p.dataType.multiline)), Flags(true, false, false, false)))
      else
        Ok(Branch(None, NoFlags))
    else if p.dataType.BooleanType? then
      Ok(Branch(Some(Switch), NoFlags))
    else if p.dataType.DateType? then
      Ok(Branch(Some(DateField), Flags(true, false, false, false)))
    else if p.dataType.ReferenceType? then
      match p.dataType.path
      case Some(path) => Ok(Branch(Some(ReferenceField(path)), NoFlags))
      case None => Ok(Branch(None, NoFlags))
    else if p.dataType.ArrayType? then
      if p.dataType.of.NoOf? && !p.dataType.oneOf then
        ConfigError(ArrayConfigMessage(name))
      else if p.dataType.of.OfOne? then
        var q := p.dataType.of.property;
        if q.dataType.StringType? || q.dataType.NumberType? then
          if selected && EnumValuesOf(q.dataType).Some? then
            var vt := if q.dataType.StringType? then StringValues else NumberValues;
            Ok(Branch(Some(MultiSelect(vt, EnumValuesOf(q.dataType).value)), Flags(true, false, false, true)))
          else
            Ok(Branch(None, NoFlags))
        else if q.dataType.ReferenceType? then
          match q.dataType.path
          case Some(path) => Ok(Branch(Some(MultiReferenceField(path)), NoFlags))
          case None => Ok(Branch(None, NoFlags))
        else
          Ok(Branch(None, NoFlags))
      else
        Ok(Branch(None, NoFlags))
    else
      Ok(Branch(None, NoFlags))
  }

  /** The fallback cell: the preview, with an expand icon when it is editable. */
  function PreviewCell(p: Property, readOnly: bool, selected: bool): Cell {
    Cell(Preview, Flags(false, selected && !IsDisabled(p) && !readOnly, false, false))
  }

  /** The widget a cell renders, with its flags, or the configuration error. */
  function SelectWidget(name: string, p: Property, readOnly: bool, selected: bool): (r: Outcome<Cell>)
    ensures !Editable(p, readOnly, selected) ==> r == Ok(PreviewCell(p, readOnly, selected))
    ensures Editable(p, readOnly, selected) && IsStorageProperty(p) ==>
      r == Ok(Cell(StorageUpload, Flags(false, true, true, true)))
    ensures r.ConfigError? <==>
      Editable(p, readOnly, selected) && p.dataType.ArrayType? && p.dataType.of.NoOf? && !p.dataType.oneOf
    ensures r.ConfigError? ==> r.message == ArrayConfigPrefix + name
    ensures r.Ok? && r.value.widget.Preview? ==> r.value == PreviewCell(p, readOnly, selected)
    ensures r.Ok? && r.value.flags.removePadding ==> r.value.widget.StorageUpload?
    ensures r.Ok? && r.value.flags.showExpandIcon ==> selected || r.value.widget.StorageUpload?
  {
    var branch := if Editable(p, readOnly, selected) then Cascade(name, p, selected) else Ok(Branch(None, NoFlags));
    match branch
    case ConfigError(m) => ConfigError(m)
    case Ok(Branch(Some(w), f)) => Ok(Cell(w, f))
    case Ok(Branch(None, f)) =>
      Ok(Cell(Preview, Flags(false, selected && !IsDisabled(p) && !readOnly, f.removePadding, f.fullHeight)))
  }

  // ---------------------------------------------------------------------
  // The same dispatch written as an explicit decision table: an ordered
  // list of rules, the first one that fires decides.

  datatype Rule =
    | NotEditableRule
    | StorageRule
    | NumberEnumRule
    | NumberRule
    | StringEnumRule
    | PlainStringRule
    | BooleanRule
    | DateRule
    | ReferenceRule
    | MissingOfRule
    | ArrayEnumRule
    | ArrayReferenceRule

  const Priority: seq<Rule> := [
    NotEditableRule, StorageRule, NumberEnumRule, NumberRule, StringEnumRule, PlainStringRule,
    BooleanRule, DateRule, ReferenceRule, MissingOfRule, ArrayEnumRule, ArrayReferenceRule]

  predicate Fires(rule: Rule, p: Property, readOnly: bool, selected: bool) {
    var t := p.dataType;
    match rule
    case NotEditableRule => !Editable(p, readOnly, selected)
    case StorageRule => IsStorageProperty(p)
    case NumberEnumRule => selected && t.NumberType? && t.enumValues.Some?
    case NumberRule => selected && t.NumberType?
    case StringEnumRule => selected && t.StringType? && t.enumValues.Some?
    case PlainStringRule => selected && t.StringType? && !t.storage && !t.markdown
    case BooleanRule => t.BooleanType?
    case DateRule => t.DateType?
    case ReferenceRule => t.ReferenceType? && t.path.Some?
    case MissingOfRule => t.ArrayType? && t.of.NoOf? && !t.oneOf
    case ArrayEnumRule =>
      t.ArrayType? && t.of.OfOne? && selected &&
      (t.of.property.dataType.StringType? || t.of.property.dataType.NumberType?) &&
      EnumValuesOf(t.of.property.dataType).Some?
    case ArrayReferenceRule =>
      t.ArrayType? && t.of.OfOne? &&
      t.of.property.dataType.ReferenceType? && t.of.property.dataType.path.Some?
  }

  function Yield(rule: Rule, name: string, p: Property, readOnly: bool, selected: bool): Outcome<Cell>
    requires Fires(rule, p, readOnly, selected)
  {
    var t := p.dataType;
    match rule
    case NotEditableRule => Ok(PreviewCell(p, readOnly, selected))
    case StorageRule => Ok(Cell(StorageUpload, Flags(false, true, true, true)))
    case NumberEnumRule => Ok(Cell(SingleSelect(NumberValues, t.enumValues.value), Flags(false, false, false, true)))
    case NumberRule => Ok(Cell(NumberInput, Flags(true, false, false, false)))
    case StringEnumRule => Ok(Cell(SingleSelect(StringValues, t.enumValues.value), Flags(false, false, false, true)))
    case PlainStringRule => Ok(Cell(TextInput(t.multiline), Flags(true, false, false, false)))
    case BooleanRule => Ok(Cell(Switch, NoFlags))
    case DateRule => Ok(Cell(DateField, Flags(true, false, false, false)))
    case ReferenceRule => Ok(Cell(ReferenceField(t.path.value), NoFlags))
    case MissingOfRule => ConfigError(ArrayConfigMessage(name))
    case ArrayEnumRule =>
      var q := t.of.property.dataType;
      Ok(Cell(MultiSelect(if q.StringType? then StringValues else NumberValues, EnumValuesOf(q).value),
              Flags(true, false, false, true)))
    case ArrayReferenceRule => Ok(Cell(MultiReferenceField(t.of.property.dataType.path.value), NoFlags))
  }

  /** The first rule of `Priority` from position `k` on that fires decides; none is the preview. */
  function FirstMatch(k: nat, name: string, p: Property, readOnly: bool, selected: bool): Outcome<Cell>
    decreases |Priority| - k
  {
    if k >= |Priority| then Ok(PreviewCell(p, readOnly, selected))
    else if Fires(Priority[k], p, readOnly, selected) then Yield(Priority[k], name, p, readOnly, selected)
    else FirstMatch(k + 1, name, p, readOnly, selected)
  }

  /** The if/else chain of the cell is exactly the decision table `Priority`. */
  lemma CascadeIsDecisionTable(name: string, p: Property, readOnly: bool, selected: bool)
    ensures SelectWidget(name, p, readOnly, selected) == FirstMatch(0, name, p, readOnly, selected)
  {
  }

  // ---------------------------------------------------------------------
  // Consequences of the rule order, one group of rules at a time.

  /** Selected scalars: the enum select first, then the number or the plain text input. */
  lemma SelectedScalarRules(name: string, p: Property, readOnly: bool)
    requires Editable(p, readOnly, true) && !IsStorageProperty(p)
    ensures var r := SelectWidget(name, p, readOnly, true);
      var t := p.dataType;
      && (t.NumberType? && t.enumValues.Some? ==>
            r == Ok(Cell(SingleSelect(NumberValues, t.enumValues.value), Flags(false, false, false, true))))
      && (t.NumberType? && t.enumValues.None? ==> r == Ok(Cell(NumberInput, Flags(true, false, false, false))))
      && (t.StringType? && t.enumValues.Some? ==>
            r == Ok(Cell(SingleSelect(StringValues, t.enumValues.value), Flags(false, false, false, true))))
      && (t.StringType? && t.enumValues.None? && !t.markdown ==>
            r == Ok(Cell(TextInput(t.multiline), Flags(true, false, false, false))))
      && (t.StringType? && t.enumValues.None? && t.markdown ==> r == Ok(PreviewCell(p, readOnly, true)))
  {
  }

  /** Unselected numbers and strings never get an editor. */
  lemma UnselectedScalarsPreview(name: string, p: Property, readOnly: bool)
    requires (p.dataType.NumberType? || p.dataType.StringType?) && !IsStorageProperty(p)
    ensures SelectWidget(name, p, readOnly, false) == Ok(PreviewCell(p, readOnly, false))
  {
  }

  /**
   * Storage uploads, switches, date fields and reference fields do not
   * depend on selection, as long as the cell is editable either way.
   */
  lemma SelectionIndependentRules(name: string, p: Property, readOnly: bool)
    requires !readOnly && !p.customField && !p.customPreview
    requires IsStorageProperty(p) || p.dataType.BooleanType? || p.dataType.DateType? ||
             (p.dataType.ReferenceType? && p.dataType.path.Some?) ||
             (p.dataType.ArrayType? && p.dataType.of.OfOne? &&
              p.dataType.of.property.dataType.ReferenceType? && p.dataType.of.property.dataType.path.Some?)
    ensures SelectWidget(name, p, readOnly, true) == SelectWidget(name, p, readOnly, false)
    ensures SelectWidget(name, p, readOnly, true).Ok?
    ensures !SelectWidget(name, p, readOnly, true).value.widget.Preview?
  {
  }

  /** Single-`of` arrays: enumerated multi-select when selected, multi-reference always. */
  lemma ArrayOfOneRules(name: string, p: Property, readOnly: bool, selected: bool)
    requires Editable(p, readOnly, selected) && !IsStorageProperty(p)
    requires p.dataType.ArrayType? && p.dataType.of.OfOne?
    ensures var r := SelectWidget(name, p, readOnly, selected);
      var q := p.dataType.of.property.dataType;
      && ((q.StringType? || q.NumberType?) && q.enumValues.Some? && selected ==>
            r == Ok(Cell(MultiSelect(if q.StringType? then StringValues else NumberValues, q.enumValues.value),
                         Flags(true, false, false, true))))
      && ((q.StringType? || q.NumberType?) && (q.enumValues.None? || !selected) ==>
            r == Ok(PreviewCell(p, readOnly, selected)))
      && (q.ReferenceType? && q.path.Some? ==> r == Ok(Cell(MultiReferenceField(q.path.value), NoFlags)))
      && (q.ReferenceType? && q.path.None? ==> r == Ok(PreviewCell(p, readOnly, selected)))
      && (!q.StringType? && !q.NumberType? && !q.ReferenceType? ==> r == Ok(PreviewCell(p, readOnly, selected)))
  {
  }

  /** A list-valued `of` or a `oneOf` is no error, but has no editor either. */
  lemma ArrayOfListOrOneOfPreview(name: string, p: Property, readOnly: bool, selected: bool)
    requires p.dataType.ArrayType? && (p.dataType.of.OfList? || (p.dataType.of.NoOf? && p.dataType.oneOf))
    ensures SelectWidget(name, p, readOnly, selected) == Ok(PreviewCell(p, readOnly, selected))
  {
  }

  // ---------------------------------------------------------------------
  // Cell chrome derived from the descriptor.

  datatype Chrome = Chrome(disabled: bool, disabledTooltip: string, popupEnabled: bool)

  /** `disabled || readOnly`, `disabledTooltip ?? "Disabled"` and `openPopup` only when not disabled. */
  function CellChrome(p: Property, readOnly: bool): (c: Chrome)
    ensures c.popupEnabled <==> !IsDisabled(p)
    ensures c.disabled <==> IsDisabled(p) || readOnly
    ensures c.disabledTooltip ==
              (if p.disabled.DisabledConfig? && p.disabled.disabledMessage.Some?
               then p.disabled.disabledMessage.value else "Disabled")
    // Consequences of the three equations: an enabled cell is shown disabled
    // only when read-only, a custom tooltip needs a config object, and a cell
    // shown enabled always offers its popup.
    ensures c.popupEnabled ==> (c.disabled <==> readOnly)
    ensures c.disabledTooltip != "Disabled" ==> p.disabled.DisabledConfig?
    ensures !c.disabled ==> c.popupEnabled
  {
    var tooltip := if p.disabled.DisabledConfig? then p.disabled.disabledMessage else None;
    var disabled := IsDisabled(p);
    Chrome(disabled || readOnly, if tooltip.Some? then tooltip.value else "Disabled", !disabled)
  }
}
