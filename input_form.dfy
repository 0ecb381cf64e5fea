/** The form components: `InputItem` renders one field of a value object and writes
    edits back into it (or hands them to the item's own callback), and `InputList`
    sorts a mixed list into spacers, pass-through nodes and form items. */
module InputForm {
  import opened Seqs
  import opened JsValue
  import opened JsHeap
  import opened InputHelper

  // ---------------------------------------------------------------------------
  // Rendering one item

  datatype SelectOption = SelectOption(text: string, value: Value, selected: bool)
  datatype Checkbox = Checkbox(text: string, value: Value, checked: bool)

  /** The control an item renders, with the attributes that carry data. Every control
      shows the item's current value `valueObject[key]`. `NoControl` is the unknown
      type, for which nothing is rendered. */
  datatype FormControl =
    | IonInput(caption: string, inputType: string, placeholder: Option<string>, value: Value)
    | IonDatetime(caption: string, placeholder: Option<string>, min: Option<string>, max: Option<string>, value: Value)
    | IonTextarea(caption: string, placeholder: Option<string>, value: Value)
    | IonSelect(caption: string, placeholder: Option<string>, value: Value, multiple: bool, options: seq<SelectOption>)
    | RadioGroup(caption: string, value: Value, choices: seq<OptionType>)
    | NoControl

  /** `c.includes(x)` on an array (SameValueZero, under which NaN equals itself) or a
      string; on `undefined`, `null` and every other value the call throws. */
  function Includes(c: Value, x: Value): (r: Outcome<bool>)
    ensures c.Arr? ==> r == Done(x in c.elems)
    ensures c.Undef? || c.Null? ==> r.Thrown?
  {
    if c.Arr? then Done(x in c.elems)
    else if c.Str? && x.Str? then Done(Contains(c.s, x.s))
    else Thrown
  }

  /** The select options, one per option in order with its text and value, and the
      `selected` flag of each: membership in the current array (`|| []` turning a falsy
      value into an empty array) when `multiple`, strict equality with the current value
      otherwise, which never throws. */
  function SelectOptions(cur: Value, options: seq<OptionType>, multiple: bool): (r: Outcome<seq<SelectOption>>)
    ensures r.Done? ==>
      && |r.value| == |options|
      && forall i | 0 <= i < |options| :: r.value[i].text == options[i].text && r.value[i].value == options[i].value
    ensures !multiple ==>
      && r.Done?
      && forall i | 0 <= i < |options| :: r.value[i].selected <==> StrictEquals(cur, options[i].value)
  {
    var rs := seq(|options|, i requires 0 <= i < |options| =>
      var sel := if multiple then Includes(if Truthy(cur) then cur else Arr([], []), options[i].value)
                 else Done(StrictEquals(cur, options[i].value));
      if sel.Thrown? then Thrown else Done(SelectOption(options[i].text, options[i].value, sel.value)));
    assert !multiple ==> forall i | 0 <= i < |options| :: rs[i].Done?;
    Collect(rs)
  }

  /** `renderInputItem(item)`: every rendered control shows `valueObject[key]`; exactly
      the rendered types get a control, and only a multiple select can make rendering
      throw. */
  function RenderInputItem(item: InputItem): (r: Outcome<FormControl>)
    reads item.valueObject
    ensures r.Done? ==> (r.value.NoControl? <==> !Rendered(item.part.inputType))
    ensures r.Done? && !r.value.NoControl? ==> r.value.value == item.valueObject.Read(item.part.key)
    ensures r.Thrown? ==> var t := Resolve(item.part.inputType); t.Choice? && t.kind == "select" && t.multiple
  {
    var p := item.part;
    var cur := item.valueObject.Read(p.key);
    match Resolve(p.inputType)
    case Named(n) =>
      if n in PlainTypes then Done(IonInput(p.caption, n, p.placeholder, cur))
      else if n == "datetime" then Done(IonDatetime(p.caption, p.placeholder, p.min, p.max, cur))
      else if n == "textarea" then Done(IonTextarea(p.caption, p.placeholder, cur))
      else Done(NoControl)
    case Choice(kind, options, multiple) =>
      if kind == "select" then
        var opts := SelectOptions(cur, options, multiple);
        if opts.Thrown? then Thrown else Done(IonSelect(p.caption, p.placeholder, cur, multiple, opts.value))
      else if kind == "radio" then Done(RadioGroup(p.caption, cur, options))
      else Done(NoControl)
  }

  /** A missing type (or `''`) is `'text'`; each of the nine plain types is an
      `ion-input` of that type; all of them show the current value. */
  lemma RenderPlainTypes(item: InputItem)
    ensures item.part.inputType.None? || item.part.inputType == Some(Named("")) ==>
      RenderInputItem(item) == Done(IonInput(item.part.caption, "text", item.part.placeholder, item.valueObject.Read(item.part.key)))
    ensures item.part.inputType.Some? && item.part.inputType.value.Named? && item.part.inputType.value.name in PlainTypes ==>
      RenderInputItem(item) == Done(IonInput(item.part.caption, item.part.inputType.value.name, item.part.placeholder,
                                             item.valueObject.Read(item.part.key)))
  {
  }

  /** With distinct option values, a single select has at most one option selected. */
  lemma SingleSelectAtMostOne(cur: Value, options: seq<OptionType>)
    requires forall i, j | 0 <= i < j < |options| :: options[i].value != options[j].value
    ensures var os := SelectOptions(cur, options, false).value;
      forall i, j | 0 <= i < j < |os| :: !(os[i].selected && os[j].selected)
  {
  }

  /** In a multiple select, an option is selected exactly when the current array holds
      its value; with no current value none is, and a current value that is neither an
      array nor a string makes the render throw. */
  lemma MultipleSelectMembership(cur: Value, options: seq<OptionType>)
    ensures cur.Arr? ==>
      && SelectOptions(cur, options, true).Done?
      && forall i | 0 <= i < |options| :: SelectOptions(cur, options, true).value[i].selected <==> options[i].value in cur.elems
    ensures !Truthy(cur) ==>
      && SelectOptions(cur, options, true).Done?
      && forall i | 0 <= i < |options| :: !SelectOptions(cur, options, true).value[i].selected
    ensures Truthy(cur) && !cur.Arr? && !cur.Str? && options != [] ==> SelectOptions(cur, options, true).Thrown?
  {
    var c := if Truthy(cur) then cur else Arr([], []);
    var rs := seq(|options|, i requires 0 <= i < |options| =>
      var sel := Includes(c, options[i].value);
      if sel.Thrown? then Thrown else Done(SelectOption(options[i].text, options[i].value, sel.value)));
    if c.Arr? {
      assert forall i | 0 <= i < |options| :: rs[i].Done?;
    } else if !c.Str? && options != [] {
      assert rs[0].Thrown?;
    }
  }

  /** `renderCheckboxGroup(item)`: one checkbox per option in order, with its text and
      value, checked when the current value includes the option's value. There is no
      `|| []` here. */
  function CheckboxGroup(item: InputItem): (r: Outcome<seq<Checkbox>>)
    requires item.part.inputType.Some? && item.part.inputType.value.Choice?
    reads item.valueObject
    ensures var options := item.part.inputType.value.options;
      r.Done? ==>
        && |r.value| == |options|
        && forall i | 0 <= i < |options| :: r.value[i].text == options[i].text && r.value[i].value == options[i].value
  {
    var options := item.part.inputType.value.options;
    var cur := item.valueObject.Read(item.part.key);
    Collect(seq(|options|, i requires 0 <= i < |options| =>
      var inc := Includes(cur, options[i].value);
      if inc.Thrown? then Thrown else Done(Checkbox(options[i].text, options[i].value, inc.value))))
  }

  /** With an array value each option is checked exactly when the array holds it; with
      no value at all (`undefined` or `null`) the group cannot be rendered. */
  lemma CheckboxGroupChecked(item: InputItem)
    requires item.part.inputType.Some? && item.part.inputType.value.Choice?
    ensures var cur := item.valueObject.Read(item.part.key); var options := item.part.inputType.value.options;
      cur.Arr? ==>
        && CheckboxGroup(item).Done?
        && |CheckboxGroup(item).value| == |options|
        && forall i | 0 <= i < |options| :: CheckboxGroup(item).value[i].checked <==> options[i].value in cur.elems
    ensures var cur := item.valueObject.Read(item.part.key); var options := item.part.inputType.value.options;
      (cur.Undef? || cur.Null?) && options != [] ==> CheckboxGroup(item).Thrown?
  {
    var options := item.part.inputType.value.options;
    var cur := item.valueObject.Read(item.part.key);
    var rs := seq(|options|, i requires 0 <= i < |options| =>
      var inc := Includes(cur, options[i].value);
      if inc.Thrown? then Thrown else Done(Checkbox(options[i].text, options[i].value, inc.value)));
    if cur.Arr? {
      assert forall i | 0 <= i < |options| :: rs[i].Done?;
    } else if (cur.Undef? || cur.Null?) && options != [] {
      assert rs[0].Thrown?;
    }
  }

  // ---------------------------------------------------------------------------
  // Writing an edit back

  /** How `triggerRender` was run: at once, or on the next animation frame. */
  datatype RenderRequest = Immediate | Deferred

  /** What an item's updates are observed by: the calls of the items' own `onChange`
      callbacks as (new value, old value), and the render requests, in order. */
  class FormSession {
    var onChangeCalls: seq<(Value, Value)>
    var renders: seq<RenderRequest>

    constructor ()
      ensures onChangeCalls == [] && renders == []
    {
      onChangeCalls := [];
      renders := [];
    }

    /** `updateItem(item, event[, value])`: `given` is the explicit third argument.
        Without it the value is `getUpdateValue`'s under the rule `AsWritten`, and the
        corrected `IntendedUpdateValue` under `Corrected`. */
    method UpdateItem(item: InputItem, ev: Event, given: Option<Value>, rule: Rule)
      requires item.valueObject.Valid()
      modifies this, item.valueObject
      ensures item.valueObject.Valid()
      ensures given.None? && ev.target.None? ==> unchanged(this) && unchanged(item.valueObject)
      ensures given.Some? || ev.target.Some? ==>
        var value := if given.Some? then given.value
                     else if rule == AsWritten then GetUpdateValue(item.part.inputType, ev)
                     else IntendedUpdateValue(item.part.inputType, ev);
        if item.part.hasOnChange then
          && onChangeCalls == old(onChangeCalls) + [(value, old(item.valueObject.Read(item.part.key)))]
          && renders == old(renders) + [Deferred]
          && unchanged(item.valueObject)
        else
          && item.valueObject.props == Put(old(item.valueObject.props), item.part.key, value)
          && onChangeCalls == old(onChangeCalls)
          && renders == old(renders) + [Immediate]
          && (RenderInputItem(item).Done? && !RenderInputItem(item).value.NoControl? ==>
                RenderInputItem(item).value.value == value)
    {
      var value: Value;
      if given.Some? {
        value := given.value;
      } else {
        if ev.target.None? {
          return;
        }
        value := if rule == AsWritten then GetUpdateValue(item.part.inputType, ev)
                 else IntendedUpdateValue(item.part.inputType, ev);
      }
      if item.part.hasOnChange {
        onChangeCalls := onChangeCalls + [(value, item.valueObject.Read(item.part.key))];
        renders := renders + [Deferred];
        return;
      }
      item.valueObject.Write(item.part.key, value);
      renders := renders + [Immediate];
    }
  }

  // ---------------------------------------------------------------------------
  // Sorting a list

  /** An entry of the list `InputList` is given: a form item bound to its value object,
      or any other value (`'br'`, a VNode, an array of VNodes, or whatever else). */
  datatype ListInput = Raw(v: Value) | Bound(item: InputItem)

  /** What `InputList` makes of one entry: an empty div, a value passed through, a
      plain value that carries a `valueObject` (sorted as a form item), or the control
      a bound item renders. */
  datatype ListOut = Spacer | PassThrough(v: Value) | FormItem(v: Value) | ItemControl(control: FormControl)

  /** One plain entry of `InputList`: `'br'` becomes an empty div, arrays and non-objects
      pass through, `null` throws when its `valueObject` is read, an object whose
      `valueObject` is `undefined` is passed on as a VNode, any other object is an item. */
  function ListEntry(v: Value): (r: Outcome<ListOut>)
    ensures r.Thrown? <==> v.Null?
    ensures r == Done(Spacer) <==> v == Str("br")
    ensures r == Done(FormItem(v)) <==> IsObject(v) && !v.Arr? && Get(v.props, "valueObject") != Undef
    ensures r.Done? ==> !r.value.ItemControl?
    ensures r.Done? && !r.value.Spacer? && !r.value.ItemControl? ==> r.value.v == v
  {
    if v == Str("br") then Done(Spacer)
    else if v.Arr? then Done(PassThrough(v))
    else if TypeOf(v) != ObjectT then Done(PassThrough(v))
    else if v.Null? then Thrown
    else if Get(v.props, "valueObject") == Undef then Done(PassThrough(v))
    else Done(FormItem(v))
  }

  /** The value objects of the bound items of a list. */
  function ItemObjects(items: seq<ListInput>): set<JsObject> {
    set e | e in items && e.Bound? :: e.item.valueObject
  }

  /** The `.map` callback of `InputList` on one entry. A bound item is rendered while
      the list is built (the framework calls the functional component `InputItem` at
      once, and it returns `renderInputItem(item)`), so an exception of that render is
      an exception of the list. */
  function ListEntryOf(e: ListInput): Outcome<ListOut>
    reads if e.Bound? then {e.item.valueObject} else {}
  {
    match e
    case Raw(v) => ListEntry(v)
    case Bound(item) =>
      match RenderInputItem(item)
      case Thrown => Thrown
      case Done(c) => Done(ItemControl(c))
  }

  /** `InputList({ items })`. */
  function InputList(items: seq<ListInput>): Outcome<seq<ListOut>>
    reads ItemObjects(items)
  {
    Collect(seq(|items|, i requires 0 <= i < |items| reads ItemObjects(items) => ListEntryOf(items[i])))
  }

  /** The list keeps one output per entry, in order, and each bound item becomes the
      control it renders; it throws exactly when an entry is `null` or the render of a
      bound item throws. */
  lemma InputListShape(items: seq<ListInput>)
    ensures InputList(items).Thrown? <==>
      Raw(Null) in items || exists i | 0 <= i < |items| && items[i].Bound? :: RenderInputItem(items[i].item).Thrown?
    ensures InputList(items).Done? ==>
      && |InputList(items).value| == |items|
      && (forall i | 0 <= i < |items| && items[i].Raw? :: ListEntry(items[i].v) == Done(InputList(items).value[i]))
      && (forall i | 0 <= i < |items| && items[i].Bound? ::
            InputList(items).value[i] == ItemControl(RenderInputItem(items[i].item).value))
  {
    var rs := seq(|items|, i requires 0 <= i < |items| reads ItemObjects(items) => ListEntryOf(items[i]));
    assert InputList(items) == Collect(rs);
    if i :| 0 <= i < |items| && (items[i] == Raw(Null) || (items[i].Bound? && RenderInputItem(items[i].item).Thrown?)) {
      assert rs[i].Thrown?;
    } else {
      forall i | 0 <= i < |items|
        ensures rs[i].Done?
      {
        if items[i].Raw? {
          assert items[i].v != Null;
        }
      }
    }
  }

  /** A multiple select whose current value is a number makes the whole list throw:
      `(5 || []).includes` is not a function, and the item renders inside the list. */
  lemma MultipleSelectOnNumberThrowsTheList(o: JsObject, part: InputItemPart)
    requires part.inputType == Some(Choice("select", [OptionType("a", Num(Int(1)))], true))
    requires o.Read(part.key) == Num(Int(5))
    ensures InputList([Bound(InputItem(part, o))]).Thrown?
  {
    assert RenderInputItem(InputItem(part, o)).Thrown? by {
      assert SelectOptions(Num(Int(5)), [OptionType("a", Num(Int(1)))], true).Thrown?;
    }
    InputListShape([Bound(InputItem(part, o))]);
  }
}
