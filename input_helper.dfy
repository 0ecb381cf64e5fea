/** The form helpers: items describe one field of a shared value object each, and
    `getUpdateValue` turns an input event into the value to store. */
module InputHelper {
  import opened JsValue
  import opened JsHeap

  /** One choice of a select or radio field. */
  datatype OptionType = OptionType(text: string, value: Value)

  /** A field type: a plain type name (`'text'`, `'number'`, ...), or an object
      `{ type, options, multiple }` for a select or radio field. */
  datatype InputType =
    | Named(name: string)
    | Choice(kind: string, options: seq<OptionType>, multiple: bool)

  /** An item without its value object. `caption` is its label; `hasOnChange` says
      whether it carries its own change callback, which takes over the write-back. */
  datatype InputItemPart = InputItemPart(
    caption: string, key: string, inputType: Option<InputType>,
    placeholder: Option<string>, min: Option<string>, max: Option<string>,
    hasOnChange: bool)

  /** An item bound to the object its value lives in. */
  datatype InputItem = InputItem(part: InputItemPart, valueObject: JsObject)

  /** An entry of an item list: a line break, or an item (part). */
  datatype PartEntry = PartBr | Part(part: InputItemPart)
  datatype ItemEntry = ItemBr | Item(item: InputItem)

  /** `makeInputItems(valueObject, items)`. */
  function MakeInputItems(valueObject: JsObject, items: seq<PartEntry>): (r: seq<ItemEntry>)
    ensures |r| == |items|
    ensures forall i | 0 <= i < |items| :: (r[i].ItemBr? <==> items[i].PartBr?)
    ensures forall i | 0 <= i < |items| && items[i].Part? ::
      r[i] == Item(InputItem(items[i].part, valueObject))
  {
    seq(|items|, i requires 0 <= i < |items| =>
      if items[i].PartBr? then ItemBr else Item(InputItem(items[i].part, valueObject)))
  }

  /** The inverse of `MakeInputItems`: drop the value objects again. */
  function PartsOf(items: seq<ItemEntry>): (r: seq<PartEntry>)
    ensures |r| == |items|
  {
    seq(|items|, i requires 0 <= i < |items| => if items[i].ItemBr? then PartBr else Part(items[i].item.part))
  }

  /** Binding items to an object and unbinding them again gives the items back, so
      every field and the order are kept; and all bound items share the one object. */
  lemma MakeInputItemsRoundTrip(valueObject: JsObject, items: seq<PartEntry>)
    ensures PartsOf(MakeInputItems(valueObject, items)) == items
    ensures forall e | e in MakeInputItems(valueObject, items) && e.Item? :: e.item.valueObject == valueObject
  {
    var r := MakeInputItems(valueObject, items);
    assert forall i | 0 <= i < |items| :: PartsOf(r)[i] == items[i];
  }

  /** The event target of an input event, when there is one. */
  datatype Target = Target(value: Value, valueAsNumber: Number)
  datatype Event = Event(target: Option<Target>)

  /** The types whose target value `getUpdateValue` passes through: `'text'`,
      `'email'`, `'textarea'`, a select, and an absent type. */
  predicate PassesValue(t: Option<InputType>) {
    t.None? || (t.value.Named? && t.value.name in {"text", "email", "textarea"}) || (t.value.Choice? && t.value.kind == "select")
  }

  /** `getUpdateValue(type, event)` as written: without a target nothing; with one, the
      number for `'number'`, the target's value for the types above, and `undefined`
      for `'date'` and every other type. */
  function GetUpdateValue(t: Option<InputType>, ev: Event): (r: Value)
    ensures ev.target.None? ==> r == Undef
    ensures ev.target.Some? && t == Some(Named("number")) ==> r == Num(ev.target.value.valueAsNumber)
    ensures ev.target.Some? && PassesValue(t) ==> r == ev.target.value.value
    ensures !PassesValue(t) && t != Some(Named("number")) ==> r == Undef
  {
    if ev.target.None? then Undef
    else
      match t
      case None => ev.target.value.value
      case Some(Named(n)) =>
        if n == "number" then Num(ev.target.value.valueAsNumber)
        else if n == "date" then Undef
        else if n in {"text", "email", "textarea"} then ev.target.value.value
        else Undef
      case Some(Choice(kind, _, _)) =>
        if kind == "select" then ev.target.value.value else Undef
  }

  /** The type names the form renders as a plain `ion-input`. */
  const PlainTypes: set<string> := {"date", "email", "number", "password", "search", "tel", "text", "time", "url"}

  /** `item.type || 'text'`. */
  function Resolve(t: Option<InputType>): (r: InputType)
    ensures r.Named? ==> r.name != ""
    ensures t.Some? && !(t.value.Named? && t.value.name == "") ==> r == t.value
    ensures t.None? || (t.value.Named? && t.value.name == "") ==> r == Named("text")
  {
    if t.None? || (t.value.Named? && t.value.name == "") then Named("text") else t.value
  }

  /** Whether the form renders a control of this type whose change event reaches
      `updateItem`. */
  predicate Rendered(t: Option<InputType>) {
    var r := Resolve(t);
    (r.Named? && (r.name in PlainTypes || r.name in {"datetime", "textarea"}))
    || (r.Choice? && r.kind in {"select", "radio"})
  }

  /** The value `updateItem` stores for every field the form renders: the number for
      `'number'`, `undefined` for `'date'` (whose handling was left unfinished), and the
      target's value for every other rendered type. */
  function IntendedUpdateValue(t: Option<InputType>, ev: Event): (r: Value)
    ensures ev.target.None? ==> r == Undef
    ensures !Rendered(t) ==> r == Undef
  {
    if ev.target.None? || !Rendered(t) then Undef
    else
      var r := Resolve(t);
      if r == Named("number") then Num(ev.target.value.valueAsNumber)
      else if r == Named("date") then Undef
      else ev.target.value.value
  }

  /** The declared types `text`, `textarea`, `number`, `date`, `email` and a select,
      and an absent type, get the same value from both. */
  lemma IntendedAgreesOnDeclaredTypes(t: Option<InputType>, ev: Event)
    requires t.None? || (t.value.Named? && t.value.name in {"text", "textarea", "number", "date", "email"})
             || (t.value.Choice? && t.value.kind == "select")
    ensures IntendedUpdateValue(t, ev) == GetUpdateValue(t, ev)
  {
  }

  /** What the corrected version stores, spelled out: with a target, the number for
      `'number'`, nothing for `'date'`, and the target's value for every other type the
      form renders. */
  lemma IntendedUpdateValueCases(t: Option<InputType>, ev: Event)
    requires ev.target.Some? && Rendered(t)
    ensures Resolve(t) == Named("number") ==> IntendedUpdateValue(t, ev) == Num(ev.target.value.valueAsNumber)
    ensures Resolve(t) == Named("date") ==> IntendedUpdateValue(t, ev) == Undef
    ensures Resolve(t) != Named("number") && Resolve(t) != Named("date") ==>
      IntendedUpdateValue(t, ev) == ev.target.value.value
  {
  }

  /** A password field and a radio group are rendered, but as written their edits
      store `undefined`. */
  lemma PasswordAndRadioLoseTheirValue(ev: Event)
    requires ev.target.Some? && ev.target.value.value == Str("secret")
    ensures Rendered(Some(Named("password"))) && GetUpdateValue(Some(Named("password")), ev) == Undef
    ensures IntendedUpdateValue(Some(Named("password")), ev) == Str("secret")
    ensures Rendered(Some(Choice("radio", [], false))) && GetUpdateValue(Some(Choice("radio", [], false)), ev) == Undef
    ensures IntendedUpdateValue(Some(Choice("radio", [], false)), ev) == Str("secret")
  {
  }
}
