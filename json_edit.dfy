/** The JSON editor `EditableJsonView`: the viewer's dispatch, but every scalar becomes an
    input whose change handler decodes the event, writes the new value back into the
    container that holds it, and then notifies the caller once. */
module JsonEdit {
  import opened Seqs
  import opened JsValue
  import opened JsHeap
  import opened JsonCommon
  import opened JsonView

  // ---------------------------------------------------------------------------
  // Rendering

  /** Which updater a rendered input calls. `Custom` is an `updateValue` supplied by the
      caller; `Default(name)` is the fallback `_updateValue` with the caller's `name`;
      the others are the closures the container branches pass to their children, with
      the values they capture at render time. */
  datatype Slot =
    | Custom
    | Default(name: Option<string>)
    | SetElem(x: Value)
    | MapKey(key: Value, value: Value)
    | MapValue(key: Value)
    | ArrayIndex(i: nat)
    | ObjectField(field: string)

  /** The props the editor reads. `notify` is whether `onChange` is present. */
  datatype EditProps = EditProps(name: Value, style: Option<Style>, preserveVNode: bool, notify: bool, slot: Slot)

  /** The input shown for a scalar, with the value it displays. */
  datatype Control =
    | TextBox(text: string)                        // type='text' with a string
    | NumberBox(number: Number)                    // type='number'
    | DateTimeBox(time: int, asTimestamp: bool)    // type='datetime-local', value from toISOString
    | BigIntBox(big: int)                          // type='text' with data.toString()
    | CheckBox(checked: bool)                      // type='checkbox'
    | CodeBox(source: string)                      // <textarea> with the function's source
    | SymbolBox(key: Option<string>)               // type='text' with Symbol.keyFor(data)

  datatype ENode =
    | ESpan(text: string, style: Option<Style>)
    | Field(control: Control, name: Value, slot: Slot, notify: bool)
    | EUList(items: seq<ENode>)
    | EOList(items: seq<ENode>)
    | EMapTable(mapRows: seq<EMapRow>, style: Option<Style>)
    | EObjTable(objRows: seq<EObjRow>, style: Option<Style>)

  datatype EMapRow = EMapRow(key: ENode, value: ENode)
  datatype EObjRow = EObjRow(keyCell: ENode, value: ENode)

  function EPairRow(k: Outcome<ENode>, v: Outcome<ENode>): Outcome<EMapRow> {
    if k.Done? && v.Done? then Done(EMapRow(k.value, v.value)) else Thrown
  }

  /** The props of a plain-object child: only `style` and `onChange` are passed on. */
  function FieldProps(key: string, style: Option<Style>, notify: bool): EditProps {
    EditProps(Str(key), style, false, notify, ObjectField(key))
  }

  /** `EditableJsonView(props)`. Rendering a Date, or a number under a time name, calls
      `toISOString`, which throws a RangeError for an invalid date; a number under a name
      whose lowering throws makes the render throw too. The VNode branch is empty, so a
      VNode is edited as a plain object. */
  function EditView(v: Value, p: EditProps, env: Env): Outcome<ENode>
    decreases v
  {
    match Classify(v, p.name, p.preserveVNode, env.vnodeKeys)
    case StringK => Done(Field(TextBox(v.s), p.name, p.slot, p.notify))
    case NumberK => if NameThrows(p.name, env.rule) then Thrown else Done(Field(NumberBox(v.n), p.name, p.slot, p.notify))
    case TimestampK =>
      var t := TimeClip(v.n);
      if t.NaN? then Thrown else Done(Field(DateTimeBox(t.i, true), p.name, p.slot, p.notify))
    case BigIntK => Done(Field(BigIntBox(v.big), p.name, p.slot, p.notify))
    case BooleanK => Done(Field(CheckBox(v.b), p.name, p.slot, p.notify))
    case FunctionK => Done(Field(CodeBox(v.source), p.name, p.slot, p.notify))
    case SymbolK =>
      Done(Field(SymbolBox(if v.registered then Some(v.description) else None), p.name, p.slot, p.notify))
    case UndefinedK => Done(ESpan("undefined", p.style))
    case NullK => Done(ESpan("null", p.style))
    case DateK =>
      var t := TimeClip(v.time);
      if t.NaN? then Thrown else Done(Field(DateTimeBox(t.i, false), p.name, p.slot, p.notify))
    case SetK =>
      var items := Collect(seq(|v.elems|, i requires 0 <= i < |v.elems| =>
        EditView(v.elems[i], p.(slot := SetElem(v.elems[i])), env)));
      if items.Thrown? then Thrown else Done(EUList(items.value))
    case MapK =>
      var rows := Collect(seq(|v.entries|, i requires 0 <= i < |v.entries| =>
        EPairRow(EditView(v.entries[i].key, p.(slot := MapKey(v.entries[i].key, v.entries[i].val)), env),
                 EditView(v.entries[i].val, p.(name := v.entries[i].key, slot := MapValue(v.entries[i].key)), env))));
      if rows.Thrown? then Thrown else Done(EMapTable(rows.value, p.style))
    case ArrayK =>
      var items := Collect(seq(|v.elems|, i requires 0 <= i < |v.elems| =>
        EditView(v.elems[i], p.(slot := ArrayIndex(i)), env)));
      if items.Thrown? then Thrown else Done(EOList(items.value))
    case VNodeK => EditObject(v, p.style, p.notify, env)
    case ObjectK => EditObject(v, p.style, p.notify, env)
  }

  function EditObject(v: Value, style: Option<Style>, notify: bool, env: Env): Outcome<ENode>
    requires v.Obj?
    decreases v, 0
  {
    var rows := Collect(seq(|v.props|, i requires 0 <= i < |v.props| =>
      var c := EditView(v.props[i].val, FieldProps(v.props[i].key, style, notify), env);
      if c.Thrown? then Thrown else Done(EObjRow(ESpan(v.props[i].key, style), c.value))));
    if rows.Thrown? then Thrown else Done(EObjTable(rows.value, style))
  }

  // ---------------------------------------------------------------------------
  // Input events

  /** What a change event offers: the input's `value`, `valueAsNumber`, `valueAsDate`
      (as a time value, or null) and `checked`, together with the results of the two
      evaluations the handlers run on the text: `BigInt(value)` (None when it throws a
      SyntaxError) and `eval(value)`. */
  datatype InputEvent = InputEvent(
    text: string, asNumber: Number, asDate: Option<int>, checked: bool,
    bigIntOf: Option<int>, evaluated: Outcome<Value>)

  /** The value a change handler passes to `update`, or Thrown when computing it throws
      (then nothing is written and `onChange` is not called). Only the two evaluations
      can throw. */
  function Decode(c: Control, ev: InputEvent): (r: Outcome<Value>)
    ensures r.Thrown? <==> (c.BigIntBox? && ev.bigIntOf.None?) || (c.CodeBox? && ev.evaluated.Thrown?)
  {
    match c
    case TextBox(_) => Done(Str(ev.text))
    case NumberBox(_) => Done(Num(ev.asNumber))
    case DateTimeBox(_, asTimestamp) =>
      if asTimestamp then Done(if ev.asDate.Some? then Num(Int(ev.asDate.value)) else Undef)
      else Done(if ev.asDate.Some? then Date(Int(ev.asDate.value), []) else Null)
    case BigIntBox(_) => if ev.bigIntOf.Some? then Done(BigInt(ev.bigIntOf.value)) else Thrown
    case CheckBox(_) => Done(Bool(ev.checked))
    case CodeBox(_) => ev.evaluated
    case SymbolBox(_) => Done(Sym(ev.text, true))
  }

  /** The event of a user who confirms what a control shows without changing it, in a
      browser whose `valueAsDate` reports the instant a date input displays. */
  function Echo(c: Control): InputEvent {
    match c
    case TextBox(s) => InputEvent(s, NaN, None, false, None, Thrown)
    case NumberBox(n) => InputEvent("", n, None, false, None, Thrown)
    case DateTimeBox(t, _) => InputEvent("", NaN, Some(t), false, None, Thrown)
    case BigIntBox(b) => InputEvent("", NaN, None, false, Some(b), Thrown)
    case CheckBox(b) => InputEvent("", NaN, None, b, None, Thrown)
    case CodeBox(s) => InputEvent(s, NaN, None, false, None, Thrown)
    case SymbolBox(k) => InputEvent(if k.Some? then k.value else "", NaN, None, false, None, Thrown)
  }

  /** Confirming what a control shows writes back the value it was rendered from: a
      string, a number, a timestamp in the date range, a bigint, a boolean, a registered
      symbol, and a valid Date without extra properties (the dates only when the event's
      `valueAsDate` reports the displayed instant). */
  lemma EditRoundTrip(v: Value, p: EditProps, env: Env)
    requires v.Str? || v.Num? || v.BigInt? || v.Bool? || (v.Sym? && v.registered) || (v.Date? && v.props == [])
    requires EditView(v, p, env).Done?
    ensures EditView(v, p, env).value.Field?
    ensures v.Num? && IsTimeName(p.name) ==> v.n.Int? && TimeClip(v.n) == v.n
    ensures v.Date? ==> v.time.Int? && TimeClip(v.time) == v.time
    ensures var c := EditView(v, p, env).value.control; Decode(c, Echo(c)) == Done(v)
  {
  }

  /** A handler writes back a value of the type it was rendered from, except that a
      cleared date picker gives `undefined` for a timestamp and `null` for a Date. */
  lemma EditKeepsType(v: Value, p: EditProps, env: Env, ev: InputEvent)
    requires !v.Func?
    requires EditView(v, p, env).Done? && EditView(v, p, env).value.Field?
    requires Decode(EditView(v, p, env).value.control, ev).Done?
    ensures var w := Decode(EditView(v, p, env).value.control, ev).value;
      || (TypeOf(w) == TypeOf(v) && (v.Date? ==> w.Date?))
      || (v.Num? && IsTimeName(p.name) && w.Undef? && ev.asDate.None?)
      || (v.Date? && w.Null? && ev.asDate.None?)
  {
  }

  /** A date input whose event carries no `valueAsDate` (as for a `datetime-local` input
      under the HTML standard) writes `undefined` for a timestamp and `null` for a Date,
      so the value it was rendered from is lost. */
  lemma DateEditWithoutValueAsDate(v: Value, p: EditProps, env: Env, ev: InputEvent)
    requires EditView(v, p, env).Done? && EditView(v, p, env).value.Field?
    requires EditView(v, p, env).value.control.DateTimeBox?
    requires ev.asDate.None?
    ensures v.Date? || (v.Num? && IsTimeName(p.name))
    ensures v.Date? ==> Decode(EditView(v, p, env).value.control, ev) == Done(Null)
    ensures v.Num? ==> Decode(EditView(v, p, env).value.control, ev) == Done(Undef)
    ensures Decode(EditView(v, p, env).value.control, ev) != Done(v)
  {
  }

  /** The input each scalar kind gets, carrying the name, updater and `onChange` it was
      given; `undefined` and `null` are text without an updater; a Date, or a number
      under a time name, whose time is invalid makes the render throw, and so does a
      number whose name lowering throws. */
  lemma EditScalar(v: Value, p: EditProps, env: Env)
    ensures var f := (c: Control) => Done(Field(c, p.name, p.slot, p.notify));
      && (v.Str? ==> EditView(v, p, env) == f(TextBox(v.s)))
      && (v.Num? && NameThrows(p.name, env.rule) ==> EditView(v, p, env) == Thrown)
      && (v.Num? && !NameThrows(p.name, env.rule) && !IsTimeName(p.name) ==> EditView(v, p, env) == f(NumberBox(v.n)))
      && (v.Num? && IsTimeName(p.name) ==>
            EditView(v, p, env) == if TimeClip(v.n).NaN? then Thrown else f(DateTimeBox(TimeClip(v.n).i, true)))
      && (v.BigInt? ==> EditView(v, p, env) == f(BigIntBox(v.big)))
      && (v.Bool? ==> EditView(v, p, env) == f(CheckBox(v.b)))
      && (v.Func? ==> EditView(v, p, env) == f(CodeBox(v.source)))
      && (v.Sym? ==> EditView(v, p, env) == f(SymbolBox(if v.registered then Some(v.description) else None)))
      && (v.Undef? ==> EditView(v, p, env) == Done(ESpan("undefined", p.style)))
      && (v.Null? ==> EditView(v, p, env) == Done(ESpan("null", p.style)))
      && (v.Date? ==>
            EditView(v, p, env) == if TimeClip(v.time).NaN? then Thrown else f(DateTimeBox(TimeClip(v.time).i, false)))
  {
  }

  /** Set and Array elements are edited with the parent's props and the element's own
      updater: delete-then-add of the captured element, or assignment at the index. */
  lemma EditSequence(v: Value, p: EditProps, env: Env)
    requires v.SetV? || v.Arr?
    requires EditView(v, p, env).Done?
    ensures var n := EditView(v, p, env).value;
      && (if v.SetV? then n.EUList? else n.EOList?)
      && |n.items| == |v.elems|
      && forall i | 0 <= i < |v.elems| ::
           EditView(v.elems[i], p.(slot := if v.SetV? then SetElem(v.elems[i]) else ArrayIndex(i)), env) == Done(n.items[i])
  {
  }

  /** A Map row edits the key with the parent's props and the rename updater capturing
      the entry's value, and the value with the key as its name and the value updater. */
  lemma EditMap(v: Value, p: EditProps, env: Env)
    requires v.MapV? && EditView(v, p, env).Done?
    ensures var n := EditView(v, p, env).value;
      && n.EMapTable? && |n.mapRows| == |v.entries| && n.style == p.style
      && forall i | 0 <= i < |v.entries| ::
           && EditView(v.entries[i].key, p.(slot := MapKey(v.entries[i].key, v.entries[i].val)), env) == Done(n.mapRows[i].key)
           && EditView(v.entries[i].val, p.(name := v.entries[i].key, slot := MapValue(v.entries[i].key)), env) == Done(n.mapRows[i].value)
  {
    var rs := seq(|v.entries|, i requires 0 <= i < |v.entries| =>
      EPairRow(EditView(v.entries[i].key, p.(slot := MapKey(v.entries[i].key, v.entries[i].val)), env),
               EditView(v.entries[i].val, p.(name := v.entries[i].key, slot := MapValue(v.entries[i].key)), env)));
    assert Collect(rs).Done?;
  }

  /** A plain object, and a VNode alike, is edited field by field: each value with the
      key as its name, the field updater, the parent's style and `onChange`, and
      `preserveVNode` reset. */
  lemma EditObjectRows(v: Value, p: EditProps, env: Env)
    requires v.Obj? && EditView(v, p, env).Done?
    ensures var n := EditView(v, p, env).value;
      && n.EObjTable? && |n.objRows| == |v.props| && n.style == p.style
      && forall i | 0 <= i < |v.props| ::
           && n.objRows[i].keyCell == ESpan(v.props[i].key, p.style)
           && EditView(v.props[i].val, EditProps(Str(v.props[i].key), p.style, false, p.notify, ObjectField(v.props[i].key)), env)
                == Done(n.objRows[i].value)
  {
    var rs := seq(|v.props|, i requires 0 <= i < |v.props| =>
      var c := EditView(v.props[i].val, FieldProps(v.props[i].key, p.style, p.notify), env);
      if c.Thrown? then Thrown else Done(EObjRow(ESpan(v.props[i].key, p.style), c.value)));
    assert Collect(rs).Done?;
    forall i | 0 <= i < |v.props|
      ensures EditView(v.props[i].val, FieldProps(v.props[i].key, p.style, p.notify), env).Done?
    {
      assert rs[i].Done?;
    }
  }

  /** Every input of the rendering notifies exactly when the caller gave `onChange`. */
  predicate Notifies(n: ENode, notify: bool) {
    match n
    case ESpan(_, _) => true
    case Field(_, _, _, b) => b == notify
    case EUList(items) => forall i | 0 <= i < |items| :: Notifies(items[i], notify)
    case EOList(items) => forall i | 0 <= i < |items| :: Notifies(items[i], notify)
    case EMapTable(rows, _) => forall i | 0 <= i < |rows| :: Notifies(rows[i].key, notify) && Notifies(rows[i].value, notify)
    case EObjTable(rows, _) => forall i | 0 <= i < |rows| :: Notifies(rows[i].keyCell, notify) && Notifies(rows[i].value, notify)
  }

  lemma {:induction false} EditNotifyInherited(v: Value, p: EditProps, env: Env)
    requires EditView(v, p, env).Done?
    ensures Notifies(EditView(v, p, env).value, p.notify)
    decreases v
  {
    match Classify(v, p.name, p.preserveVNode, env.vnodeKeys)
    case SetK =>
      EditSequence(v, p, env);
      forall i | 0 <= i < |v.elems| ensures Notifies(EditView(v, p, env).value.items[i], p.notify) {
        EditNotifyInherited(v.elems[i], p.(slot := SetElem(v.elems[i])), env);
      }
    case ArrayK =>
      EditSequence(v, p, env);
      forall i | 0 <= i < |v.elems| ensures Notifies(EditView(v, p, env).value.items[i], p.notify) {
        EditNotifyInherited(v.elems[i], p.(slot := ArrayIndex(i)), env);
      }
    case MapK =>
      EditMap(v, p, env);
      var n := EditView(v, p, env).value;
      forall i | 0 <= i < |v.entries|
        ensures Notifies(n.mapRows[i].key, p.notify) && Notifies(n.mapRows[i].value, p.notify)
      {
        EditNotifyInherited(v.entries[i].key, p.(slot := MapKey(v.entries[i].key, v.entries[i].val)), env);
        EditNotifyInherited(v.entries[i].val, p.(name := v.entries[i].key, slot := MapValue(v.entries[i].key)), env);
      }
    case VNodeK =>
      EditObjectNotify(v, p, env);
    case ObjectK =>
      EditObjectNotify(v, p, env);
    case _ =>
  }

  lemma {:induction false} EditObjectNotify(v: Value, p: EditProps, env: Env)
    requires v.Obj? && EditView(v, p, env).Done?
    ensures Notifies(EditView(v, p, env).value, p.notify)
    decreases v, 0
  {
    EditObjectRows(v, p, env);
    var n := EditView(v, p, env).value;
    forall i | 0 <= i < |v.props| ensures Notifies(n.objRows[i].value, p.notify) {
      EditNotifyInherited(v.props[i].val, FieldProps(v.props[i].key, p.style, p.notify), env);
    }
  }

  /** Since the VNode branch is empty, `preserveVNode` changes nothing in the editor. */
  lemma {:induction false} EditIgnoresPreserveVNode(v: Value, p: EditProps, env: Env)
    ensures EditView(v, p, env) == EditView(v, p.(preserveVNode := !p.preserveVNode), env)
    decreases v, 1
  {
    if v.SetV? || v.Arr? {
      SequenceIgnoresPreserveVNode(v, p, env);
    } else if v.MapV? {
      MapIgnoresPreserveVNode(v, p, env);
    }
  }

  lemma {:induction false} SequenceIgnoresPreserveVNode(v: Value, p: EditProps, env: Env)
    requires v.SetV? || v.Arr?
    ensures EditView(v, p, env) == EditView(v, p.(preserveVNode := !p.preserveVNode), env)
    decreases v, 0
  {
    var q := p.(preserveVNode := !p.preserveVNode);
    if v.SetV? {
      var ps := seq(|v.elems|, i requires 0 <= i < |v.elems| => EditView(v.elems[i], p.(slot := SetElem(v.elems[i])), env));
      var qs := seq(|v.elems|, i requires 0 <= i < |v.elems| => EditView(v.elems[i], q.(slot := SetElem(v.elems[i])), env));
      forall i | 0 <= i < |v.elems| ensures ps[i] == qs[i] {
        EditIgnoresPreserveVNode(v.elems[i], p.(slot := SetElem(v.elems[i])), env);
      }
      assert ps == qs;
    } else {
      var ps := seq(|v.elems|, i requires 0 <= i < |v.elems| => EditView(v.elems[i], p.(slot := ArrayIndex(i)), env));
      var qs := seq(|v.elems|, i requires 0 <= i < |v.elems| => EditView(v.elems[i], q.(slot := ArrayIndex(i)), env));
      forall i | 0 <= i < |v.elems| ensures ps[i] == qs[i] {
        EditIgnoresPreserveVNode(v.elems[i], p.(slot := ArrayIndex(i)), env);
      }
      assert ps == qs;
    }
  }

  lemma {:induction false} MapIgnoresPreserveVNode(v: Value, p: EditProps, env: Env)
    requires v.MapV?
    ensures EditView(v, p, env) == EditView(v, p.(preserveVNode := !p.preserveVNode), env)
    decreases v, 0
  {
    var q := p.(preserveVNode := !p.preserveVNode);
    var ps := seq(|v.entries|, i requires 0 <= i < |v.entries| =>
      EPairRow(EditView(v.entries[i].key, p.(slot := MapKey(v.entries[i].key, v.entries[i].val)), env),
               EditView(v.entries[i].val, p.(name := v.entries[i].key, slot := MapValue(v.entries[i].key)), env)));
    var qs := seq(|v.entries|, i requires 0 <= i < |v.entries| =>
      EPairRow(EditView(v.entries[i].key, q.(slot := MapKey(v.entries[i].key, v.entries[i].val)), env),
               EditView(v.entries[i].val, q.(name := v.entries[i].key, slot := MapValue(v.entries[i].key)), env)));
    forall i | 0 <= i < |v.entries| ensures ps[i] == qs[i] {
      EditIgnoresPreserveVNode(v.entries[i].key, p.(slot := MapKey(v.entries[i].key, v.entries[i].val)), env);
      EditIgnoresPreserveVNode(v.entries[i].val, p.(name := v.entries[i].key, slot := MapValue(v.entries[i].key)), env);
    }
    assert ps == qs;
  }

  /** `new Map([[1, 2]])` as the code is written: the value 2 is edited with the key 1
      as its name, and the render throws; under the corrected rule it renders. */
  lemma NonStringMapKeyThrowsInEditor(p: EditProps, env: Env)
    ensures env.rule == AsWritten ==> EditView(MapV([Entry(Num(Int(1)), Num(Int(2)))], []), p, env) == Thrown
    ensures env.rule == Corrected ==> EditView(MapV([Entry(Num(Int(1)), Num(Int(2)))], []), p, env).Done?
  {
    var v := MapV([Entry(Num(Int(1)), Num(Int(2)))], []);
    var rows := seq(|v.entries|, i requires 0 <= i < |v.entries| =>
      EPairRow(EditView(v.entries[i].key, p.(slot := MapKey(v.entries[i].key, v.entries[i].val)), env),
               EditView(v.entries[i].val, p.(name := v.entries[i].key, slot := MapValue(v.entries[i].key)), env)));
    var x := EditView(Num(Int(2)), p.(name := Num(Int(1)), slot := MapValue(Num(Int(1)))), env);
    if env.rule == AsWritten {
      assert x == Thrown;
      assert rows[0] == Thrown;
    } else {
      assert IsTimeName(p.name) ==> TimeClip(Int(1)) == Int(1);
      assert x.Done?;
      assert rows[0].Done?;
    }
  }

  /** Where every name is falsy or a string, the code as written and the corrected
      lowering give the same editor. */
  lemma {:induction false} EditAgreesOnSafeNames(v: Value, p: EditProps, env: Env)
    requires NamesSafe(v, p.name)
    ensures EditView(v, p, env) == EditView(v, p, env.(rule := Corrected))
    decreases v, 1
  {
    if v.SetV? || v.Arr? {
      SequenceAgreesInEditor(v, p, env);
    } else if v.MapV? {
      MapAgreesInEditor(v, p, env);
    } else if v.Obj? {
      ObjectAgreesInEditor(v, p.style, p.notify, env);
    }
  }

  lemma {:induction false} SequenceAgreesInEditor(v: Value, p: EditProps, env: Env)
    requires (v.SetV? || v.Arr?) && NamesSafe(v, p.name)
    ensures EditView(v, p, env) == EditView(v, p, env.(rule := Corrected))
    decreases v, 0
  {
    var env' := env.(rule := Corrected);
    if v.SetV? {
      var xs := seq(|v.elems|, i requires 0 <= i < |v.elems| => EditView(v.elems[i], p.(slot := SetElem(v.elems[i])), env));
      var ys := seq(|v.elems|, i requires 0 <= i < |v.elems| => EditView(v.elems[i], p.(slot := SetElem(v.elems[i])), env'));
      forall i | 0 <= i < |v.elems| ensures xs[i] == ys[i] {
        EditAgreesOnSafeNames(v.elems[i], p.(slot := SetElem(v.elems[i])), env);
      }
      assert xs == ys;
    } else {
      var xs := seq(|v.elems|, i requires 0 <= i < |v.elems| => EditView(v.elems[i], p.(slot := ArrayIndex(i)), env));
      var ys := seq(|v.elems|, i requires 0 <= i < |v.elems| => EditView(v.elems[i], p.(slot := ArrayIndex(i)), env'));
      forall i | 0 <= i < |v.elems| ensures xs[i] == ys[i] {
        EditAgreesOnSafeNames(v.elems[i], p.(slot := ArrayIndex(i)), env);
      }
      assert xs == ys;
    }
  }

  lemma {:induction false} MapAgreesInEditor(v: Value, p: EditProps, env: Env)
    requires v.MapV? && NamesSafe(v, p.name)
    ensures EditView(v, p, env) == EditView(v, p, env.(rule := Corrected))
    decreases v, 0
  {
    var env' := env.(rule := Corrected);
    var xs := seq(|v.entries|, i requires 0 <= i < |v.entries| =>
      EPairRow(EditView(v.entries[i].key, p.(slot := MapKey(v.entries[i].key, v.entries[i].val)), env),
               EditView(v.entries[i].val, p.(name := v.entries[i].key, slot := MapValue(v.entries[i].key)), env)));
    var ys := seq(|v.entries|, i requires 0 <= i < |v.entries| =>
      EPairRow(EditView(v.entries[i].key, p.(slot := MapKey(v.entries[i].key, v.entries[i].val)), env'),
               EditView(v.entries[i].val, p.(name := v.entries[i].key, slot := MapValue(v.entries[i].key)), env')));
    forall i | 0 <= i < |v.entries| ensures xs[i] == ys[i] {
      EditAgreesOnSafeNames(v.entries[i].key, p.(slot := MapKey(v.entries[i].key, v.entries[i].val)), env);
      EditAgreesOnSafeNames(v.entries[i].val, p.(name := v.entries[i].key, slot := MapValue(v.entries[i].key)), env);
    }
    assert xs == ys;
  }

  lemma {:induction false} ObjectAgreesInEditor(v: Value, style: Option<Style>, notify: bool, env: Env)
    requires v.Obj? && NamesSafe(v, Undef)
    ensures EditObject(v, style, notify, env) == EditObject(v, style, notify, env.(rule := Corrected))
    decreases v, 0
  {
    var env' := env.(rule := Corrected);
    var xs := seq(|v.props|, i requires 0 <= i < |v.props| =>
      var c := EditView(v.props[i].val, FieldProps(v.props[i].key, style, notify), env);
      if c.Thrown? then Thrown else Done(EObjRow(ESpan(v.props[i].key, style), c.value)));
    var ys := seq(|v.props|, i requires 0 <= i < |v.props| =>
      var c := EditView(v.props[i].val, FieldProps(v.props[i].key, style, notify), env');
      if c.Thrown? then Thrown else Done(EObjRow(ESpan(v.props[i].key, style), c.value)));
    forall i | 0 <= i < |v.props| ensures xs[i] == ys[i] {
      EditAgreesOnSafeNames(v.props[i].val, FieldProps(v.props[i].key, style, notify), env);
    }
    assert xs == ys;
  }

  // ---------------------------------------------------------------------------
  // Write-back

  /** The container an updater closes over. */
  datatype Owner =
    | NoOwner
    | SetOwner(jsSet: JsSet)
    | MapOwner(jsMap: JsMap)
    | ArrayOwner(arr: JsArray)
    | ObjectOwner(obj: JsObject)

  function Footprint(o: Owner): set<object> {
    match o
    case NoOwner => {}
    case SetOwner(s) => {s}
    case MapOwner(m) => {m}
    case ArrayOwner(a) => {a}
    case ObjectOwner(x) => {x}
  }

  ghost predicate OwnerValid(o: Owner)
    reads Footprint(o)
  {
    match o
    case SetOwner(s) => s.Valid()
    case MapOwner(m) => m.Valid()
    case ObjectOwner(x) => x.Valid()
    case _ => true
  }

  /** The container each updater writes into: a Set, Map or Array element's container,
      the object whose field it is, and for the default updater the `parent` prop when
      it is given (modelled as a plain object). */
  predicate Fits(slot: Slot, o: Owner) {
    match slot
    case Custom => o.NoOwner?
    case Default(_) => o.NoOwner? || o.ObjectOwner?
    case SetElem(_) => o.SetOwner?
    case MapKey(_, _) => o.MapOwner?
    case MapValue(_) => o.MapOwner?
    case ArrayIndex(_) => o.ArrayOwner?
    case ObjectField(_) => o.ObjectOwner?
  }

  /** The owner after `_updateValue(value)` through `slot`, relative to the owner
      before: the Set element replaced, the Map key renamed or its value set, the Array
      index assigned, the object field written, and for the default updater the `name`
      property of `parent` written when both are given and nothing changed otherwise. */
  twostate predicate WrittenBack(slot: Slot, owner: Owner, value: Value)
    requires Fits(slot, owner)
    reads Footprint(owner)
  {
    match slot
    case Custom => true
    case Default(name) =>
      if owner.ObjectOwner? && name.Some? then owner.obj.props == Put(old(owner.obj.props), name.value, value)
      else unchanged(Footprint(owner))
    case SetElem(x) => owner.jsSet.elems == SetReplace(old(owner.jsSet.elems), x, value)
    case MapKey(key, captured) => owner.jsMap.entries == MapRename(old(owner.jsMap.entries), key, value, captured)
    case MapValue(key) => owner.jsMap.entries == MapSet(old(owner.jsMap.entries), key, value)
    case ArrayIndex(i) => owner.arr.elems == ArrayPut(old(owner.arr.elems), i, value)
    case ObjectField(key) => owner.obj.props == Put(old(owner.obj.props), key, value)
  }

  /** One observable effect of an edit: a write through an updater (for `Custom`, the
      value handed to the caller's own `updateValue`), or a call of `onChange`. */
  datatype Effect = Wrote(slot: Slot, value: Value) | Notified(ev: InputEvent)

  /** The state an edit session observes: its effects, in the order they happen. */
  class EditSession {
    var effects: seq<Effect>

    constructor ()
      ensures effects == []
    {
      effects := [];
    }

    /** `_updateValue(value)` for the given slot. */
    method WriteBack(slot: Slot, owner: Owner, value: Value)
      requires Fits(slot, owner) && OwnerValid(owner)
      modifies this, Footprint(owner)
      ensures OwnerValid(owner)
      ensures WrittenBack(slot, owner, value)
      ensures effects == old(effects) + [Wrote(slot, value)]
    {
      match slot {
      case Custom =>
      case Default(name) =>
        // with no parent or no name the fallback only rebinds its own `props.data`
        if owner.ObjectOwner? && name.Some? {
          owner.obj.Write(name.value, value);
        }
      case SetElem(x) =>
        var _ := owner.jsSet.Delete(x);
        owner.jsSet.Add(value);
      case MapKey(key, captured) =>
        var _ := owner.jsMap.Delete(key);
        owner.jsMap.Set(value, captured);
      case MapValue(key) =>
        owner.jsMap.Set(key, value);
      case ArrayIndex(i) =>
        owner.arr.Assign(i, value);
      case ObjectField(key) =>
        owner.obj.Write(key, value);
      }
      effects := effects + [Wrote(slot, value)];
    }

    /** `update(ev, value)`: the write first, then `onChange(ev)` once if present. */
    method Update(slot: Slot, owner: Owner, notify: bool, ev: InputEvent, value: Value)
      requires Fits(slot, owner) && OwnerValid(owner)
      modifies this, Footprint(owner)
      ensures OwnerValid(owner)
      ensures WrittenBack(slot, owner, value)
      ensures effects == old(effects) + [Wrote(slot, value)] + (if notify then [Notified(ev)] else [])
    {
      WriteBack(slot, owner, value);
      if notify {
        effects := effects + [Notified(ev)];
      }
    }

    /** The `onChange` handler of a rendered input: decode the event, then `update`.
      When decoding throws, nothing is written and nobody is notified. */
    method Change(f: ENode, owner: Owner, ev: InputEvent)
      requires f.Field? && Fits(f.slot, owner) && OwnerValid(owner)
      modifies this, Footprint(owner)
      ensures OwnerValid(owner)
      ensures Decode(f.control, ev).Thrown? ==> unchanged(this) && unchanged(Footprint(owner))
      ensures Decode(f.control, ev).Done? ==>
        var value := Decode(f.control, ev).value;
        && WrittenBack(f.slot, owner, value)
        && effects == old(effects) + [Wrote(f.slot, value)] + (if f.notify then [Notified(ev)] else [])
    {
      var d := Decode(f.control, ev);
      if d.Done? {
        Update(f.slot, owner, f.notify, ev, d.value);
      }
    }
  }
}
