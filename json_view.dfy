/** The read-only JSON viewer `JsonView`: a value is classified by `typeof` and then by
    instance checks, a number under a time- or date-like field name is shown as a date,
    collections and plain objects are rendered recursively, and a VNode found in the
    data is passed through, optionally with the caller's style merged into it. */
module JsonView {
  import opened Seqs
  import opened JsValue
  import opened JsHeap
  import opened JsonCommon

  /** The branch a value takes. Exactly one applies to every value. */
  datatype Kind =
    | StringK | NumberK | TimestampK | BigIntK | BooleanK | FunctionK | SymbolK
    | UndefinedK | NullK | DateK | SetK | MapK | ArrayK | VNodeK | ObjectK

  // ---------------------------------------------------------------------------
  // The field-name heuristic

  /** `(props.name || '').toLocaleLowerCase()` as written. `name` is whatever the parent
      passed: a string field name, or any Map key. A truthy name that is not a string has
      no `toLocaleLowerCase`, so the call throws a TypeError. */
  function LowerNameAsWritten(name: Value): (r: Outcome<string>)
    ensures !Truthy(name) ==> r == Done("")
    ensures name.Str? ==> r == Done(Lower(name.s))
    ensures Truthy(name) && !name.Str? ==> r == Thrown
  {
    var n := if Truthy(name) then name else Str("");
    if n.Str? then Done(Lower(n.s)) else Thrown
  }

  /** The lowered field name as the model uses it: a name that is not a string counts
      as "". It agrees with the code as written wherever that does not throw. */
  function NameText(name: Value): (r: string)
    ensures LowerNameAsWritten(name).Done? ==> r == LowerNameAsWritten(name).value
    ensures !name.Str? ==> r == ""
    ensures |r| == if name.Str? then |name.s| else 0
  {
    if name.Str? then Lower(name.s) else ""
  }

  predicate IsTimeName(name: Value) {
    Contains(NameText(name), "time") || Contains(NameText(name), "date")
  }

  /** Whether rendering a number under `name` throws: as written, exactly when the
      lowering throws; under the corrected rule, never. A time name is a string, so it
      never throws. */
  predicate NameThrows(name: Value, rule: Rule) {
    rule == AsWritten && LowerNameAsWritten(name).Thrown?
  }

  /** `new Map([[1, 2]])` as the code is written: the value 2 is rendered with the key 1
      as its name, the lowering throws, and so does the whole render. A Map keyed by a
      symbol fails the same way. Under the corrected rule the same Map renders. */
  lemma NonStringMapKeyThrows(p: ViewProps, env: Env)
    ensures Truthy(Sym("due", true)) && LowerNameAsWritten(Sym("due", true)) == Thrown
    ensures env.rule == AsWritten ==> View(MapV([Entry(Num(Int(1)), Num(Int(2)))], []), p, env) == Thrown
    ensures env.rule == Corrected ==> View(MapV([Entry(Num(Int(1)), Num(Int(2)))], []), p, env).Done?
  {
    var m := MapV([Entry(Num(Int(1)), Num(Int(2)))], []);
    var q := p.(name := Num(Int(1)));
    if env.rule == AsWritten {
      assert View(Num(Int(2)), q, env) == Thrown;
      assert PairRow(View(Num(Int(1)), p, env), View(Num(Int(2)), q, env)) == Thrown;
      assert MapRows(m, p, env) == Thrown;
    } else {
      assert View(Num(Int(1)), p, env).Done? && View(Num(Int(2)), q, env).Done?;
      assert PairRow(View(Num(Int(1)), p, env), View(Num(Int(2)), q, env)).Done?;
      assert MapRows(m, p, env).Done?;
    }
  }

  /** "createdTime" is a time name, so a timestamp stored under it is shown as a date. */
  lemma CreatedTimeShownAsDate(style: Option<Style>, overrideStyle: bool, preserveVNode: bool, env: Env)
    ensures IsTimeName(Str("createdTime"))
    ensures View(Num(Int(1_700_000_000_000)), ViewProps(Str("createdTime"), style, overrideStyle, preserveVNode), env)
         == Done(Span(env.formatter.date(Int(1_700_000_000_000)), style))
  {
    var n := NameText(Str("createdTime"));
    assert n[7..11] == "time";
    ContainsAt(n, "time", 7);
  }

  // ---------------------------------------------------------------------------
  // Classification

  /** `switch (typeof data)`, and for objects: null, then `instanceof` Date, Set, Map,
      `Array.isArray`, then the VNode key test unless `preserveVNode`, else a plain object.
      Because the instance checks come first, a Date, Set, Map or Array carrying every
      VNode key is still classified by its own kind. */
  function Classify(v: Value, name: Value, preserveVNode: bool, keys: seq<string>): (k: Kind)
    ensures k == StringK <==> v.Str?
    ensures k == NumberK <==> v.Num? && !IsTimeName(name)
    ensures k == TimestampK <==> v.Num? && IsTimeName(name)
    ensures k == BigIntK <==> v.BigInt?
    ensures k == BooleanK <==> v.Bool?
    ensures k == FunctionK <==> v.Func?
    ensures k == SymbolK <==> v.Sym?
    ensures k == UndefinedK <==> v.Undef?
    ensures k == NullK <==> v.Null?
    ensures k == DateK <==> v.Date?
    ensures k == SetK <==> v.SetV?
    ensures k == MapK <==> v.MapV?
    ensures k == ArrayK <==> v.Arr?
    ensures k == VNodeK <==> v.Obj? && !preserveVNode && HasAllKeys(v.props, keys)
    ensures k == ObjectK <==> v.Obj? && (preserveVNode || !HasAllKeys(v.props, keys))
  {
    match TypeOf(v)
    case StringT => StringK
    case NumberT => if IsTimeName(name) then TimestampK else NumberK
    case BigIntT => BigIntK
    case BooleanT => BooleanK
    case FunctionT => FunctionK
    case SymbolT => SymbolK
    case UndefinedT => UndefinedK
    case ObjectT =>
      if v.Null? then NullK
      else if v.Date? then DateK
      else if v.SetV? then SetK
      else if v.MapV? then MapK
      else if v.Arr? then ArrayK
      else if !preserveVNode && HasAllKeys(v.props, keys) then VNodeK
      else ObjectK
  }

  /** A Date, Set, Map or Array that `isVNode` accepts is still rendered by its kind. */
  lemma InstanceChecksPrecedeVNodeTest(v: Value, name: Value, preserveVNode: bool, keys: seq<string>)
    requires v.Date? || v.SetV? || v.MapV? || v.Arr?
    requires Truthy(IsVNode(keys, v))
    ensures Classify(v, name, preserveVNode, keys) !in {VNodeK, ObjectK}
  {
  }

  // ---------------------------------------------------------------------------
  // Merging the caller's style into a VNode (the `overrideStyle` branch)

  function StyleList(style: Option<Style>): Style {
    if style.Some? then style.value else []
  }

  function StyleKeys(style: Style): (ks: seq<string>)
    ensures |ks| == |style|
  {
    if style == [] then [] else [style[0].0] + StyleKeys(style[1..])
  }

  /** `Object.assign(target, style)`: every style entry is written in order. */
  function AssignStyle(ps: seq<Prop>, style: Style): seq<Prop>
    decreases |style|
  {
    if style == [] then ps else AssignStyle(Put(ps, style[0].0, Str(style[0].1)), style[1..])
  }

  /** After `Object.assign`, each style entry holds its value and every other property
      is untouched. */
  lemma {:induction false} AssignStyleSets(ps: seq<Prop>, style: Style)
    requires NoDup(StyleKeys(style))
    ensures forall i | 0 <= i < |style| :: Get(AssignStyle(ps, style), style[i].0) == Str(style[i].1)
    ensures forall k | k !in StyleKeys(style) :: Get(AssignStyle(ps, style), k) == Get(ps, k)
    decreases |style|
  {
    if style != [] {
      var ps1 := Put(ps, style[0].0, Str(style[0].1));
      assert StyleKeys(style) == [style[0].0] + StyleKeys(style[1..]);
      NoDupTail(StyleKeys(style));
      AssignStyleSets(ps1, style[1..]);
      forall i | 0 <= i < |style|
        ensures Get(AssignStyle(ps, style), style[i].0) == Str(style[i].1)
      {
        if i != 0 {
          assert style[1..][i - 1] == style[i];
        }
      }
    }
  }

  lemma {:induction false} AssignStyleUnique(ps: seq<Prop>, style: Style)
    requires UniqueKeys(ps)
    ensures UniqueKeys(AssignStyle(ps, style))
    decreases |style|
  {
    if style != [] {
      PutUnique(ps, style[0].0, Str(style[0].1));
      AssignStyleUnique(Put(ps, style[0].0, Str(style[0].1)), style[1..]);
    }
  }

  /** `data.$attrs$`, replaced by a fresh `{}` when it is falsy. */
  function AttrsOf(ps: seq<Prop>): Value {
    if Truthy(Get(ps, "$attrs$")) then Get(ps, "$attrs$") else Obj([])
  }

  /** `$attrs$.style`, replaced by a fresh `{}` when it is falsy. */
  function StyleSlotOf(attrs: Value): Value
    requires IsObject(attrs)
  {
    if Truthy(Get(attrs.props, "style")) then Get(attrs.props, "style") else Obj([])
  }

  /** The VNode's properties after the `overrideStyle` branch. Assigning `.style` on a
      truthy primitive `$attrs$` throws (module code is strict). Properties written onto
      a function, or onto the temporary wrapper of a primitive `style`, leave no trace
      in the model. */
  function OverriddenStyle(ps: seq<Prop>, style: Option<Style>): Outcome<seq<Prop>> {
    var attrs := AttrsOf(ps);
    if attrs.Func? then Done(ps)
    else if !IsObject(attrs) then Thrown
    else
      var st := StyleSlotOf(attrs);
      var st' := if IsObject(st) then WithProps(st, AssignStyle(st.props, StyleList(style))) else st;
      Done(Put(ps, "$attrs$", WithProps(attrs, Put(attrs.props, "style", st'))))
  }

  /** `ps'` is `ps` after a successful merge: `$attrs$` and its `style` are objects,
      every entry of the caller's style is in `$attrs$.style`, every other style entry
      and every other attribute is as before, and no other property of the VNode
      changes. */
  ghost predicate StyleMerged(ps: seq<Prop>, ps': seq<Prop>, style: Option<Style>) {
    var attrs := AttrsOf(ps);
    var attrs' := Get(ps', "$attrs$");
    && (forall k | k != "$attrs$" :: Get(ps', k) == Get(ps, k))
    && IsObject(attrs) && IsObject(attrs')
    && (forall a | a != "style" :: Get(attrs'.props, a) == Get(attrs.props, a))
    && var st := StyleSlotOf(attrs);
       var st' := Get(attrs'.props, "style");
       && IsObject(st) && IsObject(st')
       && (forall i | 0 <= i < |StyleList(style)| :: Get(st'.props, StyleList(style)[i].0) == Str(StyleList(style)[i].1))
       && (forall k | k !in StyleKeys(StyleList(style)) :: Get(st'.props, k) == Get(st.props, k))
  }

  /** When `$attrs$` and its `style` are absent, falsy or objects, the merge succeeds
      and does what `StyleMerged` says. */
  lemma OverrideStyleMerges(ps: seq<Prop>, style: Option<Style>)
    requires IsObject(AttrsOf(ps)) && IsObject(StyleSlotOf(AttrsOf(ps)))
    requires NoDup(StyleKeys(StyleList(style)))
    ensures match OverriddenStyle(ps, style)
      case Done(ps') => StyleMerged(ps, ps', style)
      case Thrown => false
  {
    var attrs := AttrsOf(ps);
    var st := StyleSlotOf(attrs);
    assert IsObject(st);
    var st' := WithProps(st, AssignStyle(st.props, StyleList(style)));
    var attrs' := WithProps(attrs, Put(attrs.props, "style", st'));
    assert OverriddenStyle(ps, style) == Done(Put(ps, "$attrs$", attrs'));
    assert Get(Put(ps, "$attrs$", attrs'), "$attrs$") == attrs';
    assert Get(attrs'.props, "style") == st';
    AssignStyleSets(st.props, StyleList(style));
  }

  /** The branch throws exactly when `$attrs$` is a truthy string, number, bigint,
      boolean or symbol. */
  lemma OverrideStyleThrowsOnPrimitiveAttrs(ps: seq<Prop>, style: Option<Style>)
    ensures OverriddenStyle(ps, style).Thrown?
        <==> Truthy(Get(ps, "$attrs$")) && !IsObject(Get(ps, "$attrs$")) && !Get(ps, "$attrs$").Func?
  {
  }

  /** The branch as the code runs it, in place on the VNode object. */
  method OverrideVNodeStyle(data: JsObject, style: Option<Style>) returns (thrown: bool)
    requires data.Valid()
    modifies data
    ensures data.Valid()
    ensures OverriddenStyle(old(data.props), style).Thrown? ==> thrown && data.props == old(data.props)
    ensures OverriddenStyle(old(data.props), style).Done? ==> !thrown && data.props == OverriddenStyle(old(data.props), style).value
  {
    ghost var ps0 := data.props;
    var attrs := data.Read("$attrs$");
    if !Truthy(attrs) {
      data.Write("$attrs$", Obj([]));
      attrs := Obj([]);
    }
    assert attrs == AttrsOf(ps0);
    if attrs.Func? {
      return false;
    }
    if !IsObject(attrs) {
      return true;
    }
    // `$attrs$` is a value inside the VNode: its `style` slot and the assigned entries
    // are built on the value and stored back with one write.
    var st := Get(attrs.props, "style");
    if !Truthy(st) {
      st := Obj([]);
    }
    if IsObject(st) {
      st := WithProps(st, AssignStyle(st.props, StyleList(style)));
    }
    ghost var ps1 := data.props;
    data.Write("$attrs$", WithProps(attrs, Put(attrs.props, "style", st)));
    thrown := false;
    if ps1 != ps0 {
      PutPut(ps0, "$attrs$", Obj([]), WithProps(attrs, Put(attrs.props, "style", st)));
    }
  }

  // ---------------------------------------------------------------------------
  // Rendering

  /** The props a child is rendered with; `parent` is not read by the viewer. */
  datatype ViewProps = ViewProps(name: Value, style: Option<Style>, overrideStyle: bool, preserveVNode: bool)

  /** The rendered output, abstracted from the markup: a `<span>`, a `<ul>` or `<ol>` of
      `<li>` items, the two tables, or a VNode from the data returned as it is. */
  datatype Node =
    | Span(text: string, style: Option<Style>)
    | UList(items: seq<Node>, style: Option<Style>)
    | OList(items: seq<Node>, style: Option<Style>)
    | MapTable(mapRows: seq<MapRow>, style: Option<Style>)
    | ObjTable(objRows: seq<ObjRow>, style: Option<Style>)
    | Passed(vnode: Value)

  /** A Map row: the key cell, the `=>` cell, the value cell. */
  datatype MapRow = MapRow(key: Node, value: Node)
  /** A plain-object row: the key in a span followed by `:`, then the value cell. */
  datatype ObjRow = ObjRow(keyCell: Node, value: Node)

  /** What the inner dispatch returns: a string, or a node. */
  datatype Res = Text(s: string) | Tree(node: Node)

  /** `typeof res === 'string' ? str(res) : res`. */
  function Finish(res: Res, style: Option<Style>): Node {
    match res
    case Text(s) => Span(s, style)
    case Tree(n) => n
  }

  function SymbolText(description: string): string {
    "Symbol(" + description + ")"
  }

  function PairRow(k: Outcome<Node>, v: Outcome<Node>): Outcome<MapRow> {
    if k.Done? && v.Done? then Done(MapRow(k.value, v.value)) else Thrown
  }

  /** The list items of a Set or an Array: each element with the parent's props. */
  function Items(v: Value, p: ViewProps, env: Env): Outcome<seq<Node>>
    requires v.SetV? || v.Arr?
    decreases v, 0
  {
    Collect(seq(|v.elems|, i requires 0 <= i < |v.elems| => View(v.elems[i], p, env)))
  }

  /** The rows of a Map: the key with the parent's props, the value named by the key. */
  function MapRows(v: Value, p: ViewProps, env: Env): Outcome<seq<MapRow>>
    requires v.MapV?
    decreases v, 0
  {
    Collect(seq(|v.entries|, i requires 0 <= i < |v.entries| =>
      PairRow(View(v.entries[i].key, p, env), View(v.entries[i].val, p.(name := v.entries[i].key), env))))
  }

  /** The rows of a plain object: the key in a span, the value named by the key. */
  function ObjRows(v: Value, p: ViewProps, env: Env): Outcome<seq<ObjRow>>
    requires v.Obj?
    decreases v, 0
  {
    Collect(seq(|v.props|, i requires 0 <= i < |v.props| =>
      var c := View(v.props[i].val, p.(name := Str(v.props[i].key)), env);
      if c.Thrown? then Thrown else Done(ObjRow(Span(v.props[i].key, p.style), c.value))))
  }

  function Inner(v: Value, p: ViewProps, env: Env): Outcome<Res>
    decreases v, 1
  {
    match Classify(v, p.name, p.preserveVNode, env.vnodeKeys)
    case StringK => Done(Text(v.s))
    case NumberK => if NameThrows(p.name, env.rule) then Thrown else Done(Text(env.formatter.number(v.n)))
    case TimestampK => Done(Text(env.formatter.date(TimeClip(v.n))))
    case BigIntK => Done(Text(env.bigIntLocale(v.big)))
    case BooleanK => Done(Text(if v.b then "yes" else "no"))
    case FunctionK => Done(Text(v.source))
    case SymbolK => Done(Text(SymbolText(v.description)))
    case UndefinedK => Done(Text("undefined"))
    case NullK => Done(Text("null"))
    case DateK => Done(Text(env.formatter.date(v.time)))
    case SetK =>
      var items := Items(v, p, env);
      if items.Thrown? then Thrown else Done(Tree(UList(items.value, p.style)))
    case MapK =>
      var rows := MapRows(v, p, env);
      if rows.Thrown? then Thrown else Done(Tree(MapTable(rows.value, p.style)))
    case ArrayK =>
      var items := Items(v, p, env);
      if items.Thrown? then Thrown else Done(Tree(OList(items.value, p.style)))
    case VNodeK =>
      if !p.overrideStyle then Done(Tree(Passed(v)))
      else
        (match OverriddenStyle(v.props, p.style)
         case Thrown => Thrown
         case Done(ps) => Done(Tree(Passed(Obj(ps)))))
    case ObjectK =>
      var rows := ObjRows(v, p, env);
      if rows.Thrown? then Thrown else Done(Tree(ObjTable(rows.value, p.style)))
  }

  /** `JsonView(props)`. */
  function View(v: Value, p: ViewProps, env: Env): Outcome<Node>
    decreases v, 2
  {
    match Inner(v, p, env)
    case Thrown => Thrown
    case Done(res) => Done(Finish(res, p.style))
  }

  // ---------------------------------------------------------------------------
  // What the rendering promises

  /** Every leaf and every container carries the caller's style; VNodes from the data
      are the exception, they keep their own. */
  predicate Styled(n: Node, style: Option<Style>) {
    match n
    case Span(_, s) => s == style
    case UList(items, s) => s == style && forall i | 0 <= i < |items| :: Styled(items[i], style)
    case OList(items, s) => s == style && forall i | 0 <= i < |items| :: Styled(items[i], style)
    case MapTable(rows, s) =>
      s == style && forall i | 0 <= i < |rows| :: Styled(rows[i].key, style) && Styled(rows[i].value, style)
    case ObjTable(rows, s) =>
      s == style && forall i | 0 <= i < |rows| :: Styled(rows[i].keyCell, style) && Styled(rows[i].value, style)
    case Passed(_) => true
  }

  /** Strings, numbers, bigints, booleans, functions, symbols, `undefined`, `null` and
      Dates each render as one span holding their text, except a number whose name
      lowering throws. */
  lemma ViewScalar(v: Value, p: ViewProps, env: Env)
    ensures v.Str? ==> View(v, p, env) == Done(Span(v.s, p.style))
    ensures v.Num? && NameThrows(p.name, env.rule) ==> View(v, p, env) == Thrown
    ensures v.Num? && !NameThrows(p.name, env.rule) && !IsTimeName(p.name) ==> View(v, p, env) == Done(Span(env.formatter.number(v.n), p.style))
    ensures v.Num? && IsTimeName(p.name) ==> View(v, p, env) == Done(Span(env.formatter.date(TimeClip(v.n)), p.style))
    ensures v.BigInt? ==> View(v, p, env) == Done(Span(env.bigIntLocale(v.big), p.style))
    ensures v.Bool? ==> View(v, p, env) == Done(Span(if v.b then "yes" else "no", p.style))
    ensures v.Func? ==> View(v, p, env) == Done(Span(v.source, p.style))
    ensures v.Sym? ==> View(v, p, env) == Done(Span("Symbol(" + v.description + ")", p.style))
    ensures v.Undef? ==> View(v, p, env) == Done(Span("undefined", p.style))
    ensures v.Null? ==> View(v, p, env) == Done(Span("null", p.style))
    ensures v.Date? ==> View(v, p, env) == Done(Span(env.formatter.date(v.time), p.style))
  {
  }

  /** A number under a time- or date-like name renders exactly as the Date `new Date(n)`
      would, whatever extra properties that Date carries. */
  lemma TimestampAsDate(n: Number, ps: seq<Prop>, p: ViewProps, env: Env)
    requires IsTimeName(p.name)
    ensures View(Num(n), p, env) == View(Date(TimeClip(n), ps), p, env)
  {
  }

  /** A Set renders as a bulleted list and an Array as a numbered list, one item per
      element in order, each rendered with the parent's props (so also its name). */
  lemma ViewSequence(v: Value, p: ViewProps, env: Env)
    requires v.SetV? || v.Arr?
    requires View(v, p, env).Done?
    ensures var n := View(v, p, env).value;
      && (if v.SetV? then n.UList? else n.OList?)
      && |n.items| == |v.elems|
      && n.style == p.style
      && forall i | 0 <= i < |v.elems| :: View(v.elems[i], p, env) == Done(n.items[i])
  {
    var n := if v.SetV? then UList(Items(v, p, env).value, p.style) else OList(Items(v, p, env).value, p.style);
    assert View(v, p, env) == Done(n);
  }

  /** A Map renders as a table with one row per entry in insertion order: the key is
      rendered with the parent's props and the value with the key as its name. */
  lemma ViewMap(v: Value, p: ViewProps, env: Env)
    requires v.MapV? && View(v, p, env).Done?
    ensures var n := View(v, p, env).value;
      && n.MapTable? && |n.mapRows| == |v.entries| && n.style == p.style
      && forall i | 0 <= i < |v.entries| ::
           && View(v.entries[i].key, p, env) == Done(n.mapRows[i].key)
           && View(v.entries[i].val, p.(name := v.entries[i].key), env) == Done(n.mapRows[i].value)
  {
    assert View(v, p, env) == Done(MapTable(MapRows(v, p, env).value, p.style));
  }

  /** A plain object renders as a table with one row per own property in order: the
      key in a span, and the value rendered with the key as its name. */
  lemma ViewObject(v: Value, p: ViewProps, env: Env)
    requires v.Obj? && (p.preserveVNode || !HasAllKeys(v.props, env.vnodeKeys))
    requires View(v, p, env).Done?
    ensures var n := View(v, p, env).value;
      && n.ObjTable? && |n.objRows| == |v.props| && n.style == p.style
      && forall i | 0 <= i < |v.props| ::
           && n.objRows[i].keyCell == Span(v.props[i].key, p.style)
           && View(v.props[i].val, p.(name := Str(v.props[i].key)), env) == Done(n.objRows[i].value)
  {
    assert View(v, p, env) == Done(ObjTable(ObjRows(v, p, env).value, p.style));
    ObjRowsDone(v, p, env);
  }

  lemma ObjRowsDone(v: Value, p: ViewProps, env: Env)
    requires v.Obj? && ObjRows(v, p, env).Done?
    ensures |ObjRows(v, p, env).value| == |v.props|
    ensures forall i | 0 <= i < |v.props| ::
      && ObjRows(v, p, env).value[i].keyCell == Span(v.props[i].key, p.style)
      && View(v.props[i].val, p.(name := Str(v.props[i].key)), env) == Done(ObjRows(v, p, env).value[i].value)
  {
    var rs := seq(|v.props|, i requires 0 <= i < |v.props| =>
      var c := View(v.props[i].val, p.(name := Str(v.props[i].key)), env);
      if c.Thrown? then Thrown else Done(ObjRow(Span(v.props[i].key, p.style), c.value)));
    forall i | 0 <= i < |v.props|
      ensures View(v.props[i].val, p.(name := Str(v.props[i].key)), env).Done?
    {
      assert rs[i].Done?;
    }
  }

  /** A VNode in the data is returned as it is unless `overrideStyle`; with it, the
      result is the VNode after the style merge, or the render throws. */
  lemma ViewVNode(v: Value, p: ViewProps, env: Env)
    requires v.Obj? && !p.preserveVNode && HasAllKeys(v.props, env.vnodeKeys)
    ensures !p.overrideStyle ==> View(v, p, env) == Done(Passed(v))
    ensures p.overrideStyle ==> match OverriddenStyle(v.props, p.style)
      case Thrown => View(v, p, env) == Thrown
      case Done(ps) => View(v, p, env) == Done(Passed(Obj(ps)))
  {
  }

  /** Set and Array elements inherit the parent's name, so numbers inside a collection
      stored under a time- or date-like name are all shown as dates. */
  lemma CollectionInheritsTimeName(v: Value, p: ViewProps, env: Env)
    requires v.SetV? || v.Arr?
    requires IsTimeName(p.name) && View(v, p, env).Done?
    ensures (View(v, p, env).value.UList? || View(v, p, env).value.OList?) && |View(v, p, env).value.items| == |v.elems|
    ensures forall i | 0 <= i < |v.elems| && v.elems[i].Num? ::
      View(v, p, env).value.items[i] == Span(env.formatter.date(TimeClip(v.elems[i].n)), p.style)
  {
    ViewSequence(v, p, env);
    forall i | 0 <= i < |v.elems| && v.elems[i].Num?
      ensures View(v, p, env).value.items[i] == Span(env.formatter.date(TimeClip(v.elems[i].n)), p.style)
    {
      ViewScalar(v.elems[i], p, env);
    }
  }

  /** With the corrected name lowering and without `overrideStyle`, the viewer never
      throws, for any value at any depth. */
  lemma {:induction false} ViewTotalWithoutOverride(v: Value, p: ViewProps, env: Env)
    requires !p.overrideStyle && env.rule == Corrected
    ensures View(v, p, env).Done?
    decreases v, 1
  {
    if v.SetV? || v.Arr? {
      forall i | 0 <= i < |v.elems| ensures View(v.elems[i], p, env).Done? {
        ViewTotalWithoutOverride(v.elems[i], p, env);
      }
      assert Items(v, p, env).Done?;
    } else if v.MapV? {
      MapTotalWithoutOverride(v, p, env);
    } else if v.Obj? {
      ObjectTotalWithoutOverride(v, p, env);
    }
  }

  lemma {:induction false} MapTotalWithoutOverride(v: Value, p: ViewProps, env: Env)
    requires !p.overrideStyle && env.rule == Corrected && v.MapV?
    ensures MapRows(v, p, env).Done?
    decreases v, 0
  {
    forall i | 0 <= i < |v.entries|
      ensures View(v.entries[i].key, p, env).Done?
      ensures View(v.entries[i].val, p.(name := v.entries[i].key), env).Done?
    {
      ViewTotalWithoutOverride(v.entries[i].key, p, env);
      ViewTotalWithoutOverride(v.entries[i].val, p.(name := v.entries[i].key), env);
    }
  }

  lemma {:induction false} ObjectTotalWithoutOverride(v: Value, p: ViewProps, env: Env)
    requires !p.overrideStyle && env.rule == Corrected && v.Obj?
    ensures ObjRows(v, p, env).Done?
    decreases v, 0
  {
    forall i | 0 <= i < |v.props| ensures View(v.props[i].val, p.(name := Str(v.props[i].key)), env).Done? {
      ViewTotalWithoutOverride(v.props[i].val, p.(name := Str(v.props[i].key)), env);
    }
  }

  /** Every number in `v`, at any depth, is rendered under a name that is falsy or a
      string: a Set or Array element under the parent's name, a Map key under the
      parent's name and a Map value under its key, a property value under its key. */
  predicate NamesSafe(v: Value, name: Value)
    decreases v
  {
    match v
    case Num(_) => !Truthy(name) || name.Str?
    case SetV(es, _) => forall i | 0 <= i < |es| :: NamesSafe(es[i], name)
    case Arr(es, _) => forall i | 0 <= i < |es| :: NamesSafe(es[i], name)
    case MapV(es, _) => forall i | 0 <= i < |es| :: NamesSafe(es[i].key, name) && NamesSafe(es[i].val, es[i].key)
    case Obj(ps) => forall i | 0 <= i < |ps| :: NamesSafe(ps[i].val, Str(ps[i].key))
    case _ => true
  }

  /** Where every name is falsy or a string, the code as written and the corrected
      lowering render the same. */
  lemma {:induction false} ViewAgreesOnSafeNames(v: Value, p: ViewProps, env: Env)
    requires NamesSafe(v, p.name)
    ensures View(v, p, env) == View(v, p, env.(rule := Corrected))
    decreases v, 1
  {
    if v.SetV? || v.Arr? {
      SequenceAgreesOnSafeNames(v, p, env);
    } else if v.MapV? {
      MapAgreesOnSafeNames(v, p, env);
    } else if v.Obj? {
      ObjectAgreesOnSafeNames(v, p, env);
    }
  }

  lemma {:induction false} SequenceAgreesOnSafeNames(v: Value, p: ViewProps, env: Env)
    requires (v.SetV? || v.Arr?) && NamesSafe(v, p.name)
    ensures Items(v, p, env) == Items(v, p, env.(rule := Corrected))
    decreases v, 0
  {
    var env' := env.(rule := Corrected);
    var xs := seq(|v.elems|, i requires 0 <= i < |v.elems| => View(v.elems[i], p, env));
    var ys := seq(|v.elems|, i requires 0 <= i < |v.elems| => View(v.elems[i], p, env'));
    forall i | 0 <= i < |v.elems| ensures xs[i] == ys[i] {
      ViewAgreesOnSafeNames(v.elems[i], p, env);
    }
    assert xs == ys;
  }

  lemma {:induction false} MapAgreesOnSafeNames(v: Value, p: ViewProps, env: Env)
    requires v.MapV? && NamesSafe(v, p.name)
    ensures MapRows(v, p, env) == MapRows(v, p, env.(rule := Corrected))
    decreases v, 0
  {
    var env' := env.(rule := Corrected);
    var xs := seq(|v.entries|, i requires 0 <= i < |v.entries| =>
      PairRow(View(v.entries[i].key, p, env), View(v.entries[i].val, p.(name := v.entries[i].key), env)));
    var ys := seq(|v.entries|, i requires 0 <= i < |v.entries| =>
      PairRow(View(v.entries[i].key, p, env'), View(v.entries[i].val, p.(name := v.entries[i].key), env')));
    forall i | 0 <= i < |v.entries| ensures xs[i] == ys[i] {
      ViewAgreesOnSafeNames(v.entries[i].key, p, env);
      ViewAgreesOnSafeNames(v.entries[i].val, p.(name := v.entries[i].key), env);
    }
    assert xs == ys;
  }

  lemma {:induction false} ObjectAgreesOnSafeNames(v: Value, p: ViewProps, env: Env)
    requires v.Obj? && NamesSafe(v, p.name)
    ensures ObjRows(v, p, env) == ObjRows(v, p, env.(rule := Corrected))
    decreases v, 0
  {
    var env' := env.(rule := Corrected);
    var xs := seq(|v.props|, i requires 0 <= i < |v.props| =>
      var c := View(v.props[i].val, p.(name := Str(v.props[i].key)), env);
      if c.Thrown? then Thrown else Done(ObjRow(Span(v.props[i].key, p.style), c.value)));
    var ys := seq(|v.props|, i requires 0 <= i < |v.props| =>
      var c := View(v.props[i].val, p.(name := Str(v.props[i].key)), env');
      if c.Thrown? then Thrown else Done(ObjRow(Span(v.props[i].key, p.style), c.value)));
    forall i | 0 <= i < |v.props| ensures xs[i] == ys[i] {
      ViewAgreesOnSafeNames(v.props[i].val, p.(name := Str(v.props[i].key)), env);
    }
    assert xs == ys;
  }

  /** As written and without `overrideStyle`, the viewer throws for no value whose
      names are all falsy or strings. */
  lemma ViewTotalAsWritten(v: Value, p: ViewProps, env: Env)
    requires !p.overrideStyle && NamesSafe(v, p.name)
    ensures View(v, p, env).Done?
  {
    ViewAgreesOnSafeNames(v, p, env);
    ViewTotalWithoutOverride(v, p, env.(rule := Corrected));
  }

  /** The outer element of a rendering is decided by the value's kind: a bulleted list
      for a Set, a numbered list for an Array, a table for a Map or a plain object, the
      VNode itself for a VNode, and otherwise a span; all but the VNode carry the
      caller's style. */
  lemma ViewShape(v: Value, p: ViewProps, env: Env)
    requires View(v, p, env).Done?
    ensures var n := View(v, p, env).value;
      match Classify(v, p.name, p.preserveVNode, env.vnodeKeys)
      case SetK => n.UList? && n.style == p.style
      case ArrayK => n.OList? && n.style == p.style
      case MapK => n.MapTable? && n.style == p.style
      case ObjectK => n.ObjTable? && n.style == p.style
      case VNodeK => n.Passed?
      case _ => n.Span? && n.style == p.style
  {
    match Classify(v, p.name, p.preserveVNode, env.vnodeKeys) {
      case SetK =>
      case ArrayK =>
      case MapK =>
      case ObjectK =>
      case VNodeK =>
      case _ => assert Inner(v, p, env).value.Text?;
    }
  }

  /** The caller's style reaches every span, list and table of the rendering. */
  lemma {:induction false} ViewStyled(v: Value, p: ViewProps, env: Env)
    requires View(v, p, env).Done?
    ensures Styled(View(v, p, env).value, p.style)
    decreases v, 1
  {
    if v.SetV? || v.Arr? {
      SequenceStyled(v, p, env);
    } else if v.MapV? {
      MapStyled(v, p, env);
    } else if v.Obj? && (p.preserveVNode || !HasAllKeys(v.props, env.vnodeKeys)) {
      ObjectStyled(v, p, env);
    }
  }

  lemma {:induction false} SequenceStyled(v: Value, p: ViewProps, env: Env)
    requires (v.SetV? || v.Arr?) && View(v, p, env).Done?
    ensures Styled(View(v, p, env).value, p.style)
    decreases v, 0
  {
    ViewSequence(v, p, env);
    forall i | 0 <= i < |v.elems| ensures Styled(View(v, p, env).value.items[i], p.style) {
      ViewStyled(v.elems[i], p, env);
    }
  }

  lemma {:induction false} MapStyled(v: Value, p: ViewProps, env: Env)
    requires v.MapV? && View(v, p, env).Done?
    ensures Styled(View(v, p, env).value, p.style)
    decreases v, 0
  {
    ViewMap(v, p, env);
    var n := View(v, p, env).value;
    forall i | 0 <= i < |v.entries|
      ensures Styled(n.mapRows[i].key, p.style) && Styled(n.mapRows[i].value, p.style)
    {
      ViewStyled(v.entries[i].key, p, env);
      ViewStyled(v.entries[i].val, p.(name := v.entries[i].key), env);
    }
  }

  lemma {:induction false} ObjectStyled(v: Value, p: ViewProps, env: Env)
    requires v.Obj? && (p.preserveVNode || !HasAllKeys(v.props, env.vnodeKeys)) && View(v, p, env).Done?
    ensures Styled(View(v, p, env).value, p.style)
    decreases v, 0
  {
    ViewObject(v, p, env);
    var n := View(v, p, env).value;
    forall i | 0 <= i < |v.props| ensures Styled(n.objRows[i].value, p.style) {
      ViewStyled(v.props[i].val, p.(name := Str(v.props[i].key)), env);
    }
  }
}
