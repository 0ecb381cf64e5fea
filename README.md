# stencil-lib components, modelled in Dafny

This project models the data-handling core of the stencil-lib component library:

- **JsonView** (`json_view.dfy`). A read-only renderer for any JavaScript value. It
  dispatches on `typeof`, then on `null`, `Date`, `Set`, `Map`, `Array` and the
  duck-typed VNode test. Under a name containing "time" or "date", a number is shown
  as a date. Sets and arrays become lists. Maps and plain objects become tables. A
  VNode found in the data is returned as it is. With `overrideStyle`, the caller's
  style is first merged into the VNode's `$attrs$.style`, in place.
- **EditableJsonView** (`json_edit.dfy`). The same dispatch, but every scalar becomes
  an input. Its change handler decodes the event and writes the new value back into
  the container holding it: delete-then-add for a Set element, rename or set for a
  Map, index assignment for an array, field assignment for an object, or the caller's
  own `updateValue`. Then it calls `onChange` once.
- **json-common** (`json_common.dfy`). The replaceable `formatter` hooks, the VNode
  key list and `isVNode`.
- **Form helpers** (`input_helper.dfy`, `input_form.dfy`).
  - `makeInputItems` binds field descriptions to one shared value object.
  - `getUpdateValue` turns an input event into the value to store.
  - `InputItem` renders a field by its type and writes edits back. When the item has
    its own `onChange`, the edit is handed to it instead.
  - `renderCheckboxGroup` renders one checkbox per option.
  - `InputList` sorts a mixed list into spacers, pass-through nodes and form items,
    rendering each form item as it goes.
- **Visibility listeners** (`visibility_change.dfy`). A module-level list of
  callbacks: appended to, filtered, and called in order on every visibility change.

## How values are represented

- JavaScript values form one closed datatype, `JsValue.Value`.
- A VNode is a plain object that carries every key in the framework's key list.
- Numbers are integers or NaN.
- `Set` and `Map` keep their contents as sequences in insertion order. The heap
  classes `JsSet` and `JsMap` keep them duplicate-free (their `Valid`), following
  sections 24.1 and 24.2 of ECMA-262. The `SetV` and `MapV` values that the renderers
  walk do not enforce this.
- An exception is the `Thrown` outcome. A list built with `.map` whose callback
  throws is `Thrown` as a whole (`JsValue.Collect`).
- The containers the editor and the form write into are classes: `JsSet`, `JsMap`,
  `JsArray` and `JsObject`. Their methods reassign a sequence field, and each method
  is specified by a function on that sequence.
- The observable effects are recorded in sequences, each class in call order:
  - `EditSession` records one ordered log of effects: each write through an updater
    (for the caller's own `updateValue`, the value handed to it) and each `onChange`
    call.
  - `FormSession` records the item callbacks and the render requests.
  - `Registry` records the listener calls.
- Module bindings and runtime services are parameters of type `JsonCommon.Env`:
  the formatter hooks, the VNode key list and the locale's bigint formatting.
- Where the code departs from what it evidently means to do (see Findings), the model
  has both behaviours, chosen by a `JsValue.Rule`: `AsWritten` is the code, and
  `Corrected` is the evident intent. The renderers take it from `Env.rule`, and
  `FormSession.UpdateItem` takes it as a parameter. Lemmas state where the two agree.

## Behaviour worth knowing (the model follows the code)

- **Failed numeric edit.** A numeric edit that does not parse is not turned into
  `undefined`. The handler stores `valueAsNumber`, which is NaN.
- **Editing a date.** A timestamp or a Date is edited through a single
  `datetime-local` input that stores `valueAsDate`, not through separate date and
  time controls. Under the HTML standard `valueAsDate` does not apply to a
  `datetime-local` input, and the `toISOString` text it is given (ending in "Z") is
  not a valid local date-time, so in a conforming browser confirming a date writes
  `undefined` (timestamp) or `null` (Date). The model takes `valueAsDate` as a field
  of the event and states both cases.
- **When the VNode key list is read.** It is read once, when the module loads, not
  each time it is needed.
- **Rendering can throw.**
  - As written, both renderers throw for a number whose field name is truthy but not
    a string. An example is the value of a Map entry whose key is a number or a
    symbol (see Findings).
  - The viewer also throws in the style merge when `$attrs$` is a truthy primitive.
  - The editor has no style merge. It throws on a Date that is invalid, or on a
    number under a time name whose date is invalid (`toISOString` raises a
    RangeError).
- **Editing a Set element.** This is delete-then-add, so the element moves to the end
  of the Set. This holds even when the value did not change
  (`JsHeap.SetReplaceSameMovesLast`).
- **Editing a VNode.** The editor's VNode branch is empty, so VNodes are edited as
  plain objects. Also, a plain object's children get only `style` and `onChange`, so
  `preserveVNode` is reset below the first object.
- **Unknown kinds.** There is no fallback for an unknown kind: the value datatype is
  closed, so that branch cannot be reached.

## Model

| member | source | states |
|---|---|---|
| JsValue.TimeClip | src/components/json/json-view.tsx:52 | `new Date(n)` keeps a time inside ±8.64e15 ms and gives NaN (an invalid date) outside it |
| JsValue.Get | src/components/json/json-view.tsx:92 | reading an own property gives `undefined` when the key is absent, and otherwise a value stored under that key |
| JsValue.Put | src/components/json/json-edit.tsx:212 | after `o[k] = v`, `k` reads `v` and every other key reads as before |
| JsValue.PutUnique | src/components/json/json-edit.tsx:212 | a property write never duplicates a key; the key set grows by at most the written key |
| JsValue.PutKeys | src/components/json/json-edit.tsx:212 | a property write keeps the existing key order and appends a new key last |
| JsValue.Lower | src/components/json/json-view.tsx:50 | lowering maps every character, one for one, through the ASCII lower-case mapping (an approximation of the locale's lowering, see Left out) |
| JsValue.ContainsAt | src/components/json/json-view.tsx:51 | a substring occurring at any position makes `includes` true |
| JsValue.ContainsIff | src/components/json/json-view.tsx:51 | `includes` holds exactly when the substring occurs at some position |
| JsValue.FalsyValues | src/components/json/json-view.tsx:50 | the falsy values are exactly `""`, `0`, `NaN`, `0n`, `false`, `undefined` and `null` |
| JsValue.Collect | src/components/json/json-view.tsx:74-76 | `.map` with a throwing callback throws iff some element throws; otherwise every result is kept in order |
| JsonCommon.IsVNode | src/components/json/json-common.tsx:15-17 | the `&&` chain gives `false` for non-objects and `null` for null, and is truthy iff the value is an object holding every key of the list |
| JsonCommon.IsVNodeStable | src/components/json/json-common.tsx:16 | setting a property on a VNode keeps it a VNode |
| JsonView.LowerNameAsWritten | src/components/json/json-view.tsx:50 | as written: a falsy name lowers to "", a string name to its lower case, and any other truthy name throws |
| JsonView.NonStringMapKeyThrows | src/components/json/json-view.tsx:78-86 | as written, rendering `new Map([[1, 2]])` throws, because the value is named by the number key; a symbol key makes the lowering throw too; under the corrected rule the same Map renders |
| JsonView.NameText | src/components/json/json-view.tsx:50 | the corrected name text agrees with the code wherever the code does not throw, and is "" for non-string names |
| JsonView.CreatedTimeShownAsDate | src/components/json/json-view.tsx:49-53 | `1700000000000` under the name `createdTime` is rendered by the date hook, not the number hook |
| JsonView.Classify | src/components/json/json-view.tsx:45-109 | each kind is chosen iff the value has that type; Date, Set, Map and Array are checked before the VNode test; `preserveVNode` turns VNodes into plain objects |
| JsonView.InstanceChecksPrecedeVNodeTest | src/components/json/json-view.tsx:70-92 | a Date, Set, Map or Array that passes the VNode test is still rendered by its own kind |
| JsonView.AssignStyleSets | src/components/json/json-view.tsx:100 | after `Object.assign`, every style entry holds its value and every other property is untouched |
| JsonView.AssignStyleUnique | src/components/json/json-view.tsx:100 | `Object.assign` never duplicates a property |
| JsonView.OverrideStyleMerges | src/components/json/json-view.tsx:93-101 | with object or absent `$attrs$` and `style`, the merge succeeds (`StyleMerged`); afterwards both are objects, the style entries are set, all other attributes, style entries and VNode properties are unchanged |
| JsonView.OverrideStyleThrowsOnPrimitiveAttrs | src/components/json/json-view.tsx:93-101 | the merge throws exactly when `$attrs$` is a truthy primitive |
| JsonView.OverrideVNodeStyle | src/components/json/json-view.tsx:93-101 | the in-place merge on the VNode object leaves exactly the properties `OverriddenStyle` describes, or reports the throw with the object unchanged |
| JsonView.ViewScalar | src/components/json/json-view.tsx:47-72 | strings, numbers, timestamps, bigints, booleans (yes/no), functions, symbols, `undefined`, `null` and Dates each render as one span with the caller's style holding their text; a number whose name lowering throws (as written, a truthy non-string name) makes the render throw |
| JsonView.TimestampAsDate | src/components/json/json-view.tsx:51-53 | a number under a time name renders exactly as the Date `new Date(n)` |
| JsonView.ViewSequence | src/components/json/json-view.tsx:73-77 | a Set renders as `<ul>`, an array as `<ol>`: one item per element, in order, each rendered with the parent's props |
| JsonView.ViewMap | src/components/json/json-view.tsx:78-86 | a Map renders as a table with one row per entry in insertion order; the key is rendered with the parent's props, the value with the key as its name |
| JsonView.ViewObject | src/components/json/json-view.tsx:104-109 | a plain object renders as a table with one row per own property in order: the key in a span, the value named by the key |
| JsonView.ViewVNode | src/components/json/json-view.tsx:92-103 | a VNode is returned unchanged without `overrideStyle`, and after the style merge (or as a throw) with it |
| JsonView.CollectionInheritsTimeName | src/components/json/json-view.tsx:74-76 | numbers inside a Set or Array stored under a time name are all shown as dates, because elements inherit the parent's name |
| JsonView.ViewTotalWithoutOverride | src/components/json/json-view.tsx:43-117 | under the corrected rule and without `overrideStyle`, the viewer renders every value at every depth without throwing |
| JsonView.ViewAgreesOnSafeNames | src/components/json/json-view.tsx:43-117 | where every number sits under a falsy or string name (`NamesSafe`), the code as written and the corrected rule render the same |
| JsonView.ViewTotalAsWritten | src/components/json/json-view.tsx:43-117 | as written and without `overrideStyle`, the viewer renders without throwing every value whose names are all falsy or strings |
| JsonView.ViewShape | src/components/json/json-view.tsx:43-117 | the outer element is decided by the kind: `<ul>` for a Set, `<ol>` for an array, a table for a Map or plain object, the VNode itself, else a span; all but the VNode carry the caller's style |
| JsonView.ViewStyled | src/components/json/json-view.tsx:40 | the caller's style reaches every span, list and table of the rendering; VNodes from the data keep their own |
| JsonEdit.Decode | src/components/json/json-edit.tsx:101-141 | decoding an event throws exactly when `BigInt(text)` or `eval(text)` throws |
| JsonEdit.EditRoundTrip | src/components/json/json-edit.tsx:96-151 | confirming what an input shows writes back the value it was rendered from (string, number, bigint, boolean, registered symbol; a valid timestamp or Date only given an event whose `valueAsDate` reports the displayed instant) |
| JsonEdit.DateEditWithoutValueAsDate | src/components/json/json-edit.tsx:83-151 | a date input whose event has no `valueAsDate` writes `undefined` for a timestamp and `null` for a Date, never the value it was rendered from |
| JsonEdit.EditKeepsType | src/components/json/json-edit.tsx:96-151 | for any value but a function (whose `eval` result can have any type), a handler writes a value of the rendered value's type, except a cleared date picker: `undefined` for a timestamp, `null` for a Date |
| JsonEdit.EditScalar | src/components/json/json-edit.tsx:96-151 | the input each scalar kind gets, with its name, updater and `onChange`; `undefined`/`null` are text; an invalid date throws, and so does a number whose name lowering throws (as written, a truthy non-string name) |
| JsonEdit.EditSequence | src/components/json/json-edit.tsx:153-196 | Set and Array elements are edited with the parent's props and their own updater: delete-then-add of the captured element, or assignment at the index |
| JsonEdit.EditMap | src/components/json/json-edit.tsx:166-188 | a Map row edits the key with the rename updater capturing the value, and the value with the key as name and the set updater |
| JsonEdit.EditObjectRows | src/components/json/json-edit.tsx:197-216 | a plain object or VNode is edited field by field, each field with only `style` and `onChange` passed on and the field-assignment updater |
| JsonEdit.EditNotifyInherited | src/components/json/json-edit.tsx:74-76 | every input at every depth calls `onChange` exactly when the caller gave one |
| JsonEdit.EditIgnoresPreserveVNode | src/components/json/json-edit.tsx:197-200 | `preserveVNode` changes nothing in the editor's output |
| JsonEdit.NonStringMapKeyThrowsInEditor | src/components/json/json-edit.tsx:166-188 | as written, editing `new Map([[1, 2]])` throws, because the value is named by the number key; under the corrected rule it renders |
| JsonEdit.EditAgreesOnSafeNames | src/components/json/json-edit.tsx:92-224 | where every number sits under a falsy or string name, the code as written and the corrected rule give the same editor |
| JsonEdit.EditSession.WriteBack | src/components/json/json-edit.tsx:64-70 | each updater's effect on its container (`WrittenBack`): Set delete-then-add, Map rename or set, index assignment, field assignment, the default write into `parent[name]`; one `Wrote` effect is logged, which for the caller's `updateValue` is the call itself |
| JsonEdit.EditSession.Update | src/components/json/json-edit.tsx:72-77 | the container is written as `WrittenBack` says, and the log gains the write and then, if `onChange` is present, one `Notified(ev)` after it |
| JsonEdit.EditSession.Change | src/components/json/json-edit.tsx:101-141 | a change handler decodes the event and updates: the container is written as `WrittenBack` says for every slot, and the log gains the write, then the notification; when decoding throws, nothing is written and nobody is notified |
| JsHeap.SetAdd | src/components/json/json-edit.tsx:162 | `set.add(v)` makes `v` present, keeps every element and adds nothing else, keeps elements distinct, appends a new element last and leaves the Set as it was when `v` is present |
| JsHeap.SetReplaceContents | src/components/json/json-edit.tsx:160-163 | after an element edit the new value is present, the old one is gone unless equal to it, every other element is kept, and elements stay distinct |
| JsHeap.SetReplaceSameMovesLast | src/components/json/json-edit.tsx:160-163 | re-entering the same element moves it to the end |
| JsHeap.LookupSpec | src/components/json/json-edit.tsx:185 | `map.get(k)` is missing exactly when `k` is not a key, and otherwise is the stored value |
| JsHeap.MapDelete | src/components/json/json-edit.tsx:175 | `map.delete(k)` removes `k` and keeps every other key, its value and the order |
| JsHeap.MapSetContents | src/components/json/json-edit.tsx:185 | `map.set(k, v)` stores `v` under `k`, keeps every other entry, keeps an existing key in place and appends a new one |
| JsHeap.MapRenameContents | src/components/json/json-edit.tsx:174-177 | after a key edit the new key holds the captured value, the old key is gone, other keys are unchanged, keys stay distinct |
| JsHeap.MapRenameOntoExistingShrinks | src/components/json/json-edit.tsx:174-177 | renaming a key onto another existing key loses one entry |
| JsHeap.ArrayPut | src/components/json/json-edit.tsx:194 | `a[i] = v` changes one element, or extends the array with `undefined` up to `i` |
| JsHeap.JsSet.Delete | src/components/json/json-edit.tsx:161 | the in-place delete reports presence and leaves the Set without the element, distinct |
| JsHeap.JsSet.Add | src/components/json/json-edit.tsx:162 | the in-place add leaves the Set as `SetAdd` describes, distinct |
| JsHeap.JsMap.Delete | src/components/json/json-edit.tsx:175 | the in-place delete reports presence and leaves the entries as `MapDelete` describes |
| JsHeap.JsMap.Set | src/components/json/json-edit.tsx:176 | the in-place set leaves the entries as `MapSet` describes, keys distinct |
| JsHeap.JsArray.Assign | src/components/json/json-edit.tsx:194 | the in-place index assignment leaves the elements as `ArrayPut` describes |
| JsHeap.JsObject.Write | src/components/json/json-edit.tsx:212 | the in-place property write leaves the properties as `Put` describes, keys distinct |
| InputHelper.MakeInputItems | src/components/input-form/helper.ts:28-41 | one output per entry in order; `'br'` stays `'br'` and every item gets the shared value object |
| InputHelper.MakeInputItemsRoundTrip | src/components/input-form/helper.ts:28-41 | removing the value objects again gives back the original entries, and every item holds the one object |
| InputHelper.Resolve | src/components/input-form/input-form.tsx:66 | `type \|\| 'text'`: a missing or empty type becomes `'text'`, any other type is kept |
| InputHelper.GetUpdateValue | src/components/input-form/helper.ts:43-69 | as written: `undefined` without a target; the number for `'number'`; the target's value for text, email, textarea, a select and no type; `undefined` for `'date'` and every other type |
| InputHelper.IntendedUpdateValue | src/components/input-form/input-form.tsx:67-131 | corrected value to store: `undefined` without a target or for a type that is not rendered |
| InputHelper.IntendedUpdateValueCases | src/components/input-form/helper.ts:51-68 | corrected value to store: the number for `'number'`, `undefined` for `'date'`, the target's value for every other rendered type |
| InputHelper.IntendedAgreesOnDeclaredTypes | src/components/input-form/helper.ts:51-68 | for the declared types (text, textarea, number, date, email, select, none) the corrected value equals `getUpdateValue` |
| InputHelper.PasswordAndRadioLoseTheirValue | src/components/input-form/helper.ts:62-67 | as written, a rendered password field and a radio group store `undefined` whatever is typed |
| InputForm.Includes | src/components/input-form/input-form.tsx:52-54 | `includes` on an array is membership; on `undefined` or `null` it throws |
| InputForm.RenderPlainTypes | src/components/input-form/input-form.tsx:66-85 | a missing or empty type renders as a text input; each of the nine plain types is an `ion-input` of that type showing the current value |
| InputForm.RenderInputItem | src/components/input-form/input-form.tsx:64-137 | every rendered control shows `valueObject[key]`; exactly the unrendered types render nothing; only a multiple select can throw |
| InputForm.SelectOptions | src/components/input-form/input-form.tsx:106-117 | one option per choice, in order, with its text and value; in a single select an option is selected iff strictly equal to the current value, and the render never throws |
| InputForm.SingleSelectAtMostOne | src/components/input-form/input-form.tsx:114-116 | with distinct option values, a single select has at most one option selected |
| InputForm.MultipleSelectMembership | src/components/input-form/input-form.tsx:114-115 | in a multiple select an option is selected iff the current array holds it; none with no value; a non-array, non-string value throws |
| InputForm.CheckboxGroup | src/components/input-form/input-form.tsx:39-62 | one checkbox per option, in order, with its text and value |
| InputForm.CheckboxGroupChecked | src/components/input-form/input-form.tsx:39-62 | a checkbox is checked iff the current array holds its value; with no value at all the group throws |
| InputForm.FormSession.UpdateItem | src/components/input-form/input-form.tsx:11-27 | without a value and a target nothing happens; the value is the given one, else `getUpdateValue`'s under `AsWritten` and `IntendedUpdateValue`'s under `Corrected`; with the item's own `onChange`, that is called with the new and old value and a render is deferred; otherwise the value is stored, rendered at once, and the re-render shows it |
| InputForm.ListEntry | src/components/input-form/input-form.tsx:155-171 | `'br'` is a spacer, `null` throws, an object with a `valueObject` is a form item, anything else passes through unchanged |
| InputForm.InputListShape | src/components/input-form/input-form.tsx:138-174 | the list throws iff an entry is `null` or a form item's own render throws (the item is rendered inside the list's `.map`); otherwise it has one output per entry in order, each form item being the control it renders |
| InputForm.MultipleSelectOnNumberThrowsTheList | src/components/input-form/input-form.tsx:111-116 | a multiple select whose current value is the number 5 makes the whole list throw, since `(5 \|\| []).includes` is not a function |
| VisibilityChange.Broadcast | src/events/visibility-change.ts:38-41 | a change calls every listener, in list order, with the same flag |
| VisibilityChange.BroadcastCounts | src/events/visibility-change.ts:40 | a listener registered n times is called n times per change, never with the other flag |
| VisibilityChange.RemoveUndoesAdd | src/events/visibility-change.ts:26-36 | adding then removing a listener leaves the list as removing alone would |
| VisibilityChange.Registry.Add | src/events/visibility-change.ts:26-30 | a listener is appended, even when already present |
| VisibilityChange.Registry.Remove | src/events/visibility-change.ts:32-36 | every occurrence is removed, the others keep their order and counts, and an absent listener changes nothing |
| VisibilityChange.Registry.HandleChange | src/events/visibility-change.ts:38-41 | the loop delivers exactly `Broadcast(listeners, hidden)` and leaves the list unchanged |

## Left out

- Markup: JSX, the DOM, Ionic elements and attributes that carry no data
  (`autoCorrect`, `displayFormat`, `slot`, labels as markup). The output is an
  abstract node tree.
- The default formatter hooks (`toLocaleString`) and the locale: the hooks are
  parameters, so every result holds for any formatter a consumer installs.
- Numbers are integers or NaN. Fractions, infinities and −0 are not modelled, and
  neither are `toLocaleString` and `toISOString` texts. A date input carries its time
  value.
- Object identity: objects are compared by contents (`StrictEquals`,
  `SelectOptions`), which differs from JavaScript for distinct objects with equal
  contents. The same holds for two unregistered symbols with the same description
  (`Sym(d, false)`) and two functions with the same source: equal in the model,
  distinct in JavaScript. This affects `StrictEquals`, Set membership and Map keys.
- What a browser reports as `valueAsDate` for the `datetime-local` input: the model
  takes it from the event, so `EditRoundTrip` holds for dates only when the event
  reports the displayed instant (see `DateEditWithoutValueAsDate` for the other case).
- JsonEdit.EditSession.WriteBack: the link between a rendered input and the heap
  container it writes into is not tracked. The caller passes the `Owner`.
  - Aliasing between a value seen by the renderer and that container is not modelled.
  - The default updater's `parent` is modelled only as a plain object.
  - Its `props.data = value` branch only rebinds a local, so it is modelled as no
    change.
- JsonView.OverrideVNodeStyle: `$attrs$` and its `style` are values inside the VNode.
  Another reference to the same `$attrs$` object elsewhere does not see the merge.
  Writes onto a function `$attrs$`, onto a function `style`, or onto the wrapper of a
  primitive `style`, leave no trace.
- InputForm.ListEntry: a form item is rendered only when it is given as a bound item
  (`Bound`), whose value object is always an object. A plain value that carries a
  `valueObject` property is sorted as a form item (`FormItem`) but not rendered, so a
  throw of its render, such as `null[key]` for `valueObject: null`, is not modelled.
- The prototype chain, inherited and symbol-keyed properties, and the integer-key
  ordering of `Object.keys`. Own properties are kept in insertion order.
- Array holes. `ArrayPut` past the end fills the gap with `undefined`.
- The global symbol registry. `Symbol.for` gives a registered symbol whose
  description is the text.
- The values of `eval`, `BigInt(text)`, `valueAsNumber` and `valueAsDate`. They are
  fields of the input event.
- Vendor-prefixed visibility properties, `isHidden` and the event subscription. The
  `hidden` flag is a parameter.
- A listener that adds or removes listeners while a change is being handled.
- `requestAnimationFrame` and `triggerRender` are recorded as render requests
  (`Deferred`, `Immediate`); the callback's timing is not modelled.
- `console.log` and `console.error` output.
- The unreachable `default` branches of both renderers. The value datatype is closed.
- The `parent` prop of the viewer (never read) and the `InputForm` alias.
- Cyclic data: values are finite trees, so a cycle (which makes the renderers recurse
  without end) cannot be expressed.
- JsonView.ViewTotalWithoutOverride: proved under the corrected rule. As written, a
  non-string Map key makes a number value throw (see Findings). For the code as
  written, totality is proved only for values whose names are all falsy or strings
  (`JsonView.ViewTotalAsWritten`).
- JsValue.Lower: an ASCII-only, locale-independent approximation of
  `toLocaleLowerCase`. In a Turkish locale "createdTIME" lowers to "createdtıme",
  which contains no "time", and 'İ' lowers to two characters. So the model's
  time-name test, and the "keeps the length" part of `Lower`, can differ from the
  browser's for non-ASCII names and non-English locales.
- Style merging in place during a render: with `overrideStyle` the viewer writes the
  merged style into the VNode objects of the caller's data as it walks them. A render
  that throws later leaves the earlier merges done. The renderer model is a function,
  so it shows each merge only in its output (`Passed(Obj(ps))`). The in-place step is
  modelled for one VNode by `JsonView.OverrideVNodeStyle`.
- InputForm.Includes: for a string receiver and a non-string argument, JavaScript
  converts the argument to a string; the model reports `Thrown`.
  `Array.prototype.includes` on a non-array object with a `length` is not modelled
  either.
- The `ion-page`, `ion-toast` and `ion-action-sheet` helpers, `helper-types.ts` and
  the sample data are not part of this model.

## Findings

| source | as written | input that shows it | evidently intended | confidence | as-written member | corrected member |
|---|---|---|---|---|---|---|
| src/components/json/json-view.tsx:50 (also src/components/json/json-edit.tsx:104) | `(props.name \|\| '').toLocaleLowerCase()` is called on a Map key used as the value's name, which need not be a string | `new Map([[1, 2]])`, or a Map keyed by a symbol with a number value: rendering throws a TypeError | a name that is not a string is treated as no name, and the number is shown as a number | medium, not executed | JsonView.LowerNameAsWritten, JsonView.NonStringMapKeyThrows, JsonEdit.NonStringMapKeyThrowsInEditor | JsonView.NameText, used by JsonView.ViewTotalWithoutOverride and JsonView.ViewAgreesOnSafeNames |
| src/components/input-form/helper.ts:51-68 | `getUpdateValue` handles only text, email, textarea, number, date and select | editing a `password` field (also `search`, `tel`, `time`, `url`, `datetime`, radio) stores `undefined` into the value object | the target's value is stored for every rendered type except `'date'`, whose branch is unfinished in both | medium, not executed | InputHelper.GetUpdateValue, InputHelper.PasswordAndRadioLoseTheirValue | InputHelper.IntendedUpdateValue, used by InputForm.FormSession.UpdateItem under `Corrected` |
