/** What the JSON viewer and editor share: the style type, the replaceable formatting
    hooks, the framework's VNode key list and the duck-typed VNode test. */
module JsonCommon {
  import opened JsValue

  /** A style object: CSS property names with their values, in enumeration order. */
  type Style = seq<(string, string)>

  /** The replaceable formatting hooks, `formatter.date` and `formatter.number`. A
      consumer that reassigns a hook is modelled by a caller passing another Formatter.
      The date hook receives the time value of the Date it is given. */
  datatype Formatter = Formatter(date: Number -> string, number: Number -> string)

  /** Everything the renderers take from module bindings and the runtime: the formatting
      hooks, the key list `VNodeKeys` (read once from a sample `<div/>` and fixed from
      then on) and the locale's `BigInt.prototype.toLocaleString`. The rule chooses how
      a field name that is a truthy non-string is lowered: as written, where the call
      `name.toLocaleLowerCase()` throws, or corrected, where such a name is no name. */
  datatype Env = Env(formatter: Formatter, vnodeKeys: seq<string>, bigIntLocale: int -> string, rule: Rule)

  /** `keys.every(key => key in o)` over the object's own properties. */
  predicate HasAllKeys(ps: seq<Prop>, keys: seq<string>) {
    forall k | k in keys :: HasKey(ps, k)
  }

  /** `typeof o === 'object' && o && VNodeKeys.every(key => key in o)`: the value of the
      `&&` chain, so `false` for a non-object, the `null` itself for null, and otherwise
      whether every key is present. */
  function IsVNode(keys: seq<string>, o: Value): (r: Value)
    ensures r.Bool? || r.Null?
    ensures TypeOf(o) != ObjectT ==> r == Bool(false)
    ensures r.Null? <==> o.Null?
    ensures Truthy(r) <==> IsObject(o) && HasAllKeys(o.props, keys)
  {
    if TypeOf(o) != ObjectT then Bool(false)
    else if !Truthy(o) then o
    else Bool(HasAllKeys(o.props, keys))
  }

  /** Setting a property on a VNode keeps it a VNode: the test only asks for keys. */
  lemma IsVNodeStable(keys: seq<string>, o: Value, k: string, v: Value)
    requires Truthy(IsVNode(keys, o))
    ensures Truthy(IsVNode(keys, WithProps(o, Put(o.props, k, v))))
  {
    PutKeys(o.props, k, v);
    forall key | key in keys
      ensures HasKey(Put(o.props, k, v), key)
    {
      assert HasKey(o.props, key);
    }
  }
}
