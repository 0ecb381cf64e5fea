/** The runtime values the components walk over, as one closed datatype, and the
    handful of JavaScript language operations the components rely on: `typeof`,
    truthiness, strict equality, own properties, `toLocaleLowerCase` and
    `String.prototype.includes`. */
module JsValue {
  import opened Seqs

  datatype Option<+T> = None | Some(value: T)

  /** The result of an evaluation that may raise a JavaScript exception. */
  datatype Outcome<+T> = Done(value: T) | Thrown

  /** Where the code departs from what it evidently means to do, which of the two a
      model follows: the code as written, or the corrected behaviour. */
  datatype Rule = AsWritten | Corrected

  /** A JavaScript number. Only integral values and NaN are represented. */
  datatype Number = Int(i: int) | NaN

  /** A JavaScript value. The object kinds (Date, Set, Map, Array, plain object) all
      carry their own enumerable string-keyed properties in insertion order; for a
      Date, Set, Map or Array these are the extra ("expando") properties set on it.
      A framework VNode is a plain object that carries the framework's node keys. */
  datatype Value =
    | Str(s: string)
    | Num(n: Number)
    | BigInt(big: int)
    | Bool(b: bool)
    | Func(source: string)
    | Sym(description: string, registered: bool)
    | Undef
    | Null
    | Date(time: Number, props: seq<Prop>)
    | SetV(elems: seq<Value>, props: seq<Prop>)
    | MapV(entries: seq<Entry>, props: seq<Prop>)
    | Arr(elems: seq<Value>, props: seq<Prop>)
    | Obj(props: seq<Prop>)

  datatype Prop = Prop(key: string, val: Value)
  datatype Entry = Entry(key: Value, val: Value)

  /** The strings `typeof` can return for these values. */
  datatype TypeTag = StringT | NumberT | BigIntT | BooleanT | FunctionT | SymbolT | UndefinedT | ObjectT

  function TypeOf(v: Value): TypeTag {
    match v
    case Str(_) => StringT
    case Num(_) => NumberT
    case BigInt(_) => BigIntT
    case Bool(_) => BooleanT
    case Func(_) => FunctionT
    case Sym(_, _) => SymbolT
    case Undef => UndefinedT
    case _ => ObjectT
  }

  /** `typeof v === 'object' && v !== null`. */
  predicate IsObject(v: Value) {
    TypeOf(v) == ObjectT && !v.Null?
  }

  predicate Truthy(v: Value) {
    match v
    case Str(s) => s != ""
    case Num(n) => n.Int? && n.i != 0
    case BigInt(i) => i != 0
    case Bool(b) => b
    case Undef => false
    case Null => false
    case _ => true
  }

  /** The falsy values are exactly `""`, `0`, `NaN`, `0n`, `false`, `undefined` and
      `null` (negative zero is not represented). */
  lemma FalsyValues(v: Value)
    ensures !Truthy(v) <==> v in {Str(""), Num(Int(0)), Num(NaN), BigInt(0), Bool(false), Undef, Null}
  {
  }

  /** `a === b`. Objects are compared by their contents, not by identity. */
  predicate StrictEquals(a: Value, b: Value) {
    a == b && a != Num(NaN)
  }

  /** The same object with its own properties replaced. */
  function WithProps(v: Value, ps: seq<Prop>): (r: Value)
    requires IsObject(v)
    ensures IsObject(r) && r.props == ps
    ensures TypeOf(r) == TypeOf(v) && r.Obj? == v.Obj? && r.Date? == v.Date? && r.SetV? == v.SetV? && r.MapV? == v.MapV?
  {
    match v
    case Date(t, _) => Date(t, ps)
    case SetV(es, _) => SetV(es, ps)
    case MapV(es, _) => MapV(es, ps)
    case Arr(es, _) => Arr(es, ps)
    case Obj(_) => Obj(ps)
  }

  /** `new Date(n)`: the time value is clipped to NaN outside the representable range. */
  const MaxTime := 8_640_000_000_000_000

  function TimeClip(n: Number): (r: Number)
    ensures r.Int? ==> -MaxTime <= r.i <= MaxTime
    ensures n.Int? && -MaxTime <= n.i <= MaxTime ==> r == n
    ensures !(n.Int? && -MaxTime <= n.i <= MaxTime) ==> r == NaN
  {
    if n.Int? && -MaxTime <= n.i <= MaxTime then n else NaN
  }

  // ---------------------------------------------------------------------------
  // Own properties (`key in o`, `o[key]`, `o[key] = v`)

  /** The own keys in enumeration order (`Object.keys`). */
  function KeyList(ps: seq<Prop>): (ks: seq<string>)
    ensures |ks| == |ps|
  {
    if ps == [] then [] else [ps[0].key] + KeyList(ps[1..])
  }

  /** `k in o` for an own property. */
  predicate HasKey(ps: seq<Prop>, k: string) {
    k in KeyList(ps)
  }

  /** No key occurs twice, as in every JavaScript object. */
  predicate UniqueKeys(ps: seq<Prop>) {
    NoDup(KeyList(ps))
  }

  /** `o[k]` for an own property; `undefined` when there is none. */
  function Get(ps: seq<Prop>, k: string): (r: Value)
    ensures !HasKey(ps, k) ==> r == Undef
    ensures HasKey(ps, k) ==> Prop(k, r) in ps
  {
    if ps == [] then Undef
    else if ps[0].key == k then ps[0].val
    else Get(ps[1..], k)
  }

  /** `o[k] = v`: an existing property keeps its place, a new one goes last. */
  function Put(ps: seq<Prop>, k: string, v: Value): (r: seq<Prop>)
    ensures Get(r, k) == v
    ensures forall k' | k' != k :: Get(r, k') == Get(ps, k')
  {
    if ps == [] then [Prop(k, v)]
    else if ps[0].key == k then [Prop(k, v)] + ps[1..]
    else [ps[0]] + Put(ps[1..], k, v)
  }

  /** Writing a property adds its key at the end when it was missing, and otherwise
      leaves the keys and their enumeration order as they were. */
  lemma {:induction false} PutKeys(ps: seq<Prop>, k: string, v: Value)
    ensures KeyList(Put(ps, k, v)) == if HasKey(ps, k) then KeyList(ps) else KeyList(ps) + [k]
  {
    if ps != [] && ps[0].key != k {
      PutKeys(ps[1..], k, v);
      assert KeyList(ps) == [ps[0].key] + KeyList(ps[1..]);
    }
  }

  /** Writing a property never creates a duplicate key. */
  lemma PutUnique(ps: seq<Prop>, k: string, v: Value)
    requires UniqueKeys(ps)
    ensures UniqueKeys(Put(ps, k, v))
    ensures forall k' :: HasKey(Put(ps, k, v), k') <==> HasKey(ps, k') || k' == k
  {
    PutKeys(ps, k, v);
    if !HasKey(ps, k) {
      AppendNoDup(KeyList(ps), k);
    }
  }

  /** Writing the same property twice leaves only the second write. */
  lemma {:induction false} PutPut(ps: seq<Prop>, k: string, a: Value, b: Value)
    ensures Put(Put(ps, k, a), k, b) == Put(ps, k, b)
  {
    if ps != [] && ps[0].key != k {
      PutPut(ps[1..], k, a, b);
    }
  }

  // ---------------------------------------------------------------------------
  // Text

  /** `toLocaleLowerCase` on the ASCII letters; other characters are kept. */
  function LowerChar(c: char): char {
    if 'A' <= c <= 'Z' then (c as int + 32) as char else c
  }

  function Lower(s: string): (r: string)
    ensures |r| == |s| && forall i | 0 <= i < |s| :: r[i] == LowerChar(s[i])
  {
    seq(|s|, i requires 0 <= i < |s| => LowerChar(s[i]))
  }

  /** `s.includes(sub)`. */
  predicate Contains(s: string, sub: string)
    decreases |s|
  {
    (|sub| <= |s| && s[..|sub|] == sub) || (|s| > 0 && Contains(s[1..], sub))
  }

  /** `sub` occurring at position `at` makes `s` contain it. */
  lemma {:induction false} ContainsAt(s: string, sub: string, at: nat)
    requires at + |sub| <= |s| && s[at..at + |sub|] == sub
    ensures Contains(s, sub)
    decreases at
  {
    if at > 0 {
      assert s[1..][at - 1..at - 1 + |sub|] == s[at..at + |sub|];
      ContainsAt(s[1..], sub, at - 1);
    }
  }

  /** `sub` occurs in `s` starting at position `at`. */
  predicate OccursAt(s: string, sub: string, at: nat) {
    at + |sub| <= |s| && s[at..at + |sub|] == sub
  }

  /** `s.includes(sub)` holds exactly when `sub` occurs at some position of `s`. */
  lemma {:induction false} ContainsIff(s: string, sub: string)
    ensures Contains(s, sub) <==> exists at: nat :: OccursAt(s, sub, at)
    decreases |s|
  {
    if exists at: nat :: OccursAt(s, sub, at) {
      var at: nat :| OccursAt(s, sub, at);
      ContainsAt(s, sub, at);
    }
    if Contains(s, sub) {
      if |sub| <= |s| && s[..|sub|] == sub {
        assert OccursAt(s, sub, 0);
      } else {
        ContainsIff(s[1..], sub);
        var at: nat :| OccursAt(s[1..], sub, at);
        assert s[at + 1..at + 1 + |sub|] == s[1..][at..at + |sub|];
        assert OccursAt(s, sub, at + 1);
      }
    }
  }

  // ---------------------------------------------------------------------------
  // Outcomes of element-wise evaluation

  /** Evaluating a list of expressions in order: the first exception aborts the whole
      list (`.map` with a throwing callback); otherwise every value is kept in order. */
  function Collect<T>(rs: seq<Outcome<T>>): (r: Outcome<seq<T>>)
    ensures r.Done? <==> forall i | 0 <= i < |rs| :: rs[i].Done?
    ensures r.Done? ==> |r.value| == |rs| && forall i | 0 <= i < |rs| :: rs[i] == Done(r.value[i])
  {
    if rs == [] then Done([])
    else match rs[0]
      case Thrown => Thrown
      case Done(x) =>
        match Collect(rs[1..])
        case Thrown => Thrown
        case Done(xs) => Done([x] + xs)
  }
}
