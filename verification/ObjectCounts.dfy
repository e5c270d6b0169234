/**
 Counting into a JavaScript object literal: `acc[key] = (acc[key] ?? 0) + 1`, starting from
 `{}`. A lookup falls through to the prototype, so for the name of an inherited property it
 finds an object where the code expects a number or nothing; what that does to the count is
 derived here from what the operators do.
 */
module ObjectCounts {
  import opened Text

  /** The values that can meet in the reduction. An inherited one is a function, or the prototype itself. */
  datatype Value = Number(n: nat) | Characters(s: string) | Inherited(name: string)

  /** An object literal's own properties. */
  type Own = map<string, Value>

  /** `String(value)` of an inherited function or of the prototype. */
  type ShowInherited = string -> string

  /** What `Object.prototype` provides. */
  const PROTOTYPE: set<string> :=
    {"constructor", "toString", "valueOf", "hasOwnProperty", "isPrototypeOf", "propertyIsEnumerable",
     "toLocaleString", PROTO, "__defineGetter__", "__defineSetter__", "__lookupGetter__", "__lookupSetter__"}

  /** The one inherited property with a setter. */
  const PROTO := "__proto__"

  /** `own[key]`; `None` is `undefined`. */
  function Lookup(own: Own, key: string): Option<Value> {
    if key in own then Some(own[key])
    else if key in PROTOTYPE then Some(Inherited(key))
    else None
  }

  /** `own[key] ?? 0`. */
  function Count(own: Own, key: string): Value {
    var v := Lookup(own, key);
    if v.Some? then v.value else Number(0)
  }

  /** `v + 1`: a sum for a number, otherwise a concatenation. */
  function PlusOne(v: Value, show: ShowInherited): (r: Value)
    ensures !r.Inherited?
  {
    match v
    case Number(n) => Number(n + 1)
    case Characters(s) => Characters(s + "1")
    case Inherited(name) => Characters(show(name) + "1")
  }

  /** `own[key] = v` for a number or string: the setter of `__proto__` ignores it. */
  function Assign(own: Own, key: string, v: Value): Own
    requires !v.Inherited?
  {
    if key == PROTO then own else own[key := v]
  }

  /** The reduction over a list of keys. */
  function Reduced(keys: seq<string>, show: ShowInherited): Own {
    if keys == [] then map[]
    else
      var before, key := Reduced(keys[..|keys| - 1], show), keys[|keys| - 1];
      Assign(before, key, PlusOne(Count(before, key), show))
  }

  method Tally(keys: seq<string>, show: ShowInherited) returns (acc: Own)
    ensures acc == Reduced(keys, show)
  {
    acc := map[];
    for i := 0 to |keys|
      invariant acc == Reduced(keys[..i], show)
    {
      assert keys[..i + 1][..i] == keys[..i];
      acc := Assign(acc, keys[i], PlusOne(Count(acc, keys[i]), show));
    }
    assert keys[..|keys|] == keys;
  }

  // ---------------------------------------------------------------------------
  // What the reduction leaves under a key
  // ---------------------------------------------------------------------------

  function Occurrences(keys: seq<string>, key: string): nat {
    if keys == [] then 0
    else Occurrences(keys[..|keys| - 1], key) + if keys[|keys| - 1] == key then 1 else 0
  }

  function Ones(n: nat): string {
    if n == 0 then "" else Ones(n - 1) + "1"
  }

  /** The count of a key: its occurrences, or, for an inherited name, what the concatenations made of it. */
  function Expected(keys: seq<string>, key: string, show: ShowInherited): Value {
    var n := Occurrences(keys, key);
    if key !in PROTOTYPE then Number(n)
    else if key == PROTO || n == 0 then Inherited(key)
    else Characters(show(key) + Ones(n))
  }

  /** One more key changes the count of that key only. */
  lemma CountAfter(own: Own, key: string, other: string, show: ShowInherited)
    ensures
      Count(Assign(own, key, PlusOne(Count(own, key), show)), other)
      == if other == key && key != PROTO then PlusOne(Count(own, key), show) else Count(own, other)
  {
  }

  lemma {:induction false} ReducedCounts(keys: seq<string>, key: string, show: ShowInherited)
    ensures Count(Reduced(keys, show), key) == Expected(keys, key, show)
  {
    if keys != [] {
      var rest, last := keys[..|keys| - 1], keys[|keys| - 1];
      ReducedCounts(rest, key, show);
      CountAfter(Reduced(rest, show), last, key, show);
      if last == key && key in PROTOTYPE {
        assert show(key) + Ones(Occurrences(rest, key)) + "1" == show(key) + (Ones(Occurrences(rest, key)) + "1");
      }
    }
  }

  /** The count is the number of occurrences exactly for keys that objects do not inherit. */
  lemma CountIsRightIff(keys: seq<string>, key: string, show: ShowInherited)
    ensures Count(Reduced(keys, show), key) == Number(Occurrences(keys, key)) <==> key !in PROTOTYPE
    ensures Count(Reduced(keys, show), key) == Number(Occurrences(keys, key)) <==>
      key !in {"constructor", "toString", "valueOf", "hasOwnProperty", "isPrototypeOf", "propertyIsEnumerable",
               "toLocaleString", "__proto__", "__defineGetter__", "__defineSetter__", "__lookupGetter__",
               "__lookupSetter__"}
  {
    ReducedCounts(keys, key, show);
  }
}
