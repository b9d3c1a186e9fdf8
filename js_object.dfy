/** Reading a property of a plain JavaScript object built from JSON or an
    object literal: an own property, else a member every object inherits from
    `Object.prototype`, else `undefined`. The version table of a document and
    the logger's level table are read this way. */
module JsObject {

  datatype Property<+V> =
    | Own(value: V)         // the object's own property
    | Inherited(key: string) // a truthy member of Object.prototype, such as `constructor`
    | Absent                // undefined

  /** The members of `Object.prototype` that a property read can reach. */
  const PrototypeMembers: set<string> := {
    "constructor", "__proto__", "__defineGetter__", "__defineSetter__",
    "__lookupGetter__", "__lookupSetter__", "hasOwnProperty", "isPrototypeOf",
    "propertyIsEnumerable", "toLocaleString", "toString", "valueOf"
  }

  /** Every inherited member name starts with a letter or `_`, so no key
      starting with a digit (a version, a range) reaches one. */
  lemma DigitKeyNotInherited(key: string)
    requires |key| > 0 && '0' <= key[0] <= '9'
    ensures key !in PrototypeMembers
  {
    forall m | m in PrototypeMembers ensures |m| > 0 && !('0' <= m[0] <= '9') {
    }
  }

  /** `obj[key]`. A read with the key `undefined` is a read of the key "undefined". */
  function Get<V>(obj: map<string, V>, key: string): (r: Property<V>)
    ensures r.Own? <==> key in obj
    ensures r.Own? ==> r.value == obj[key]
    ensures r.Inherited? ==> key !in obj && r.key == key
  {
    if key in obj then Own(obj[key])
    else if key in PrototypeMembers then Inherited(key)
    else Absent
  }

  /** The text JavaScript uses for `undefined` when it serves as a property key. */
  const UndefinedKey: string := "undefined"
}
