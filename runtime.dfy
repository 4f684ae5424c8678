/**
 * The part of the embedded JavaScript runtime (QuickJS, reached through the
 * host binding layer) that the deserializer consults: a dynamic value, the
 * seven representation-class predicates, the extractors and the container
 * accessors. Every call into the runtime that returns a `Result` in the
 * source can fail; the data says where, through `Fallible`.
 */
module Runtime {

  /** A signed 32-bit integer, the payload of an int-tagged runtime value. */
  type i32 = x: int | -0x8000_0000 <= x < 0x8000_0000

  datatype Option<+T> = None | Some(value: T)

  /** The outcome of one fallible call into the runtime. */
  datatype Fallible<+T> = Got(value: T) | Fault

  /**
   * A dynamic value as the runtime tags it. A float is kept as its raw IEEE-754
   * bit pattern, so NaN and the infinities are ordinary data here. An array is
   * its element slots (reading the slot at an index may fail) and whether
   * reading its "length" property fails; an object is the list of its own
   * enumerable properties in enumeration order and whether obtaining the
   * enumerator fails. `JsOther` stands for every value the binding reports
   * under none of the seven classes (functions and symbols, if it so reports them).
   */
  datatype JsValue =
    | JsInt(int32: i32)
    | JsFloat(bits: Fallible<bv64>)
    | JsBool(flag: Fallible<bool>)
    | JsNull
    | JsUndefined
    | JsString(text: Fallible<string>)
    | JsArray(items: seq<Fallible<JsValue>>, lengthUnreadable: bool)
    | JsObject(entries: seq<Property>, propertiesUnreadable: bool)
    | JsOther(description: string)

  /** One enumerable property: converting its name and reading its value may each fail. */
  datatype Property = Property(key: Fallible<string>, value: Fallible<JsValue>)

  /**
   * Decode errors. javy renders them all as one opaque error with a
   * message; the model keeps only which kind of failure it was.
   */
  datatype Error =
    | Unclassifiable(value: JsValue)   // no representation class matched
    | HostFault                        // a runtime call reported failure
    | KeyNotNormalized(raw: string)    // the key normalizer rejected a name
    | Unsupported                      // tagged-union targets

  datatype Result<+T> = Ok(value: T) | Err(error: Error)

  /** The snake_case key normalizer: it may reject a name. Its rules are not modelled. */
  type Sanitizer = string -> Option<string>

  // The representation-class predicates of the binding layer.

  predicate IsReprAsI32(v: JsValue) { v.JsInt? }

  predicate IsReprAsF64(v: JsValue) { v.JsFloat? }

  predicate IsBool(v: JsValue) { v.JsBool? }

  predicate IsNullOrUndefined(v: JsValue) { v.JsNull? || v.JsUndefined? }

  predicate IsStr(v: JsValue) { v.JsString? }

  predicate IsArray(v: JsValue) { v.JsArray? }

  /** Arrays are objects in JavaScript: both predicates hold of an array. */
  predicate IsObject(v: JsValue) { v.JsArray? || v.JsObject? }

  // Extractors and container accessors.

  function AsI32(v: JsValue): i32
    requires IsReprAsI32(v)
  {
    v.int32
  }

  function AsF64(v: JsValue): Fallible<bv64>
    requires IsReprAsF64(v)
  {
    v.bits
  }

  function AsBool(v: JsValue): Fallible<bool>
    requires IsBool(v)
  {
    v.flag
  }

  function AsStr(v: JsValue): Fallible<string>
    requires IsStr(v)
  {
    v.text
  }

  /** Reading an array's "length" property. */
  function LengthProperty(v: JsValue): Fallible<nat>
    requires IsArray(v)
  {
    if v.lengthUnreadable then Fault else Got(|v.items|)
  }

  function GetIndexedProperty(v: JsValue, index: nat): Fallible<JsValue>
    requires IsArray(v) && index < |v.items|
  {
    v.items[index]
  }

  /** Obtaining the enumerator over an object's own enumerable properties. */
  function PropertiesOf(v: JsValue): Fallible<seq<Property>>
    requires v.JsObject?
  {
    if v.propertiesUnreadable then Fault else Got(v.entries)
  }

  // A size measure on values, used to show that decoding a child terminates.

  function Size(v: JsValue): nat
    decreases v, 1, 0
  {
    match v
    case JsArray(items, _) => 1 + ItemsSize(v, |items|)
    case JsObject(entries, _) => 1 + EntriesSize(v, |entries|)
    case _ => 1
  }

  function ItemsSize(v: JsValue, n: nat): nat
    requires v.JsArray? && n <= |v.items|
    decreases v, 0, n
  {
    if n == 0 then 0
    else
      ItemsSize(v, n - 1) + (match v.items[n - 1] case Got(x) => Size(x) case Fault => 0)
  }

  function EntriesSize(v: JsValue, n: nat): nat
    requires v.JsObject? && n <= |v.entries|
    decreases v, 0, n
  {
    if n == 0 then 0
    else
      EntriesSize(v, n - 1) + (match v.entries[n - 1].value case Got(x) => Size(x) case Fault => 0)
  }

  lemma {:induction false} ItemsSizeBound(v: JsValue, n: nat, i: nat)
    requires v.JsArray? && i < n <= |v.items| && v.items[i].Got?
    ensures Size(v.items[i].value) <= ItemsSize(v, n)
    decreases n
  {
    if i < n - 1 {
      ItemsSizeBound(v, n - 1, i);
    }
  }

  lemma {:induction false} EntriesSizeBound(v: JsValue, n: nat, j: nat)
    requires v.JsObject? && j < n <= |v.entries| && v.entries[j].value.Got?
    ensures Size(v.entries[j].value.value) <= EntriesSize(v, n)
    decreases n
  {
    if j < n - 1 {
      EntriesSizeBound(v, n - 1, j);
    }
  }

  /** An element of an array is smaller than the array. */
  lemma ItemSmaller(v: JsValue, i: nat)
    requires v.JsArray? && i < |v.items| && v.items[i].Got?
    ensures Size(v.items[i].value) < Size(v)
  {
    ItemsSizeBound(v, |v.items|, i);
  }

  /** A property value of an object is smaller than the object. */
  lemma EntrySmaller(v: JsValue, j: nat)
    requires v.JsObject? && j < |v.entries| && v.entries[j].value.Got?
    ensures Size(v.entries[j].value.value) < Size(v)
  {
    EntriesSizeBound(v, |v.entries|, j);
  }
}
