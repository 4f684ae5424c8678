# A verified model of javy's value deserializer

javy embeds the QuickJS JavaScript engine. Its `serialize::de` module adapts
a dynamic QuickJS value to serde's visitor protocol, so that a Rust value can
be decoded directly from a JavaScript value. This project models that adapter:

- **`runtime.dfy`** (module `Runtime`) is the part of the runtime the adapter
  consults, written as pure data and accessors:
  - a tagged dynamic value (`JsValue`);
  - the seven representation-class predicates, in which an array is also an
    object;
  - the extractors and the container accessors;
  - a `Fallible` outcome wherever javy propagates a runtime error with
    `?`.
- **`classifier.dfy`** (module `Classifier`) holds the deserializer's
  one-slot cursor state (`Slot`, javy's `DeserializerValue`) and the
  ordered first-match dispatch of `deserialize_any` (`Classify`). The dispatch
  is stated against an independent definition: the position of the first true
  entry (`FirstMatch`) in the ordered list of the seven predicates
  (`Predicates`). The module also holds `deserialize_option` and
  `is_human_readable`.
- **`decoding.dfy`** (module `Decoding`) is the reference definition of a
  whole decode (`Decode`, `DecodeItems`, `DecodeEntries`).
  - A decode is driven by a target (`Target`):
    - `Any`, the self-describing visitor that accepts every notification and
      drains every cursor;
    - `Optional`, `NewtypeStruct` and `Enum`, which exercise the other entry
      points.
  - The result is the decoded `Content`.
- **`cursors.dfy`** (module `Cursors`) has the imperative side, as javy
  has it:
  - the `Deserializer` object with its mutable slot;
  - the sequence cursor `SeqAccess`, which holds the array, the length
    captured once and the index it advances;
  - the mapping cursor `MapAccess` over the runtime's property enumerator
    (`Properties`);
  - the loops that drive each cursor to exhaustion (`CollectSeq`,
    `CollectMap`).

  Every method is proved against the functions of `Decoding`. Each cursor
  step overwrites the shared slot and re-enters the deserializer. Termination
  is shown by a size measure on values.
- **`decode_properties.dfy`** (module `DecodeProperties`) holds the
  properties of whole decodes:
  - elements and entries come out in order, one for each index or property;
  - a container decodes exactly when every part of it does: a failed fetch,
    a rejected key or a failing child aborts the whole decode;
  - null and undefined decode alike;
  - optional and newtype targets wrap the decode of what they contain;
  - the key-normalization examples of the module's tests.

## Model

| member | source | states |
|---|---|---|
| `Classifier.Classify` | crates/core/src/serialize/de.rs:34-92 | A map key is always presented as a string carrying exactly that key. Each kind of value gets its own notification with its own payload: the i32, the float's bits, the boolean, unit for null and undefined, the string, the array with its length, or the object's property list. A failed float, boolean or string extraction, an unreadable array length or an unobtainable property enumerator is a runtime fault, never a default value. A value of no class is the "cannot deserialize" error naming it. |
| `Classifier.ClassifyFollowsOrder` | crates/core/src/serialize/de.rs:41-89 | First match wins. A successful notification answers the first of the seven classes, in the order i32, f64, bool, null/undefined, string, array, object, that the value belongs to. The result is the "cannot deserialize" error exactly when the value belongs to none of them. |
| `Classifier.FirstMatch` | crates/core/src/serialize/de.rs:41-84 | The position of the first true predicate: every earlier one is false, and it is true when it lies within the list. This is the first-match-wins order of the if-chain. |
| `Classifier.DeserializeOption` | crates/core/src/serialize/de.rs:98-114 | None is reported exactly for null and undefined, and some for every other value. Equivalently, none is reported exactly when deserialize_any would report unit. |
| `Classifier.IsHumanReadable` | crates/core/src/serialize/de.rs:94-96 | The deserializer reports itself as not human-readable. |
| `Classifier.I32Wins` | crates/core/src/serialize/de.rs:41-43 | A value representable as i32 is visited as that i32, whatever later predicates say. |
| `Classifier.ArrayIsSequenceNotMapping` | crates/core/src/serialize/de.rs:64-84 | An array satisfies the object predicate too. It is still always a sequence, never a mapping. Classification succeeds exactly when its length can be read, and the sequence carries that length. |
| `Classifier.UnclassifiableFails` | crates/core/src/serialize/de.rs:86-89 | A value matching none of the seven predicates gives the "cannot deserialize" error naming the value. |
| `Classifier.OtherKindsFail` | crates/core/src/serialize/de.rs:86-89 | Every value the binding reports under none of the seven classes (functions and symbols, if it so reports them) gives that error. |
| `Classifier.NullAndUndefinedAlike` | crates/core/src/serialize/de.rs:55-57 | Null and undefined both classify as unit, and both are none for deserialize_option. |
| `Classifier.FloatBitsPassThrough` | crates/core/src/serialize/de.rs:45-48 | A float reaches the visitor with its bit pattern unchanged, so NaN and the infinities pass through. |
| `Decoding.Decode` | crates/core/src/serialize/de.rs:34-133 | A successful decode has the shape the target asked for. A map key decodes to the string it holds. Tagged-union targets always fail as unsupported. |
| `Decoding.DecodeItem` | crates/core/src/serialize/de.rs:186-189 | One element step: a failed fetch is a runtime fault. A successful element has no option or newtype wrappers. |
| `Decoding.DecodeItems` | crates/core/src/serialize/de.rs:182-193 | Draining the sequence cursor from index i gives exactly length − i elements, each without option or newtype wrappers. |
| `Decoding.DecodeEntry` | crates/core/src/serialize/de.rs:154-168 | One key step and the value step after it. A failed key conversion is a runtime fault. A name the normalizer rejects is a key error naming that name. A failed read of the value after an accepted key is a runtime fault. A successful pair has a string key. |
| `Decoding.DecodeEntries` | crates/core/src/serialize/de.rs:150-169 | Draining the mapping cursor from position j gives one pair per remaining property. Every key is a string. |
| `Cursors.Deserializer.From` | crates/core/src/serialize/de.rs:24-29 | A new deserializer holds the given value in its slot. |
| `Cursors.Deserializer.Deserialize` | crates/core/src/serialize/de.rs:34-133 | Decoding through the entry point of the target's type returns exactly the reference decode of the slot it started from. A map key slot and a non-container value slot are left as they were. |
| `Cursors.SeqAccess.constructor` | crates/core/src/serialize/de.rs:64-74 | The sequence cursor starts at index 0, holding the array and its captured length. |
| `Cursors.SeqAccess.NextElementSeed` | crates/core/src/serialize/de.rs:182-193 | Below the length, the step fetches the element at the index, puts it in the slot, advances the index by exactly one and returns the element's decode. At the length it returns none and changes nothing, so it performs no fetch. A failed fetch propagates with nothing changed. `0 <= index <= length` is preserved. |
| `Cursors.Properties.constructor` | crates/core/src/serialize/de.rs:78 | The enumerator starts before the first property of the object. |
| `Cursors.Properties.NextKey` | crates/core/src/serialize/de.rs:154 | Returns the next raw key and advances by one, or returns none once every property was enumerated. A failed key conversion propagates. |
| `Cursors.Properties.NextValue` | crates/core/src/serialize/de.rs:167 | Returns the value paired with the last enumerated key. A failed read propagates. |
| `Cursors.MapAccess.constructor` | crates/core/src/serialize/de.rs:78-82 | The mapping cursor holds the deserializer and the enumerator. |
| `Cursors.MapAccess.NextKeySeed` | crates/core/src/serialize/de.rs:150-161 | On a key, the slot becomes the normalized key and the result is that key's decode. An exhausted enumerator gives none and leaves the slot unchanged. An enumerator fault or a rejected key propagates, leaving the slot unchanged. |
| `Cursors.MapAccess.NextValueSeed` | crates/core/src/serialize/de.rs:163-169 | The slot becomes the value paired with the last key, and the result is its decode. A failed read propagates with the slot unchanged. |
| `Cursors.CollectSeq` | crates/core/src/serialize/de.rs:64-74 | Driving the sequence cursor to exhaustion yields exactly the reference decode of all its elements, in index order. |
| `Cursors.CollectMap` | crates/core/src/serialize/de.rs:77-83 | Driving the mapping cursor to exhaustion yields exactly the reference decode of all its entries, in enumeration order. |
| `DecodeProperties.ArrayDecodesInOrder` | crates/core/src/serialize/de.rs:182-193 | For an array of length n whose elements all decode, the decode is a sequence of exactly n elements, and element k is the decode of the value at index k. |
| `DecodeProperties.EmptyArrayDecodesEmpty` | crates/core/src/serialize/de.rs:186-192 | An empty array decodes to the empty sequence. |
| `DecodeProperties.ArrayOkIff` | crates/core/src/serialize/de.rs:64-74 | An array decodes exactly when its length can be read and every element can be fetched and decodes. Any failure below it fails the whole decode. |
| `DecodeProperties.ItemFaultAborts` | crates/core/src/serialize/de.rs:187 | A failed element fetch at any index makes the whole decode fail; no element is skipped. |
| `DecodeProperties.ObjectDecodesInOrder` | crates/core/src/serialize/de.rs:150-169 | For an object whose entries all decode, the decode is a mapping with one pair per property, in enumeration order. Pair k is the normalized name of property k paired with the decode of its value. |
| `DecodeProperties.ObjectOkIff` | crates/core/src/serialize/de.rs:77-83 | An object decodes exactly when its enumerator can be obtained and every property has a readable, normalizable name and a readable value that decodes. A key fault, a rejected name, a value fault or a failing value anywhere fails the whole decode. |
| `DecodeProperties.KeyRejectAborts` | crates/core/src/serialize/de.rs:155 | A property name the normalizer rejects makes the whole decode fail. |
| `DecodeProperties.NullAndUndefinedDecodeAlike` | crates/core/src/serialize/de.rs:213-227 | Null and undefined decode identically into every target. Into the unit-accepting target, both decode to unit. |
| `DecodeProperties.OptionalAbsentIffNullish` | crates/core/src/serialize/de.rs:107-111 | An optional target is absent exactly when the value is null or undefined. |
| `DecodeProperties.NewtypeDelegates` | crates/core/src/serialize/de.rs:116-121 | A newtype target succeeds exactly when its inner target does. It wraps the inner result, or passes the inner error through unchanged. |
| `DecodeProperties.IntDecodes` | crates/core/src/serialize/de.rs:41-43 | An int-tagged value decodes to its i32. |
| `DecodeProperties.ObjectOfInts` | crates/core/src/serialize/de.rs:150-169 | An object whose properties all have normalizable names and int values decodes, in enumeration order, to the pairs of each normalized name and its int. |
| `DecodeProperties.SnakeCaseKeys` | crates/core/src/serialize/de.rs:278-300 | Take an object whose five properties are hello_wold, toto, fooBar, "Joyeux Noël" and kebab-case, valued 1 to 5, and a normalizer that gives their snake_case names. It decodes to exactly the mapping hello_wold→1, toto→2, foo_bar→3, joyeux_noël→4, kebab_case→5, in that order. |
| `DecodeProperties.NumericNameIsStringKey` | crates/core/src/serialize/de.rs:253-264 | An object whose only property is named "1337" with value 42 decodes to the mapping from the string key "1337" to 42. |

## Left out

- The QuickJS runtime and its host binding are not part of this model. Their
  behaviour is captured only through the pure accessors of `Runtime`.
  - Which runtime values satisfy which predicate is fixed by the value's tag.
  - Whether a particular value (a function with own properties, a boxed
    primitive) is reported as an object, and in what order properties are
    enumerated, depends on the binding. The model takes the property list as
    given.
- crates/core/src/js_binding/properties.rs is not part of this model. The
  enumerator is assumed to advance its position when it yields a key, even
  when converting that key fails, and to read the value of the last key on
  `next_value`. Calling `next_value` before any key is excluded by a
  precondition, as serde's protocol does.
- The key normalizer (`sanitize_key`, case conversion to snake_case) is kept
  uninterpreted. It is any function that may reject a name, and the test
  examples take the normalizations they rely on as hypotheses.
- Floating point is not interpreted. A float is its 64-bit pattern, passed
  through unchanged.
- The array's `length` property is converted with `as u32` and the index is a
  `u32`. The model uses unbounded naturals and takes the length to be the
  number of element slots. A JavaScript array's length is always below 2^32,
  so the truncation and the index overflow cannot arise for a real array.
  A length that disagrees with the element slots is not modelled.
- serde's generic machinery is replaced by a small set of targets:
  - the self-describing visitor (`Any`), with the optional, newtype-struct
    and enum entry points;
  - the forwarding of the remaining `deserialize_*` methods to
    `deserialize_any`, which is implicit;
  - not modelled: target types that reject a notification themselves, such
    as an integer-keyed map rejecting a string key (the should-panic test at
    de.rs:266-276), and the conversions a target applies.
- A map key slot handed to `deserialize_option` panics with `unreachable!()`
  in javy. The model excludes it by the precondition `Admissible`: no
  option target is reached from a map key slot.
- The `unimplemented!()` panic of `deserialize_enum` is modelled as the
  error `Unsupported`.
- Error messages are not modelled, only the kind of error (`Error`). The
  error conversion `custom` is left out.
- `Cursors.Deserializer.Deserialize`: does not state what the slot holds after
  decoding a container (the last child visited). Every caller overwrites the
  slot before the next classification.
- The test harness and the runtime context the tests build are not
  modelled. The tests at de.rs:229-251 (NaN and the infinities) are covered
  only as far as the bit pattern passing through unchanged.
