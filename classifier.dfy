/**
 * The value classifier: the deserializer's one-slot cursor state and the
 * ordered dispatch that turns the slot's contents into exactly one visitor
 * notification (deserialize_any), plus the optional-value entry point
 * (deserialize_option) and the human-readability flag.
 */
module Classifier {
  import opened Runtime

  /**
   * The deserializer's cursor state: a dynamic value awaiting classification,
   * or a normalized key to be presented as a mapping key.
   */
  datatype Slot = Value(value: JsValue) | MapKey(key: string)

  /**
   * The visitor notifications deserialize_any can issue. A sequence
   * notification carries what the sequence cursor starts from (the array and
   * the length read once at entry); a mapping notification carries the
   * property list the mapping cursor enumerates.
   */
  datatype Notice =
    | VisitI32(int32: i32)
    | VisitF64(bits: bv64)
    | VisitBool(flag: bool)
    | VisitUnit
    | VisitStr(text: string)
    | VisitSeq(source: JsValue, length: nat)
    | VisitMap(entries: seq<Property>)

  /** The two notifications of deserialize_option. */
  datatype OptionNotice = VisitNone | VisitSome

  /** The seven representation-class predicates, in the order they are checked. */
  function Predicates(v: JsValue): seq<bool>
  {
    [IsReprAsI32(v), IsReprAsF64(v), IsBool(v), IsNullOrUndefined(v), IsStr(v), IsArray(v), IsObject(v)]
  }

  /** The position of the first true entry of `ps`, or `|ps|` when none is true. */
  function FirstMatch(ps: seq<bool>): (r: nat)
    ensures r <= |ps|
    ensures forall j :: 0 <= j < r ==> !ps[j]
    ensures r < |ps| ==> ps[r]
  {
    FirstMatchFrom(ps, 0)
  }

  /** The position of the first true entry of `ps` at or after `i`, or `|ps|` when there is none. */
  function FirstMatchFrom(ps: seq<bool>, i: nat): (r: nat)
    requires i <= |ps|
    decreases |ps| - i
    ensures i <= r <= |ps|
    ensures forall j :: i <= j < r ==> !ps[j]
    ensures r < |ps| ==> ps[r]
  {
    if i == |ps| || ps[i] then i else FirstMatchFrom(ps, i + 1)
  }

  /** `FirstMatch` is the position of a true entry preceded by false ones only. */
  lemma FirstMatchAt(ps: seq<bool>, k: nat)
    requires k < |ps| && ps[k]
    requires forall j :: 0 <= j < k ==> !ps[j]
    ensures FirstMatch(ps) == k
  {
  }

  /** Which representation class a notification answers, as a position in `Predicates`. */
  function NoticeClass(n: Notice): nat
  {
    match n
    case VisitI32(_) => 0
    case VisitF64(_) => 1
    case VisitBool(_) => 2
    case VisitUnit => 3
    case VisitStr(_) => 4
    case VisitSeq(_, _) => 5
    case VisitMap(_) => 6
  }

  /**
   * deserialize_any's dispatch: a map key is always a string; a value gets the
   * notification of the first representation class it belongs to, or an error
   * when it belongs to none (see `ClassifyFollowsOrder`). Extraction failures
   * of the runtime propagate.
   */
  function Classify(slot: Slot): (r: Result<Notice>)
    ensures slot.MapKey? ==> r == Ok(VisitStr(slot.key))
    ensures slot.Value? && r.Err? ==> r.error == HostFault || r.error == Unclassifiable(slot.value)
    ensures r.Ok? && r.value.VisitSeq? ==>
      slot == Value(r.value.source) && IsArray(r.value.source) && r.value.length == |r.value.source.items|
    ensures r.Ok? && r.value.VisitMap? ==>
      slot.Value? && slot.value.JsObject? && slot.value.entries == r.value.entries
    // What each kind of value is reported with; a failed extraction is an error, never a default.
    ensures slot.Value? && slot.value.JsInt? ==> r == Ok(VisitI32(slot.value.int32))
    ensures slot.Value? && slot.value.JsFloat? ==>
      r == match slot.value.bits case Fault => Err(HostFault) case Got(bits) => Ok(VisitF64(bits))
    ensures slot.Value? && slot.value.JsBool? ==>
      r == match slot.value.flag case Fault => Err(HostFault) case Got(flag) => Ok(VisitBool(flag))
    ensures slot.Value? && (slot.value.JsNull? || slot.value.JsUndefined?) ==> r == Ok(VisitUnit)
    ensures slot.Value? && slot.value.JsString? ==>
      r == match slot.value.text case Fault => Err(HostFault) case Got(text) => Ok(VisitStr(text))
    ensures slot.Value? && slot.value.JsArray? ==>
      r == if slot.value.lengthUnreadable then Err(HostFault) else Ok(VisitSeq(slot.value, |slot.value.items|))
    ensures slot.Value? && slot.value.JsObject? ==>
      r == if slot.value.propertiesUnreadable then Err(HostFault) else Ok(VisitMap(slot.value.entries))
    ensures slot.Value? && slot.value.JsOther? ==> r == Err(Unclassifiable(slot.value))
  {
    match slot
    case MapKey(key) => Ok(VisitStr(key))
    case Value(v) =>
      if IsReprAsI32(v) then Ok(VisitI32(AsI32(v)))
      else if IsReprAsF64(v) then
        (match AsF64(v) case Fault => Err(HostFault) case Got(bits) => Ok(VisitF64(bits)))
      else if IsBool(v) then
        (match AsBool(v) case Fault => Err(HostFault) case Got(flag) => Ok(VisitBool(flag)))
      else if IsNullOrUndefined(v) then Ok(VisitUnit)
      else if IsStr(v) then
        (match AsStr(v) case Fault => Err(HostFault) case Got(text) => Ok(VisitStr(text)))
      else if IsArray(v) then
        (match LengthProperty(v) case Fault => Err(HostFault) case Got(length) => Ok(VisitSeq(v, length)))
      else if IsObject(v) then
        (match PropertiesOf(v) case Fault => Err(HostFault) case Got(entries) => Ok(VisitMap(entries)))
      else Err(Unclassifiable(v))
  }

  /**
   * First match wins: a notification answers the first of the seven classes,
   * in order, that the value belongs to, and the value is unclassifiable
   * exactly when it belongs to none.
   */
  lemma ClassifyFollowsOrder(v: JsValue)
    ensures Classify(Value(v)).Ok? ==> NoticeClass(Classify(Value(v)).value) == FirstMatch(Predicates(v))
    ensures Classify(Value(v)) == Err(Unclassifiable(v)) <==> FirstMatch(Predicates(v)) == |Predicates(v)|
  {
    var ps := Predicates(v);
    match v
    case JsInt(_) => FirstMatchAt(ps, 0);
    case JsFloat(_) => FirstMatchAt(ps, 1);
    case JsBool(_) => FirstMatchAt(ps, 2);
    case JsNull => FirstMatchAt(ps, 3);
    case JsUndefined => FirstMatchAt(ps, 3);
    case JsString(_) => FirstMatchAt(ps, 4);
    case JsArray(_, _) => FirstMatchAt(ps, 5);
    case JsObject(_, _) => FirstMatchAt(ps, 6);
    case JsOther(_) =>
  }

  /**
   * deserialize_option: null and undefined are absent, every other value is
   * present (and is then classified again from the same, unchanged slot).
   * javy's deserializer does not handle a map key here (it panics).
   */
  function DeserializeOption(slot: Slot): (r: OptionNotice)
    requires slot.Value?
    ensures r == VisitNone <==> IsNullOrUndefined(slot.value)
    ensures r == VisitNone <==> Classify(slot) == Ok(VisitUnit)
  {
    if IsNullOrUndefined(slot.value) then VisitNone else VisitSome
  }

  /** The adapter asks generic targets to prefer their binary-oriented paths. */
  function IsHumanReadable(): (r: bool)
    ensures !r
  {
    false
  }

  /** An i32-representable value is an i32, whatever later predicates say. */
  lemma I32Wins(v: JsValue)
    requires IsReprAsI32(v)
    ensures Classify(Value(v)) == Ok(VisitI32(AsI32(v)))
  {
  }

  /**
   * Arrays are object-shaped too; checking arrays first is what makes them
   * sequences, never mappings.
   */
  lemma ArrayIsSequenceNotMapping(v: JsValue)
    requires IsArray(v)
    ensures IsObject(v)
    ensures Classify(Value(v)).Ok? <==> !v.lengthUnreadable
    ensures Classify(Value(v)).Ok? ==> Classify(Value(v)).value == VisitSeq(v, |v.items|)
  {
  }

  /** A value of none of the seven classes is an error, never a notification. */
  lemma UnclassifiableFails(v: JsValue)
    requires forall j :: 0 <= j < |Predicates(v)| ==> !Predicates(v)[j]
    ensures Classify(Value(v)) == Err(Unclassifiable(v))
  {
    assert FirstMatch(Predicates(v)) == |Predicates(v)|;
    ClassifyFollowsOrder(v);
  }

  /** Every value the binding tags as none of the seven classes is among those values. */
  lemma OtherKindsFail(description: string)
    ensures Classify(Value(JsOther(description))) == Err(Unclassifiable(JsOther(description)))
  {
  }

  /** Null and undefined cannot be told apart by either entry point. */
  lemma NullAndUndefinedAlike()
    ensures Classify(Value(JsNull)) == Classify(Value(JsUndefined)) == Ok(VisitUnit)
    ensures DeserializeOption(Value(JsNull)) == DeserializeOption(Value(JsUndefined)) == VisitNone
  {
  }

  /**
   * A float's bit pattern reaches the visitor unchanged, so NaN and both
   * infinities survive classification.
   */
  lemma FloatBitsPassThrough(bits: bv64)
    ensures Classify(Value(JsFloat(Got(bits)))) == Ok(VisitF64(bits))
  {
  }
}
