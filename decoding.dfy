/**
 * What a whole decode produces: the reference definition that the
 * deserializer and its two cursors are proved against.
 *
 * A decode is driven by a target type (the seed handed to the deserializer).
 * `Any` is the self-describing target that accepts every notification and
 * drains every sequence and mapping it is offered, decoding each element,
 * key and value with `Any` in turn; the other targets exercise the optional,
 * newtype and enum entry points.
 */
module Decoding {
  import opened Runtime
  import opened Classifier

  datatype Target = Any | Optional(inner: Target) | NewtypeStruct(inner: Target) | Enum

  /** The decoded value, one constructor per visitor notification. */
  datatype Content =
    | I32(int32: i32)
    | F64(bits: bv64)
    | Bool(flag: bool)
    | Unit
    | Str(text: string)
    | Seq(elements: seq<Content>)
    | Map(pairs: seq<(Content, Content)>)
    | Absent
    | Present(inner: Content)
    | Newtype(inner: Content)

  function Depth(t: Target): nat
  {
    match t
    case Optional(inner) => 1 + Depth(inner)
    case NewtypeStruct(inner) => 1 + Depth(inner)
    case _ => 1
  }

  /** A target that reaches deserialize_option without passing through a container. */
  predicate ReachesOption(t: Target)
  {
    match t
    case Optional(_) => true
    case NewtypeStruct(inner) => ReachesOption(inner)
    case _ => false
  }

  /** deserialize_option is never asked about a map key (javy's deserializer panics on it). */
  predicate Admissible(slot: Slot, t: Target)
  {
    slot.MapKey? ==> !ReachesOption(t)
  }

  function SlotSize(slot: Slot): nat
  {
    match slot
    case Value(v) => Size(v)
    case MapKey(_) => 0
  }

  /**
   * Content the `Any` target produces: no option or newtype wrappers, and
   * every mapping key a string.
   */
  predicate Plain(c: Content)
  {
    match c
    case Seq(elements) => forall e <- elements :: Plain(e)
    case Map(pairs) => forall i :: 0 <= i < |pairs| ==> pairs[i].0.Str? && Plain(pairs[i].1)
    case Absent => false
    case Present(_) => false
    case Newtype(_) => false
    case _ => true
  }

  /** Content that has the shape the target asked for. */
  predicate Conforms(c: Content, t: Target)
  {
    match t
    case Any => Plain(c)
    case Optional(inner) => c == Absent || (c.Present? && Conforms(c.inner, inner))
    case NewtypeStruct(inner) => c.Newtype? && Conforms(c.inner, inner)
    case Enum => false
  }

  /** `rest`, after the already decoded `done`. */
  function Prepend<T>(done: seq<T>, rest: Result<seq<T>>): Result<seq<T>>
  {
    match rest
    case Err(e) => Err(e)
    case Ok(s) => Ok(done + s)
  }

  /** A decoded element as a cursor step reports it. */
  function Lift(r: Result<Content>): Result<Option<Content>>
  {
    match r
    case Err(e) => Err(e)
    case Ok(c) => Ok(Some(c))
  }

  /** The content a scalar notification carries to the `Any` visitor. */
  function Scalar(n: Notice): Content
    requires !n.VisitSeq? && !n.VisitMap?
  {
    match n
    case VisitI32(i) => I32(i)
    case VisitF64(bits) => F64(bits)
    case VisitBool(flag) => Bool(flag)
    case VisitUnit => Unit
    case VisitStr(text) => Str(text)
  }

  /**
   * Decoding the slot's contents into target `t`. A map key decodes as the
   * string it holds; tagged-union targets always fail.
   */
  function Decode(slot: Slot, t: Target, sanitize: Sanitizer): (r: Result<Content>)
    requires Admissible(slot, t)
    decreases SlotSize(slot), 1, Depth(t)
    ensures r.Ok? ==> Conforms(r.value, t)
    ensures slot.MapKey? && t == Any ==> r == Ok(Str(slot.key))
    ensures t == Enum ==> r == Err(Unsupported)
  {
    match t
    case Enum => Err(Unsupported)
    case NewtypeStruct(inner) =>
      (match Decode(slot, inner, sanitize)
       case Err(e) => Err(e)
       case Ok(c) => Ok(Newtype(c)))
    case Optional(inner) =>
      if DeserializeOption(slot) == VisitNone then Ok(Absent)
      else
        (match Decode(slot, inner, sanitize)
         case Err(e) => Err(e)
         case Ok(c) => Ok(Present(c)))
    case Any =>
      match Classify(slot)
      case Err(e) => Err(e)
      case Ok(notice) =>
        if notice.VisitSeq? then
          (match DecodeItems(notice.source, 0, sanitize)
           case Err(e) => Err(e)
           case Ok(elements) => Ok(Seq(elements)))
        else if notice.VisitMap? then
          (match DecodeEntries(slot.value, 0, sanitize)
           case Err(e) => Err(e)
           case Ok(pairs) => Ok(Map(pairs)))
        else Ok(Scalar(notice))
  }

  /** One sequence cursor step that yields: fetch the element at index `i`, then decode it. */
  function DecodeItem(source: JsValue, i: nat, sanitize: Sanitizer): (r: Result<Content>)
    requires IsArray(source) && i < |source.items|
    decreases Size(source), 0, 0
    ensures r.Ok? ==> Plain(r.value)
    ensures source.items[i].Fault? ==> r == Err(HostFault)
  {
    match GetIndexedProperty(source, i)
    case Fault => Err(HostFault)
    case Got(x) =>
      ItemSmaller(source, i);
      Decode(Value(x), Any, sanitize)
  }

  /**
   * Draining the sequence cursor from index `i`: one element per index below
   * the captured length, in index order; a failed fetch or a failed element
   * stops the decode.
   */
  function DecodeItems(source: JsValue, i: nat, sanitize: Sanitizer): (r: Result<seq<Content>>)
    requires IsArray(source) && i <= |source.items|
    decreases Size(source), 0, |source.items| - i
    ensures r.Ok? ==> |r.value| == |source.items| - i && forall c <- r.value :: Plain(c)
  {
    if i == |source.items| then Ok([])
    else
      match DecodeItem(source, i, sanitize)
      case Err(e) => Err(e)
      case Ok(c) => Prepend([c], DecodeItems(source, i + 1, sanitize))
  }

  /**
   * One key step and the value step after it, at enumeration position `j`:
   * the key is normalized and decoded as a map key, then its value is read
   * and decoded.
   */
  function DecodeEntry(owner: JsValue, j: nat, sanitize: Sanitizer): (r: Result<(Content, Content)>)
    requires owner.JsObject? && j < |owner.entries|
    decreases Size(owner), 0, 0
    ensures r.Ok? ==> r.value.0.Str? && Plain(r.value.1)
    ensures owner.entries[j].key.Fault? ==> r == Err(HostFault)
    ensures owner.entries[j].key.Got? && sanitize(owner.entries[j].key.value).None? ==>
      r == Err(KeyNotNormalized(owner.entries[j].key.value))
    ensures owner.entries[j].key.Got? && sanitize(owner.entries[j].key.value).Some? && owner.entries[j].value.Fault? ==>
      r == Err(HostFault)
  {
    match owner.entries[j].key
    case Fault => Err(HostFault)
    case Got(raw) =>
      match sanitize(raw)
      case None => Err(KeyNotNormalized(raw))
      case Some(name) =>
        match Decode(MapKey(name), Any, sanitize)
        case Err(e) => Err(e)
        case Ok(key) =>
          match owner.entries[j].value
          case Fault => Err(HostFault)
          case Got(x) =>
            EntrySmaller(owner, j);
            match Decode(Value(x), Any, sanitize)
            case Err(e) => Err(e)
            case Ok(value) => Ok((key, value))
  }

  /**
   * Draining the mapping cursor from enumeration position `j`: one pair per
   * remaining property, in enumeration order; a failure at any step stops
   * the decode.
   */
  function DecodeEntries(owner: JsValue, j: nat, sanitize: Sanitizer): (r: Result<seq<(Content, Content)>>)
    requires owner.JsObject? && j <= |owner.entries|
    decreases Size(owner), 0, |owner.entries| - j
    ensures r.Ok? ==> |r.value| == |owner.entries| - j
    ensures r.Ok? ==> forall i :: 0 <= i < |r.value| ==> r.value[i].0.Str? && Plain(r.value[i].1)
  {
    if j == |owner.entries| then Ok([])
    else
      match DecodeEntry(owner, j, sanitize)
      case Err(e) => Err(e)
      case Ok(pair) => Prepend([pair], DecodeEntries(owner, j + 1, sanitize))
  }
}
