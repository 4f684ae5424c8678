/**
 * javy's deserializer and its two cursors: one object
 * holding the mutable slot, a sequence cursor that borrows it together with
 * an array, a captured length and an index, and a mapping cursor that
 * borrows it together with the runtime's property enumerator. Each cursor
 * step overwrites the shared slot and re-enters the deserializer.
 *
 * `CollectSeq` and `CollectMap` are the self-describing target's visitor:
 * they drive a cursor until it is exhausted.
 */
module Cursors {
  import opened Runtime
  import opened Classifier
  import opened Decoding

  class Deserializer {
    var slot: Slot
    /** The key normalizer handed to every mapping cursor. */
    const sanitize: Sanitizer

    /** A deserializer starts with the value itself in its slot. */
    constructor From(v: JsValue, sanitize: Sanitizer)
      ensures slot == Value(v) && this.sanitize == sanitize
    {
      slot := Value(v);
      this.sanitize := sanitize;
    }

    /**
     * Decoding the slot's contents into `seed`, through the entry point the
     * seed's type calls: deserialize_any for `Any`, deserialize_option,
     * deserialize_newtype_struct or deserialize_enum. A decode of a map key
     * or of a non-container value leaves the slot as it found it.
     */
    method Deserialize(seed: Target) returns (r: Result<Content>)
      requires Admissible(slot, seed)
      modifies this
      decreases SlotSize(slot), 1, Depth(seed)
      ensures r == Decode(old(slot), seed, sanitize)
      ensures old(slot).MapKey? ==> slot == old(slot)
      ensures old(slot).Value? && !IsObject(old(slot).value) ==> slot == old(slot)
    {
      match seed {
        case Enum =>
          r := Err(Unsupported);
        case NewtypeStruct(inner) =>
          var c := Deserialize(inner);
          r := match c case Err(e) => Err(e) case Ok(x) => Ok(Newtype(x));
        case Optional(inner) =>
          if DeserializeOption(slot) == VisitNone {
            r := Ok(Absent);
          } else {
            var c := Deserialize(inner);
            r := match c case Err(e) => Err(e) case Ok(x) => Ok(Present(x));
          }
        case Any =>
          var notice := Classify(slot);
          if notice.Err? {
            r := Err(notice.error);
          } else if notice.value.VisitSeq? {
            var access := new SeqAccess(this, notice.value.source, notice.value.length);
            var elements := CollectSeq(access);
            r := match elements case Err(e) => Err(e) case Ok(cs) => Ok(Seq(cs));
          } else if notice.value.VisitMap? {
            var properties := new Properties(slot.value, notice.value.entries);
            var access := new MapAccess(this, properties);
            var pairs := CollectMap(access);
            r := match pairs case Err(e) => Err(e) case Ok(ps) => Ok(Map(ps));
          } else {
            r := Ok(Scalar(notice.value));
          }
      }
    }
  }

  /** The sequence cursor: the array, its length read once at entry, and the next index. */
  class SeqAccess {
    const de: Deserializer
    const source: JsValue
    const length: nat
    var index: nat

    ghost predicate Valid()
      reads this
    {
      IsArray(source) && length == |source.items| && index <= length
    }

    constructor (de: Deserializer, source: JsValue, length: nat)
      requires IsArray(source) && length == |source.items|
      ensures Valid() && index == 0
      ensures this.de == de && this.source == source && this.length == length
    {
      this.de := de;
      this.source := source;
      this.length := length;
      index := 0;
    }

    /**
     * One step: below the captured length, fetch the element at the index,
     * put it in the slot, advance the index by one and decode the element;
     * at the length, report exhaustion and touch nothing. A failed fetch
     * propagates before anything changes.
     */
    method NextElementSeed(seed: Target) returns (r: Result<Option<Content>>)
      requires Valid()
      modifies this, de
      decreases Size(source), 0, 0
      ensures Valid()
      ensures old(index) == length ==>
        r == Ok(None) && index == old(index) && de.slot == old(de.slot)
      ensures old(index) < length && source.items[old(index)].Fault? ==>
        r == Err(HostFault) && index == old(index) && de.slot == old(de.slot)
      ensures old(index) < length && source.items[old(index)].Got? ==>
        var x := source.items[old(index)].value;
        index == old(index) + 1 &&
        r == Lift(Decode(Value(x), seed, de.sanitize)) &&
        (!IsObject(x) ==> de.slot == Value(x))
    {
      if index < length {
        var fetched := GetIndexedProperty(source, index);
        if fetched.Fault? {
          return Err(HostFault);
        }
        ItemSmaller(source, index);
        de.slot := Value(fetched.value);
        index := index + 1;
        var c := de.Deserialize(seed);
        r := Lift(c);
      } else {
        r := Ok(None);
      }
    }
  }

  /**
   * The runtime's enumerator over an object's own enumerable properties: the
   * object, its property list and the position of the next key.
   */
  class Properties {
    const owner: JsValue
    const entries: seq<Property>
    var offset: nat

    ghost predicate Valid()
      reads this
    {
      owner.JsObject? && owner.entries == entries && offset <= |entries|
    }

    constructor (owner: JsValue, entries: seq<Property>)
      requires owner.JsObject? && owner.entries == entries
      ensures Valid() && offset == 0
      ensures this.owner == owner && this.entries == entries
    {
      this.owner := owner;
      this.entries := entries;
      offset := 0;
    }

    /** The next raw key, or none once every property has been enumerated. */
    method NextKey() returns (r: Result<Option<string>>)
      requires Valid()
      modifies this
      ensures Valid()
      ensures old(offset) == |entries| ==> r == Ok(None) && offset == old(offset)
      ensures old(offset) < |entries| ==>
        offset == old(offset) + 1 &&
        r == match entries[old(offset)].key case Fault => Err(HostFault) case Got(raw) => Ok(Some(raw))
    {
      if offset < |entries| {
        var key := entries[offset].key;
        offset := offset + 1;
        r := match key case Fault => Err(HostFault) case Got(raw) => Ok(Some(raw));
      } else {
        r := Ok(None);
      }
    }

    /** The value of the property whose key was enumerated last. */
    method NextValue() returns (r: Result<JsValue>)
      requires Valid() && offset > 0
      ensures r.Ok? <==> entries[offset - 1].value.Got?
      ensures r.Ok? ==> r.value == entries[offset - 1].value.value
      ensures r.Err? ==> r.error == HostFault
    {
      r := match entries[offset - 1].value case Fault => Err(HostFault) case Got(x) => Ok(x);
    }
  }

  /** The mapping cursor: the deserializer and the property enumerator. */
  class MapAccess {
    const de: Deserializer
    const properties: Properties

    ghost predicate Valid()
      reads this, properties
    {
      properties.Valid()
    }

    constructor (de: Deserializer, properties: Properties)
      ensures this.de == de && this.properties == properties
    {
      this.de := de;
      this.properties := properties;
    }

    /**
     * The key step: take the next raw key, normalize it, replace the slot
     * with the normalized key and decode it; an exhausted enumerator reports
     * none. Enumerator and normalizer failures propagate, leaving the slot
     * as it was.
     */
    method NextKeySeed(seed: Target) returns (r: Result<Option<Content>>)
      requires Valid() && !ReachesOption(seed)
      modifies de, properties
      decreases Size(properties.owner), 0, 0
      ensures Valid()
      ensures old(properties.offset) == |properties.entries| ==>
        r == Ok(None) && properties.offset == old(properties.offset) && de.slot == old(de.slot)
      ensures old(properties.offset) < |properties.entries| ==> properties.offset == old(properties.offset) + 1
      ensures var i := old(properties.offset);
        i < |properties.entries| && properties.entries[i].key.Fault? ==>
          r == Err(HostFault) && de.slot == old(de.slot)
      ensures var i := old(properties.offset);
        i < |properties.entries| && properties.entries[i].key.Got? ==>
          var raw := properties.entries[i].key.value;
          (de.sanitize(raw).None? ==> r == Err(KeyNotNormalized(raw)) && de.slot == old(de.slot)) &&
          (de.sanitize(raw).Some? ==>
            de.slot == MapKey(de.sanitize(raw).value) &&
            r == Lift(Decode(MapKey(de.sanitize(raw).value), seed, de.sanitize)))
    {
      var key := properties.NextKey();
      if key.Err? {
        return Err(key.error);
      }
      if key.value.None? {
        return Ok(None);
      }
      var name := de.sanitize(key.value.value);
      if name.None? {
        return Err(KeyNotNormalized(key.value.value));
      }
      de.slot := MapKey(name.value);
      var c := de.Deserialize(seed);
      r := Lift(c);
    }

    /**
     * The value step, after a key step: replace the slot with the value
     * paired with the last key and decode it. A failed property read
     * propagates, leaving the slot as it was.
     */
    method NextValueSeed(seed: Target) returns (r: Result<Content>)
      requires Valid() && properties.offset > 0
      modifies de
      decreases Size(properties.owner), 0, 0
      ensures properties.entries[properties.offset - 1].value.Fault? ==>
        r == Err(HostFault) && de.slot == old(de.slot)
      ensures properties.entries[properties.offset - 1].value.Got? ==>
        var x := properties.entries[properties.offset - 1].value.value;
        r == Decode(Value(x), seed, de.sanitize) &&
        (!IsObject(x) ==> de.slot == Value(x))
    {
      var value := properties.NextValue();
      if value.Err? {
        return Err(value.error);
      }
      EntrySmaller(properties.owner, properties.offset - 1);
      de.slot := Value(value.value);
      r := de.Deserialize(seed);
    }
  }

  /** The self-describing visitor's visit_seq: every element, in order, until the cursor is exhausted. */
  method CollectSeq(access: SeqAccess) returns (r: Result<seq<Content>>)
    requires access.Valid() && access.index == 0
    modifies access, access.de
    decreases Size(access.source), 0, 1
    ensures r == DecodeItems(access.source, 0, access.de.sanitize)
  {
    var done: seq<Content> := [];
    PrependNothing(DecodeItems(access.source, 0, access.de.sanitize));
    while true
      invariant access.Valid()
      invariant DecodeItems(access.source, 0, access.de.sanitize) ==
        Prepend(done, DecodeItems(access.source, access.index, access.de.sanitize))
      decreases access.length - access.index
    {
      ghost var i := access.index;
      var step := access.NextElementSeed(Any);
      if step.Err? {
        return Err(step.error);
      }
      if step.value.None? {
        assert done + [] == done;
        return Ok(done);
      }
      ghost var rest := DecodeItems(access.source, access.index, access.de.sanitize);
      assert DecodeItems(access.source, i, access.de.sanitize) == Prepend([step.value.value], rest);
      PrependTwice(done, [step.value.value], rest);
      done := done + [step.value.value];
    }
  }

  /** The self-describing visitor's visit_map: every key and its value, in enumeration order. */
  method CollectMap(access: MapAccess) returns (r: Result<seq<(Content, Content)>>)
    requires access.Valid() && access.properties.offset == 0
    modifies access.de, access.properties
    decreases Size(access.properties.owner), 0, 1
    ensures r == DecodeEntries(access.properties.owner, 0, access.de.sanitize)
  {
    var done: seq<(Content, Content)> := [];
    ghost var owner := access.properties.owner;
    ghost var sanitize := access.de.sanitize;
    PrependNothing(DecodeEntries(owner, 0, sanitize));
    while true
      invariant access.Valid()
      invariant DecodeEntries(owner, 0, sanitize) ==
        Prepend(done, DecodeEntries(owner, access.properties.offset, sanitize))
      decreases |access.properties.entries| - access.properties.offset
    {
      ghost var j := access.properties.offset;
      var key := access.NextKeySeed(Any);
      if key.Err? {
        assert DecodeEntries(owner, j, sanitize) == Err(key.error);
        return Err(key.error);
      }
      if key.value.None? {
        assert done + [] == done;
        return Ok(done);
      }
      var value := access.NextValueSeed(Any);
      if value.Err? {
        assert DecodeEntries(owner, j, sanitize) == Err(value.error);
        return Err(value.error);
      }
      ghost var rest := DecodeEntries(owner, j + 1, sanitize);
      var pair := (key.value.value, value.value);
      assert DecodeEntries(owner, j, sanitize) == Prepend([pair], rest);
      PrependTwice(done, [pair], rest);
      done := done + [pair];
    }
  }

  lemma PrependNothing<T>(rest: Result<seq<T>>)
    ensures Prepend([], rest) == rest
  {
    if rest.Ok? {
      assert [] + rest.value == rest.value;
    }
  }

  lemma PrependTwice<T>(done: seq<T>, next: seq<T>, rest: Result<seq<T>>)
    ensures Prepend(done, Prepend(next, rest)) == Prepend(done + next, rest)
  {
    if rest.Ok? {
      assert done + (next + rest.value) == (done + next) + rest.value;
    }
  }
}
