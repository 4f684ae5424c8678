/**
 * Properties of whole decodes: what draining the two cursors yields, how
 * failures propagate, how null and undefined collapse, and the key
 * normalization examples of the module's tests.
 */
module DecodeProperties {
  import opened Runtime
  import opened Classifier
  import opened Decoding

  /** The element at index `k` can be fetched and decodes. */
  predicate ItemDecodes(source: JsValue, k: nat, sanitize: Sanitizer)
    requires IsArray(source) && k < |source.items|
  {
    source.items[k].Got? && Decode(Value(source.items[k].value), Any, sanitize).Ok?
  }

  /** The property at position `k` has a readable, normalizable key and a value that decodes. */
  predicate EntryDecodes(owner: JsValue, k: nat, sanitize: Sanitizer)
    requires owner.JsObject? && k < |owner.entries|
  {
    var p := owner.entries[k];
    p.key.Got? && sanitize(p.key.value).Some? &&
    p.value.Got? && Decode(Value(p.value.value), Any, sanitize).Ok?
  }

  /** What the element at index `k` decodes to. */
  function ItemContent(source: JsValue, k: nat, sanitize: Sanitizer): Content
    requires IsArray(source) && k < |source.items| && ItemDecodes(source, k, sanitize)
  {
    Decode(Value(source.items[k].value), Any, sanitize).value
  }

  /** The cursor step at index `i` succeeds exactly when the element decodes, and yields its own decode. */
  lemma ItemAgrees(source: JsValue, i: nat, sanitize: Sanitizer)
    requires IsArray(source) && i < |source.items|
    ensures DecodeItem(source, i, sanitize).Ok? <==> ItemDecodes(source, i, sanitize)
    ensures ItemDecodes(source, i, sanitize) ==> DecodeItem(source, i, sanitize) == Ok(ItemContent(source, i, sanitize))
  {
  }

  /** A successful drain from index `i` took a successful step at every index from `i` on. */
  lemma {:induction false} ItemsOkEach(source: JsValue, i: nat, sanitize: Sanitizer)
    requires IsArray(source) && i <= |source.items| && DecodeItems(source, i, sanitize).Ok?
    ensures forall k :: i <= k < |source.items| ==> DecodeItem(source, k, sanitize).Ok?
    decreases |source.items| - i
  {
    if i < |source.items| {
      assert DecodeItem(source, i, sanitize).Ok?;
      ItemsOkEach(source, i + 1, sanitize);
    }
  }

  lemma {:induction false} ItemsInOrder(source: JsValue, i: nat, sanitize: Sanitizer)
    requires IsArray(source) && i <= |source.items|
    requires forall k :: i <= k < |source.items| ==> DecodeItem(source, k, sanitize).Ok?
    ensures DecodeItems(source, i, sanitize).Ok?
    ensures forall k :: i <= k < |source.items| ==>
      DecodeItem(source, k, sanitize).Ok? &&
      DecodeItems(source, i, sanitize).value[k - i] == DecodeItem(source, k, sanitize).value
    decreases |source.items| - i
  {
    if i < |source.items| {
      ItemsInOrder(source, i + 1, sanitize);
      assert DecodeItem(source, i, sanitize).Ok?;
      var all := DecodeItems(source, i, sanitize).value;
      var rest := DecodeItems(source, i + 1, sanitize).value;
      assert all == [DecodeItem(source, i, sanitize).value] + rest;
      forall k | i <= k < |source.items|
        ensures DecodeItem(source, k, sanitize).Ok? && all[k - i] == DecodeItem(source, k, sanitize).value
      {
        if k > i {
          assert all[k - i] == rest[k - (i + 1)];
        }
      }
    }
  }

  /**
   * Draining the sequence cursor over an array of length n yields exactly n
   * elements, the element at index k decoded in position k.
   */
  lemma ArrayDecodesInOrder(source: JsValue, sanitize: Sanitizer)
    requires IsArray(source) && !source.lengthUnreadable
    requires forall k :: 0 <= k < |source.items| ==> ItemDecodes(source, k, sanitize)
    ensures var r := Decode(Value(source), Any, sanitize);
      r.Ok? && r.value.Seq? && |r.value.elements| == |source.items| &&
      forall k :: 0 <= k < |source.items| ==>
        ItemDecodes(source, k, sanitize) && r.value.elements[k] == ItemContent(source, k, sanitize)
  {
    forall k | 0 <= k < |source.items|
      ensures DecodeItem(source, k, sanitize).Ok?
    {
      ItemAgrees(source, k, sanitize);
    }
    ItemsInOrder(source, 0, sanitize);
    var all := DecodeItems(source, 0, sanitize).value;
    assert Decode(Value(source), Any, sanitize) == Ok(Seq(all));
    forall k | 0 <= k < |source.items|
      ensures ItemDecodes(source, k, sanitize) && all[k] == ItemContent(source, k, sanitize)
    {
      ItemAgrees(source, k, sanitize);
    }
  }

  /** An empty array decodes to an empty sequence. */
  lemma EmptyArrayDecodesEmpty(sanitize: Sanitizer)
    ensures Decode(Value(JsArray([], false)), Any, sanitize) == Ok(Seq([]))
  {
  }

  lemma {:induction false} ItemFaultStops(source: JsValue, i: nat, k: nat, sanitize: Sanitizer)
    requires IsArray(source) && i <= k < |source.items| && source.items[k].Fault?
    ensures DecodeItems(source, i, sanitize).Err?
    decreases k - i
  {
    if i < k && DecodeItem(source, i, sanitize).Ok? {
      ItemFaultStops(source, i + 1, k, sanitize);
    }
  }

  /** A failed element fetch is never skipped: the whole decode fails. */
  lemma ItemFaultAborts(source: JsValue, k: nat, sanitize: Sanitizer)
    requires IsArray(source) && k < |source.items| && source.items[k].Fault?
    ensures Decode(Value(source), Any, sanitize).Err?
  {
    ItemFaultStops(source, 0, k, sanitize);
  }

  /**
   * An array decodes exactly when its length can be read and every element
   * can be fetched and decodes: any failure below it fails the whole decode.
   */
  lemma ArrayOkIff(source: JsValue, sanitize: Sanitizer)
    requires IsArray(source)
    ensures Decode(Value(source), Any, sanitize).Ok? <==>
      !source.lengthUnreadable && forall k :: 0 <= k < |source.items| ==> ItemDecodes(source, k, sanitize)
  {
    if Decode(Value(source), Any, sanitize).Ok? {
      assert !source.lengthUnreadable;
      assert Decode(Value(source), Any, sanitize) == Ok(Seq(DecodeItems(source, 0, sanitize).value));
      ItemsOkEach(source, 0, sanitize);
      forall k | 0 <= k < |source.items|
        ensures ItemDecodes(source, k, sanitize)
      {
        ItemAgrees(source, k, sanitize);
      }
    }
    if !source.lengthUnreadable && forall k :: 0 <= k < |source.items| ==> ItemDecodes(source, k, sanitize) {
      ArrayDecodesInOrder(source, sanitize);
    }
  }

  /** What the property at position `k` decodes to: its normalized name and its decoded value. */
  function EntryPair(owner: JsValue, k: nat, sanitize: Sanitizer): (Content, Content)
    requires owner.JsObject? && k < |owner.entries| && EntryDecodes(owner, k, sanitize)
  {
    var p := owner.entries[k];
    (Str(sanitize(p.key.value).value), Decode(Value(p.value.value), Any, sanitize).value)
  }

  /**
   * The key and value steps at position `j` succeed exactly when the property
   * decodes, and yield its normalized name and decoded value.
   */
  lemma EntryAgrees(owner: JsValue, j: nat, sanitize: Sanitizer)
    requires owner.JsObject? && j < |owner.entries|
    ensures DecodeEntry(owner, j, sanitize).Ok? <==> EntryDecodes(owner, j, sanitize)
    ensures EntryDecodes(owner, j, sanitize) ==> DecodeEntry(owner, j, sanitize) == Ok(EntryPair(owner, j, sanitize))
  {
    var p := owner.entries[j];
    if p.key.Got? && sanitize(p.key.value).Some? {
      var name := sanitize(p.key.value).value;
      assert Decode(MapKey(name), Any, sanitize) == Ok(Str(name));
    }
  }

  /** A successful drain from position `j` took successful steps at every position from `j` on. */
  lemma {:induction false} EntriesOkEach(owner: JsValue, j: nat, sanitize: Sanitizer)
    requires owner.JsObject? && j <= |owner.entries| && DecodeEntries(owner, j, sanitize).Ok?
    ensures forall k :: j <= k < |owner.entries| ==> DecodeEntry(owner, k, sanitize).Ok?
    decreases |owner.entries| - j
  {
    if j < |owner.entries| {
      assert DecodeEntry(owner, j, sanitize).Ok?;
      EntriesOkEach(owner, j + 1, sanitize);
    }
  }

  lemma {:induction false} EntriesInOrder(owner: JsValue, j: nat, sanitize: Sanitizer)
    requires owner.JsObject? && j <= |owner.entries|
    requires forall k :: j <= k < |owner.entries| ==> DecodeEntry(owner, k, sanitize).Ok?
    ensures DecodeEntries(owner, j, sanitize).Ok?
    ensures forall k :: j <= k < |owner.entries| ==>
      DecodeEntry(owner, k, sanitize).Ok? &&
      DecodeEntries(owner, j, sanitize).value[k - j] == DecodeEntry(owner, k, sanitize).value
    decreases |owner.entries| - j
  {
    if j < |owner.entries| {
      EntriesInOrder(owner, j + 1, sanitize);
      assert DecodeEntry(owner, j, sanitize).Ok?;
      var all := DecodeEntries(owner, j, sanitize).value;
      var rest := DecodeEntries(owner, j + 1, sanitize).value;
      assert all == [DecodeEntry(owner, j, sanitize).value] + rest;
      forall k | j <= k < |owner.entries|
        ensures DecodeEntry(owner, k, sanitize).Ok? && all[k - j] == DecodeEntry(owner, k, sanitize).value
      {
        if k > j {
          assert all[k - j] == rest[k - (j + 1)];
        }
      }
    }
  }

  /**
   * Draining the mapping cursor yields one pair per property, in enumeration
   * order, keyed by the string the normalizer made of the property's name.
   */
  lemma ObjectDecodesInOrder(owner: JsValue, sanitize: Sanitizer)
    requires owner.JsObject? && !owner.propertiesUnreadable
    requires forall k :: 0 <= k < |owner.entries| ==> EntryDecodes(owner, k, sanitize)
    ensures var r := Decode(Value(owner), Any, sanitize);
      r.Ok? && r.value.Map? && |r.value.pairs| == |owner.entries| &&
      forall k :: 0 <= k < |owner.entries| ==>
        EntryDecodes(owner, k, sanitize) && r.value.pairs[k] == EntryPair(owner, k, sanitize)
  {
    forall k | 0 <= k < |owner.entries|
      ensures DecodeEntry(owner, k, sanitize).Ok?
    {
      EntryAgrees(owner, k, sanitize);
    }
    EntriesInOrder(owner, 0, sanitize);
    var all := DecodeEntries(owner, 0, sanitize).value;
    assert Decode(Value(owner), Any, sanitize) == Ok(Map(all));
    forall k | 0 <= k < |owner.entries|
      ensures EntryDecodes(owner, k, sanitize) && all[k] == EntryPair(owner, k, sanitize)
    {
      EntryAgrees(owner, k, sanitize);
    }
  }

  lemma {:induction false} KeyRejectStops(owner: JsValue, j: nat, k: nat, sanitize: Sanitizer)
    requires owner.JsObject? && j <= k < |owner.entries|
    requires owner.entries[k].key.Got? && sanitize(owner.entries[k].key.value).None?
    ensures DecodeEntries(owner, j, sanitize).Err?
    decreases k - j
  {
    if j < k && DecodeEntry(owner, j, sanitize).Ok? {
      KeyRejectStops(owner, j + 1, k, sanitize);
    }
  }

  /** A name the normalizer rejects is a decode error, not a silent pass-through. */
  lemma KeyRejectAborts(owner: JsValue, k: nat, sanitize: Sanitizer)
    requires owner.JsObject? && k < |owner.entries|
    requires owner.entries[k].key.Got? && sanitize(owner.entries[k].key.value).None?
    ensures Decode(Value(owner), Any, sanitize).Err?
  {
    KeyRejectStops(owner, 0, k, sanitize);
  }

  /**
   * An object decodes exactly when its enumerator can be obtained and every
   * property has a readable, normalizable name and a readable value that
   * decodes: a key fault, a rejected name, a value fault or a failing value
   * anywhere fails the whole decode.
   */
  lemma ObjectOkIff(owner: JsValue, sanitize: Sanitizer)
    requires owner.JsObject?
    ensures Decode(Value(owner), Any, sanitize).Ok? <==>
      !owner.propertiesUnreadable && forall k :: 0 <= k < |owner.entries| ==> EntryDecodes(owner, k, sanitize)
  {
    if Decode(Value(owner), Any, sanitize).Ok? {
      assert !owner.propertiesUnreadable;
      assert Decode(Value(owner), Any, sanitize) == Ok(Map(DecodeEntries(owner, 0, sanitize).value));
      EntriesOkEach(owner, 0, sanitize);
      forall k | 0 <= k < |owner.entries|
        ensures EntryDecodes(owner, k, sanitize)
      {
        EntryAgrees(owner, k, sanitize);
      }
    }
    if !owner.propertiesUnreadable && forall k :: 0 <= k < |owner.entries| ==> EntryDecodes(owner, k, sanitize) {
      ObjectDecodesInOrder(owner, sanitize);
    }
  }

  /** Null and undefined decode identically into every target. */
  lemma {:induction false} NullAndUndefinedDecodeAlike(t: Target, sanitize: Sanitizer)
    ensures Decode(Value(JsNull), t, sanitize) == Decode(Value(JsUndefined), t, sanitize)
    ensures t == Any ==> Decode(Value(JsNull), t, sanitize) == Ok(Unit)
  {
    match t
    case NewtypeStruct(inner) =>
      NullAndUndefinedDecodeAlike(inner, sanitize);
    case _ =>
  }

  /** An optional target is absent exactly for null and undefined. */
  lemma OptionalAbsentIffNullish(v: JsValue, t: Target, sanitize: Sanitizer)
    ensures Decode(Value(v), Optional(t), sanitize) == Ok(Absent) <==> IsNullOrUndefined(v)
  {
  }

  /** A newtype target adds no notification of its own: it wraps its inner decode. */
  lemma NewtypeDelegates(slot: Slot, t: Target, sanitize: Sanitizer)
    requires Admissible(slot, t)
    ensures Decode(slot, NewtypeStruct(t), sanitize).Ok? <==> Decode(slot, t, sanitize).Ok?
    ensures Decode(slot, t, sanitize).Ok? ==>
      Decode(slot, NewtypeStruct(t), sanitize) == Ok(Newtype(Decode(slot, t, sanitize).value))
    ensures Decode(slot, t, sanitize).Err? ==> Decode(slot, NewtypeStruct(t), sanitize) == Decode(slot, t, sanitize)
  {
  }

  /** An int-tagged value decodes to its 32-bit integer. */
  lemma IntDecodes(n: i32, sanitize: Sanitizer)
    ensures Decode(Value(JsInt(n)), Any, sanitize) == Ok(I32(n))
  {
  }

  /** A property whose name normalizes and whose value is an int. */
  predicate IntProperty(p: Property, sanitize: Sanitizer)
  {
    p.key.Got? && sanitize(p.key.value).Some? && p.value.Got? && p.value.value.JsInt?
  }

  /**
   * An object whose properties all have normalizable names and int values
   * decodes to the mapping from each normalized name to its int, in
   * enumeration order.
   */
  lemma ObjectOfInts(owner: JsValue, sanitize: Sanitizer)
    requires owner.JsObject? && !owner.propertiesUnreadable
    requires forall k :: 0 <= k < |owner.entries| ==> IntProperty(owner.entries[k], sanitize)
    ensures var r := Decode(Value(owner), Any, sanitize);
      r.Ok? && r.value.Map? && |r.value.pairs| == |owner.entries| &&
      forall k :: 0 <= k < |owner.entries| ==>
        IntProperty(owner.entries[k], sanitize) &&
        r.value.pairs[k] ==
          (Str(sanitize(owner.entries[k].key.value).value), I32(owner.entries[k].value.value.int32))
  {
    forall k | 0 <= k < |owner.entries|
      ensures EntryDecodes(owner, k, sanitize)
      ensures EntryPair(owner, k, sanitize) ==
        (Str(sanitize(owner.entries[k].key.value).value), I32(owner.entries[k].value.value.int32))
    {
      IntDecodes(owner.entries[k].value.value.int32, sanitize);
    }
    ObjectDecodesInOrder(owner, sanitize);
  }

  /**
   * Property names are normalized to snake_case keys, in enumeration order:
   * the object the key-conversion test builds decodes to the mapping it expects.
   */
  lemma SnakeCaseKeys(owner: JsValue, sanitize: Sanitizer)
    requires owner.JsObject? && !owner.propertiesUnreadable && |owner.entries| == 5
    requires owner.entries[0] == Property(Got("hello_wold"), Got(JsInt(1)))
    requires owner.entries[1] == Property(Got("toto"), Got(JsInt(2)))
    requires owner.entries[2] == Property(Got("fooBar"), Got(JsInt(3)))
    requires owner.entries[3] == Property(Got("Joyeux No\U{00EB}l"), Got(JsInt(4)))
    requires owner.entries[4] == Property(Got("kebab-case"), Got(JsInt(5)))
    requires sanitize("hello_wold") == Some("hello_wold")
    requires sanitize("toto") == Some("toto")
    requires sanitize("fooBar") == Some("foo_bar")
    requires sanitize("Joyeux No\U{00EB}l") == Some("joyeux_no\U{00EB}l")
    requires sanitize("kebab-case") == Some("kebab_case")
    ensures Decode(Value(owner), Any, sanitize) == Ok(Map([
      (Str("hello_wold"), I32(1)),
      (Str("toto"), I32(2)),
      (Str("foo_bar"), I32(3)),
      (Str("joyeux_no\U{00EB}l"), I32(4)),
      (Str("kebab_case"), I32(5))]))
  {
    assert forall k :: 0 <= k < 5 ==> IntProperty(owner.entries[k], sanitize);
    ObjectOfInts(owner, sanitize);
    var pairs := Decode(Value(owner), Any, sanitize).value.pairs;
    assert pairs[0] == (Str("hello_wold"), I32(1));
    assert pairs[1] == (Str("toto"), I32(2));
    assert pairs[2] == (Str("foo_bar"), I32(3));
    assert pairs[3] == (Str("joyeux_no\U{00EB}l"), I32(4));
    assert pairs[4] == (Str("kebab_case"), I32(5));
    FiveElements(pairs);
  }

  /** A sequence of length five is the display of its five elements. */
  lemma FiveElements<T>(s: seq<T>)
    requires |s| == 5
    ensures s == [s[0], s[1], s[2], s[3], s[4]]
  {
  }

  /** A numeric-looking property name reaches the target as a string key. */
  lemma NumericNameIsStringKey(owner: JsValue, sanitize: Sanitizer)
    requires owner.JsObject? && !owner.propertiesUnreadable
    requires owner.entries == [Property(Got("1337"), Got(JsInt(42)))]
    requires sanitize("1337") == Some("1337")
    ensures Decode(Value(owner), Any, sanitize) == Ok(Map([(Str("1337"), I32(42))]))
  {
    ObjectOfInts(owner, sanitize);
    var pairs := Decode(Value(owner), Any, sanitize).value.pairs;
    assert pairs == [(Str("1337"), I32(42))];
  }
}
