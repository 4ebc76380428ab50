/** Encoding and then decoding gives the value back. The encoder's tree of a
    value is read by the decoder, for the value's own type, as that value,
    whenever nothing is lost on the way: integers fit their type, floats are
    finite (and a Float within its range), a UUID is in the canonical
    upper-case form the decoder produces, a URL string parses, Data holds
    bytes, and no record repeats a key. */
module RoundTrip {
  import opened Wrappers
  import opened Values
  import opened Options
  import opened Targets
  import opened Coercions
  import opened Decoding
  import opened KeyedDecoding
  import opened UnkeyedDecoding
  import opened DecodeEngine
  import opened DecodeFacts
  import opened DictionaryDecoding
  import opened EncodedForm
  import opened DictionaryEncoding

  /** No two fields of a record share a key. */
  predicate DistinctKeys(fields: seq<FieldValue>)
  {
    forall i, j :: 0 <= i < j < |fields| ==> fields[i].key != fields[j].key
  }

  /** `v` survives the trip through the value tree unchanged. */
  predicate RoundTrips(v: Typed)
  {
    match v
    case IntV(t, i) => t.Contains(i)
    case FloatV(f) => FitsFloat(f)
    case DoubleV(f) => f.Finite?
    case DateV(f) => f.Finite?
    case UuidV(x) => IsUuidText(x) && forall k :: 0 <= k < |x| ==> UpperHex(x[k]) == x[k]
    case UrlV(a) => ParseUrl(a).Some?
    case DataV(bytes) => forall k :: 0 <= k < |bytes| ==> UInt8.Contains(bytes[k])
    case RecordV(_, fields) => DistinctKeys(fields) && forall k :: 0 <= k < |fields| ==> RoundTrips(fields[k].value)
    case ArrayV(xs) => forall k :: 0 <= k < |xs| ==> RoundTrips(xs[k])
    case _ => true
  }

  /** Values that round-trip hold only finite floats, so any strategy
      encodes them. */
  lemma {:induction false} RoundTripsEncodable(v: Typed, s: NonConformingFloatEncodingStrategy)
    requires RoundTrips(v)
    ensures Encodable(v, s)
    decreases v
  {
    match v
    case RecordV(_, fields) =>
      forall k | 0 <= k < |fields|
        ensures Encodable(fields[k].value, s)
      {
        RoundTripsEncodable(fields[k].value, s);
      }
    case ArrayV(xs) =>
      forall k | 0 <= k < |xs|
        ensures Encodable(xs[k], s)
      {
        RoundTripsEncodable(xs[k], s);
      }
    case _ =>
  }

  /** With distinct keys, every field's tree sits under its own key in the
      map of the first `n` fields. */
  lemma {:induction false} FieldsTreeLookup(v: Typed, n: nat, j: nat, s: NonConformingFloatEncodingStrategy)
    requires v.RecordV? && j < n <= |v.fields| && DistinctKeys(v.fields)
    ensures v.fields[j].key in FieldsTree(v, n, s)
    ensures FieldsTree(v, n, s)[v.fields[j].key] == TreeOf(v.fields[j].value, s)
    decreases n
  {
    if j < n - 1 {
      FieldsTreeLookup(v, n - 1, j, s);
    }
  }

  /** The decoder reads the tree of a value of type `t` back as that value. */
  lemma {:induction false} UnboxRoundTrip(v: Typed, t: Target, s: NonConformingFloatEncodingStrategy, d: Decoder)
    requires HasType(v, t) && RoundTrips(v)
    ensures Unbox(TreeOf(v, s), t, d).result == Success(Some(v))
    decreases t, 3
  {
    match t
    case Prim(p) => PrimRoundTrip(v, p, s, d);
    case UuidTarget => ConvertedRoundTrip(v, t, s, d);
    case UrlTarget => ConvertedRoundTrip(v, t, s, d);
    case DecimalTarget => ConvertedRoundTrip(v, t, s, d);
    case DateTarget => DateViaDouble(TreeOf(v, s), d);
    case DataTarget => DataRoundTrip(v, s, d);
    case Record(_, _) => RecordRoundTrip(v, t, s, d);
    case ArrayOf(_) => ArrayRoundTrip(v, t, s, d);
    case SilentTarget(_) =>
  }

  /** Primitives come back through the single-value container. */
  lemma PrimRoundTrip(v: Typed, p: Prim, s: NonConformingFloatEncodingStrategy, d: Decoder)
    requires HasType(v, Prim(p)) && RoundTrips(v)
    ensures Unbox(TreeOf(v, s), Prim(p), d).result == Success(Some(v))
  {
    PrimViaDispatcher(TreeOf(v, s), p, d);
    UnboxPrimRoundTrip(v, p, s, d.options.nonConformingFloatDecodingStrategy, d.codingPath);
  }

  /** The primitive coercion recovers a primitive from its encoded tree. */
  lemma UnboxPrimRoundTrip(v: Typed, p: Prim, s: NonConformingFloatEncodingStrategy, opts: NonConformingFloatDecodingStrategy, path: seq<CodingKey>)
    requires HasType(v, Prim(p)) && RoundTrips(v)
    ensures UnboxPrim(TreeOf(v, s), p, opts, path) == Success(Some(v))
  {
    if p.PInt? {
      assert (v.i as real).Floor == v.i;
    }
  }

  /** UUID, URL and Decimal come back through their coercion rules. */
  lemma ConvertedRoundTrip(v: Typed, t: Target, s: NonConformingFloatEncodingStrategy, d: Decoder)
    requires Converted(t) && HasType(v, t) && RoundTrips(v)
    ensures Unbox(TreeOf(v, s), t, d).result == Success(Some(v))
  {
    var tree := TreeOf(v, s);
    match t
    case UuidTarget =>
      UuidViaCoercions(tree, d);
      assert ParseUuid(v.text).value == v.text;
    case UrlTarget => UrlViaCoercions(tree, d);
    case DecimalTarget => DecimalViaCoercions(tree, d);
  }

  /** The bytes of a `Data` come back in order. */
  lemma DataRoundTrip(v: Typed, s: NonConformingFloatEncodingStrategy, d: Decoder)
    requires v.DataV? && RoundTrips(v)
    ensures Unbox(TreeOf(v, s), DataTarget, d).result == Success(Some(v))
  {
    var tree := TreeOf(v, s);
    forall k | 0 <= k < |tree.elems|
      ensures IsByteNode(tree.elems[k])
    {
      assert tree.elems[k] == Integer(v.bytes[k]);
      assert (v.bytes[k] as real).Floor == v.bytes[k];
    }
    DataFromBytes(tree, d);
    var r := Unbox(tree, DataTarget, d).result.value.value;
    assert r.bytes == v.bytes by {
      forall k | 0 <= k < |v.bytes|
        ensures r.bytes[k] == v.bytes[k]
      {
        assert tree.elems[k].DoubleValue() == Finite(v.bytes[k] as real);
      }
    }
  }

  /** A record comes back through a keyed container over its map. */
  lemma {:induction false} RecordRoundTrip(v: Typed, t: Target, s: NonConformingFloatEncodingStrategy, d: Decoder)
    requires t.Record? && HasType(v, t) && RoundTrips(v)
    ensures Unbox(TreeOf(v, s), t, d).result == Success(Some(v))
    decreases t, 2
  {
    var tree := TreeOf(v, s);
    var inner := PushNode(d, tree);
    var c := KeyedContainer(t.name, tree.entries, d.codingPath);
    assert KeyedContainerOf(inner, t.name) == Success(c);
    FieldsRoundTrip(v, t, 0, c, inner, s);
    assert v.fields[..0] == [];
    assert v == RecordV(t.name, v.fields);
    assert Init(t, inner).result == Success(v);
  }

  /** An array comes back through an unkeyed container over its elements. */
  lemma {:induction false} ArrayRoundTrip(v: Typed, t: Target, s: NonConformingFloatEncodingStrategy, d: Decoder)
    requires t.ArrayOf? && HasType(v, t) && RoundTrips(v)
    ensures Unbox(TreeOf(v, s), t, d).result == Success(Some(v))
    decreases t, 2
  {
    var tree := TreeOf(v, s);
    var inner := PushNode(d, tree);
    var c := UnkeyedContainer(tree.elems, d.codingPath, 0);
    assert UnkeyedContainerOf(inner) == Success(c);
    assert TreesOf(v.elems, s) == c.elements;
    ElementsRoundTrip(v.elems, t, c, inner, s);
    assert v.elems[..0] == [];
    assert v == ArrayV(v.elems);
    assert Init(t, inner).result == Success(v);
  }

  /** The fields from the `i`-th on are decoded back, each from its key. */
  lemma {:induction false} FieldsRoundTrip(v: Typed, t: Target, i: nat, c: KeyedContainer, d: Decoder, s: NonConformingFloatEncodingStrategy)
    requires t.Record? && HasType(v, t) && RoundTrips(v) && i <= |t.fields|
    requires c.entries == FieldsTree(v, |v.fields|, s)
    ensures i <= |v.fields| && FieldsConform(v.fields[..i], t, i)
    ensures DecodeFields(t, i, c, d, v.fields[..i]).result == Success(v.fields)
    decreases t, 1, |t.fields| - i
  {
    assert FieldsConform(v.fields[..i], t, i);
    if i == |t.fields| {
      assert v.fields[..i] == v.fields;
    } else {
      FieldRoundTrip(v, t, i, c, d, s);
      assert v.fields[..i] + [FieldValue(t.fields[i].key, v.fields[i].value)] == v.fields[..i + 1];
      FieldsRoundTrip(v, t, i + 1, c, d, s);
    }
  }

  /** The `i`-th field is decoded back from under its key. */
  lemma {:induction false} FieldRoundTrip(v: Typed, t: Target, i: nat, c: KeyedContainer, d: Decoder, s: NonConformingFloatEncodingStrategy)
    requires t.Record? && HasType(v, t) && RoundTrips(v) && i < |t.fields|
    requires c.entries == FieldsTree(v, |v.fields|, s)
    ensures i < |v.fields| && v.fields[i].key == t.fields[i].key
    ensures KeyedDecode(c, t.fields[i].key, t.fields[i].target, d).result == Success(v.fields[i].value)
    decreases t, 0, 0
  {
    var f := t.fields[i];
    var x := v.fields[i];
    assert x.key == f.key && HasType(x.value, f.target) && RoundTrips(x.value);
    FieldsTreeLookup(v, |v.fields|, i, s);
    UnboxRoundTrip(x.value, f.target, s, Enter(d, NamedKey(f.key)));
  }

  /** Every element has type `elem` and round-trips. */
  predicate AllRoundTrip(xs: seq<Typed>, elem: Target)
  {
    forall k :: 0 <= k < |xs| ==> HasType(xs[k], elem) && RoundTrips(xs[k])
  }

  /** The encoder's trees of the elements, in order. */
  function TreesOf(xs: seq<Typed>, s: NonConformingFloatEncodingStrategy): (ts: seq<Value>)
    ensures |ts| == |xs| && forall k :: 0 <= k < |xs| ==> ts[k] == TreeOf(xs[k], s)
  {
    seq(|xs|, k requires 0 <= k < |xs| => TreeOf(xs[k], s))
  }

  /** The elements from the cursor on are decoded back, in order. */
  lemma {:induction false} ElementsRoundTrip(xs: seq<Typed>, t: Target, c: UnkeyedContainer, d: Decoder, s: NonConformingFloatEncodingStrategy)
    requires t.ArrayOf? && AllRoundTrip(xs, t.element)
    requires TreesOf(xs, s) == c.elements && c.currentIndex <= |c.elements|
    ensures DecodeElements(t, c, d, xs[..c.currentIndex]).result == Success(xs)
    decreases t, 1, |c.elements| - c.currentIndex
  {
    if c.IsAtEnd() {
      assert xs[..c.currentIndex] == xs;
    } else {
      var next := Advance(c);
      ElementsHead(xs, t, c, d, s);
      ElementsRoundTrip(xs, t, next, d, s);
      assert xs[..next.currentIndex] == xs[..c.currentIndex + 1];
    }
  }

  /** One turn of the element loop takes the element under the cursor onto
      the decoded prefix. */
  lemma {:induction false} ElementsHead(xs: seq<Typed>, t: Target, c: UnkeyedContainer, d: Decoder, s: NonConformingFloatEncodingStrategy)
    requires t.ArrayOf? && AllRoundTrip(xs, t.element)
    requires TreesOf(xs, s) == c.elements && c.currentIndex < |c.elements|
    ensures DecodeElements(t, c, d, xs[..c.currentIndex]) == DecodeElements(t, Advance(c), d, xs[..c.currentIndex + 1])
    decreases t, 0, 1
  {
    var i := c.currentIndex;
    var x := xs[i];
    var acc := xs[..i];
    assert acc + [x] == xs[..i + 1];
    assert HasType(x, t.element) && RoundTrips(x);
    assert c.elements[i] == TreeOf(x, s);
    ElementRoundTrip(x, t, c, d, s);
    assert forall k :: 0 <= k < |acc| ==> HasType(acc[k], t.element) by {
      forall k | 0 <= k < |acc|
        ensures HasType(acc[k], t.element)
      {
        assert acc[k] == xs[k];
      }
    }
    ElementsStep(t, c, d, acc, x);
  }

  /** A successful element read continues the loop from the next cursor. */
  lemma ElementsStep(t: Target, c: UnkeyedContainer, d: Decoder, acc: seq<Typed>, x: Typed)
    requires t.ArrayOf? && c.currentIndex < |c.elements|
    requires forall k :: 0 <= k < |acc| ==> HasType(acc[k], t.element)
    requires UnkeyedDecode(c, t.element, d).result == Success(x)
    requires UnkeyedDecode(c, t.element, d).container == Advance(c)
    ensures HasType(x, t.element)
    ensures DecodeElements(t, c, d, acc) == DecodeElements(t, Advance(c), d, acc + [x])
  {
  }

  /** The element under the cursor is decoded back and the cursor moves on. */
  lemma {:induction false} ElementRoundTrip(x: Typed, t: Target, c: UnkeyedContainer, d: Decoder, s: NonConformingFloatEncodingStrategy)
    requires t.ArrayOf? && HasType(x, t.element) && RoundTrips(x)
    requires c.currentIndex < |c.elements| && c.elements[c.currentIndex] == TreeOf(x, s)
    ensures UnkeyedDecode(c, t.element, d).result == Success(x)
    ensures UnkeyedDecode(c, t.element, d).container == Advance(c)
    decreases t, 0, 0
  {
    UnboxRoundTrip(x, t.element, s, Enter(d, Here(c)));
  }

  /** A record encoded by `DictionaryEncoder` and decoded by
      `DictionaryDecoder` as its own type comes back unchanged, whatever the
      settings of either side. */
  lemma EncodeDecodeRoundTrip(v: Typed, t: Target, es: EncoderSettings, ds: DecoderSettings)
    requires t.Record? && HasType(v, t) && RoundTrips(v)
    ensures Encode(v, es).Returned?
    ensures Decode(t, Encode(v, es).dictionary, ds) == Success(v)
  {
    var s := es.nonConformingFloatEncodingStrategy;
    RoundTripsEncodable(v, s);
    RecordEncodesToFields(v, es);
    var root := FieldsTree(v, |v.fields|, s);
    UnboxRoundTrip(v, t, s, NewDecoder(Dict(root), [], DecodeSnapshot(ds)));
  }
}
