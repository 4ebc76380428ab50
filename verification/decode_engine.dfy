/** The recursive part of decoding: the generic dispatcher `unbox<T>`, the
    `init(from:)` of the target types, the keyed container's `decode(_:forKey:)`
    and the unkeyed container's generic `decode(_:)`. They call one another
    through the target schema, which shrinks at every re-entry. */
module DecodeEngine {
  import opened Wrappers
  import opened Values
  import opened Errors
  import opened Options
  import opened Targets
  import opened DecodingStorage
  import opened Coercions
  import opened Decoding
  import opened KeyedDecoding
  import opened UnkeyedDecoding


  /** The targets the dispatcher answers without running `init(from:)`. */
  predicate Converted(t: Target)
  {
    t.UuidTarget? || t.UrlTarget? || t.DecimalTarget?
  }

  /** The targets for which a null node is absent rather than handed to
      `init(from:)`: every special-cased Foundation type. */
  predicate Special(t: Target)
  {
    Converted(t) || t.DateTarget? || t.DataTarget?
  }

  /** The decoder with `v` pushed as its active node. */
  function PushNode(d: Decoder, v: Value): (e: Decoder)
    ensures e.storage.Count() == d.storage.Count() + 1 && e.storage.Top() == v
    ensures e.codingPath == d.codingPath && e.options == d.options
  {
    d.(storage := d.storage.Push(v))
  }

  /** The decoder with its active node popped. */
  function PopNode(d: Decoder): (e: Decoder)
    requires d.storage.Count() > 0
    ensures e.storage.Count() == d.storage.Count() - 1
    ensures e.codingPath == d.codingPath && e.options == d.options
  {
    d.(storage := d.storage.Pop())
  }

  lemma PushPopNode(d: Decoder, v: Value)
    ensures PopNode(PushNode(d, v)) == d
  {
    PushPopRestores(d.storage, v);
  }

  /** A tree node `Data` accepts as one byte. */
  predicate IsByteNode(v: Value)
  {
    v.IsPlainNumber() && v.DoubleValue().Finite? && Integral(v.DoubleValue().r)
    && UInt8.Contains(v.DoubleValue().r.Floor)
  }

  /** The generic `unbox<T>`: the Foundation types are special-cased and every
      other target runs its `init(from:)` over the node pushed onto the stack,
      which is popped afterwards whatever the outcome. Absent is reserved for
      null nodes of special targets and unparsable UUID strings; a primitive
      reached this way meets the single-value container, which reports a null
      as `valueNotFound`. */
  function Unbox(v: Value, t: Target, d: Decoder): (s: Step<Option<Typed>>)
    decreases t, 3
    ensures s.decoder == d
    ensures s.result.Success? && s.result.value.Some? ==> HasType(s.result.value.value, t)
    ensures s.result == Success(None) ==> v.Null? || (t.UuidTarget? && v.Str? && !IsUuidText(v.s))
    ensures Special(t) && v.Null? ==> s.result == Success(None)
  {
    match t
    case UuidTarget =>
      (match UnboxUuid(v, d.codingPath)
       case Failure(e) => Step(Failure(e), d)
       case Success(o) => Step(Success(if o.Some? then Some(UuidV(o.value)) else None), d))
    case UrlTarget =>
      (match UnboxUrl(v, d.codingPath)
       case Failure(e) => Step(Failure(e), d)
       case Success(o) => Step(Success(if o.Some? then Some(UrlV(o.value)) else None), d))
    case DecimalTarget =>
      (match UnboxDecimal(v, d.options.nonConformingFloatDecodingStrategy, d.codingPath)
       case Failure(e) => Step(Failure(e), d)
       case Success(o) => Step(Success(if o.Some? then Some(DecimalV(o.value)) else None), d))
    case _ =>
      if Special(t) && v.Null? then Step(Success(None), d)
      else
        var inner := PushNode(d, v);
        PushPopNode(d, v);
        var sub := Init(t, inner);
        Step(if sub.result.Success? then Success(Some(sub.result.value)) else Failure(sub.result.error), PopNode(sub.decoder))
  }

  /** `T.init(from:)` over the active node, for the targets that run it:
      primitives and `Date` read the single-value container, `Data` reads an
      unkeyed container of bytes, a record reads a keyed container field by
      field, an array reads an unkeyed container to its end, and a silent type
      reads nothing. */
  function Init(t: Target, d: Decoder): (s: Step<Typed>)
    requires d.storage.Count() > 0 && !Converted(t)
    decreases t, 2
    ensures s.decoder == d
    ensures s.result.Success? ==> HasType(s.result.value, t)
  {
    match t
    case Prim(p) => Step(SingleValueDecode(d, p), d)
    case DateTarget =>
      (match SingleValueDecode(d, PDouble)
       case Failure(e) => Step(Failure(e), d)
       case Success(x) => Step(Success(DateV(x.f)), d))
    case DataTarget =>
      (match UnkeyedContainerOf(d)
       case Failure(e) => Step(Failure(e), d)
       case Success(c) =>
         var sub := DecodeBytes(c, d, []);
         Step(if sub.result.Success? then Success(DataV(sub.result.value)) else Failure(sub.result.error), sub.decoder))
    case Record(name, fields) =>
      (match KeyedContainerOf(d, name)
       case Failure(e) => Step(Failure(e), d)
       case Success(c) =>
         var sub := DecodeFields(t, 0, c, d, []);
         Step(if sub.result.Success? then Success(RecordV(name, sub.result.value)) else Failure(sub.result.error), sub.decoder))
    case ArrayOf(e) =>
      (match UnkeyedContainerOf(d)
       case Failure(err) => Step(Failure(err), d)
       case Success(c) =>
         var sub := DecodeElements(t, c, d, []);
         Step(if sub.result.Success? then Success(ArrayV(sub.result.value)) else Failure(sub.result.error), sub.decoder))
    case SilentTarget(name) => Step(Success(SilentV(name)), d)
  }

  /** A record's `init(from:)`: its fields in declaration order, each through
      the keyed container's `decode(_:forKey:)`; the first failure stops it. */
  function DecodeFields(t: Target, i: nat, c: KeyedContainer, d: Decoder, acc: seq<FieldValue>): (s: Step<seq<FieldValue>>)
    requires t.Record? && i <= |t.fields| && FieldsConform(acc, t, i)
    decreases t, 1, |t.fields| - i
    ensures s.decoder == d
    ensures s.result.Success? ==> FieldsConform(s.result.value, t, |t.fields|)
    ensures s.result.Success? ==> s.result.value[..i] == acc
  {
    if i == |t.fields| then Step(Success(acc), d)
    else
      var f := t.fields[i];
      assert f in t.fields;
      var sub := KeyedDecode(c, f.key, f.target, d);
      match sub.result
      case Failure(e) => Step(Failure(e), sub.decoder)
      case Success(x) =>
        var acc' := acc + [FieldValue(f.key, x)];
        assert FieldsConform(acc', t, i + 1) by {
          assert forall j :: 0 <= j < i ==> acc'[j] == acc[j];
        }
        var r := DecodeFields(t, i + 1, c, d, acc');
        assert r.result.Success? ==> r.result.value[..i] == acc'[..i] == acc;
        r
  }

  /** The keyed container's `decode(_:forKey:)`. A missing key consults the
      missing-value strategy: `useDefault` returns the provider's value when it
      is of the requested type and rethrows the provider's error; otherwise
      the failure is `keyNotFound` at the current path. A present key is
      decoded by the dispatcher with the key on the path; an absent result
      there is `keyNotFound` at the path including the key. */
  function KeyedDecode(c: KeyedContainer, key: string, t: Target, d: Decoder): (s: Step<Typed>)
    decreases t, 4
    ensures s.decoder == d
    ensures s.result.Success? ==> HasType(s.result.value, t)
    ensures key !in c.entries && d.options.missingValueDecodingStrategy.ThrowOnMissing? ==>
      s.result == Failure(KeyNotFoundHere(d, NamedKey(key), TargetType(t)))
    ensures key !in c.entries && d.options.missingValueDecodingStrategy.UseDefault? ==>
      var p := Provide(d.options.missingValueDecodingStrategy.defaults, TargetType(t));
      && (p.Gives? && HasType(p.value, t) ==> s.result == Success(p.value))
      && ((p.Gives? && !HasType(p.value, t)) || p.GivesOther? ==> s.result == Failure(KeyNotFoundHere(d, NamedKey(key), TargetType(t))))
      && (p.Throws? ==> s.result == Failure(p.error))
    ensures key in c.entries ==>
      var inner := Enter(d, NamedKey(key));
      (match Unbox(c.entries[key], t, inner).result
       case Success(None) => s.result == Failure(KeyNotFoundHere(inner, NamedKey(key), TargetType(t)))
       case Success(Some(x)) => s.result == Success(x)
       case Failure(e) => s.result == Failure(e))
  {
    if key !in c.entries then
      var notFound := Failure(KeyNotFoundHere(d, NamedKey(key), TargetType(t)));
      var r :=
        match d.options.missingValueDecodingStrategy
        case ThrowOnMissing => notFound
        case UseDefault(defaults) =>
          match Provide(defaults, TargetType(t))
          case Gives(x) => if HasType(x, t) then Success(x) else notFound
          case GivesOther => notFound
          case Throws(e) => Failure(e);
      Step(r, d)
    else
      var inner := Enter(d, NamedKey(key));
      EnterLeave(d, NamedKey(key));
      var sub := Unbox(c.entries[key], t, inner);
      var r :=
        match sub.result
        case Success(None) => Failure(KeyNotFoundHere(inner, NamedKey(key), TargetType(t)))
        case Success(Some(x)) => Success(x)
        case Failure(e) => Failure(e);
      Step(r, Leave(sub.decoder))
  }

  /** The unkeyed container's generic `decode(_:)`. At the end: `valueNotFound`
      at path+index. Otherwise the element is decoded by the dispatcher with
      the index on the path; an absent result is `valueNotFound` with the index
      twice; only a success moves the cursor. */
  function UnkeyedDecode(c: UnkeyedContainer, t: Target, d: Decoder): (s: UStep<Typed>)
    decreases t, 4
    ensures s.decoder == d
    ensures s.result.Success? <==> s.container == Advance(c)
    ensures s.result.Failure? ==> s.container == c
    ensures s.result.Success? ==> HasType(s.result.value, t)
    ensures c.IsAtEnd() ==> s.result == Failure(NotFoundAt(d.codingPath + [Here(c)], TargetType(t)))
    ensures !c.IsAtEnd() ==>
      var inner := Enter(d, Here(c));
      match Unbox(c.elements[c.currentIndex], t, inner).result
      case Success(None) => s.result == Failure(NotFoundAt(inner.codingPath + [Here(c)], TargetType(t)))
      case Success(Some(x)) => s.result == Success(x)
      case Failure(e) => s.result == Failure(e)
  {
    if c.IsAtEnd() then UStep(Failure(NotFoundAt(d.codingPath + [Here(c)], TargetType(t))), c, d)
    else
      var inner := Enter(d, Here(c));
      EnterLeave(d, Here(c));
      var sub := Unbox(c.elements[c.currentIndex], t, inner);
      match sub.result
      case Success(None) => UStep(Failure(NotFoundAt(inner.codingPath + [Here(c)], TargetType(t))), c, Leave(sub.decoder))
      case Success(Some(x)) => UStep(Success(x), Advance(c), Leave(sub.decoder))
      case Failure(e) => UStep(Failure(e), c, Leave(sub.decoder))
  }

  /** `Array.init(from:)`: generic element decodes until the cursor reaches the
      end; the first failure stops it. */
  function DecodeElements(t: Target, c: UnkeyedContainer, d: Decoder, acc: seq<Typed>): (s: UStep<seq<Typed>>)
    requires t.ArrayOf? && c.currentIndex <= |c.elements|
    requires forall i :: 0 <= i < |acc| ==> HasType(acc[i], t.element)
    decreases t, 1, |c.elements| - c.currentIndex
    ensures s.decoder == d
    ensures s.result.Success? ==>
      && s.container.IsAtEnd()
      && |s.result.value| == |acc| + |c.elements| - c.currentIndex
      && s.result.value[..|acc|] == acc
      && forall i :: 0 <= i < |s.result.value| ==> HasType(s.result.value[i], t.element)
  {
    if c.IsAtEnd() then UStep(Success(acc), c, d)
    else
      var sub := UnkeyedDecode(c, t.element, d);
      match sub.result
      case Failure(e) => UStep(Failure(e), sub.container, sub.decoder)
      case Success(x) =>
        var r := DecodeElements(t, sub.container, d, acc + [x]);
        assert r.result.Success? ==> r.result.value[..|acc|] == (acc + [x])[..|acc|] == acc;
        r
  }

  /** One step of `Data.init(from:)`: the `UInt8` overload accepts exactly a
      byte node, and yields its value. */
  lemma ByteStep(c: UnkeyedContainer, d: Decoder)
    requires !c.IsAtEnd()
    ensures DecodePrim(c, PInt(UInt8), d).result.Success? <==> IsByteNode(c.elements[c.currentIndex])
    ensures DecodePrim(c, PInt(UInt8), d).result.Success? ==>
      var x := DecodePrim(c, PInt(UInt8), d).result.value;
      x.IntV? && c.elements[c.currentIndex].DoubleValue() == Finite(x.i as real) && UInt8.Contains(x.i)
  {
    var v := c.elements[c.currentIndex];
    var strategy := d.options.nonConformingFloatDecodingStrategy;
    var path := d.codingPath + [Here(c)];
    var sub := DecodePrim(c, PInt(UInt8), d);
    if sub.result.Success? {
      var x := sub.result.value;
      IntOverloadExact(v, UInt8, x.i, strategy, path);
    }
    if IsByteNode(v) {
      var n := v.DoubleValue().r.Floor;
      IntOverloadExact(v, UInt8, n, strategy, path);
    }
  }

  /** `Data.init(from:)`: `UInt8` element decodes until the end. It succeeds
      exactly when every remaining element is a byte node, and then yields
      their values in order. */
  function DecodeBytes(c: UnkeyedContainer, d: Decoder, acc: seq<int>): (s: UStep<seq<int>>)
    requires c.currentIndex <= |c.elements|
    decreases |c.elements| - c.currentIndex
    ensures s.decoder == d
    ensures s.result.Success? <==> forall k :: c.currentIndex <= k < |c.elements| ==> IsByteNode(c.elements[k])
    ensures s.result.Success? ==>
      && |s.result.value| == |acc| + |c.elements| - c.currentIndex
      && s.result.value[..|acc|] == acc
      && forall k :: c.currentIndex <= k < |c.elements| ==>
           c.elements[k].DoubleValue() == Finite(s.result.value[|acc| + k - c.currentIndex] as real)
  {
    if c.IsAtEnd() then UStep(Success(acc), c, d)
    else
      ByteStep(c, d);
      var sub := DecodePrim(c, PInt(UInt8), d);
      match sub.result
      case Failure(e) => UStep(Failure(e), sub.container, sub.decoder)
      case Success(x) =>
        var r := DecodeBytes(sub.container, d, acc + [x.i]);
        assert r.result.Success? ==> r.result.value[..|acc|] == (acc + [x.i])[..|acc|] == acc;
        r
  }
}
