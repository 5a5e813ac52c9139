/**
 * The `isNil` helper. `reflect` is replaced by a kind tag on each dynamic
 * value: an interface value is either the nil interface or a value of some
 * kind, and for the kinds that hold a reference, that reference may be nil.
 */
module GoReflect {
  import opened Json

  /** The kinds a dynamic value can have (the subset of reflect.Kind that matters here). */
  datatype Kind = Bool | Int | Float64 | String | Struct | Func | Ptr | Map | Array | Chan | Slice

  /** An `interface{}` value. `nilRef` says that the reference inside it is nil;
      it is meaningful only for the kinds that can be nil (see `Nilable`). */
  datatype Dynamic = NilInterface | Value(kind: Kind, nilRef: bool)

  /** The kinds on which reflect.Value.IsNil answers rather than panics. */
  predicate Nilable(k: Kind) {
    k.Ptr? || k.Map? || k.Chan? || k.Slice? || k.Func?
  }

  /** The kinds listed in the switch of `isNil`. */
  predicate Listed(k: Kind) {
    k.Ptr? || k.Map? || k.Array? || k.Chan? || k.Slice?
  }

  /** The answer of a nil check: a verdict, or a panic inside reflect. */
  datatype NilCheck = Answer(isNil: bool) | Panics

  /** reflect.Value.IsNil: the nil-ness of the reference for the kinds that hold
      one; a panic for every other kind. */
  function ReflectIsNil(k: Kind, nilRef: bool): (r: NilCheck)
    ensures r.Panics? <==> !Nilable(k)
    ensures r.Answer? ==> r.isNil == nilRef
  {
    if Nilable(k) then Answer(nilRef) else Panics
  }

  /** `isNil` as written: true for the nil interface, the reflect verdict for
      the listed kinds, false for everything else. Because Array is listed and
      is not nil-able, an array value makes it panic. */
  function IsNilAsWritten(i: Dynamic): (r: NilCheck)
    ensures i.NilInterface? ==> r == Answer(true)
    ensures i.Value? && !Listed(i.kind) ==> r == Answer(false)
    ensures r.Panics? <==> i.Value? && i.kind.Array?
  {
    match i
    case NilInterface => Answer(true)
    case Value(k, nilRef) => if Listed(k) then ReflectIsNil(k, nilRef) else Answer(false)
  }

  /** `isNil` as evidently intended: arrays are values and are never nil, so
      an array answers false instead of panicking. */
  function IsNil(i: Dynamic): (r: bool)
    ensures r <==> i.NilInterface? || (Listed(i.kind) && !i.kind.Array? && i.nilRef)
  {
    match i
    case NilInterface => true
    case Value(k, nilRef) => if k.Ptr? || k.Map? || k.Chan? || k.Slice? then nilRef else false
  }

  /** Counterexample: `isNil` as written panics on any array value, for
      instance a `[0]int{}`. */
  lemma AsWrittenPanicsOnArray(nilRef: bool)
    ensures IsNilAsWritten(Value(Array, nilRef)) == Panics
    ensures !IsNil(Value(Array, nilRef))
  {
  }

  /** The two definitions agree on every value that is not an array. */
  lemma IsNilAgrees(i: Dynamic)
    requires !(i.Value? && i.kind.Array?)
    ensures IsNilAsWritten(i) == Answer(IsNil(i))
  {
  }

  /** The dynamic value json.Unmarshal stores for a decoded JSON value:
      null becomes the nil interface, arrays and objects become non-nil
      slices and maps. */
  function FromJson(j: Json): (d: Dynamic)
    ensures d.NilInterface? <==> j == JNull
    ensures d.Value? ==> !d.nilRef && !d.kind.Array?
  {
    match j
    case JNull => NilInterface
    case JBool(_) => Value(Bool, false)
    case JNumber(_) => Value(Float64, false)
    case JString(_) => Value(String, false)
    case JArray(_) => Value(Slice, false)
    case JObject(_) => Value(Map, false)
  }

  /** On decoded JSON both definitions hold exactly for null (which includes
      a missing map key) and never panic. */
  lemma IsNilOfJson(j: Json)
    ensures IsNil(FromJson(j)) <==> j == JNull
    ensures IsNilAsWritten(FromJson(j)) == Answer(j == JNull)
  {
    IsNilAgrees(FromJson(j));
  }
}
