/** Type descriptors for args and the check that `updateFromPersisted` puts
    every persisted value through before admitting it: coercion to the
    declared shape, then the `options` allow-list. */
module Coercion {
  import opened ArgValues
  import opened Decimal

  datatype ScalarKind = StringKind | NumberKind

  /** The declared shape of an arg: a scalar, an object whose every value has
      one shape, or an array whose every element has one shape. */
  datatype TypeDesc =
    | Scalar(kind: ScalarKind)
    | ObjectOf(valueType: TypeDesc)
    | ArrayOf(elementType: TypeDesc)

  /** An arg's descriptor: its shape and, optionally, the values it may take. */
  datatype ArgType = ArgType(ty: TypeDesc, options: Option<seq<Value>>)

  type ArgTypes = map<string, ArgType>

  /** `v` has shape `t` (holes of an array are allowed anywhere). */
  predicate Conforms(v: Value, t: TypeDesc)
    decreases t
  {
    match t
    case Scalar(StringKind) => v.Str?
    case Scalar(NumberKind) => v.Num?
    case ObjectOf(d) => v.Obj? && forall k :: k in v.fields ==> Conforms(v.fields[k], d)
    case ArrayOf(d) =>
      v.Arr? && forall i :: 0 <= i < |v.elems| && v.elems[i].Some? ==> Conforms(v.elems[i].value, d)
  }

  /** Coerces a persisted value to a scalar kind: a number becomes its decimal
      string for a `string` arg, a decimal string becomes its number for a
      `number` arg; anything else cannot be coerced. */
  function CoerceScalar(v: Value, k: ScalarKind): (r: Option<Value>)
    ensures r.Some? ==> Conforms(r.value, Scalar(k))
    ensures k == StringKind ==> (r.Some? <==> v.Str? || v.Num?)
    ensures k == StringKind && v.Str? ==> r == Some(v)
    ensures k == NumberKind ==> (r.Some? <==> v.Num? || (v.Str? && ParseInt(v.s).Some?))
    ensures k == NumberKind && v.Num? ==> r == Some(v)
    ensures k == StringKind && v.Num? ==> r == Some(Str(IntToString(v.n)))
    ensures k == NumberKind && v.Str? && ParseInt(v.s).Some? ==> r == Some(Num(ParseInt(v.s).value))
  {
    match k
    case StringKind =>
      (match v
       case Str(_) => Some(v)
       case Num(n) => Some(Str(IntToString(n)))
       case _ => None)
    case NumberKind =>
      (match v
       case Num(_) => Some(v)
       case Str(s) =>
         (match ParseInt(s)
          case Some(n) => Some(Num(n))
          case None => None)
       case _ => None)
  }

  /** Coerces a persisted value to shape `t`. Object values and array elements
      that cannot be coerced are dropped (an array element becomes a hole, so
      later positions keep their places); a value of the wrong kind altogether
      cannot be coerced. */
  function Coerce(v: Value, t: TypeDesc): (r: Option<Value>)
    ensures r.Some? ==> Conforms(r.value, t)
    ensures t.Scalar? ==> r == CoerceScalar(v, t.kind)
    ensures t.ObjectOf? ==> (r.Some? <==> v.Obj?)
    ensures t.ObjectOf? && r.Some? ==> r.value.fields.Keys <= v.fields.Keys
    ensures t.ObjectOf? && r.Some? ==>
      forall k :: k in v.fields && Coerce(v.fields[k], t.valueType).Some? ==>
        k in r.value.fields && Some(r.value.fields[k]) == Coerce(v.fields[k], t.valueType)
    ensures t.ObjectOf? && r.Some? ==>
      forall k :: k in r.value.fields ==> k in v.fields && Coerce(v.fields[k], t.valueType).Some?
    ensures t.ArrayOf? ==> (r.Some? <==> v.Arr?)
    ensures t.ArrayOf? && r.Some? ==> |r.value.elems| == |v.elems|
    ensures t.ArrayOf? && r.Some? ==>
      forall i :: 0 <= i < |v.elems| && v.elems[i].None? ==> r.value.elems[i].None?
    ensures t.ArrayOf? && r.Some? ==>
      forall i :: 0 <= i < |v.elems| && v.elems[i].Some? ==>
        r.value.elems[i] == Coerce(v.elems[i].value, t.elementType)
    decreases t
  {
    match t
    case Scalar(k) => CoerceScalar(v, k)
    case ObjectOf(d) =>
      if v.Obj? then
        Some(Obj(map k | k in v.fields && Coerce(v.fields[k], d).Some? :: Coerce(v.fields[k], d).value))
      else None
    case ArrayOf(d) =>
      if v.Arr? then
        Some(Arr(seq(|v.elems|, i requires 0 <= i < |v.elems| =>
          if v.elems[i].Some? then Coerce(v.elems[i].value, d) else None)))
      else None
  }

  /** A value that already has the declared shape passes coercion unchanged. */
  lemma {:induction false} CoerceConformingIsIdentity(v: Value, t: TypeDesc)
    requires Conforms(v, t)
    ensures Coerce(v, t) == Some(v)
    decreases t
  {
    match t
    case Scalar(_) =>
    case ObjectOf(d) =>
      forall k | k in v.fields
        ensures Coerce(v.fields[k], d) == Some(v.fields[k])
      {
        CoerceConformingIsIdentity(v.fields[k], d);
      }
      assert Coerce(v, t).value.fields == v.fields;
    case ArrayOf(d) =>
      forall i | 0 <= i < |v.elems| && v.elems[i].Some?
        ensures Coerce(v.elems[i].value, d) == v.elems[i]
      {
        CoerceConformingIsIdentity(v.elems[i].value, d);
      }
      assert Coerce(v, t).value.elems == v.elems;
  }

  /** Coercion is idempotent: a coerced value coerces to itself. */
  lemma CoerceIdempotent(v: Value, t: TypeDesc)
    requires Coerce(v, t).Some?
    ensures Coerce(Coerce(v, t).value, t) == Coerce(v, t)
  {
    CoerceConformingIsIdentity(Coerce(v, t).value, t);
  }

  /** Coercing a number to a `string` arg loses nothing: coercing the string
      back to a `number` arg gives the number again. */
  lemma NumberToStringIsLossless(n: int)
    ensures CoerceScalar(Num(n), StringKind) == Some(Str(IntToString(n)))
    ensures CoerceScalar(CoerceScalar(Num(n), StringKind).value, NumberKind) == Some(Num(n))
  {
    ParseIntRoundTrip(n);
  }

  /** `v` is acceptable for an arg whose descriptor is `at`: there is no
      allow-list, or `v` is on it. */
  predicate Allowed(at: ArgType, v: Value) {
    at.options.None? || v in at.options.value
  }

  /** The value a persisted raw value is admitted as, if it is admitted at all:
      the raw value coerced to the declared shape, provided the coerced value
      is allowed. */
  function Admit(at: ArgType, raw: Value): (r: Option<Value>)
    ensures r.Some? ==> Conforms(r.value, at.ty) && Allowed(at, r.value)
    ensures r.Some? <==> Coerce(raw, at.ty).Some? && Allowed(at, Coerce(raw, at.ty).value)
    ensures r.Some? ==> r == Coerce(raw, at.ty)
  {
    match Coerce(raw, at.ty)
    case None => None
    case Some(v) => if Allowed(at, v) then Some(v) else None
  }

  /** The persisted args that survive validation, each in its coerced form:
      keys with no descriptor, values that cannot be coerced and values off the
      allow-list are silently dropped. */
  function AdmittedArgs(argTypes: ArgTypes, persisted: Args): (r: Args)
    ensures forall k :: k in r <==> k in persisted && k in argTypes && Admit(argTypes[k], persisted[k]).Some?
    ensures forall k :: k in r ==> Conforms(r[k], argTypes[k].ty) && Allowed(argTypes[k], r[k])
    ensures forall k :: k in r ==> Some(r[k]) == Coerce(persisted[k], argTypes[k].ty)
  {
    map k | k in persisted && k in argTypes && Admit(argTypes[k], persisted[k]).Some? ::
      Admit(argTypes[k], persisted[k]).value
  }
}
