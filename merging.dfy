/** The structural merge `updateFromPersisted` uses to lay an admitted
    persisted value over the arg's current value: objects merge key by key,
    sparse arrays merge position by position, anything else is replaced. */
module Merging {
  import opened ArgValues
  import opened Coercion

  function Max(a: nat, b: nat): nat {
    if a < b then b else a
  }

  /** Lays `upd` over `existing` (`None` when the arg has no current value).
      Object onto object: keys of `upd` are merged in, other keys are kept.
      Array onto array: supplied positions of `upd` are merged in, holes keep
      the existing element, and the result is as long as the longer of the
      two. Otherwise `upd` becomes the value outright. */
  function MergeValue(existing: Option<Value>, upd: Value): (r: Value)
    ensures existing.None? ==> r == upd
    ensures upd.Str? || upd.Num? ==> r == upd
    ensures upd.Obj? ==> r.Obj? && upd.fields.Keys <= r.fields.Keys
    ensures upd.Obj? && !(existing.Some? && existing.value.Obj?) ==> r == upd
    ensures upd.Obj? && existing.Some? && existing.value.Obj? ==>
      && r.fields.Keys == existing.value.fields.Keys + upd.fields.Keys
      && (forall k :: k in upd.fields ==>
            r.fields[k] == MergeValue(Lookup(existing.value.fields, k), upd.fields[k]))
      && forall k :: k in existing.value.fields && k !in upd.fields ==>
           r.fields[k] == existing.value.fields[k]
    ensures upd.Arr? ==> r.Arr? && |r.elems| >= |upd.elems|
    ensures upd.Arr? && !(existing.Some? && existing.value.Arr?) ==> r == upd
    ensures upd.Arr? && existing.Some? && existing.value.Arr? ==>
      && |r.elems| == Max(|existing.value.elems|, |upd.elems|)
      && (forall i :: 0 <= i < |upd.elems| && upd.elems[i].Some? ==>
            r.elems[i] == Some(MergeValue(ElementAt(existing.value.elems, i), upd.elems[i].value)))
      && (forall i :: 0 <= i < |existing.value.elems| && (i >= |upd.elems| || upd.elems[i].None?) ==>
            r.elems[i] == existing.value.elems[i])
      && forall i :: |existing.value.elems| <= i < |upd.elems| && upd.elems[i].None? ==>
           r.elems[i].None?
    decreases upd
  {
    match (existing, upd)
    case (Some(Obj(o)), Obj(u)) =>
      Obj(map k | k in o.Keys + u.Keys ::
        if k in u then MergeValue(Lookup(o, k), u[k]) else o[k])
    case (Some(Arr(o)), Arr(u)) =>
      Arr(seq(Max(|o|, |u|), i requires 0 <= i < Max(|o|, |u|) =>
        if i < |u| && u[i].Some? then Some(MergeValue(ElementAt(o, i), u[i].value))
        else if i < |o| then o[i]
        else None))
    case _ => upd
  }

  /** The element at position `i` of a sparse array, `None` for a hole or a
      position past the end. */
  function ElementAt(xs: seq<Option<Value>>, i: nat): (r: Option<Value>)
    ensures i < |xs| ==> r == xs[i]
    ensures i >= |xs| ==> r.None?
  {
    if i < |xs| then xs[i] else None
  }

  /** An object of scalars overwrites: every key it supplies holds exactly the
      supplied value afterwards. */
  lemma ObjectOfScalarsOverwrites(existing: Option<Value>, upd: Value, s: ScalarKind)
    requires Conforms(upd, ObjectOf(Scalar(s)))
    ensures forall k :: k in upd.fields ==>
      k in MergeValue(existing, upd).fields && MergeValue(existing, upd).fields[k] == upd.fields[k]
  {
  }

  /** A sparse array of scalars overwrites: every position it supplies holds
      exactly the supplied element afterwards. */
  lemma ArrayOfScalarsOverwrites(existing: Option<Value>, upd: Value, s: ScalarKind)
    requires Conforms(upd, ArrayOf(Scalar(s)))
    ensures forall i :: 0 <= i < |upd.elems| && upd.elems[i].Some? ==>
      i < |MergeValue(existing, upd).elems| && MergeValue(existing, upd).elems[i] == upd.elems[i]
  {
  }

  /** Merging a value onto itself changes nothing. */
  lemma {:induction false} MergeOntoSelf(v: Value)
    ensures MergeValue(Some(v), v) == v
    decreases v
  {
    match v
    case Str(_) =>
    case Num(_) =>
    case Obj(u) =>
      forall k | k in u
        ensures MergeValue(Lookup(u, k), u[k]) == u[k]
      {
        MergeOntoSelf(u[k]);
      }
      assert MergeValue(Some(v), v).fields == u;
    case Arr(u) =>
      forall i | 0 <= i < |u| && u[i].Some?
        ensures MergeValue(ElementAt(u, i), u[i].value) == u[i].value
      {
        MergeOntoSelf(u[i].value);
      }
      assert MergeValue(Some(v), v).elems == u;
  }

  /** Merging the same update a second time changes nothing more. */
  lemma {:induction false} MergeAbsorbs(existing: Option<Value>, upd: Value)
    ensures MergeValue(Some(MergeValue(existing, upd)), upd) == MergeValue(existing, upd)
    decreases upd
  {
    var m := MergeValue(existing, upd);
    match (existing, upd)
    case (Some(Obj(o)), Obj(u)) =>
      forall k | k in u
        ensures MergeValue(Lookup(m.fields, k), u[k]) == m.fields[k]
      {
        MergeAbsorbs(Lookup(o, k), u[k]);
      }
      assert MergeValue(Some(m), upd).fields == m.fields;
    case (Some(Arr(o)), Arr(u)) =>
      forall i | 0 <= i < |u| && u[i].Some?
        ensures MergeValue(ElementAt(m.elems, i), u[i].value) == m.elems[i].value
      {
        MergeAbsorbs(ElementAt(o, i), u[i].value);
      }
      assert MergeValue(Some(m), upd).elems == m.elems;
    case _ =>
      MergeOntoSelf(upd);
  }

  /** Merging a well-shaped update onto a well-shaped value keeps the arg's
      declared shape. */
  lemma {:induction false} MergeConforms(existing: Option<Value>, upd: Value, t: TypeDesc)
    requires existing.Some? ==> Conforms(existing.value, t)
    requires Conforms(upd, t)
    ensures Conforms(MergeValue(existing, upd), t)
    decreases upd
  {
    var m := MergeValue(existing, upd);
    match (existing, upd)
    case (Some(Obj(o)), Obj(u)) =>
      var d := t.valueType;
      forall k | k in m.fields
        ensures Conforms(m.fields[k], d)
      {
        if k in u {
          MergeConforms(Lookup(o, k), u[k], d);
        }
      }
    case (Some(Arr(o)), Arr(u)) =>
      var d := t.elementType;
      forall i | 0 <= i < |m.elems| && m.elems[i].Some?
        ensures Conforms(m.elems[i].value, d)
      {
        if i < |u| && u[i].Some? {
          MergeConforms(ElementAt(o, i), u[i].value, d);
        }
      }
    case _ =>
  }
}
