/** The values a story's args can hold, the args tables keyed by arg name,
    and the shallow per-key update that `ArgsStore.update` applies. */
module ArgValues {

  datatype Option<+T> = None | Some(value: T)

  datatype Result<+R, +E> = Success(value: R) | Failure(error: E)

  /** A JSON-like arg value. Numbers are integers; an array position that was
      never supplied (a hole of a sparse array) is `None`. Two values are the
      same arg value exactly when they are structurally equal. */
  datatype Value =
    | Str(s: string)
    | Num(n: int)
    | Obj(fields: map<string, Value>)
    | Arr(elems: seq<Option<Value>>)

  type StoryId = string

  /** One story's args: arg name to value. */
  type Args = map<string, Value>

  /** The value of arg `k` in `m`, if there is one. */
  function Lookup(m: Args, k: string): (r: Option<Value>)
    ensures r.Some? <==> k in m
    ensures r.Some? ==> r.value == m[k]
  {
    if k in m then Some(m[k]) else None
  }

  /** Shallow update: every key of `upd` takes the value `upd` gives it, as a
      whole (a nested object or array is replaced, never merged); every other
      key keeps its value from `base`. */
  function Overlay(base: Args, upd: Args): (r: Args)
    ensures r.Keys == base.Keys + upd.Keys
    ensures forall k :: k in upd ==> r[k] == upd[k]
    ensures forall k :: k in base && k !in upd ==> r[k] == base[k]
  {
    base + upd
  }

  /** Applying the same shallow update twice is the same as applying it once. */
  lemma OverlayIdempotent(base: Args, upd: Args)
    ensures Overlay(Overlay(base, upd), upd) == Overlay(base, upd)
  {
  }

  /** Applying an update that only repeats values `base` already holds changes
      nothing. */
  lemma OverlayOfOwnValues(base: Args, upd: Args)
    requires forall k :: k in upd ==> k in base && base[k] == upd[k]
    ensures Overlay(base, upd) == base
  {
  }
}
