/** What `updateFromPersisted` does to one story's current args: admit the
    persisted values against the descriptors, merge each one over the arg's
    current value, and apply the results as a shallow update. */
module Persisted {
  import opened ArgValues
  import opened Coercion
  import opened Merging

  /** The shallow update built from persisted args: one entry per admitted
      arg, holding the admitted value merged over the current one. */
  function PersistedUpdate(current: Args, argTypes: ArgTypes, persisted: Args): (r: Args)
    ensures r.Keys == AdmittedArgs(argTypes, persisted).Keys
    ensures forall k :: k in r ==>
      r[k] == MergeValue(Lookup(current, k), AdmittedArgs(argTypes, persisted)[k])
  {
    var admitted := AdmittedArgs(argTypes, persisted);
    map k | k in admitted :: MergeValue(Lookup(current, k), admitted[k])
  }

  /** The current args after `updateFromPersisted`: every admitted arg holds
      its admitted value merged over its current one, every other arg is as
      it was. */
  function ApplyPersisted(current: Args, argTypes: ArgTypes, persisted: Args): (r: Args)
    ensures r.Keys == current.Keys + AdmittedArgs(argTypes, persisted).Keys
    ensures forall k :: k in AdmittedArgs(argTypes, persisted) ==>
      r[k] == MergeValue(Lookup(current, k), AdmittedArgs(argTypes, persisted)[k])
    ensures forall k :: k in current && k !in AdmittedArgs(argTypes, persisted) ==> r[k] == current[k]
  {
    Overlay(current, PersistedUpdate(current, argTypes, persisted))
  }

  /** An arg that is not persisted, has no descriptor, cannot be coerced or is
      off its allow-list keeps its current value (or stays absent); every
      admitted arg holds its admitted value merged over its current one. */
  lemma ApplyPersistedPerKey(current: Args, argTypes: ArgTypes, persisted: Args, k: string)
    ensures var r := ApplyPersisted(current, argTypes, persisted);
      if k in persisted && k in argTypes && Admit(argTypes[k], persisted[k]).Some? then
        k in r && r[k] == MergeValue(Lookup(current, k), Admit(argTypes[k], persisted[k]).value)
      else
        (k in r <==> k in current) && (k in current ==> r[k] == current[k])
  {
  }

  /** Persisting a single arg is a point update: the arg takes its admitted
      value merged over its current one, or nothing changes when it is not
      admitted. */
  lemma ApplyPersistedOne(current: Args, argTypes: ArgTypes, k: string, raw: Value)
    ensures ApplyPersisted(current, argTypes, map[k := raw]) ==
      if k in argTypes && Admit(argTypes[k], raw).Some? then
        current[k := MergeValue(Lookup(current, k), Admit(argTypes[k], raw).value)]
      else current
  {
    AdmittedOne(argTypes, k, raw);
    if k in argTypes && Admit(argTypes[k], raw).Some? {
      var m := MergeValue(Lookup(current, k), Admit(argTypes[k], raw).value);
      var u := PersistedUpdate(current, argTypes, map[k := raw]);
      assert u.Keys == {k} && u[k] == m;
      assert u == map[k := m];
      OverlayOne(current, k, m);
    } else {
      assert PersistedUpdate(current, argTypes, map[k := raw]) == map[];
    }
  }

  lemma OverlayOne(current: Args, k: string, v: Value)
    ensures Overlay(current, map[k := v]) == current[k := v]
  {
    assert Overlay(current, map[k := v]).Keys == current[k := v].Keys;
  }

  /** A single persisted arg is admitted alone or not at all. */
  lemma AdmittedOne(argTypes: ArgTypes, k: string, raw: Value)
    ensures AdmittedArgs(argTypes, map[k := raw]) ==
      if k in argTypes && Admit(argTypes[k], raw).Some? then map[k := Admit(argTypes[k], raw).value]
      else map[]
  {
    var admitted := AdmittedArgs(argTypes, map[k := raw]);
    if k in argTypes && Admit(argTypes[k], raw).Some? {
      assert admitted.Keys == {k};
    } else {
      assert admitted.Keys == {};
    }
  }

  /** When nothing persisted is admitted, the current args stay as they are. */
  lemma NothingAdmittedChangesNothing(current: Args, argTypes: ArgTypes, persisted: Args)
    requires forall k :: k in persisted && k in argTypes ==> Admit(argTypes[k], persisted[k]).None?
    ensures ApplyPersisted(current, argTypes, persisted) == current
  {
    assert PersistedUpdate(current, argTypes, persisted) == map[];
  }

  /** Re-applying the same persisted args changes nothing more. */
  lemma ApplyPersistedIdempotent(current: Args, argTypes: ArgTypes, persisted: Args)
    ensures var once := ApplyPersisted(current, argTypes, persisted);
      ApplyPersisted(once, argTypes, persisted) == once
  {
    var once := ApplyPersisted(current, argTypes, persisted);
    var admitted := AdmittedArgs(argTypes, persisted);
    forall k | k in admitted
      ensures MergeValue(Lookup(once, k), admitted[k]) == once[k]
    {
      MergeAbsorbs(Lookup(current, k), admitted[k]);
    }
    OverlayOfOwnValues(once, PersistedUpdate(once, argTypes, persisted));
  }

  /** Args that had their declared shape before keep it afterwards. */
  lemma ApplyPersistedKeepsShapes(current: Args, argTypes: ArgTypes, persisted: Args)
    requires forall k :: k in current && k in argTypes ==> Conforms(current[k], argTypes[k].ty)
    ensures var r := ApplyPersisted(current, argTypes, persisted);
      forall k :: k in r && k in argTypes ==> Conforms(r[k], argTypes[k].ty)
  {
    var admitted := AdmittedArgs(argTypes, persisted);
    forall k | k in admitted
      ensures Conforms(MergeValue(Lookup(current, k), admitted[k]), argTypes[k].ty)
    {
      MergeConforms(Lookup(current, k), admitted[k], argTypes[k].ty);
    }
  }
}
