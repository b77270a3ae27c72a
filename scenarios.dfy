/** The store's documented behaviour, restated call by call on the model:
    each method performs one documented scenario on a fresh store and
    returns what `get` then reads; its `ensures` is the expected reading. */
module Scenarios {
  import opened ArgValues
  import opened Decimal
  import opened Coercion
  import opened Merging
  import opened Persisted
  import opened Reset
  import opened Store

  method SetInitialThenGet() returns (got: Result<Args, StoreError>)
    ensures got == Success(map["foo" := Str("bar")])
  {
    var store := new ArgsStore();
    store.SetInitial("id", map["foo" := Str("bar")]);
    got := store.Get("id");
  }

  method SetInitialIsNotRepeated() returns (got: Result<Args, StoreError>)
    ensures got == Success(map["foo" := Str("bar")])
  {
    var store := new ArgsStore();
    store.SetInitial("id", map["foo" := Str("bar")]);
    store.SetInitial("id", map["foo" := Str("baz")]);
    got := store.Get("id");
  }

  method GetUnknownFails() returns (got: Result<Args, StoreError>)
    ensures got == Failure(NoArgsKnown("id"))
  {
    var store := new ArgsStore();
    got := store.Get("id");
  }

  method UpdateOverridesPerKey() returns (first: Result<Args, StoreError>, second: Result<Args, StoreError>)
    ensures first == Success(map["foo" := Str("bar")])
    ensures second == Success(map["foo" := Str("bar"), "baz" := Str("bing")])
  {
    var store := new ArgsStore();
    store.SetInitial("id", map[]);
    var _ := store.Update("id", map["foo" := Str("bar")]);
    first := store.Get("id");
    assert first.value.Keys == {"foo"} && first.value["foo"] == Str("bar");
    assert first.value == map["foo" := Str("bar")];
    var _ := store.Update("id", map["baz" := Str("bing")]);
    second := store.Get("id");
    assert second.value.Keys == {"foo", "baz"};
    assert second.value["foo"] == Str("bar") && second.value["baz"] == Str("bing");
    assert second.value == map["foo" := Str("bar"), "baz" := Str("bing")];
  }

  method UpdateDoesNotMergeObjects() returns (first: Result<Args, StoreError>, second: Result<Args, StoreError>)
    ensures first == Success(map["obj" := Obj(map["foo" := Str("bar")])])
    ensures second == Success(map["obj" := Obj(map["baz" := Str("bing")])])
  {
    var store := new ArgsStore();
    store.SetInitial("id", map[]);
    var _ := store.Update("id", map["obj" := Obj(map["foo" := Str("bar")])]);
    first := store.Get("id");
    assert first.value.Keys == {"obj"} && first.value["obj"] == Obj(map["foo" := Str("bar")]);
    assert first.value == map["obj" := Obj(map["foo" := Str("bar")])];
    var _ := store.Update("id", map["obj" := Obj(map["baz" := Str("bing")])]);
    second := store.Get("id");
    assert second.value.Keys == {"obj"} && second.value["obj"] == Obj(map["baz" := Str("bing")]);
    assert second.value == map["obj" := Obj(map["baz" := Str("bing")])];
  }

  // Persisted values: coercion, merge and allow-list.

  const StringArg := map["a" := ArgType(Scalar(StringKind), None)]

  const ObjectAndArrayArgs := map[
    "a" := ArgType(ObjectOf(Scalar(StringKind)), None),
    "b" := ArgType(ArrayOf(Scalar(StringKind)), None)]

  const OptionsArg := map["a" := ArgType(Scalar(StringKind), Some([Str("a"), Str("b")]))]

  const OneTwoThree := Arr([Some(Str("1")), Some(Str("2")), Some(Str("3"))])

  const OneTwoFour := Arr([Some(Str("1")), Some(Str("2")), Some(Str("4"))])

  const FooBarBazBing := Obj(map["foo" := Str("bar"), "baz" := Str("bing")])

  lemma FortyTwo()
    ensures IntToString(42) == "42"
  {
    assert NatToString(4) == "4";
    assert NatToString(42) == NatToString(4) + [DigitChar(2)];
  }

  lemma PersistedStringIsKept()
    ensures ApplyPersisted(map[], StringArg, map["a" := Str("str")]) == map["a" := Str("str")]
  {
    ApplyPersistedOne(map[], StringArg, "a", Str("str"));
  }

  lemma PersistedNumberBecomesString()
    ensures ApplyPersisted(map["a" := Str("str")], StringArg, map["a" := Num(42)]) == map["a" := Str("42")]
  {
    FortyTwo();
    ApplyPersistedOne(map["a" := Str("str")], StringArg, "a", Num(42));
  }

  lemma ObjectOfStringKeepsStrings()
    ensures Coerce(Obj(map["baz" := Str("bing")]), ObjectOf(Scalar(StringKind)))
      == Some(Obj(map["baz" := Str("bing")]))
  {
    assert Conforms(Obj(map["baz" := Str("bing")]), ObjectOf(Scalar(StringKind)));
    CoerceConformingIsIdentity(Obj(map["baz" := Str("bing")]), ObjectOf(Scalar(StringKind)));
  }

  lemma ObjectMergeAddsKey()
    ensures MergeValue(Some(Obj(map["foo" := Str("bar")])), Obj(map["baz" := Str("bing")])) == FooBarBazBing
  {
    var merged := MergeValue(Some(Obj(map["foo" := Str("bar")])), Obj(map["baz" := Str("bing")]));
    assert merged.fields.Keys == {"foo", "baz"};
    assert merged.fields["baz"] == MergeValue(None, Str("bing"));
  }

  lemma PersistedObjectIsAdmitted()
    ensures Admit(ObjectAndArrayArgs["a"], Obj(map["baz" := Str("bing")])) == Some(Obj(map["baz" := Str("bing")]))
  {
    ObjectOfStringKeepsStrings();
  }

  // The seeded args are passed as a parameter fixed by `requires` rather than
  // written inline: with a literal argument the verifier unfolds the merge
  // and admission functions far more deeply, which makes the proof slow.
  lemma MergedObjectIsStored(current: Args)
    requires current == map["a" := Obj(map["foo" := Str("bar")]), "b" := OneTwoThree]
    ensures current["a" := FooBarBazBing] == map["a" := FooBarBazBing, "b" := OneTwoThree]
  {
  }

  // Persisting `{a: {baz: 'bing'}}` deep-merges the object arg and leaves the
  // array arg alone; the seeded args are a parameter for the reason above.
  lemma PersistedObjectIsMerged(current: Args)
    requires current == map["a" := Obj(map["foo" := Str("bar")]), "b" := OneTwoThree]
    ensures ApplyPersisted(current, ObjectAndArrayArgs, map["a" := Obj(map["baz" := Str("bing")])])
      == map["a" := FooBarBazBing, "b" := OneTwoThree]
  {
    ApplyPersistedOne(current, ObjectAndArrayArgs, "a", Obj(map["baz" := Str("bing")]));
    PersistedObjectIsAdmitted();
    assert Lookup(current, "a") == Some(Obj(map["foo" := Str("bar")]));
    ObjectMergeAddsKey();
    MergedObjectIsStored(current);
  }

  lemma ArrayOfStringKeepsHoles()
    ensures Coerce(Arr([None, None, Some(Str("4"))]), ArrayOf(Scalar(StringKind)))
      == Some(Arr([None, None, Some(Str("4"))]))
  {
    assert Conforms(Arr([None, None, Some(Str("4"))]), ArrayOf(Scalar(StringKind)));
    CoerceConformingIsIdentity(Arr([None, None, Some(Str("4"))]), ArrayOf(Scalar(StringKind)));
  }

  lemma SparseArrayMergeKeepsHoles()
    ensures MergeValue(Some(OneTwoThree), Arr([None, None, Some(Str("4"))])) == OneTwoFour
  {
    var merged := MergeValue(Some(OneTwoThree), Arr([None, None, Some(Str("4"))]));
    assert merged.elems[2] == Some(MergeValue(Some(Str("3")), Str("4")));
    assert merged.elems == OneTwoFour.elems;
  }

  lemma PersistedSparseArrayIsMerged()
    ensures ApplyPersisted(
      map["a" := FooBarBazBing, "b" := OneTwoThree],
      ObjectAndArrayArgs,
      map["b" := Arr([None, None, Some(Str("4"))])])
      == map["a" := FooBarBazBing, "b" := OneTwoFour]
  {
    ArrayOfStringKeepsHoles();
    SparseArrayMergeKeepsHoles();
    ApplyPersistedOne(map["a" := FooBarBazBing, "b" := OneTwoThree],
      ObjectAndArrayArgs, "b", Arr([None, None, Some(Str("4"))]));
  }

  lemma PersistedValueOffOptionsIsDropped()
    ensures ApplyPersisted(map[], OptionsArg, map["a" := Str("random")]) == map[]
  {
    assert Str("random") !in [Str("a"), Str("b")];
    ApplyPersistedOne(map[], OptionsArg, "a", Str("random"));
  }

  lemma PersistedValueInOptionsIsApplied()
    ensures ApplyPersisted(map[], OptionsArg, map["a" := Str("a")]) == map["a" := Str("a")]
  {
    ApplyPersistedOne(map[], OptionsArg, "a", Str("a"));
  }

  method PersistedValuesAreCoerced() returns (first: Result<Args, StoreError>, second: Result<Args, StoreError>)
    ensures first == Success(map["a" := Str("str")])
    ensures second == Success(map["a" := Str("42")])
  {
    var store := new ArgsStore();
    store.SetInitial("id", map[]);
    var story := Story("id", StringArg, map[]);
    var _ := store.UpdateFromPersisted(story, map["a" := Str("str")]);
    first := store.Get("id");
    PersistedStringIsKept();
    var _ := store.UpdateFromPersisted(story, map["a" := Num(42)]);
    second := store.Get("id");
    PersistedNumberBecomesString();
  }

  method PersistedObjectsAndSparseArraysMerge()
    returns (first: Result<Args, StoreError>, second: Result<Args, StoreError>)
    ensures first == Success(map["a" := FooBarBazBing, "b" := OneTwoThree])
    ensures second == Success(map["a" := FooBarBazBing, "b" := OneTwoFour])
  {
    var store := new ArgsStore();
    store.SetInitial("id", map["a" := Obj(map["foo" := Str("bar")]), "b" := OneTwoThree]);
    var story := Story("id", ObjectAndArrayArgs, map[]);
    var _ := store.UpdateFromPersisted(story, map["a" := Obj(map["baz" := Str("bing")])]);
    first := store.Get("id");
    PersistedObjectIsMerged(map["a" := Obj(map["foo" := Str("bar")]), "b" := OneTwoThree]);
    var _ := store.UpdateFromPersisted(story, map["b" := Arr([None, None, Some(Str("4"))])]);
    second := store.Get("id");
    PersistedSparseArrayIsMerged();
  }

  method PersistedValuesMustBeOptions() returns (first: Result<Args, StoreError>, second: Result<Args, StoreError>)
    ensures first == Success(map[])
    ensures second == Success(map["a" := Str("a")])
  {
    var store := new ArgsStore();
    store.SetInitial("id", map[]);
    var story := Story("id", OptionsArg, map[]);
    var _ := store.UpdateFromPersisted(story, map["a" := Str("random")]);
    first := store.Get("id");
    PersistedValueOffOptionsIsDropped();
    var _ := store.UpdateFromPersisted(story, map["a" := Str("a")]);
    second := store.Get("id");
    PersistedValueInOptionsIsApplied();
  }

  // Reset on implementation change.

  const Ones := map["a" := Str("1"), "b" := Str("1")]

  const Edited := map["a" := Str("update"), "b" := Str("1"), "c" := Str("update")]

  lemma EditsOverlayOnes()
    ensures Overlay(Ones, map["a" := Str("update"), "c" := Str("update")]) == Edited
  {
    var r := Overlay(Ones, map["a" := Str("update"), "c" := Str("update")]);
    assert r.Keys == Edited.Keys;
  }

  lemma ResetEditedSameInitialVector()
    ensures ResetArgs(Ones, Edited, Ones) == Edited
  {
    SameInitialKeepsCurrent(Ones, Edited);
  }

  lemma ResetUntouchedChangedInitialVector()
    ensures ResetArgs(Ones, Ones, map["a" := Str("1"), "c" := Str("1")]) == map["a" := Str("1"), "c" := Str("1")]
  {
    UntouchedResetsToNewInitial(Ones, map["a" := Str("1"), "c" := Str("1")]);
  }

  lemma ResetEditedChangedInitialVector()
    ensures ResetArgs(Ones, Edited, map["a" := Str("2"), "d" := Str("2")])
      == map["a" := Str("update"), "c" := Str("update"), "d" := Str("2")]
  {
    var r := ResetArgs(Ones, Edited, map["a" := Str("2"), "d" := Str("2")]);
    assert Changed(Ones, Edited, "a") && Changed(Ones, Edited, "c");
    assert !Changed(Ones, Edited, "b") && !Changed(Ones, Edited, "d");
    assert r.Keys == {"a", "c", "d"};
  }

  /** Seeds `Ones`, optionally makes the documented edit, resets to
      `newInitial` and reads the result. */
  method ResetAfter(edit: bool, newInitial: Args) returns (got: Result<Args, StoreError>)
    ensures got == Success(ResetArgs(Ones, if edit then Edited else Ones, newInitial))
  {
    var store := new ArgsStore();
    var previousStory := Story("id", map[], Ones);
    store.SetInitial("id", previousStory.initialArgs);
    if edit {
      var _ := store.Update("id", map["a" := Str("update"), "c" := Str("update")]);
      EditsOverlayOnes();
    }
    var story := Story("id", map[], newInitial);
    var _ := store.ResetOnImplementationChange(story, previousStory);
    got := store.Get(story.id);
  }

  method ResetUntouchedSameInitial() returns (got: Result<Args, StoreError>)
    ensures got == Success(Ones)
  {
    got := ResetAfter(false, Ones);
    UntouchedResetsToNewInitial(Ones, Ones);
  }

  method ResetEditedSameInitial() returns (got: Result<Args, StoreError>)
    ensures got == Success(Edited)
  {
    got := ResetAfter(true, Ones);
    ResetEditedSameInitialVector();
  }

  method ResetUntouchedChangedInitial() returns (got: Result<Args, StoreError>)
    ensures got == Success(map["a" := Str("1"), "c" := Str("1")])
  {
    got := ResetAfter(false, map["a" := Str("1"), "c" := Str("1")]);
    ResetUntouchedChangedInitialVector();
  }

  method ResetEditedChangedInitial() returns (got: Result<Args, StoreError>)
    ensures got == Success(map["a" := Str("update"), "c" := Str("update"), "d" := Str("2")])
  {
    got := ResetAfter(true, map["a" := Str("2"), "d" := Str("2")]);
    ResetEditedChangedInitialVector();
  }
}
