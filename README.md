# ArgsStore — a verified Dafny model

This project models the args store of Storybook's client API
(`lib/client-api/src/new/ArgsStore.ts`). For every story id the store keeps
two tables: the story's **initial** args and its **current** args. It offers
five operations:

- `setInitial` seeds both tables. Only the first call for an id counts.
- `get` reads the current args. It fails for an id that was never seeded.
- `update` is a shallow per-key overwrite.
- `updateFromPersisted` admits untrusted persisted values. Each value is
  checked against the story's per-arg type descriptors and coerced to the
  declared shape. Objects and sparse arrays are merged onto the current
  value. Values off the `options` allow-list are dropped.
- `resetOnImplementationChange` resets a story to its new initial args and
  keeps every arg the user changed.

The implementation file `ArgsStore.ts` is not part of this model. Its
behaviour is taken from the expectations in
`lib/client-api/src/new/ArgsStore.test.ts`, and the table below cites the
test lines each member models. Where the tests leave a case open, the model
makes these choices:

- `update`, `updateFromPersisted` and `resetOnImplementationChange` fail on
  an id that was never seeded, with the same error as `get`, and change
  nothing.
- Persisted keys with no descriptor are dropped, like values that cannot be
  coerced and values off the allow-list.
- The reset counts an arg as changed when it has a current value that the
  previous initial args lack or hold differently. A key present only in the
  previous initial args, with no current value, counts as unchanged: it
  takes the new initial value or disappears.
- Change detection compares whole values structurally, so an object arg
  with one edited field counts as changed as a whole.

Files and modules:

- `arg_values.dfy` (`ArgValues`): the JSON-like `Value` datatype. Array
  elements are `Option<Value>`, so holes are explicit. It also holds the
  `Args` maps and the shallow update `Overlay`.
- `decimal.dfy` (`Decimal`): decimal rendering and parsing of integers. They
  are used when a number is coerced to a string and back.
- `coercion.dfy` (`Coercion`): type descriptors (`Scalar`, `ObjectOf`,
  `ArrayOf`, optional `options`), coercion to a descriptor, and admission of
  persisted values.
- `merging.dfy` (`Merging`): the structural merge of an admitted value onto
  the current one.
- `persisted.dfy` (`Persisted`): what `updateFromPersisted` does to one
  story's args.
- `reset.dfy` (`Reset`): the delta-preserving reset.
- `store.dfy` (`Store`): the `ArgsStore` class. It has the two map fields,
  the invariant `Valid()`, and one method per operation. Each method's
  `ensures` states the new tables in terms of the functions above.
- `scenarios.dfy` (`Scenarios`): every test in the test file performed on
  the class. Each scenario method returns what `get` reads and states the
  expected reading in its `ensures`. The vector lemmas listed below carry
  the proofs.

The class invariant `Valid()` has two parts. Both tables know the same ids.
Every initial arg of a story also has a current value. Because of the
second part, a reset whose previous and new initial args both equal the
stored initial args leaves the current args unchanged
(`Reset.SameInitialKeepsCurrent`).

## Model

| member | source | states |
|---|---|---|
| `Store.ArgsStore.constructor` | lib/client-api/src/new/ArgsStore.test.ts:8 | a new store knows no story: both tables are empty |
| `Store.ArgsStore.SetInitial` | lib/client-api/src/new/ArgsStore.test.ts:7-18 | the first call for an id seeds both tables with the given args; a later call for the same id changes neither table; the invariant is kept |
| `Store.ArgsStore.Get` | lib/client-api/src/new/ArgsStore.test.ts:20-23 | returns exactly the current args of a seeded id, and fails with `NoArgsKnown(id)` for an id never seeded |
| `Store.ArgsStore.Update` | lib/client-api/src/new/ArgsStore.test.ts:27-49 | the current args of the id become the shallow overlay of the update; no other id and no initial args change; an unseeded id fails like `get` and changes nothing |
| `Store.ArgsStore.UpdateFromPersisted` | lib/client-api/src/new/ArgsStore.test.ts:52-112 | the current args of the story become `ApplyPersisted` of the old ones; initial args are untouched; an unseeded id fails and changes nothing |
| `Store.ArgsStore.ResetOnImplementationChange` | lib/client-api/src/new/ArgsStore.test.ts:115-193 | the initial args of the id become the new story's, and the current args become `ResetArgs` of the previous initial, old current and new initial args; with unchanged initial args the current args stay as they were; an unseeded id fails and changes nothing |
| `ArgValues.Overlay` | lib/client-api/src/new/ArgsStore.test.ts:27-49 | keys are those of the old args and the update; each updated key holds the update's value as a whole (nested objects are replaced, not merged); every other key keeps its old value |
| `ArgValues.OverlayIdempotent` | lib/client-api/src/new/ArgsStore.test.ts:27-37 | applying the same update twice equals applying it once |
| `ArgValues.OverlayOfOwnValues` | lib/client-api/src/new/ArgsStore.test.ts:27-37 | an update that repeats values already held changes nothing |
| `Decimal.IntToString` | lib/client-api/src/new/ArgsStore.test.ts:65-66 | the decimal form is digits, preceded by '-' exactly for a negative number, with no leading zero (only 0 itself is written "0") |
| `Decimal.NatToString` | lib/client-api/src/new/ArgsStore.test.ts:65-66 | the digits of a natural number are a non-empty digit run without a leading zero |
| `Decimal.ParseInt` | lib/client-api/src/new/ArgsStore.test.ts:53-67 | a string parses as a number exactly when it is an optional '-' followed by at least one digit |
| `Decimal.NatToStringRoundTrip` | lib/client-api/src/new/ArgsStore.test.ts:65-66 | reading the digits of n back gives n |
| `Decimal.ParseDigits` | lib/client-api/src/new/ArgsStore.test.ts:65-66 | a run of digits parses as its value |
| `Decimal.ParseMinusDigits` | lib/client-api/src/new/ArgsStore.test.ts:65-66 | '-' followed by a run of digits parses as minus its value |
| `Decimal.ParseIntRoundTrip` | lib/client-api/src/new/ArgsStore.test.ts:65-66 | parsing the decimal form of any integer gives that integer back |
| `Decimal.IntToStringInjective` | lib/client-api/src/new/ArgsStore.test.ts:65-66 | distinct integers have distinct decimal forms |
| `Coercion.CoerceScalar` | lib/client-api/src/new/ArgsStore.test.ts:53-67 | the result has the scalar kind; for `string`, exactly strings and numbers coerce, a string is kept as it is and a number becomes its decimal form `IntToString(n)`; for `number`, exactly numbers and decimal strings coerce, a number is kept as it is and a decimal string becomes the number it parses to |
| `Coercion.Coerce` | lib/client-api/src/new/ArgsStore.test.ts:53-96 | a coerced value has the declared shape; a scalar descriptor coerces as `CoerceScalar` does, so a number for a `string` arg becomes its decimal string; an object (array) descriptor accepts exactly objects (arrays); coercing an object keeps exactly the keys whose values coerce, each in its coerced form, and drops the rest; coercing an array keeps its length and every hole, and each supplied element becomes its coerced form or a hole |
| `Coercion.CoerceConformingIsIdentity` | lib/client-api/src/new/ArgsStore.test.ts:62-63 | a value that already has the declared shape coerces to itself |
| `Coercion.CoerceIdempotent` | lib/client-api/src/new/ArgsStore.test.ts:53-67 | coercing a coerced value again changes nothing |
| `Coercion.NumberToStringIsLossless` | lib/client-api/src/new/ArgsStore.test.ts:65-66 | a persisted number for a `string` arg becomes its decimal string, and coercing that string to `number` gives the number back |
| `Coercion.Admit` | lib/client-api/src/new/ArgsStore.test.ts:98-112 | a value is admitted exactly when it coerces and its coerced form is on the allow-list (or there is none), and it is admitted in that coerced form |
| `Coercion.AdmittedArgs` | lib/client-api/src/new/ArgsStore.test.ts:52-112 | a persisted key survives exactly when it has a descriptor and its value is admitted; each survivor is its coerced value, has the declared shape and is allowed |
| `Merging.MergeValue` | lib/client-api/src/new/ArgsStore.test.ts:69-96 | with no current value, a scalar update, or an update whose kind differs from the current value, the update is taken outright; object onto object keeps every existing key not in the update unchanged and sets each key of the update to that key's value merged recursively over the existing one; array onto array has the longer length, keeps existing elements at holes and past the update's end, leaves a hole where the update has a hole past the existing end, and sets each supplied position to its element merged recursively over the existing element |
| `Merging.ObjectOfScalarsOverwrites` | lib/client-api/src/new/ArgsStore.test.ts:84-88 | for an object-of-scalars update, every key it supplies holds exactly the supplied value after the merge |
| `Merging.ArrayOfScalarsOverwrites` | lib/client-api/src/new/ArgsStore.test.ts:91-95 | for an array-of-scalars update, every position it supplies holds exactly the supplied element after the merge |
| `Merging.MergeOntoSelf` | lib/client-api/src/new/ArgsStore.test.ts:84-95 | merging a value onto itself gives the same value |
| `Merging.MergeAbsorbs` | lib/client-api/src/new/ArgsStore.test.ts:84-95 | merging the same update a second time changes nothing more |
| `Merging.MergeConforms` | lib/client-api/src/new/ArgsStore.test.ts:77-95 | merging a well-shaped update onto a well-shaped value keeps the declared shape |
| `Persisted.ApplyPersisted` | lib/client-api/src/new/ArgsStore.test.ts:52-112 | the result's keys are the current keys plus the admitted ones; admitted keys hold the merged value; every other key is unchanged |
| `Persisted.ApplyPersistedPerKey` | lib/client-api/src/new/ArgsStore.test.ts:84-111 | per key: an arg with a descriptor and an admitted value holds that value merged over the current one; every other arg keeps its current value or stays absent |
| `Persisted.ApplyPersistedOne` | lib/client-api/src/new/ArgsStore.test.ts:62-111 | persisting one arg is a point update: the arg takes its admitted value merged over its current one, and nothing changes when the value is not admitted |
| `Persisted.NothingAdmittedChangesNothing` | lib/client-api/src/new/ArgsStore.test.ts:107-108 | when no persisted value is admitted, the current args are unchanged |
| `Persisted.ApplyPersistedIdempotent` | lib/client-api/src/new/ArgsStore.test.ts:52-112 | applying the same persisted args a second time changes nothing |
| `Persisted.ApplyPersistedKeepsShapes` | lib/client-api/src/new/ArgsStore.test.ts:53-96 | args that had their declared shape before still have it afterwards |
| `Reset.Delta` | lib/client-api/src/new/ArgsStore.test.ts:135-153 | the delta holds exactly the changed args: those with a current value that the previous initial args lack or hold differently; each with its current value |
| `Reset.ResetArgs` | lib/client-api/src/new/ArgsStore.test.ts:115-193 | every changed arg keeps its current value; every unchanged arg is present exactly when the new initial args have it, with their value |
| `Reset.UntouchedResetsToNewInitial` | lib/client-api/src/new/ArgsStore.test.ts:157-173 | when the current args equal the previous initial args, the reset gives exactly the new initial args |
| `Reset.SameInitialKeepsCurrent` | lib/client-api/src/new/ArgsStore.test.ts:116-153 | when the initial args do not change and each has a current value, the reset keeps the current args as they are |
| `Reset.ResetCoversNewInitial` | lib/client-api/src/new/ArgsStore.test.ts:156-193 | every new initial arg has a value after the reset |
| `Reset.ResetCarriesDelta` | lib/client-api/src/new/ArgsStore.test.ts:175-193 | the result's delta against the new initial args is the old delta, less the edits the new initial args now agree with |
| `Reset.ResetIdempotent` | lib/client-api/src/new/ArgsStore.test.ts:115-193 | resetting a second time to the same initial args changes nothing |
| `Scenarios.SetInitialThenGet` | lib/client-api/src/new/ArgsStore.test.ts:7-11 | seeding `{foo: 'bar'}` and reading it back gives `{foo: 'bar'}` |
| `Scenarios.SetInitialIsNotRepeated` | lib/client-api/src/new/ArgsStore.test.ts:13-18 | a second `setInitial` with `{foo: 'baz'}` is ignored: the read still gives `{foo: 'bar'}` |
| `Scenarios.GetUnknownFails` | lib/client-api/src/new/ArgsStore.test.ts:20-23 | reading an id that was never seeded fails with `NoArgsKnown('id')` |
| `Scenarios.UpdateOverridesPerKey` | lib/client-api/src/new/ArgsStore.test.ts:27-37 | after updating `{foo: 'bar'}` the read gives `{foo: 'bar'}`; after then updating `{baz: 'bing'}` it gives `{foo: 'bar', baz: 'bing'}` |
| `Scenarios.UpdateDoesNotMergeObjects` | lib/client-api/src/new/ArgsStore.test.ts:39-49 | after updating `obj` to `{foo: 'bar'}` and then to `{baz: 'bing'}`, the reads give `{obj: {foo: 'bar'}}` and then `{obj: {baz: 'bing'}}` |
| `Scenarios.PersistedValuesAreCoerced` | lib/client-api/src/new/ArgsStore.test.ts:53-67 | for a `string` arg, persisting 'str' reads back as `{a: 'str'}` and then persisting 42 reads back as `{a: '42'}` |
| `Scenarios.PersistedObjectsAndSparseArraysMerge` | lib/client-api/src/new/ArgsStore.test.ts:69-96 | persisting `{a: {baz: 'bing'}}` reads back as `{a: {foo: 'bar', baz: 'bing'}, b: ['1', '2', '3']}`; then persisting `{b: [, , '4']}` reads back as `{a: {foo: 'bar', baz: 'bing'}, b: ['1', '2', '4']}` |
| `Scenarios.PersistedValuesMustBeOptions` | lib/client-api/src/new/ArgsStore.test.ts:98-112 | with options `['a', 'b']`, persisting 'random' reads back as `{}` and then persisting 'a' reads back as `{a: 'a'}` |
| `Scenarios.ResetUntouchedSameInitial` | lib/client-api/src/new/ArgsStore.test.ts:117-133 | an untouched story reset with the same initial args `{a: '1', b: '1'}` reads back as `{a: '1', b: '1'}` |
| `Scenarios.ResetEditedSameInitial` | lib/client-api/src/new/ArgsStore.test.ts:135-153 | after the edit `{a: 'update', c: 'update'}`, a reset with the same initial args reads back as `{a: 'update', b: '1', c: 'update'}` |
| `Scenarios.ResetUntouchedChangedInitial` | lib/client-api/src/new/ArgsStore.test.ts:157-173 | an untouched story reset to the new initial args `{a: '1', c: '1'}` reads back as `{a: '1', c: '1'}` |
| `Scenarios.ResetEditedChangedInitial` | lib/client-api/src/new/ArgsStore.test.ts:175-193 | after the edit `{a: 'update', c: 'update'}`, a reset to the new initial args `{a: '2', d: '2'}` reads back as `{a: 'update', c: 'update', d: '2'}` |
| `Scenarios.FortyTwo` | lib/client-api/src/new/ArgsStore.test.ts:65-66 | the decimal form of 42 is "42" |
| `Scenarios.PersistedStringIsKept` | lib/client-api/src/new/ArgsStore.test.ts:62-63 | persisting 'str' for a string arg gives `{a: 'str'}` |
| `Scenarios.PersistedNumberBecomesString` | lib/client-api/src/new/ArgsStore.test.ts:65-66 | persisting 42 for a string arg gives `{a: '42'}` |
| `Scenarios.ObjectOfStringKeepsStrings` | lib/client-api/src/new/ArgsStore.test.ts:84 | `{baz: 'bing'}` coerces to itself for an object-of-string arg |
| `Scenarios.ObjectMergeAddsKey` | lib/client-api/src/new/ArgsStore.test.ts:84-88 | merging `{baz: 'bing'}` onto `{foo: 'bar'}` gives `{foo: 'bar', baz: 'bing'}` |
| `Scenarios.PersistedObjectIsAdmitted` | lib/client-api/src/new/ArgsStore.test.ts:80-84 | the persisted `{baz: 'bing'}` is admitted as it is for the object-of-string arg `a` |
| `Scenarios.PersistedObjectIsMerged` | lib/client-api/src/new/ArgsStore.test.ts:84-88 | the object arg is deep-merged and the array arg is unchanged |
| `Scenarios.ArrayOfStringKeepsHoles` | lib/client-api/src/new/ArgsStore.test.ts:91 | `[, , '4']` coerces to itself, holes included, for an array-of-string arg |
| `Scenarios.SparseArrayMergeKeepsHoles` | lib/client-api/src/new/ArgsStore.test.ts:91-94 | merging `[, , '4']` onto `['1', '2', '3']` gives `['1', '2', '4']` |
| `Scenarios.PersistedSparseArrayIsMerged` | lib/client-api/src/new/ArgsStore.test.ts:90-95 | persisting `[, , '4']` onto `['1', '2', '3']` gives `['1', '2', '4']`; the object arg is unchanged |
| `Scenarios.PersistedValueOffOptionsIsDropped` | lib/client-api/src/new/ArgsStore.test.ts:107-108 | 'random' is not among the options `['a', 'b']`, so the args stay `{}` |
| `Scenarios.PersistedValueInOptionsIsApplied` | lib/client-api/src/new/ArgsStore.test.ts:110-111 | 'a' is among the options, so the args become `{a: 'a'}` |
| `Scenarios.EditsOverlayOnes` | lib/client-api/src/new/ArgsStore.test.ts:144 | the edit `{a: 'update', c: 'update'}` on `{a: '1', b: '1'}` gives `{a: 'update', b: '1', c: 'update'}` |
| `Scenarios.ResetEditedSameInitialVector` | lib/client-api/src/new/ArgsStore.test.ts:135-153 | with unchanged initial args the edits survive the reset |
| `Scenarios.ResetUntouchedChangedInitialVector` | lib/client-api/src/new/ArgsStore.test.ts:157-173 | untouched args reset to `{a: '1', c: '1'}`: b is dropped and c is adopted |
| `Scenarios.ResetEditedChangedInitialVector` | lib/client-api/src/new/ArgsStore.test.ts:175-193 | edited args reset to `{a: 'update', c: 'update', d: '2'}` |
| `Scenarios.ResetAfter` | lib/client-api/src/new/ArgsStore.test.ts:115-193 | seeding, the optional edit and the reset on the class read back as `ResetArgs` of those inputs |

## Left out

- The logger is not part of this model. Its warnings have no effect on the store.
- `scripts/prebundle.ts` is build tooling with no algorithmic content and is not part of this model.
- Reference identity, aliasing and defensive copies are not modelled. Values are immutable, and change detection uses structural equality.
- Only integers are numbers. Floating point, NaN, booleans, `null` and `undefined` are not part of the value datatype.
- Scalar descriptors other than `string` and `number` are not modelled.
- Coercion is modelled only between these shapes. JavaScript's general coercion of arbitrary runtime values is not modelled. A value that cannot be coerced is dropped, like an arg with no descriptor.
- `Decimal.IntToString`: every integer is rendered in plain decimal. JavaScript numbers are doubles: an integer of 1e21 or more prints in exponent form ("1e+21"), and an integer above 2^53 is not held exactly. Neither is modelled.
- `Coercion.CoerceScalar`: a `number` arg accepts only plain decimal strings (an optional '-' and digits). JavaScript's `Number()` also reads other forms and yields NaN for the rest. Those strings are dropped here.
- `Store.ArgsStore.Get`: the error is the value `NoArgsKnown(id)`, not the text of a thrown message.
- `Store.ArgsStore.ResetOnImplementationChange`: the two stories must share an id. This is a precondition, not a runtime check.
