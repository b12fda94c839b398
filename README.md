# TS cheatsheet run-time routines, modelled in Dafny

The repository is two demonstration scripts, `local/src/cheatsheet.ts` and
`local/src/misc.ts`. Most of their text is type-level syntax. This project
models the few routines that do something at run time, and proves what
they compute:

- the "next id" reducer `getNextId` / `getNextID`, which appears in both
  files (module `NextId`, used by `Misc`);
- `MeanValue.getMeanValue`, the `methodDecorator` wrapper that appends the
  factory's arguments to the caller's, and `ModeValue` with its tally,
  its static call counter, its append-only `values` field and the
  singleton guard of `classDecoratorDynamic` (module `Cheatsheet`);
- the module-level `todoItems` list with `addTodoItem`, and the generic
  `query` filter (module `Misc`).

`Wrappers` holds `Option` (for `undefined`) and `Result` (for a thrown
`Error`). `JsValues` holds `JsValue`, a value whose `typeof` is "number"
(an exact `real`) or "string".

The reducer `(max, x) => x.id > max ? max : x.id` keeps the smaller value
despite its accumulator's name. Seeded with 0, it returns
min(0, smallest id) + 1, so for non-negative ids it always returns 1. The
accumulator's name suggests that "one more than the largest id" was
intended. The model follows the code: `NextId.GetNextId` is the reducer
as written. `NextId.NextIdIsLeastPlusOne` proves what it returns, and
`Misc.AddToSeedList` shows that the todo appended to the seed list gets
id 1. The seed's first todo already has id 1.

`getMeanValue` is declared under `@methodDecorator(14,17,19)`. A caller
of `getMeanValue(1,2,3,4,5,6,10)` therefore gets the mean of ten values,
81/10, not 31/7 (`Cheatsheet.DecoratedMeanOfDemo`).

Some parts of the code are stateful, and those are modelled imperatively:

- `ModeValue` is a class. Its static `count` and the decorator's static
  `_instance` are fields of `ModeValueClass`, the class object.
- `todoItems` is the field of `TodoList`.
- The loops of `getMeanValue` (its reduce) and of `getModeValue` (its
  `forEach` tally, then the choice of the entry with the highest count)
  are methods with loop invariants. Each is proved against a
  specification function: `Mean`, `Occurrences`/`DistinctKeys` and
  `IsMode`.

## Model

| member | source | states |
|---|---|---|
| `NextId.Step` | local/src/cheatsheet.ts:139 | the reducer callback returns a value no larger than the accumulator or the id, and equal to one of them (it keeps the minimum) |
| `NextId.Reduce` | local/src/cheatsheet.ts:139 | the left fold is at most the seed and at most every id, and it equals the seed or one of the ids |
| `NextId.GetNextId` | local/src/cheatsheet.ts:138-140 | the result is at most 1 and at most every id + 1, and it equals 1 or some id + 1 |
| `NextId.LeastIdIsMinimum` | local/src/cheatsheet.ts:139 | the reference minimum is at most 0 and at most every id, and it equals 0 or one of the ids |
| `NextId.NextIdIsLeastPlusOne` | local/src/cheatsheet.ts:138-140 | getNextId returns exactly min(0, smallest id) + 1 |
| `NextId.NextIdOfEmpty` | local/src/cheatsheet.ts:139 | an empty list gives 1 |
| `NextId.NextIdOfNonNegativeIds` | local/src/cheatsheet.ts:138-140 | when no id is negative the result is 1, whatever the largest id is |
| `NextId.NextIdOfTestUsers` | local/src/cheatsheet.ts:121-141 | the testUsers ids 5, 6, 7 give 1, not 8 |
| `Cheatsheet.ExtendArguments` | local/src/cheatsheet.ts:197 | the wrapped method receives the caller's arguments followed by the factory's; the list is as long as both together |
| `Cheatsheet.Numbers` | local/src/cheatsheet.ts:264-269 | the numeric entries are never more than the arguments |
| `Cheatsheet.NumbersMembership` | local/src/cheatsheet.ts:265 | a number is counted exactly when some argument is that number; strings are skipped |
| `Cheatsheet.NumbersAppend` | local/src/cheatsheet.ts:197 | the numeric entries of the extended list are the caller's followed by the factory's |
| `Cheatsheet.MeanUndefinedIff` | local/src/cheatsheet.ts:270-271 | the mean is undefined if and only if no entry is a number, so it never divides by zero |
| `Cheatsheet.MeanOfDemo` | local/src/cheatsheet.ts:275 | without the decorator, the mean of 1,2,3,4,5,6,10 is 31/7 |
| `Cheatsheet.MeanSkipsText` | local/src/cheatsheet.ts:265-269 | the mean of "a", 2, "b", 4 is 3: only the numbers are summed and counted |
| `Cheatsheet.DecoratedMeanAlwaysDefined` | local/src/cheatsheet.ts:196-204 | through @methodDecorator(14,17,19) the mean is always defined and equals (sum of the caller's numbers + 50) / (their count + 3) |
| `Cheatsheet.DecoratedMeanOfDemo` | local/src/cheatsheet.ts:259-275 | the decorated demo call averages ten values and returns 81/10 |
| `Cheatsheet.MeanValue.GetMeanValue` | local/src/cheatsheet.ts:260-272 | the reduce loop's sum and count are those of the numeric entries; the result is undefined when the count is 0 and sum/count otherwise |
| `Cheatsheet.MeanValue.DecoratedGetMeanValue` | local/src/cheatsheet.ts:196-204 | the decorated call returns the body's mean of caller + factory arguments unchanged; it is always defined; the reported count is the caller's argument count + 3 |
| `Cheatsheet.DecimalString` | local/src/cheatsheet.ts:301 | the key of a number is never empty and starts with '-' exactly when the number is negative |
| `Cheatsheet.DigitsInjective` | local/src/cheatsheet.ts:301 | two natural numbers with the same digit string are equal |
| `Cheatsheet.DecimalStringInjective` | local/src/cheatsheet.ts:301-302 | two integers with the same decimal string are equal, so distinct numbers never share a `countObject` key |
| `Cheatsheet.Occurrences` | local/src/cheatsheet.ts:299-303 | a key's count never exceeds the number of arguments |
| `Cheatsheet.OccurrencesPositive` | local/src/cheatsheet.ts:300-302 | a key is counted at least once exactly when some argument has it as its string form |
| `Cheatsheet.DistinctKeys` | local/src/cheatsheet.ts:299-303 | the tally's keys are exactly the keys with a positive count, each listed once |
| `Cheatsheet.TallyTotal` | local/src/cheatsheet.ts:299-303 | the counts of the tally's keys sum to the number of arguments |
| `Cheatsheet.Tally` | local/src/cheatsheet.ts:299-303 | the forEach loop leaves a map whose keys are the arguments' string forms, in insertion order, and whose counts are their numbers of occurrences |
| `Cheatsheet.MostFrequent` | local/src/cheatsheet.ts:305-306 | sorting by descending count and taking the first entry gives undefined for no entries; otherwise it gives the first entry whose count is maximal |
| `Cheatsheet.ModeDemoTally` | local/src/cheatsheet.ts:321 | the tally of 1,2,3,3,5,5,5,8 is "1":1, "2":1, "3":2, "5":3, "8":1 |
| `Cheatsheet.ModeOfDemo` | local/src/cheatsheet.ts:321 | for 1,2,3,3,5,5,5,8 a key is a mode if and only if it is "5" |
| `Cheatsheet.NumberAndStringShareKey` | local/src/cheatsheet.ts:301-302 | the number 5 and the string "5" are counted under one key |
| `Cheatsheet.ModeValueClass.constructor` | local/src/cheatsheet.ts:284 | the class starts with count 0 and no recorded instance |
| `Cheatsheet.ModeValueClass.New` | local/src/cheatsheet.ts:221-225 | the first construction stores the values and records the new instance; every later one throws "Duplicate Instance" and leaves the recorded instance alone; count is untouched |
| `Cheatsheet.ModeValue.constructor` | local/src/cheatsheet.ts:291-293 | the constructor stores the given values |
| `Cheatsheet.ModeValue.GetModeValue` | local/src/cheatsheet.ts:296-307 | count grows by exactly 1; the result is undefined if and only if there are no arguments; otherwise it is a key that occurs among the arguments and whose count no other key exceeds |
| `Cheatsheet.ModeValue.DecoratedGetModeValue` | local/src/cheatsheet.ts:195-204 | @methodDecorator() adds no arguments: same result and effect as the body, and the reported count is the caller's argument count |
| `Cheatsheet.ModeValue.GetValues` | local/src/cheatsheet.ts:310-312 | returns the current values |
| `Cheatsheet.ModeValue.SetValues` | local/src/cheatsheet.ts:315-317 | the new values are the old ones followed by the arguments; the old prefix is unchanged |
| `Misc.GetNextID` | local/src/misc.ts:37-39 | over todo ids, the result is at most 1 and at most every id + 1, and it equals 1 or some id + 1 |
| `Misc.NextIDOfEmpty` | local/src/misc.ts:38 | an empty list gives 1 |
| `Misc.NextIDDuplicatesOne` | local/src/misc.ts:37-39 | when some todo has id 1 and no id is negative, the next id is that same 1 |
| `Misc.TodoList.constructor` | local/src/misc.ts:17-21 | the list starts as the three seed todos |
| `Misc.TodoList.AddTodoItem` | local/src/misc.ts:23-35 | the list grows by one and the earlier todos are unchanged; the new last element is the returned todo, with getNextID of the old list as id, the argument as title, status "todo" and no completedOn |
| `Misc.AddToSeedList` | local/src/misc.ts:41 | the todo added to the seed list gets id 1, the id the first seed todo already has |
| `Misc.Matches` | local/src/misc.ts:56-71 | an item passes if and only if some own property has a predicate in the query that returns true on the property's value |
| `Misc.Query` | local/src/misc.ts:50-72 | every kept item is one of the items and passes; every item that passes is kept |
| `Misc.QueryPreservesOrder` | local/src/misc.ts:56 | the result is a subsequence of the items, in their original relative order |
| `Misc.QueryMultiplicity` | local/src/misc.ts:56 | an item that passes is kept as many times as it occurs; any other item is dropped |
| `Misc.QueryWithEmptyQuery` | local/src/misc.ts:58-70 | with an empty query object the result is empty |
| `Misc.QueryExample` | local/src/misc.ts:74-81 | with the name and age predicates, Ted is dropped and only Angie is kept |
| `Misc.QueryIsDisjunctive` | local/src/misc.ts:58-70 | one passing property is enough: an Angie aged 12 is kept (the predicates are or-ed, not and-ed) |

## Left out

- Console output (`console.log`, `JSON.stringify`) is left out. This includes the decorator's log lines: the count it logs is returned as `reported` instead.
- `Object.freeze` in `classDecorator` and the logging accessor installed by `propertyDecorator` are left out. Their only observable effect is logging, so `ModeValue.count` is a plain field.
- Type-only constructs (enums as types, interfaces, unions, `keyof`/`typeof`, `Record`/`Partial`/`Omit`/`Pick`/`Required`, the mapped query types) are left out. They have no run-time behaviour.
- The pass-through helpers `clone`, `clone_generics`, `clone_generics_ver2`, `getValue` and `save` are left out. They only apply a callback or return a constant.
- NextId.Reduce: ids are integers. A NaN id is not modelled: `x.id > max` is false for it, so the step keeps NaN and the next id replaces it (ids 3, NaN, 5 give 6, not 1).
- Cheatsheet.MeanValue.GetMeanValue: numbers are exact reals. IEEE rounding of the sum and the quotient is not modelled, and neither are NaN and the infinities, whose `typeof` is also "number".
- Cheatsheet.ModeValue.GetModeValue: it promises some key of highest count, not a particular one. `MostFrequent` picks the first maximal entry of the insertion-ordered tally. JavaScript lists integer-like keys first, in ascending order, so among tied keys it may choose another one.
- Cheatsheet.ModeArg: numeric arguments of `getModeValue` are integers, rendered in decimal. JavaScript's string form of fractions and of magnitudes of 1e21 or more (exponent notation) is not modelled.
- Cheatsheet.Tally: every key starts from an empty tally. In JavaScript, `countObject` inherits from `Object.prototype`, so a string argument such as "toString" or "__proto__" finds an inherited value and is not counted as a plain 1, 2, 3, …; this case is not modelled.
- The unreachable `!Array.isArray(args)` branches are left out. Rest parameters are always arrays.
- Aliasing of the `values` array is not modelled: the constructor keeps the caller's array and `getValues` hands out the live array, but the model passes sequences by value. The never-read `suburb` and `city` fields are left out.
- `Date` values in `completedOn` are opaque; nothing reads them.
- Misc.Matches: the query object's inherited keys are not modelled. In JavaScript `query[property]` also finds members of `Object.prototype`, so an item with an own property named `constructor` or `toString` is kept even by an empty query, and one named `valueOf`, `hasOwnProperty` or `__proto__` makes the call throw a TypeError. The model looks up only the query's own entries, so `Matches`, `Query` and `QueryWithEmptyQuery` hold for items without such property names.
- Misc.Query: each query predicate is a total function without side effects. A query entry that is present but `undefined` is not modelled. All property values of the items share one value type.

## Notes on the source

- The accumulator is named `max`, which suggests the next id was meant to be the largest id plus one. The code computes the minimum (with 0) plus one. The model follows the code, and the lemmas above state what the code returns.
- `Array.prototype.sort` is stable, so `getModeValue` picks the first maximal entry in `Object.entries` order. `MostFrequent` models that choice over the order it is given.
