# KotlinSqueezed in Dafny

KotlinSqueezed is a collection of Kotlin tutorial snippets. Most of it prints what the standard library returns. This project models the small pieces of logic the repository writes itself, one Dafny module per Kotlin file, and proves what the code and its comments promise about them. The modelled pieces are:

- the hand-written `fold` and the lambda examples;
- `double`, `triple`, `asList`, `makeList` and `append`;
- the `swap` extensions, `lastIndex` and `Any?.toString`;
- the `Version` comparators and the length comparator;
- ranges and progressions;
- the enum classes;
- the guarded `counter` setter, `Stack.isEmpty`, the lazy `Table.table` getter and the `lateinit` flag in `Test`;
- `hasZeros` and `findParentOfType`;
- the property delegates;
- `parseFullName` and the `associate` call that uses it;
- the `Person5` and `Person6` constructors;
- the `break`, `continue` and return demos;
- `when` branch selection and `hasPrefix`.

Conventions used throughout:

- **Kotlin `Int`.** It is the subset type `Int32.Int32`. Arithmetic wraps around modulo 2^32 as on the JVM (`Int32.Wrap`). Contracts state the wrapped result's congruence with the exact one, and equality with it whenever the exact one fits.
- **Console output.**
  - In `ReturnsAndJumps`, what the code prints is returned as a trace of `Out` values.
  - Elsewhere, a printed message is returned as a string.
  - Printing that belongs only to a demo is not modelled.
- **Exceptions** are the `Err` case of `Wrappers.Result`, or a `thrown` flag when the operation changes state.
- **Objects whose fields change** are classes with `modifies` clauses. A mutable list that only ever changes in place is an `array`. One that grows is a `seq` field.
- **Reflection** (`KProperty.name`, `Class.isInstance`, `is T`) is modelled by the name string or by a test function passed in.

## Model

| member | source | states |
|---|---|---|
| Int32.Wrap | src/main/kotlin/ir/fallahpoor/kotlinsqueezed/_3functionsAndLambdas/_1functions/Functions.kt:12-14 | the 32-bit result is congruent to the exact one modulo 2^32 and equals it when it fits |
| Int32.WrapZero | src/main/kotlin/ir/fallahpoor/kotlinsqueezed/_4collections/_13ordering/Ordering.kt:17-22 | a difference of two Ints wraps to 0 exactly when it is 0, so `compareTo` is 0 only on equal fields |
| Int32.WrapUnique | src/main/kotlin/ir/fallahpoor/kotlinsqueezed/_3functionsAndLambdas/_1functions/Functions.kt:12-14 | an Int congruent to the exact result modulo 2^32 is the wrapped result, so the JVM value is determined by the exact one |
| Int32.CongruentFitsEqual | src/main/kotlin/ir/fallahpoor/kotlinsqueezed/_4collections/_13ordering/Ordering.kt:17-22 | two Ints congruent modulo 2^32 are equal, so a wrapped difference determines the exact one when both fit |
| Lambdas.Fold | src/main/kotlin/ir/fallahpoor/kotlinsqueezed/_3functionsAndLambdas/_2lambdas/Lambdas.kt:11-20 | the accumulator loop computes the left fold of the collection; an empty collection returns `initial` unchanged |
| Lambdas.FoldLeftSnoc | src/main/kotlin/ir/fallahpoor/kotlinsqueezed/_3functionsAndLambdas/_2lambdas/Lambdas.kt:16-18 | one more loop round combines the next element into the accumulator |
| Lambdas.FoldLeftAppend | src/main/kotlin/ir/fallahpoor/kotlinsqueezed/_3functionsAndLambdas/_2lambdas/Lambdas.kt:11-20 | folding a concatenation continues from the fold of its first part |
| Lambdas.Product | src/main/kotlin/ir/fallahpoor/kotlinsqueezed/_3functionsAndLambdas/_2lambdas/Lambdas.kt:132-133 | `items.fold(1) { acc, e -> acc * e }` over 1..5 is 120 |
| Lambdas.Repeat | src/main/kotlin/ir/fallahpoor/kotlinsqueezed/_3functionsAndLambdas/_2lambdas/Lambdas.kt:83 | `repeat(n)` has n times the length of the receiver and starts with it |
| Lambdas.RepeatFun | src/main/kotlin/ir/fallahpoor/kotlinsqueezed/_3functionsAndLambdas/_2lambdas/Lambdas.kt:83-84 | `repeatFun` succeeds exactly for a non-negative count, with length \|receiver\| times count |
| Lambdas.RunTransformation | src/main/kotlin/ir/fallahpoor/kotlinsqueezed/_3functionsAndLambdas/_2lambdas/Lambdas.kt:86-88 | definition only: `runTransformation(f)` is `f("hello", 3)`; `RunTransformationOfRepeatFun` states its value for `repeatFun` |
| Lambdas.RunTransformationOfRepeatFun | src/main/kotlin/ir/fallahpoor/kotlinsqueezed/_3functionsAndLambdas/_2lambdas/Lambdas.kt:86-90 | `runTransformation(repeatFun)` is `"hellohellohello"` |
| Lambdas.FunctionValueExamples | src/main/kotlin/ir/fallahpoor/kotlinsqueezed/_3functionsAndLambdas/_2lambdas/Lambdas.kt:75-110 | the values computed by `stringPlus`, `intPlus`/`sum`, `a` and `minus` |
| Lambdas.Filter | src/main/kotlin/ir/fallahpoor/kotlinsqueezed/_3functionsAndLambdas/_2lambdas/Lambdas.kt:146 | `filter` keeps exactly the elements that pass, never adding any |
| Lambdas.FilterAppend | src/main/kotlin/ir/fallahpoor/kotlinsqueezed/_3functionsAndLambdas/_2lambdas/Lambdas.kt:146 | filtering distributes over concatenation, so the kept elements stay in order |
| Lambdas.FilterKeepsAll | src/main/kotlin/ir/fallahpoor/kotlinsqueezed/_3functionsAndLambdas/_2lambdas/Lambdas.kt:146 | a filter every element passes keeps the whole list |
| Lambdas.FilterDropsAll | src/main/kotlin/ir/fallahpoor/kotlinsqueezed/_3functionsAndLambdas/_2lambdas/Lambdas.kt:146 | a filter no element passes keeps nothing |
| Lambdas.FilterIntsPositive | src/main/kotlin/ir/fallahpoor/kotlinsqueezed/_3functionsAndLambdas/_2lambdas/Lambdas.kt:145-146 | any test equivalent to `it > 0` keeps `[2, 3, 4, 5]` of `ints` |
| Lambdas.FiltersKeepPositives | src/main/kotlin/ir/fallahpoor/kotlinsqueezed/_3functionsAndLambdas/_2lambdas/Lambdas.kt:145-185 | the filters `d`, `e`, `f` and `i` agree, all giving `[2, 3, 4, 5]` |
| Lambdas.HTML.Body | src/main/kotlin/ir/fallahpoor/kotlinsqueezed/_3functionsAndLambdas/_2lambdas/Lambdas.kt:209-213 | `body()` is recorded as one more call on its receiver |
| Lambdas.Html | src/main/kotlin/ir/fallahpoor/kotlinsqueezed/_3functionsAndLambdas/_2lambdas/Lambdas.kt:215-219 | `html(init)` returns the new receiver on which exactly the calls of `init` were made |
| Lambdas.HtmlPage | src/main/kotlin/ir/fallahpoor/kotlinsqueezed/_3functionsAndLambdas/_2lambdas/Lambdas.kt:221-224 | the page builder calls `body()` once on the returned instance |
| Functions.Double | src/main/kotlin/ir/fallahpoor/kotlinsqueezed/_3functionsAndLambdas/_1functions/Functions.kt:12-14 | `double` is `2 * x` with Int wrap-around |
| Functions.DoubleOfTwo | src/main/kotlin/ir/fallahpoor/kotlinsqueezed/_3functionsAndLambdas/_1functions/Functions.kt:23 | `double(2) == 4` |
| Functions.DoubleOverflows | src/main/kotlin/ir/fallahpoor/kotlinsqueezed/_3functionsAndLambdas/_1functions/Functions.kt:12-14 | `double(Int.MAX_VALUE)` wraps to -2 |
| Functions.Triple | src/main/kotlin/ir/fallahpoor/kotlinsqueezed/_3functionsAndLambdas/_1functions/Functions.kt:156 | `triple` is `x * 3` with Int wrap-around |
| Functions.AsList | src/main/kotlin/ir/fallahpoor/kotlinsqueezed/_3functionsAndLambdas/_1functions/Functions.kt:171-176 | the list has the arguments' length and the same elements in the same order |
| Functions.MakeList | src/main/kotlin/ir/fallahpoor/kotlinsqueezed/_3functionsAndLambdas/_1functions/Functions.kt:252-258 | `makeList` returns exactly its arguments |
| Functions.MakeListIsAsList | src/main/kotlin/ir/fallahpoor/kotlinsqueezed/_3functionsAndLambdas/_1functions/Functions.kt:171-176 | `asList` and `makeList` build equal lists |
| Functions.SpreadExample | src/main/kotlin/ir/fallahpoor/kotlinsqueezed/_3functionsAndLambdas/_1functions/Functions.kt:185-191 | the spread `*array` puts the array's elements in its place: `[-1, 0, 1, 2, 3, 4]` |
| Functions.Append | src/main/kotlin/ir/fallahpoor/kotlinsqueezed/_3functionsAndLambdas/_1functions/Functions.kt:201-203 | `append` is the receiver followed by the argument |
| Functions.AppendExample | src/main/kotlin/ir/fallahpoor/kotlinsqueezed/_3functionsAndLambdas/_1functions/Functions.kt:205 | `"Hello" append " World"` is `"Hello World"` |
| Extensions.Swapped | src/main/kotlin/ir/fallahpoor/kotlinsqueezed/classesAndObjects/_5extensions/Extensions.kt:7-11 | after a swap the two cells hold each other's old values, and the size and every other cell are unchanged |
| Extensions.SwappedSelf | src/main/kotlin/ir/fallahpoor/kotlinsqueezed/classesAndObjects/_5extensions/Extensions.kt:7-11 | `swap(i, i)` is the identity |
| Extensions.SwappedTwice | src/main/kotlin/ir/fallahpoor/kotlinsqueezed/classesAndObjects/_5extensions/Extensions.kt:7-11 | swapping twice restores the list |
| Extensions.SwappedSymmetric | src/main/kotlin/ir/fallahpoor/kotlinsqueezed/classesAndObjects/_5extensions/Extensions.kt:7-11 | `swap(i, j)` and `swap(j, i)` have the same effect |
| Extensions.SwappedPermutes | src/main/kotlin/ir/fallahpoor/kotlinsqueezed/classesAndObjects/_5extensions/Extensions.kt:7-11 | a swap keeps the multiset of elements |
| Extensions.Swap | src/main/kotlin/ir/fallahpoor/kotlinsqueezed/classesAndObjects/_5extensions/Extensions.kt:7-11 | in range the list becomes the swapped list; an index out of range throws and nothing is written |
| Extensions.SwapItems | src/main/kotlin/ir/fallahpoor/kotlinsqueezed/classesAndObjects/_5extensions/Extensions.kt:13-17 | `swapItems` has exactly the effect of `swap`, for any element type |
| Extensions.LastIndex | src/main/kotlin/ir/fallahpoor/kotlinsqueezed/classesAndObjects/_5extensions/Extensions.kt:73-74 | `lastIndex` is the index of the last element, and -1 exactly for an empty list |
| Extensions.NullableToString | src/main/kotlin/ir/fallahpoor/kotlinsqueezed/classesAndObjects/_5extensions/Extensions.kt:63-68 | null gives `"null"`, anything else its own `toString()` |
| Ordering.CompareTo | src/main/kotlin/ir/fallahpoor/kotlinsqueezed/_4collections/_13ordering/Ordering.kt:15-25 | 0 exactly for equal versions; otherwise congruent modulo 2^32 to the difference of the majors, or of the minors when the majors agree, and equal to it whenever it fits |
| Ordering.CompareToIsLexicographic | src/main/kotlin/ir/fallahpoor/kotlinsqueezed/_4collections/_13ordering/Ordering.kt:15-25 | without overflow, negative means lexicographically smaller and positive means greater |
| Ordering.CompareToAntisymmetric | src/main/kotlin/ir/fallahpoor/kotlinsqueezed/_4collections/_13ordering/Ordering.kt:15-25 | without overflow, swapping the operands negates the sign |
| Ordering.NoOverflowIgnoresMinorsWhenMajorsDiffer | src/main/kotlin/ir/fallahpoor/kotlinsqueezed/_4collections/_13ordering/Ordering.kt:15-25 | when the majors differ only their subtraction is performed: `Version(1, MAX)` vs `Version(2, -1)` compares correctly although the minors' difference overflows |
| Ordering.Greater | src/main/kotlin/ir/fallahpoor/kotlinsqueezed/_4collections/_13ordering/Ordering.kt:28-29 | `a > b` via `compareTo`; without overflow of the performed subtraction it holds exactly when `b` is lexicographically smaller |
| Ordering.GreaterExamples | src/main/kotlin/ir/fallahpoor/kotlinsqueezed/_4collections/_13ordering/Ordering.kt:28-29 | `Version(1, 2) > Version(1, 3)` is false and `Version(2, 0) > Version(1, 5)` is true |
| Ordering.CompareToOverflowExample | src/main/kotlin/ir/fallahpoor/kotlinsqueezed/_4collections/_13ordering/Ordering.kt:18 | the subtraction can overflow: `Version(MAX, 0)` compares below `Version(-1, 0)` |
| Ordering.LengthComparator | src/main/kotlin/ir/fallahpoor/kotlinsqueezed/_4collections/_13ordering/Ordering.kt:36 | the comparator is the difference of the lengths, negative exactly for the shorter string |
| RangesAndProgressions.CompareTo | src/main/kotlin/ir/fallahpoor/kotlinsqueezed/_4collections/_4rangesAndProgressions/RangesAndProgressions.kt:41-49 | the `if` form of `compareTo` agrees with the `when` form in Ordering on every input, and is congruent to the difference it computes |
| RangesAndProgressions.Contains | src/main/kotlin/ir/fallahpoor/kotlinsqueezed/_4collections/_4rangesAndProgressions/RangesAndProgressions.kt:51-53 | definition only: `value in start..end` is `compareTo(start) >= 0 && compareTo(end) <= 0`; `ContainsIsLexicographic` states what it means |
| RangesAndProgressions.ContainsIsLexicographic | src/main/kotlin/ir/fallahpoor/kotlinsqueezed/_4collections/_4rangesAndProgressions/RangesAndProgressions.kt:51-53 | without overflow, `v in start..end` is the lexicographic interval test |
| RangesAndProgressions.VersionRangeExamples | src/main/kotlin/ir/fallahpoor/kotlinsqueezed/_4collections/_4rangesAndProgressions/RangesAndProgressions.kt:51-53 | `Version(0, 9)` is outside `Version(1, 11)..Version(1, 30)` and `Version(1, 20)` inside |
| RangesAndProgressions.Progression | src/main/kotlin/ir/fallahpoor/kotlinsqueezed/_4collections/_4rangesAndProgressions/RangesAndProgressions.kt:64-92 | element k is `first + k * step`; all lie between first and the bound; empty exactly when first is past the bound; `ProgressionLastIndex` and `ProgressionLastIndexDown` give its length for either sign of step |
| RangesAndProgressions.RangeTo | src/main/kotlin/ir/fallahpoor/kotlinsqueezed/_4collections/_4rangesAndProgressions/RangesAndProgressions.kt:26-28 | `a..b` lists `a, a + 1, …` in order, every element within `a..b`, and is empty exactly when `a > b` |
| RangesAndProgressions.Until | src/main/kotlin/ir/fallahpoor/kotlinsqueezed/_4collections/_4rangesAndProgressions/RangesAndProgressions.kt:33 | `a until b` lists `a, a + 1, …` below `b`, never contains `b`, and is empty exactly when `a >= b` |
| RangesAndProgressions.DownTo | src/main/kotlin/ir/fallahpoor/kotlinsqueezed/_4collections/_4rangesAndProgressions/RangesAndProgressions.kt:90 | `a downTo b` lists `a, a - 1, …`, every element within `b..a`, and is empty exactly when `a < b`; otherwise it has `a - b + 1` elements and ends at `b` |
| RangesAndProgressions.DownToMembership | src/main/kotlin/ir/fallahpoor/kotlinsqueezed/_4collections/_4rangesAndProgressions/RangesAndProgressions.kt:90 | `x in a downTo b` exactly when `b <= x && x <= a` |
| RangesAndProgressions.ProgressionLastElement | src/main/kotlin/ir/fallahpoor/kotlinsqueezed/_4collections/_4rangesAndProgressions/RangesAndProgressions.kt:81-84 | Kotlin's `last` is `end` for an empty or one-point range; otherwise it lies within one step below `end` and a whole number of steps from `start` |
| RangesAndProgressions.RangeToMembership | src/main/kotlin/ir/fallahpoor/kotlinsqueezed/_4collections/_4rangesAndProgressions/RangesAndProgressions.kt:17 | `x in lo..hi` exactly when `lo <= x && x <= hi` |
| RangesAndProgressions.RangeToLength | src/main/kotlin/ir/fallahpoor/kotlinsqueezed/_4collections/_4rangesAndProgressions/RangesAndProgressions.kt:26-28 | `lo..hi` has `hi - lo + 1` elements |
| RangesAndProgressions.ProgressionLastIsLastVisited | src/main/kotlin/ir/fallahpoor/kotlinsqueezed/_4collections/_4rangesAndProgressions/RangesAndProgressions.kt:81-84 | the last element Kotlin computes for `start..end step s` is the last element the loop visits |
| RangesAndProgressions.ProgressionLastIndex | src/main/kotlin/ir/fallahpoor/kotlinsqueezed/_4collections/_4rangesAndProgressions/RangesAndProgressions.kt:77-84 | `start..end step s` has `(end - start) / s + 1` elements |
| RangesAndProgressions.ProgressionLastIndexDown | src/main/kotlin/ir/fallahpoor/kotlinsqueezed/_4collections/_4rangesAndProgressions/RangesAndProgressions.kt:87-92 | a progression with a negative step from `start` down to `end` has `(start - end) / -step + 1` elements |
| RangesAndProgressions.ProgressionDownLastVisited | src/main/kotlin/ir/fallahpoor/kotlinsqueezed/_4collections/_4rangesAndProgressions/RangesAndProgressions.kt:87-92 | with a negative step the last value visited is `start` lowered by whole steps, at or above `end` and within one step of it |
| RangesAndProgressions.ProgressionExamples | src/main/kotlin/ir/fallahpoor/kotlinsqueezed/_4collections/_4rangesAndProgressions/RangesAndProgressions.kt:17-92 | `3 in 1..4`, `1 until 10` excludes 10, `1..8 step 2`, `1..9 step 3` ends at 7, `4 downTo 1` |
| EnumClasses.Ordinal | src/main/kotlin/ir/fallahpoor/kotlinsqueezed/_2classesAndObjects/_10enumClasses/EnumClasses.kt:5-7 | each direction has one of the four declaration positions |
| EnumClasses.Name | src/main/kotlin/ir/fallahpoor/kotlinsqueezed/_2classesAndObjects/_10enumClasses/EnumClasses.kt:5-7 | `name` is the declared identifier, in declaration order `NORTH`, `SOUTH`, `WEST`, `EAST` |
| EnumClasses.Values | src/main/kotlin/ir/fallahpoor/kotlinsqueezed/_2classesAndObjects/_10enumClasses/EnumClasses.kt:49 | `values()` lists four constants, each at its own ordinal, every constant included |
| EnumClasses.ValueOf | src/main/kotlin/ir/fallahpoor/kotlinsqueezed/_2classesAndObjects/_10enumClasses/EnumClasses.kt:48 | `valueOf` returns the constant with that name, and throws only when no constant has it, with the JVM message `No enum constant ir.fallahpoor.kotlinsqueezed._2classesAndObjects._10enumClasses.Direction.<name>` |
| EnumClasses.ValueOfName | src/main/kotlin/ir/fallahpoor/kotlinsqueezed/_2classesAndObjects/_10enumClasses/EnumClasses.kt:5-7 | `valueOf(d.name) == d` for every direction |
| EnumClasses.DirectionExamples | src/main/kotlin/ir/fallahpoor/kotlinsqueezed/_2classesAndObjects/_10enumClasses/EnumClasses.kt:48-49 | `valueOf("NORTH") == NORTH`; `values()` is `[NORTH, SOUTH, WEST, EAST]` |
| EnumClasses.Rgb | src/main/kotlin/ir/fallahpoor/kotlinsqueezed/_2classesAndObjects/_10enumClasses/EnumClasses.kt:9-13 | each colour's `rgb` is a 24-bit value |
| EnumClasses.RgbDistinct | src/main/kotlin/ir/fallahpoor/kotlinsqueezed/_2classesAndObjects/_10enumClasses/EnumClasses.kt:9-13 | different colours have different `rgb` values |
| EnumClasses.Signal | src/main/kotlin/ir/fallahpoor/kotlinsqueezed/_2classesAndObjects/_10enumClasses/EnumClasses.kt:19-29 | `signal()` always moves to the other state |
| EnumClasses.SignalInvolution | src/main/kotlin/ir/fallahpoor/kotlinsqueezed/_2classesAndObjects/_10enumClasses/EnumClasses.kt:19-29 | signalling twice returns to the start |
| EnumClasses.Apply | src/main/kotlin/ir/fallahpoor/kotlinsqueezed/_2classesAndObjects/_10enumClasses/EnumClasses.kt:35-42 | `PLUS` adds and `TIMES` multiplies, as Ints |
| PropertiesAndFields.Counter.constructor | src/main/kotlin/ir/fallahpoor/kotlinsqueezed/classesAndObjects/_2propertiesAndFields/PropertiesAndFields.kt:57 | `counter` starts at 0 and so satisfies `counter >= 0` |
| PropertiesAndFields.Counter.Set | src/main/kotlin/ir/fallahpoor/kotlinsqueezed/classesAndObjects/_2propertiesAndFields/PropertiesAndFields.kt:57-60 | a non-negative value is stored, a negative one ignored, and `counter >= 0` is kept |
| PropertiesAndFields.Stack.constructor | src/main/kotlin/ir/fallahpoor/kotlinsqueezed/classesAndObjects/_2propertiesAndFields/PropertiesAndFields.kt:28-32 | a new stack has size 0 and is empty |
| PropertiesAndFields.Stack.IsEmpty | src/main/kotlin/ir/fallahpoor/kotlinsqueezed/classesAndObjects/_2propertiesAndFields/PropertiesAndFields.kt:30-31 | definition only: `isEmpty` is `size == 0`; the constructor's contract states a new stack is empty |
| PropertiesAndFields.Table.GetTable | src/main/kotlin/ir/fallahpoor/kotlinsqueezed/classesAndObjects/_2propertiesAndFields/PropertiesAndFields.kt:71-80 | the first read creates and stores an empty map, later reads return that same map, and `_table` is set after any read |
| PropertiesAndFields.Test.constructor | src/main/kotlin/ir/fallahpoor/kotlinsqueezed/classesAndObjects/_2propertiesAndFields/PropertiesAndFields.kt:91-93 | the `lateinit` table starts uninitialized |
| PropertiesAndFields.Test.IsInitialized | src/main/kotlin/ir/fallahpoor/kotlinsqueezed/classesAndObjects/_2propertiesAndFields/PropertiesAndFields.kt:100 | definition only: `this::table.isInitialized` is whether the `lateinit` table has been assigned; the constructor, `PrepareTable` and `UseTable` state how it changes |
| PropertiesAndFields.Test.PrepareTable | src/main/kotlin/ir/fallahpoor/kotlinsqueezed/classesAndObjects/_2propertiesAndFields/PropertiesAndFields.kt:95-97 | after `prepareTable()` the table is initialized with a fresh `Table` |
| PropertiesAndFields.Test.UseTable | src/main/kotlin/ir/fallahpoor/kotlinsqueezed/classesAndObjects/_2propertiesAndFields/PropertiesAndFields.kt:99-103 | the table is used exactly when it is initialized |
| PropertiesAndFields.AssignCounter | src/main/kotlin/ir/fallahpoor/kotlinsqueezed/classesAndObjects/_2propertiesAndFields/PropertiesAndFields.kt:57-60 | assigning 5 and then -1 leaves 5 |
| PropertiesAndFields.ReadTableTwice | src/main/kotlin/ir/fallahpoor/kotlinsqueezed/classesAndObjects/_2propertiesAndFields/PropertiesAndFields.kt:73-79 | two reads of `table` return one and the same empty map |
| PropertiesAndFields.PrepareThenUse | src/main/kotlin/ir/fallahpoor/kotlinsqueezed/classesAndObjects/_2propertiesAndFields/PropertiesAndFields.kt:91-103 | `useTable` sees no table before `prepareTable()` and one after |
| InlineFunctions.HasZeros | src/main/kotlin/ir/fallahpoor/kotlinsqueezed/_3functionsAndLambdas/_3inlineFunctions/InlineFunctions.kt:76-81 | `hasZeros` is true exactly when the list contains 0 |
| InlineFunctions.TreeNode.constructor | src/main/kotlin/ir/fallahpoor/kotlinsqueezed/_3functionsAndLambdas/_3inlineFunctions/InlineFunctions.kt:103-105 | a new node's parent is null |
| InlineFunctions.FirstMatch | src/main/kotlin/ir/fallahpoor/kotlinsqueezed/_3functionsAndLambdas/_3inlineFunctions/InlineFunctions.kt:107-114 | null exactly when no node passes; otherwise the earliest node that passes |
| InlineFunctions.FindParentOfType | src/main/kotlin/ir/fallahpoor/kotlinsqueezed/_3functionsAndLambdas/_3inlineFunctions/InlineFunctions.kt:107-114 | the walk returns the nearest ancestor passing the instance test, or null when none does |
| InlineFunctions.FindParentOfTypeReified | src/main/kotlin/ir/fallahpoor/kotlinsqueezed/_3functionsAndLambdas/_3inlineFunctions/InlineFunctions.kt:130-136 | the reified variant returns the same ancestor as the `Class` variant |
| InlineFunctions.FindParentOfFreshNode | src/main/kotlin/ir/fallahpoor/kotlinsqueezed/_3functionsAndLambdas/_3inlineFunctions/InlineFunctions.kt:120-125 | on a new node both `findParentOfType(TreeNode::class.java)` and the reified `findParentOfType<TreeNode>()` are null |
| DelegatedProperties.Delegate.GetValue | src/main/kotlin/ir/fallahpoor/kotlinsqueezed/_2classesAndObjects/_15delegatedProperties/DelegatedProperties.kt:26-28 | the message starts with `thisRef` and carries the property name between the fixed texts |
| DelegatedProperties.Delegate.SetValue | src/main/kotlin/ir/fallahpoor/kotlinsqueezed/_2classesAndObjects/_15delegatedProperties/DelegatedProperties.kt:30-32 | the printed message holds the value, the property name and `thisRef`, and nothing is stored |
| DelegatedProperties.GetValueNamesProperty | src/main/kotlin/ir/fallahpoor/kotlinsqueezed/_2classesAndObjects/_15delegatedProperties/DelegatedProperties.kt:26-28 | different property names give different messages |
| DelegatedProperties.SetBetweenGets | src/main/kotlin/ir/fallahpoor/kotlinsqueezed/_2classesAndObjects/_15delegatedProperties/DelegatedProperties.kt:25-33 | a get after a set returns the same string as before it |
| DelegatedProperties.ResourceDelegate.constructor | src/main/kotlin/ir/fallahpoor/kotlinsqueezed/_2classesAndObjects/_15delegatedProperties/DelegatedProperties.kt:144 | the delegate stores the resource it is given |
| DelegatedProperties.ResourceDelegate.WithDefault | src/main/kotlin/ir/fallahpoor/kotlinsqueezed/_2classesAndObjects/_15delegatedProperties/DelegatedProperties.kt:144 | without an argument the delegate stores a new `Resource()` |
| DelegatedProperties.ResourceDelegate.GetValue | src/main/kotlin/ir/fallahpoor/kotlinsqueezed/_2classesAndObjects/_15delegatedProperties/DelegatedProperties.kt:145-147 | definition only: `getValue` returns the stored resource; `SetValue`'s contract states what a later get returns |
| DelegatedProperties.ResourceDelegate.SetValue | src/main/kotlin/ir/fallahpoor/kotlinsqueezed/_2classesAndObjects/_15delegatedProperties/DelegatedProperties.kt:149-153 | a `Resource` replaces the stored one, which get then returns; null and other values leave it unchanged |
| DelegatedProperties.ResourceDelegate1.constructor | src/main/kotlin/ir/fallahpoor/kotlinsqueezed/_2classesAndObjects/_15delegatedProperties/DelegatedProperties.kt:160 | the delegate stores the resource it is given |
| DelegatedProperties.ResourceDelegate1.WithDefault | src/main/kotlin/ir/fallahpoor/kotlinsqueezed/_2classesAndObjects/_15delegatedProperties/DelegatedProperties.kt:160 | without an argument the delegate stores a new `Resource()` |
| DelegatedProperties.ResourceDelegate1.GetValue | src/main/kotlin/ir/fallahpoor/kotlinsqueezed/_2classesAndObjects/_15delegatedProperties/DelegatedProperties.kt:161-163 | definition only: `getValue` returns the stored resource; `SetValue`'s contract states what a later get returns |
| DelegatedProperties.ResourceDelegate1.SetValue | src/main/kotlin/ir/fallahpoor/kotlinsqueezed/_2classesAndObjects/_15delegatedProperties/DelegatedProperties.kt:165-167 | get returns the last value set |
| DelegatedProperties.Owner.constructor | src/main/kotlin/ir/fallahpoor/kotlinsqueezed/_2classesAndObjects/_15delegatedProperties/DelegatedProperties.kt:140-144 | `valResource` is served by a new delegate holding a new `Resource()` |
| DelegatedProperties.Owner.ValResource | src/main/kotlin/ir/fallahpoor/kotlinsqueezed/_2classesAndObjects/_15delegatedProperties/DelegatedProperties.kt:140-142 | reading `valResource` returns the resource its delegate stores |
| Transformations.Split | src/main/kotlin/ir/fallahpoor/kotlinsqueezed/_4collections/_7transformations/Transformations.kt:103 | `split(" ")` gives one more piece than there are spaces, no piece holds a space, and joining the pieces gives the input back |
| Transformations.SplitJoin | src/main/kotlin/ir/fallahpoor/kotlinsqueezed/_4collections/_7transformations/Transformations.kt:103 | splitting space-free pieces joined by spaces gives the pieces back |
| Transformations.ParseFullName | src/main/kotlin/ir/fallahpoor/kotlinsqueezed/_4collections/_7transformations/Transformations.kt:102-109 | succeeds exactly when the input has one space, then returns the space-free parts before and after it; otherwise throws `"Wrong name format"` |
| Transformations.ParseFullNameRoundTrip | src/main/kotlin/ir/fallahpoor/kotlinsqueezed/_4collections/_7transformations/Transformations.kt:102-109 | `parseFullName(f + " " + l) == FullName(f, l)` for space-free f and l |
| Transformations.ParseFullNameEdgeCases | src/main/kotlin/ir/fallahpoor/kotlinsqueezed/_4collections/_7transformations/Transformations.kt:103-107 | `"Alice "` gives an empty last name; `"a  b"`, `""` and `"Alice"` throw |
| Transformations.AssociateLastToFirst | src/main/kotlin/ir/fallahpoor/kotlinsqueezed/_4collections/_7transformations/Transformations.kt:112 | `associate` succeeds exactly when every name parses |
| Transformations.AssociateEntries | src/main/kotlin/ir/fallahpoor/kotlinsqueezed/_4collections/_7transformations/Transformations.kt:112 | every last name is a key, and every entry pairs a last name with the first name of some listed name |
| Transformations.AssociateSnoc | src/main/kotlin/ir/fallahpoor/kotlinsqueezed/_4collections/_7transformations/Transformations.kt:112 | a later name's entry overrides an earlier one with the same key |
| Transformations.AssociateExample | src/main/kotlin/ir/fallahpoor/kotlinsqueezed/_4collections/_7transformations/Transformations.kt:111-112 | the three names give {Adams→Alice, Brown→Brian, Campbell→Clara}; the names are built as first name, space, last name rather than written as literals |
| Classes.Person5.constructor | src/main/kotlin/ir/fallahpoor/kotlinsqueezed/classesAndObjects/_1classesAndInheritance/Classes.kt:39-45 | the new person has no children and is appended to the parent's children, earlier ones kept in order |
| Classes.Person6.constructor | src/main/kotlin/ir/fallahpoor/kotlinsqueezed/classesAndObjects/_1classesAndInheritance/Classes.kt:51-52 | the primary constructor sets the name and registers with nobody |
| Classes.Person6.WithParent | src/main/kotlin/ir/fallahpoor/kotlinsqueezed/classesAndObjects/_1classesAndInheritance/Classes.kt:54-56 | the secondary constructor sets the name and appends the new person to the parent's children |
| Classes.FamilyOfThree | src/main/kotlin/ir/fallahpoor/kotlinsqueezed/classesAndObjects/_1classesAndInheritance/Classes.kt:51-57 | two children built under one parent are listed in construction order |
| ReturnsAndJumps.Counting | src/main/kotlin/ir/fallahpoor/kotlinsqueezed/_1basics/_4returnsAndJumps/ReturnsAndJumps.kt:11-25 | the writes for lo..hi are one per number, in increasing order |
| ReturnsAndJumps.BreakLoop | src/main/kotlin/ir/fallahpoor/kotlinsqueezed/_1basics/_4returnsAndJumps/ReturnsAndJumps.kt:11-14 | the first loop prints 1 to 5, then `break` stops it |
| ReturnsAndJumps.ContinueLoop | src/main/kotlin/ir/fallahpoor/kotlinsqueezed/_1basics/_4returnsAndJumps/ReturnsAndJumps.kt:18-25 | the second loop prints 1 to 10 in order, with a blank in place of 5 |
| ReturnsAndJumps.LabelledBreak | src/main/kotlin/ir/fallahpoor/kotlinsqueezed/_1basics/_4returnsAndJumps/ReturnsAndJumps.kt:31-35 | `break@loop` fires exactly when the target is reachable, and then both loops end in the first outer round at the target |
| ReturnsAndJumps.LabelledBreakInMain | src/main/kotlin/ir/fallahpoor/kotlinsqueezed/_1basics/_4returnsAndJumps/ReturnsAndJumps.kt:31-35 | the loops in `main` stop at i == 1, j == 50 |
| ReturnsAndJumps.Before | src/main/kotlin/ir/fallahpoor/kotlinsqueezed/_1basics/_4returnsAndJumps/ReturnsAndJumps.kt:50-53 | the values before the first `stop`: a prefix without `stop`, followed by `stop` when it is shorter |
| ReturnsAndJumps.Except | src/main/kotlin/ir/fallahpoor/kotlinsqueezed/_1basics/_4returnsAndJumps/ReturnsAndJumps.kt:62-65 | the values other than `skip`: exactly those, in order |
| ReturnsAndJumps.ExceptSnoc | src/main/kotlin/ir/fallahpoor/kotlinsqueezed/_1basics/_4returnsAndJumps/ReturnsAndJumps.kt:62-65 | one more value in the `forEach` is either skipped (it is `skip`) or printed after the earlier ones |
| ReturnsAndJumps.ForEachNonLocalReturn | src/main/kotlin/ir/fallahpoor/kotlinsqueezed/_1basics/_4returnsAndJumps/ReturnsAndJumps.kt:50-53 | prints the values before `stop`, and returns from the enclosing function exactly when `stop` occurs |
| ReturnsAndJumps.ForEachLocalReturn | src/main/kotlin/ir/fallahpoor/kotlinsqueezed/_1basics/_4returnsAndJumps/ReturnsAndJumps.kt:62-65 | a local return skips only the current value, like `continue` |
| ReturnsAndJumps.Foo1 | src/main/kotlin/ir/fallahpoor/kotlinsqueezed/_1basics/_4returnsAndJumps/ReturnsAndJumps.kt:48-55 | `foo1` prints 1, 2 and never reaches `"this point is unreachable"` |
| ReturnsAndJumps.SkipThenSay | src/main/kotlin/ir/fallahpoor/kotlinsqueezed/_1basics/_4returnsAndJumps/ReturnsAndJumps.kt:60-93 | the common shape of `foo2`, `foo3` and `foo4`: 1, 2, 4, 5, then the message |
| ReturnsAndJumps.Foo2 | src/main/kotlin/ir/fallahpoor/kotlinsqueezed/_1basics/_4returnsAndJumps/ReturnsAndJumps.kt:60-67 | prints 1, 2, 4, 5 and `"done with explicit label"` |
| ReturnsAndJumps.Foo3 | src/main/kotlin/ir/fallahpoor/kotlinsqueezed/_1basics/_4returnsAndJumps/ReturnsAndJumps.kt:73-80 | prints 1, 2, 4, 5 and `"done with implicit label"` |
| ReturnsAndJumps.Foo4 | src/main/kotlin/ir/fallahpoor/kotlinsqueezed/_1basics/_4returnsAndJumps/ReturnsAndJumps.kt:86-93 | prints 1, 2, 4, 5 and `"done with anonymous function"` |
| ReturnsAndJumps.Foo5 | src/main/kotlin/ir/fallahpoor/kotlinsqueezed/_1basics/_4returnsAndJumps/ReturnsAndJumps.kt:100-109 | prints 1, 2 and `"done with nested loop"` |
| ReturnsAndJumps.MainOutput | src/main/kotlin/ir/fallahpoor/kotlinsqueezed/_1basics/_4returnsAndJumps/ReturnsAndJumps.kt:3-43 | everything `main` prints, in order |
| When.FirstMatch | src/main/kotlin/ir/fallahpoor/kotlinsqueezed/basics/_3controlFlow/_2When.kt:9-13 | the chosen branch's condition holds and no earlier condition does; past the end only when none holds |
| When.Select | src/main/kotlin/ir/fallahpoor/kotlinsqueezed/basics/_3controlFlow/_2When.kt:9-13 | `when` runs the first branch whose condition holds, and `else` when none does |
| When.WhenOneOrTwo | src/main/kotlin/ir/fallahpoor/kotlinsqueezed/basics/_3controlFlow/_2When.kt:9-13 | 1 and 2 select their branches; any other value selects `else` |
| When.WhenCommaCases | src/main/kotlin/ir/fallahpoor/kotlinsqueezed/basics/_3controlFlow/_2When.kt:25-28 | the branch `0, 1` runs exactly for 0 and for 1 |
| When.WhenInRange | src/main/kotlin/ir/fallahpoor/kotlinsqueezed/basics/_3controlFlow/_2When.kt:42-46 | `in 1..10` is tried before `!in 10..20`, and `else` runs only for 11..20 |
| When.FirstMatchWins | src/main/kotlin/ir/fallahpoor/kotlinsqueezed/basics/_3controlFlow/_2When.kt:42-46 | x = 1 meets both range conditions, but only the first branch runs |
| When.IntString | src/main/kotlin/ir/fallahpoor/kotlinsqueezed/basics/_3controlFlow/_2When.kt:33 | the decimal text of an Int: digits only for a non-negative value, `-` followed by digits for a negative one |
| When.ParseInt | src/main/kotlin/ir/fallahpoor/kotlinsqueezed/basics/_3controlFlow/_2When.kt:35 | `parseInt` accepts only an optional sign followed by at least one digit, gives a negative value only after `-`, and `None` (a `NumberFormatException`) otherwise; `ParseIntRoundTrip` and `ParseIntRejects` are its partners |
| When.ParseIntRoundTrip | src/main/kotlin/ir/fallahpoor/kotlinsqueezed/basics/_3controlFlow/_2When.kt:33-37 | `parseInt` reads back the decimal text of every Int |
| When.ParseIntRejects | src/main/kotlin/ir/fallahpoor/kotlinsqueezed/basics/_3controlFlow/_2When.kt:35 | `""`, `"-"` and `"x1"` are not numbers |
| When.WhenParsed | src/main/kotlin/ir/fallahpoor/kotlinsqueezed/basics/_3controlFlow/_2When.kt:33-37 | the first branch runs exactly when `s` parses to `x`; a non-number throws `NumberFormatException` with the JVM message `For input string: "s"` |
| When.WhenParsedOfDecimal | src/main/kotlin/ir/fallahpoor/kotlinsqueezed/basics/_3controlFlow/_2When.kt:33-37 | the decimal text of `x`, and `"1"` for x = 1, takes the first branch |
| When.StartsWith | src/main/kotlin/ir/fallahpoor/kotlinsqueezed/basics/_3controlFlow/_2When.kt:54 | `startsWith` holds exactly when the prefix is a prefix of the string |
| When.HasPrefix | src/main/kotlin/ir/fallahpoor/kotlinsqueezed/basics/_3controlFlow/_2When.kt:53-56 | `hasPrefix` is false for every non-String, and for a String holds exactly when it starts with `"prefix"` |
| When.WhenCaptured | src/main/kotlin/ir/fallahpoor/kotlinsqueezed/basics/_3controlFlow/_2When.kt:61-64 | the captured subject 1 selects `"n is 1"`; anything else prints itself in the `else` message |
| When.MainExample | src/main/kotlin/ir/fallahpoor/kotlinsqueezed/basics/_3controlFlow/_2When.kt:5-66 | the branches `main` takes for x = 1, s = "1", n = 1, and sample `hasPrefix` results |

## Left out

- Coroutines, flows, channels and actors are not modelled: their behaviour is concurrency and timing inside `kotlinx.coroutines`.
- The collection-chapter demos only call the standard library and are not modelled. `Lambdas.Fold` is the repository's own `fold` function. `Lambdas.Filter` is the library's `filter`, modelled because the repository's own lambdas are passed to it.
- `sortedWith(lengthComparator)` and the other sorting calls in Ordering.kt are not modelled: the sort belongs to the library. Only the comparators are modelled.
- Floating point is not modelled: `findFixPoint`, `eval` with `Double`, `pow`, `average`.
- Files that only declare language features are not modelled.
- Pure printing is not modelled: `val c = run { println(...) }`, `map.forEach { println(...) }`, the `observable` and `lazy` delegates, the ranges' `print` loops and `Address`.
- I/O is not modelled. No program here reads input. `println` is a returned trace or a returned string. The difference between `print` and `println` survives only in `ReturnsAndJumps.Out`.
- The iteration order of the `LinkedHashMap` that `associate` builds is not modelled; a Dafny `map` has no order.
- `(1..10).filter { it % 2 == 0 }` is not modelled as a worked example. Unrolling the filter over ten literal elements is too costly to verify. `Lambdas.Filter` states what any filter keeps, for every list.
- `Table.table`'s `AssertionError("Set to null by another thread")` is not modelled. Only another thread can reach it, and threads are not modelled.
- `Counter` is the top-level `var counter` with its setter, wrapped in an object so that the guarded assignment is a state change.
- `Person5` has no constructor without a parent, in Kotlin as here, so no `Person5` can be built from nothing. Aliasing of the `MutableList` beyond `children` is not modelled.
- `Extensions.Swap` and `Extensions.SwapItems` model the `MutableList` as an array, since `swap` never changes its size. Other holders of the same list do not appear.
- Kotlin's receiver function type `String.(Int) -> String` and the two-parameter type `(String, Int) -> String` are the same value. Dafny has one function type for both, so `twoParameters = repeatFun` holds by construction.
- `InlineFunctions.TreeNode` has only the parentless constructor; its `parent` is a `val` initialised to null, as in Kotlin. The search is specified for any finite parent chain. `Class.isInstance` and `is T` are the test function passed in.
- `DelegatedProperties`: `thisRef` is the string its `toString()` gives, and a `KProperty` is its name. The `println` in `Delegate.setValue` returns its message.
- `When.ParseInt` accepts only ASCII digits. Java's `parseInt` also accepts other Unicode decimal digits. It returns `None` where Java throws `NumberFormatException`; `When.WhenParsed` turns that into an `Err` carrying Java's message.
- `Lambdas.Html` models the receiver lambda `init` as the list of builder calls it makes on `HTML`. `/* ... */` inside `body()` does nothing.
- `Lambdas.RepeatFun`: a negative count is an `Err`. Its message leaves out the count, which Kotlin's message for `String.repeat` appends ("…, but was n.").
- `Ordering.CompareToIsLexicographic` holds only when the one subtraction `compareTo` performs does not overflow an Int (the majors' when they differ, otherwise the minors'). With overflow, `compareTo` can disagree with the lexicographic order, as `Ordering.CompareToOverflowExample` shows.
- `Ordering.CompareToAntisymmetric` holds only when the subtraction `compareTo` performs does not overflow, for the same reason.
- `RangesAndProgressions.ContainsIsLexicographic` holds only when neither of the two comparisons overflows in the subtraction it performs, for the same reason.
- `Ordering.LengthComparator` requires both lengths to fit in an Int. A JVM string length always does.
- `RangesAndProgressions.Progression` is over unbounded integers. Progressions near the Int limits are not modelled.
