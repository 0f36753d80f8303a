# BreezeUI core, modelled in Dafny

BreezeUI is a small retained-mode UI toolkit for the JVM, in the style of WPF. This project models its
core and proves properties of that model. The core has four parts.

- **Dependency properties.**
  - A global registry keyed by (owner class, name) holds property descriptors.
  - A descriptor has default metadata and per-class metadata overrides. An override is resolved by
    walking the instance's superclass chain (`ClassInheritanceMap`).
  - Each object has a property store. Reading a property lazily caches its default. Writing one
    converts primitive values, checks and coerces them, fires the change notification unless the
    object is suspended, and only then stores the value.
- **Invalidation and layout.**
  - Elements carry layout and render dirty flags and register themselves in the layout manager's
    rearrange and render sets.
  - `FrameworkElement.onPropertyChanged` routes a change to invalidations according to the metadata's
    effect bits.
  - `ItemsControl` and `ContentControl` manage their children and content.
  - `ContextLayoutManager.updateLayout` collapses the rearrange set to its top-level elements and
    measures them, under the measure re-entry guard.
- **Dispatcher and tick.**
  - Operations have a status state machine and sit in eight FIFO buckets, one per priority.
  - A batch runner invokes every operation of a bucket, then throws one aggregate failure.
  - `Application.tick` drains the buckets in rank order around the layout and render stages.
  - `Application.run` repeats the tick until one throws or the window asks to close.
- **Utilities.**
  - `Linq` compacts lists in place and provides take/skip, joins, folds and hashing.
  - `ListUtils`, `StringUtils`, `ObjUtils` and `Memory` provide reference searches, splits,
    null-safe equality and array copies.

## Modules

- **The Java runtime the code relies on.**
  - `java_lang`: class ids, the superclass tree, values and instance tests.
  - `java_ints`: 32- and 64-bit two's-complement wrap-around and narrowing.
  - `java_util`: `ArrayList` as a class over a `seq`.
  - `events`: a trace of observable calls (GL/GLFW calls, hooks, `validate`, work runs).
- **I/O becomes parameters or events.**
  - Each GL/GLFW call is an event in the trace.
  - The thread that calls the dispatcher is a thread-id parameter.
  - A dispatcher operation's work is a value saying whether it returns, aborts its own operation,
    or throws.
  - `shouldClose()` answers are a sequence of booleans, one per tick.
  - `measureCoreLayout` is a supplied function.
  - The walk order of a Java `HashSet` is a parameter or an `Enumerate` method that visits each
    member once.
- **Stateful source as classes.**
  - Source classes whose fields change in place are Dafny classes with `modifies` frames:
    `DependencyObject`, `DependencyProperty`, `UIElement`, `ContextLayoutManager`,
    `DispatcherOperation`, `DispatchQueue`, `Dispatcher`, `Application`, `Linq`, `ClassInheritanceMap`.
  - Their methods' contracts state the whole new state in terms of specification functions, and
    lemmas state what those functions promise.
- **Invalidation runs.**
  - A run over a set of elements (`Invalidation.Step`) relates the elements' states and the
    manager's queues before and after.
  - Runs compose (`StepCompose`).
  - Every notification path states the run it performs, in terms of `Effects`: the elements asked
    to re-lay-out and to re-render.

## Where the model follows the code rather than its description

- `UIElement` as shown has no validity gate and calls no invalidation hook.
  - The model follows it: `invalidateLayout` and `invalidateRender` only set flags and queue the
    element.
- The shown files mix versions, in three places:
  - `ItemsControl` uses `validate`, and its `onLayoutInvalidated`/`onRenderInvalidated` overrides
    have no caller in the shown `UIElement`.
    - `validate(valid)` is an event in the trace.
    - The two overrides are modelled as one method, `ItemsControl.OnInvalidated`, on their own.
  - `UIElement` calls `getRenderList()`, while `ContextLayoutManager` defines `getRenderQueue()`.
    - Both are taken to be the manager's render set.
  - `FrameworkElement` overrides the metadata of `PARENT`, which the shown `UIElement` does not declare.
- `updateLayout` never clears the rearrange set, `DispatchQueue.process` removes nothing from its
  bucket, and `processMessages` removes no message. The model keeps all three.
- `ClassUtils.getDefaultValue` returns null for every class.
  - The zero-value table is keyed by primitive classes but queried with the boxed class.
  - The model reproduces this (`ClassUtils.DefaultValueIsAlwaysNull`), so every auto-generated
    default is null.

## Model

| member | source | states |
|---|---|---|
| ClassInheritance.ClassInheritanceMap.constructor | src/reghzy/breezeui/utils/ClassInheritanceMap.java:10-12 | a new map has no entries |
| ClassInheritance.ClassInheritanceMap.Get | src/reghzy/breezeui/utils/ClassInheritanceMap.java:19-30 | a null class finds nothing; otherwise the result is the entry of the nearest class on the superclass chain that has a non-null one |
| ClassInheritance.ClassInheritanceMap.GetFor | src/reghzy/breezeui/utils/ClassInheritanceMap.java:14-17 | a null instance finds nothing; otherwise the lookup is the one for the instance's runtime class |
| ClassInheritance.ClassInheritanceMap.Put | src/reghzy/breezeui/utils/ClassInheritanceMap.java:32-34 | sets or replaces the entry of exactly that class and no other |
| ClassInheritance.ClassInheritanceMap.Clear | src/reghzy/breezeui/utils/ClassInheritanceMap.java:40-42 | no entries remain and the size is zero |
| ClassInheritance.NearestNoneIffNoEntry | src/reghzy/breezeui/utils/ClassInheritanceMap.java:19-30 | the lookup is null exactly when no class on the chain has a non-null entry |
| ClassInheritance.NearestIsFirstOnChain | src/reghzy/breezeui/utils/ClassInheritanceMap.java:19-30 | the lookup is null iff no class on the chain has an entry, and otherwise it is the entry of the first chain class that has one |
| ClassInheritance.NearestIsFirstEntry | src/reghzy/breezeui/utils/ClassInheritanceMap.java:20-27 | when the i-th chain class is the first with an entry, the lookup returns that entry |
| ClassInheritance.GetAfterPut | src/reghzy/breezeui/utils/ClassInheritanceMap.java:32-34 | after putting a non-null value for a class, looking that class up finds the value |
| ClassInheritance.PutElsewhere | src/reghzy/breezeui/utils/ClassInheritanceMap.java:32-34 | a put for a class leaves every lookup for a class that is not its subclass unchanged |
| ClassInheritance.PutReachesSubclasses | src/reghzy/breezeui/utils/ClassInheritanceMap.java:19-34 | a put for a class becomes the lookup of every subclass that has no nearer entry |
| ClassInheritance.ClearedFindsNothing | src/reghzy/breezeui/utils/ClassInheritanceMap.java:40-42 | after clear every lookup is null |
| ClassInheritance.ChainDescends | src/reghzy/breezeui/utils/ClassInheritanceMap.java:26 | every class met while walking up by getSuperclass is the start class or an ancestor of lower rank |
| ClassInheritance.NearestOfOne | src/reghzy/breezeui/utils/ClassInheritanceMap.java:19-30 | with one entry the lookup finds it exactly for the subclasses of its class |
| ClassInheritance.NearestOfTwo | src/reghzy/breezeui/utils/ClassInheritanceMap.java:19-30 | an entry overridden by one for a subclass: that subclass's descendants find the override, the rest of the first class's descendants find the first, and other classes find nothing |
| Geometry.Max | src/reghzy/breezeui/core/utils/Rect.java:73-75 | the result has the smaller origin and the larger size in each component, each taken from one of the two rects |
| Geometry.ClosenessLaws | src/reghzy/breezeui/core/utils/Rect.java:36-39 | isCloseTo is reflexive and symmetric |
| Geometry.ClosenessNotTransitive | src/reghzy/breezeui/core/utils/Maths.java:14-16 | two steps just under the epsilon are each close, but together they are not |
| ListUtils.Evaluate | src/reghzy/breezeui/utils/ListUtils.java:207-216 | the result is onComplementMatch when some item's test equals complement, and its negation when none does |
| ListUtils.IndexIn | src/reghzy/breezeui/utils/ListUtils.java:164-182 | the result is -1 or an index in the range; a found index holds the item and no earlier index in the range does; -1 means no index in the range holds it |
| ListUtils.IndexOfRef | src/reghzy/breezeui/utils/ListUtils.java:164-172 | the smallest index holding the item (same reference), or -1 |
| ListUtils.RangeSearch | src/reghzy/breezeui/utils/ListUtils.java:174-192 | a successful ranged search returns -1 or an index inside both the range and the list that holds the item |
| ListUtils.IndexOfRange | src/reghzy/breezeui/utils/ListUtils.java:174-192 | both ranged searches (indexOfRef and indexOf) check start, start+1, ... below end, throwing when list.get leaves the list |
| ListUtils.RangeSearchInBounds | src/reghzy/breezeui/utils/ListUtils.java:174-182 | inside the list's bounds the ranged search never throws and finds the first match in [start, end) |
| ListUtils.RangeSearchOutOfBounds | src/reghzy/breezeui/utils/ListUtils.java:174-182 | a negative start, or an end past the list with no match before it, throws |
| ListUtils.Reversed | src/reghzy/breezeui/utils/ListUtils.java:148-154 | a new list of the same length whose item i is input item size-1-i |
| ListUtils.TryAdd | src/reghzy/breezeui/utils/ListUtils.java:128-130 | adds the value iff it is absent, appending it; returns whether it added |
| ListUtils.ToList | src/reghzy/breezeui/utils/ListUtils.java:63-68 | a new list holding the array's items in order |
| ListUtils.SingleElement | src/reghzy/breezeui/utils/ListUtils.java:141-146 | a list of exactly one item, the value |
| StringUtils.IndexOf | src/reghzy/breezeui/utils/StringUtils.java:21 | the first index holding the character, or -1 exactly when it is absent |
| StringUtils.LastIndexOf | src/reghzy/breezeui/utils/StringUtils.java:69 | the last index holding the character, or -1 exactly when it is absent |
| StringUtils.SplitLeftOr | src/reghzy/breezeui/utils/StringUtils.java:20-23 | the default when the character is absent; otherwise the prefix that ends just before the first occurrence, free of the character |
| StringUtils.SplitRightOr | src/reghzy/breezeui/utils/StringUtils.java:41-44 | the default when the character is absent; otherwise the suffix that starts just after the first occurrence (the character precedes it and does not occur before that) |
| StringUtils.SplitLastLeftOr | src/reghzy/breezeui/utils/StringUtils.java:68-71 | the default when the character is absent; otherwise the prefix that ends just before the last occurrence (the character does not occur after it) |
| StringUtils.SplitLastRightOr | src/reghzy/breezeui/utils/StringUtils.java:95-98 | the default when the character is absent; otherwise the suffix that starts just after the last occurrence (the character precedes it and does not occur in it) |
| StringUtils.SplitLeft | src/reghzy/breezeui/utils/StringUtils.java:10-12 | never contains the character, and is the whole value exactly when the character is absent |
| StringUtils.SplitRight | src/reghzy/breezeui/utils/StringUtils.java:31-33 | the whole value when the character is absent |
| StringUtils.SplitLastLeft | src/reghzy/breezeui/utils/StringUtils.java:55-57 | the whole value when the character is absent |
| StringUtils.SplitLastRight | src/reghzy/breezeui/utils/StringUtils.java:82-84 | never contains the character, and is the whole value exactly when the character is absent |
| StringUtils.SplitFirstRoundTrip | src/reghzy/breezeui/utils/StringUtils.java:20-23 | when the character occurs, splitLeft + character + splitRight rebuilds the value |
| StringUtils.SplitLastRoundTrip | src/reghzy/breezeui/utils/StringUtils.java:68-71 | when the character occurs, splitLastLeft + character + splitLastRight rebuilds the value |
| StringUtils.FirstExamples | src/reghzy/breezeui/utils/StringUtils.java:4-30 | the documented splitLeft and splitRight results for "hi.there.lol" |
| StringUtils.LastExamples | src/reghzy/breezeui/utils/StringUtils.java:46-79 | the documented splitLastLeft ("hi.there") and splitLastRight ("lol") results |
| StringUtils.AbsentExamples | src/reghzy/breezeui/utils/StringUtils.java:52-80 | the documented results with no occurrence: the whole value |
| ObjUtils.RequireOr | src/reghzy/breezeui/utils/ObjUtils.java:11-13 | the value when non-null, and the supplier's result otherwise |
| ObjUtils.Equals1 | src/reghzy/breezeui/utils/ObjUtils.java:15-18 | null-safe equality of source and target |
| ObjUtils.Equals2 | src/reghzy/breezeui/utils/ObjUtils.java:20-28 | true iff the source equals one of the two targets, a null source matching a null target |
| ObjUtils.Equals3 | src/reghzy/breezeui/utils/ObjUtils.java:30-38 | true iff the source is one of the three targets |
| ObjUtils.Equals4 | src/reghzy/breezeui/utils/ObjUtils.java:40-48 | true iff the source is one of the four targets |
| ObjUtils.HasNull | src/reghzy/breezeui/utils/ObjUtils.java:52-57 | true iff some target is null |
| ObjUtils.HasEqual | src/reghzy/breezeui/utils/ObjUtils.java:59-64 | true iff the non-null source equals some target |
| ObjUtils.EqualsVarargsAsWritten | src/reghzy/breezeui/utils/ObjUtils.java:50-68 | the Object-varargs overload as written returns true for every input |
| ObjUtils.EqualsVarargs | src/reghzy/breezeui/utils/ObjUtils.java:50-68 | the overload as evidently intended: true iff the source is among the targets |
| ObjUtils.EqualsVarargsAsWrittenMatchesNothing | src/reghzy/breezeui/utils/ObjUtils.java:67 | for source 1 and targets 2 and null the as-written overload says true, the intended one false |
| ObjUtils.FixedArityAgreesWithVarargs | src/reghzy/breezeui/utils/ObjUtils.java:15-48 | the one- to four-target overloads agree with the intended varargs overload |
| ObjUtils.Test | src/reghzy/breezeui/utils/ObjUtils.java:147-150 | false for a null target without calling the tester; otherwise the tester's verdict |
| ObjUtils.EqualsWith1 | src/reghzy/breezeui/utils/ObjUtils.java:70-73 | true iff source and target are the same reference, or the source is non-null and the tester accepts the non-null target |
| ObjUtils.SomeAccepted | src/reghzy/breezeui/utils/ObjUtils.java:116-120 | true iff the tester accepts some non-null target |
| ObjUtils.EqualsWithVarargs | src/reghzy/breezeui/utils/ObjUtils.java:105-124 | with a null source, true iff some target is null; otherwise true iff the tester accepts some non-null target; false when nothing matches |
| ObjUtils.TesterFixedArityAgreesWithVarargs | src/reghzy/breezeui/utils/ObjUtils.java:75-103 | the two- to four-target tester overloads agree with the tester varargs overload |
| ObjUtils.OneTargetTesterAgreesWhenReflexive | src/reghzy/breezeui/utils/ObjUtils.java:70-73 | the one-target tester overload agrees with the varargs one whenever the tester accepts a non-null source compared with itself |
| ObjUtils.AllNull | src/reghzy/breezeui/utils/ObjUtils.java:129-135 | true iff every target is null |
| ObjUtils.AllAccepted | src/reghzy/breezeui/utils/ObjUtils.java:137-141 | true iff the tester accepts every target, each non-null |
| ObjUtils.EqualsAll | src/reghzy/breezeui/utils/ObjUtils.java:126-145 | true for no targets; with a null source true iff every target is null; otherwise true iff the tester accepts every target, each non-null |
| Memory.Wrap | src/reghzy/breezeui/utils/Memory.java:18-72 | a new wrapper array of the same length holding the same items, boxed, in order |
| Memory.Unwrap | src/reghzy/breezeui/utils/Memory.java:74-128 | fails exactly when some item is null (unboxing it throws); otherwise a new primitive array of the same length holding the same items in order |
| Memory.ToArray | src/reghzy/breezeui/utils/Memory.java:8-16 | a new array of exactly the list's size holding its items in list order |
| Memory.UnboxedBoxed | src/reghzy/breezeui/utils/Memory.java:18-128 | unwrapping a wrapped array gives back the original items |
| Memory.BoxedUnboxed | src/reghzy/breezeui/utils/Memory.java:18-128 | wrapping an unwrapped null-free array gives back the original items |
| Linq.FirstMatch | src/reghzy/breezeui/utils/Linq.java:981-997 | the first index whose item matches, or -1 exactly when none does |
| Linq.LastMatch | src/reghzy/breezeui/utils/Linq.java:999-1013 | the last index whose item matches, or -1 exactly when none does |
| Linq.Linq.constructor | src/reghzy/breezeui/utils/Linq.java:58-60 | the linq wraps exactly the given items |
| Linq.Linq.Filter | src/reghzy/breezeui/utils/Linq.java:439-456 | the in-place compaction leaves exactly the items whose predicate result equals the complement flag, in their original order |
| Linq.Linq.Where | src/reghzy/breezeui/utils/Linq.java:504-508 | keeps exactly the accepted items, in order |
| Linq.Linq.RemoveIf | src/reghzy/breezeui/utils/Linq.java:519-523 | keeps exactly the rejected items, in order |
| Linq.Linq.Take | src/reghzy/breezeui/utils/Linq.java:923-935 | a negative count fails; a count strictly between 0 and the size keeps that prefix; any other count (0 included) leaves the list unchanged |
| Linq.Linq.Skip | src/reghzy/breezeui/utils/Linq.java:937-946 | a count at least the size empties the list; a count strictly between 0 and the size drops that prefix; a count of 0 or less leaves the list unchanged |
| Linq.Linq.SkipWhile | src/reghzy/breezeui/utils/Linq.java:948-958 | drops the items before the first rejected one, and leaves the list unchanged when none is rejected |
| Linq.Linq.RemoveFirst | src/reghzy/breezeui/utils/Linq.java:981-997 | deletes the item at the first matching index, and nothing when none matches |
| Linq.Linq.RemoveLast | src/reghzy/breezeui/utils/Linq.java:999-1013 | deletes the item at the last matching index, and nothing when none matches |
| Linq.Linq.Aggregate | src/reghzy/breezeui/utils/Linq.java:1138-1145 | the left fold of the aggregator over the items, from the source value |
| Linq.Linq.GetHashCodeWith | src/reghzy/breezeui/utils/Linq.java:1219-1234 | the operator applied over the items left to right, starting from 0, in 32-bit arithmetic |
| Linq.Linq.GetHashCode | src/reghzy/breezeui/utils/Linq.java:1211-1213 | the polynomial sum of hashCode(item) times 31 to the power of its distance from the end, reduced to a Java int |
| Linq.Linq.ToString | src/reghzy/breezeui/utils/Linq.java:1951-1967 | the empty value for no items, otherwise the mapped items joined with the delimiter (", " for null) |
| Linq.Linq.ToAdvancedString | src/reghzy/breezeui/utils/Linq.java:2023-2044 | the empty value for no items, otherwise the mapped items joined with the delimiter except the last two, joined with the final delimiter |
| Linq.Equals | src/reghzy/breezeui/utils/Linq.java:2057-2070 | true iff the two linqs hold equal items at every index and have the same size |
| Linq.Reduce | src/reghzy/breezeui/utils/Linq.java:1153-1164 | empty for no items, otherwise the left fold of the function starting from the first item |
| Linq.RemoveNull | src/reghzy/breezeui/utils/Linq.java:1366-1416 | the compaction leaves exactly the non-null items in their original order |
| Linq.FirstMatchIs | src/reghzy/breezeui/utils/Linq.java:981-997 | an index that matches with no match before it, or -1 when nothing matches, is the first match |
| Linq.KeptAppend | src/reghzy/breezeui/utils/Linq.java:439-456 | filtering distributes over concatenation, so kept items stay in their original order |
| Linq.KeptMembers | src/reghzy/breezeui/utils/Linq.java:439-456 | an item survives the filter iff it was in the list and its predicate result equals the complement flag |
| Linq.WhereRemoveIfPartition | src/reghzy/breezeui/utils/Linq.java:504-527 | where and removeIf with one predicate split the items between them, as multisets |
| Linq.RemoveNullRemovesExactlyNulls | src/reghzy/breezeui/utils/Linq.java:1366-1416 | no null survives, every non-null item does, and the length drops by the number of nulls |
| Linq.NonNullComplement | src/reghzy/breezeui/utils/Linq.java:1366-1416 | the items removeNull drops are exactly the nulls, by count |
| Linq.SkipWhileAllMatch | src/reghzy/breezeui/utils/Linq.java:948-958 | when every item matches, skipWhile leaves the list unchanged |
| Linq.SkipWhileDropsMatchingPrefix | src/reghzy/breezeui/utils/Linq.java:948-958 | otherwise the result starts with a rejected item and what was dropped is a prefix of matching items |
| Linq.RemoveMatchDeletesOne | src/reghzy/breezeui/utils/Linq.java:981-1013 | when something matches, removeFirst and removeLast delete exactly one item, at the matching index |
| Linq.HashIsPolynomial | src/reghzy/breezeui/utils/Linq.java:1211-1234 | the hash fold with 31 * h + hashCode(o) equals the polynomial hash reduced to 32 bits |
| Linq.JoinIsTerminatedPlusLast | src/reghzy/breezeui/utils/Linq.java:1957-1966 | the loop's delimiter-terminated output followed by the last mapped item is the delimiter join |
| Linq.AdvancedWithSameDelimiterIsToString | src/reghzy/breezeui/utils/Linq.java:1951-2044 | with the final delimiter equal to the ordinary one, toAdvancedString equals toString |
| Linq.AdvancedStringExample | src/reghzy/breezeui/utils/Linq.java:1969-1978 | the documented example joins hello, there and lol as "hello, there & lol" |
| ClassUtils.Box | src/reghzy/breezeui/utils/ClassUtils.java:14-24 | each primitive type maps to its wrapper class; every other class is returned unchanged |
| ClassUtils.Unbox | src/reghzy/breezeui/utils/ClassUtils.java:26-35 | each wrapper class maps to its primitive type; every other class is returned unchanged |
| ClassUtils.BoxUnboxInverse | src/reghzy/breezeui/utils/ClassUtils.java:55-63 | unbox inverts box on primitives and box inverts unbox on wrappers; a boxed class is never primitive |
| ClassUtils.ZeroValues | src/reghzy/breezeui/utils/ClassUtils.java:37-46 | the zero-value table is keyed by exactly the primitive types |
| ClassUtils.DefaultValueIsAlwaysNull | src/reghzy/breezeui/utils/ClassUtils.java:65-67 | getDefaultValue is null for every class, because the primitive-keyed table is queried with the boxed class |
| ClassUtils.FloatToIntegral | src/reghzy/breezeui/utils/ClassUtils.java:83-84 | Java's narrowing of a floating-point number to int or long stays inside the target range |
| ClassUtils.IntValue | src/reghzy/breezeui/utils/ClassUtils.java:83 | Number.intValue() of a number is a Java int |
| ClassUtils.LongValue | src/reghzy/breezeui/utils/ClassUtils.java:84 | Number.longValue() of a number is a Java long |
| ClassUtils.ConvertPrimitiveTo | src/reghzy/breezeui/utils/ClassUtils.java:69-104 | null converts to null; a non-primitive target returns the value as it is; a successful conversion yields a well-formed value |
| ClassUtils.BooleanSource | src/reghzy/breezeui/utils/ClassUtils.java:91-101 | a Boolean becomes 1 or 0 for an integral target and stays itself for the boolean target |
| ClassUtils.LowBitsThroughInt | src/reghzy/breezeui/utils/ClassUtils.java:81-82 | byteValue and shortValue, which narrow through int, keep the low 8 and 16 bits of the number |
| ClassUtils.NumberSource | src/reghzy/breezeui/utils/ClassUtils.java:79-88 | a boxed integer is narrowed to the width of an integral target, and becomes intValue() != 0 for the boolean target |
| ClassUtils.OtherSourceFails | src/reghzy/breezeui/utils/ClassUtils.java:103 | any other non-null value with a primitive target fails the cast to the primitive class |
| ClassUtils.CharacterToCharFails | src/reghzy/breezeui/utils/ClassUtils.java:103 | in particular a Character is rejected even for the char target |
| ClassUtils.ConversionFitsTarget | src/reghzy/breezeui/utils/ClassUtils.java:69-104 | for a primitive target other than void, a converted non-null value is an instance of the target's wrapper class |
| ClassUtils.ConversionIdempotent | src/reghzy/breezeui/utils/ClassUtils.java:69-104 | converting an already converted value to the same target again changes nothing, for every target but char |
| Properties.NewPropertyMeta | src/reghzy/breezeui/core/properties/PropertyMeta.java:12-36 | the metadata holds exactly the given default, change callback and coerce callback, and no framework flags |
| Properties.DefaultValue | src/reghzy/breezeui/core/properties/PropertyMeta.java:50-61 | null stays null, a Supplier is asked for its result, and any other stored default is returned itself |
| Properties.DefaultValueFor | src/reghzy/breezeui/core/properties/PropertyMeta.java:63-70 | a DefaultValueFactory default is given the property and object; any other default follows getDefaultValue() |
| Properties.Builder.constructor | src/reghzy/breezeui/core/properties/PropertyMeta.java:105-107 | a new builder has a null default and no callbacks |
| Properties.Builder.SetDefaultValue | src/reghzy/breezeui/core/properties/PropertyMeta.java:109-112 | sets only the default and returns the same builder |
| Properties.Builder.SetPropChangedCallback | src/reghzy/breezeui/core/properties/PropertyMeta.java:114-117 | sets only the change callback and returns the same builder |
| Properties.Builder.SetCoerceValueCallback | src/reghzy/breezeui/core/properties/PropertyMeta.java:119-122 | sets only the coerce callback and returns the same builder |
| Properties.Builder.Build | src/reghzy/breezeui/core/properties/PropertyMeta.java:124-126 | metadata with exactly the builder's default, change callback and coerce callback |
| Properties.CoerceValue | src/reghzy/breezeui/core/properties/PropertyMeta.java:72-92 | without a coerce callback the value itself, accepted iff it is assignable; with one, the callback's result, accepted iff that result is assignable (the input is not checked) |
| Properties.MetaNotification | src/reghzy/breezeui/core/properties/PropertyMeta.java:94-98 | the change callback is called, with property, owner, old and new value, iff one is set |
| Properties.DependencyProperty.constructor | src/reghzy/breezeui/core/properties/DependencyProperty.java:26-36 | the descriptor keeps its name, type, owner, metadata and validator; its metadata map holds just the owner's entry and nothing is suspended |
| Properties.DependencyProperty.GetMeta | src/reghzy/breezeui/core/properties/DependencyProperty.java:93-100 | a null owner gets the default metadata; otherwise the nearest override on the owner's class chain, falling back to the default |
| Properties.DependencyProperty.OverrideMetadata | src/reghzy/breezeui/core/properties/DependencyProperty.java:102-104 | sets or replaces the metadata entry of exactly that class |
| Properties.DependencyProperty.Suspend | src/reghzy/breezeui/core/properties/DependencyProperty.java:135-137 | adds the object to the suspended set, so it is suspended |
| Properties.DependencyProperty.Unsuspend | src/reghzy/breezeui/core/properties/DependencyProperty.java:143-145 | removes the object from the suspended set, so one unsuspend resumes it however often it was suspended |
| Properties.NullAndUnsetAlwaysAssignable | src/reghzy/breezeui/core/properties/DependencyProperty.java:114-117 | null and UNSET_VALUE are assignable whatever the validator says |
| Properties.AssignableValues | src/reghzy/breezeui/core/properties/DependencyProperty.java:114-120 | any other value must be an instance of the property's type, and pass the validator when validation runs |
| Properties.MetaForResolution | src/reghzy/breezeui/core/properties/DependencyProperty.java:93-104 | with no override on the chain the default metadata applies; otherwise the first override on the chain wins |
| Properties.PropertyRegistry.constructor | src/reghzy/breezeui/core/properties/DependencyProperty.java:12 | the static registry starts empty |
| Properties.PropertyRegistry.GetProperty | src/reghzy/breezeui/core/properties/DependencyProperty.java:38-41 | the descriptor registered under exactly that owner and name, or null when there is none |
| Properties.PropertyRegistry.Register | src/reghzy/breezeui/core/properties/DependencyProperty.java:51-79 | fails, changing nothing, when the owner already has the name; fails when no metadata is given and the validator rejects the default (leaving the owner's name table created); otherwise a fresh descriptor of the boxed type is stored under the owner and name, with the given metadata or one holding the type's default |
| Properties.DependencyObject.constructor | src/reghzy/breezeui/core/properties/DependencyObject.java:12-14 | a new object stores nothing |
| Properties.DependencyObject.GetValue | src/reghzy/breezeui/core/properties/DependencyObject.java:28-47 | fails when the object is not an instance of the owner type; returns a stored value without consulting the metadata; otherwise stores and returns the metadata's default, or fails storing nothing when the default is not assignable; keeps every stored value assignable |
| Properties.DependencyObject.PlanSet | src/reghzy/breezeui/core/properties/DependencyObject.java:49-71 | a planned set keeps the stored old value, has an assignable new value and notifies iff the object is not suspended; a failed cast or an unassignable value is rejected; for a non-primitive property an assignable value is planned as the metadata's coerced value (or rejected with the coercion's error) |
| Properties.DependencyObject.Put | src/reghzy/breezeui/core/properties/DependencyObject.java:65 | stores the value under the property |
| Properties.DependencyObject.SetValue | src/reghzy/breezeui/core/properties/DependencyObject.java:49-71 | a rejected value stores and fires nothing; otherwise the coerced value is stored, the raw stored old value (or null) is returned, and the change callback fires unless suspended |
| Properties.DependencyObject.ClearValue | src/reghzy/breezeui/core/properties/DependencyObject.java:73-78 | returns the stored old value, stores UNSET_VALUE, fires the change callback with UNSET_VALUE as the new value even while suspended, and hasValue becomes false |
| Properties.SetTriesConvertedFirst | src/reghzy/breezeui/core/properties/DependencyObject.java:50-60 | for a primitive-typed property the converted value is coerced when assignable, otherwise the raw value, and neither being assignable is rejected |
| Properties.SetNotifiesOnEqualValue | src/reghzy/breezeui/core/properties/DependencyObject.java:60-66 | setting the stored value again still notifies |
| FrameworkPropertyMeta.NewFrameworkMeta | src/reghzy/breezeui/core/properties/framework/FrameworkPropertyMeta.java:36-69 | the metadata carries the given flags and passes default, change callback and coerce callback unchanged to the PropertyMeta part |
| FrameworkPropertyMeta.NewFrameworkMetaNoFlags | src/reghzy/breezeui/core/properties/framework/FrameworkPropertyMeta.java:8-34 | the constructors without flags use NONE, so none of the three queries is true |
| FrameworkPropertyMeta.QueriesAreIndependentBits | src/reghzy/breezeui/core/properties/framework/FrameworkPropertyMeta.java:79-89 | canAffectLayout, canAffectParentLayout and canAffectRender test bits 1, 2 and 4; setting INHERITS changes none of them |
| FrameworkPropertyMeta.SingleFlags | src/reghzy/breezeui/core/properties/framework/FrameworkPropertyMetaFlags.java:4-8 | each of the three effect flags alone switches on its own query and no other; INHERITS alone switches on none |
| Framework.RegistrationKeysDistinct | src/reghzy/breezeui/core/FrameworkElement.java:18-26 | the framework's twelve (owner, name) pairs are all different |
| Framework.EnterAllFinds | src/reghzy/breezeui/core/properties/DependencyProperty.java:57-77 | after registering a batch of distinct pairs, getProperty finds each descriptor under its own pair |
| Framework.EnterAllOther | src/reghzy/breezeui/core/properties/DependencyProperty.java:57-77 | registering a batch leaves every pair none of its registrations names as it was |
| Framework.RegisterOne | src/reghzy/breezeui/core/FrameworkElement.java:18 | one static field's register call (metadata given, no validator) succeeds iff the name is new for its owner, and creates exactly the descriptor that registration describes |
| Framework.RegisterAll | src/reghzy/breezeui/core/FrameworkElement.java:18-26 | registering a batch of distinct, unregistered pairs succeeds, creating fresh descriptors with separate metadata tables and nothing suspended, entered in the registry in order |
| Framework.OverrideAll | src/reghzy/breezeui/core/FrameworkElement.java:28-32 | the overrideMetadata calls of a static block leave each named descriptor's metadata table with the override added |
| Framework.RegisterOverridden | src/reghzy/breezeui/core/FrameworkElement.java:17-32 | a class's registrations followed by its static block's overrides build exactly the expected descriptors and metadata tables |
| Framework.RegisterTables | src/reghzy/breezeui/core/FrameworkElement.java:17-32 | two batches of registrations with overrides on the first batch in between, as class loading runs them, build the expected descriptors |
| Framework.RegisterFramework | src/reghzy/breezeui/core/UIElement.java:11-12 | the static initialisers of UIElement, FrameworkElement, ItemsControl and ContentControl, run in class-loading order on an empty registry, all succeed and leave the registered framework |
| Framework.RegistryFinds | src/reghzy/breezeui/core/properties/DependencyProperty.java:38-41 | after the framework's registrations getProperty finds each of the twelve descriptors under its pair |
| Framework.DescriptorShape | src/reghzy/breezeui/core/FrameworkElement.java:18-32 | each registered descriptor is what its registration and the overrides made it |
| Framework.OverriddenEntries | src/reghzy/breezeui/core/FrameworkElement.java:28-32 | IS_MOUSE_OVER and MARGIN carry their own entry and FrameworkElement's; every other descriptor only its owner's |
| Framework.MouseOverResolves | src/reghzy/breezeui/core/FrameworkElement.java:29 | IS_MOUSE_OVER resolves to the render-affecting metadata on every FrameworkElement and to UIElement's plain metadata elsewhere |
| Framework.MarginResolves | src/reghzy/breezeui/core/FrameworkElement.java:30 | MARGIN resolves to the layout-affecting metadata on every FrameworkElement and to UIElement's plain metadata elsewhere |
| Framework.RegisteredMetaEverywhere | src/reghzy/breezeui/core/FrameworkElement.java:18-26 | a descriptor that nothing overrides resolves to its registered metadata for every class |
| Framework.LayoutDefaults | src/reghzy/breezeui/core/FrameworkElement.java:18-26 | the alignments default to Left and Top, the sizes to NaN, the minimums to 0 and the maximums to infinity |
| Framework.LayoutPropertiesAffectLayout | src/reghzy/breezeui/core/FrameworkElement.java:18-26 | the alignment and size properties affect the element's layout and nothing else |
| Framework.ControlPropertiesResolve | src/reghzy/breezeui/core/ItemsControl.java:11 | CHILDREN and CONTENT default to null, call onChildrenChanged and onContentChanged, and carry no effect bits |
| Framework.ControlDescriptors | src/reghzy/breezeui/core/ContentControl.java:8 | CHILDREN holds a Collection owned by ItemsControl and CONTENT any Object owned by ContentControl, neither with a validator |
| Framework.ControlsRegistered | src/reghzy/breezeui/core/ItemsControl.java:11 | registration gives every class the resolved CHILDREN and CONTENT descriptors the controls rely on |
| Framework.ControlMetas | src/reghzy/breezeui/core/ContentControl.java:8 | the two control properties' metadata: null default, their change callback, no coercion and no effect bits |
| Framework.DescriptorsDistinct | src/reghzy/breezeui/core/FrameworkElement.java:18-26 | the twelve descriptors have twelve different names, so they are different objects |
| Invalidation.InvalidateCoversMethods | src/reghzy/breezeui/core/UIElement.java:37-58 | invalidateLayout, invalidateRender and invalidateVisual are the three non-trivial instances of one state change, which sets the requested dirty flags (layout only when not already updating) |
| Invalidation.InvalidateComposes | src/reghzy/breezeui/core/UIElement.java:37-58 | invalidating twice is invalidating once for the union of the requests, and a request for nothing leaves the element unchanged (the calls are idempotent) |
| Invalidation.NoStep | src/reghzy/breezeui/core/UIElement.java:37-58 | a run that asks no invalidation leaves every element and both manager queues as they were |
| Invalidation.SingleStep | src/reghzy/breezeui/core/UIElement.java:37-53 | one invalidate call on one element (flags set, the element queued only when it was not already dirty, or mid-measure for layout) is a run asking that element alone |
| Invalidation.StepCompose | src/reghzy/breezeui/core/UIElement.java:55-58 | two runs in sequence are one run asking for the union of their requests, so element-level effects compose regardless of order within a notification |
| Invalidation.StepKeepsTracked | src/reghzy/breezeui/core/UIElement.java:37-53 | a run preserves the invariant that every layout-dirty element is in the rearrange queue and every render-dirty element in the render list, and only ever grows the queues |
| Invalidation.StepOnlySetsFlags | src/reghzy/breezeui/core/UIElement.java:37-53 | a run changes only the two dirty flags, never clears one, sets render-dirty exactly on the asked elements, and sets layout-dirty on the asked elements that are not mid-measure |
| Elements.InvalidateIn | src/reghzy/breezeui/core/UIElement.java:37-58 | invalidateVisual, invalidateLayout or invalidateRender on one element of the scope is the run that asks exactly that element, and leaves the manager's active state alone |
| Elements.RouteEffectsSets | src/reghzy/breezeui/core/FrameworkElement.java:189-205 | non-framework metadata routes nothing; framework metadata asks the parent's layout iff parent-layout-affecting and a parent exists, the element's layout iff layout-affecting and not bypassed or render-affecting, and the element's render iff render-affecting |
| Elements.InvalidateOwn | src/reghzy/breezeui/core/FrameworkElement.java:198-204 | the element's own layout (when asked) then its visual (when render-affecting) is the run asking the element's layout iff either holds and its render iff render-affecting |
| Elements.InvalidateRouted | src/reghzy/breezeui/core/FrameworkElement.java:191-204 | the parent's layout when a parent exists and is asked for, then the element's own invalidations, as one run |
| Elements.RouteChange | src/reghzy/breezeui/core/FrameworkElement.java:188-205 | the framework part of onPropertyChanged is the run the descriptor's metadata, resolved for the element's runtime class, routes (bypass applies only to WIDTH and HEIGHT) |
| Elements.ContentNoticeSets | src/reghzy/breezeui/core/ContentControl.java:24-29 | onContentChanged asks the control to re-lay-out and re-render and the new value to re-lay-out exactly when it is an element |
| Elements.OnContentChanged | src/reghzy/breezeui/core/ContentControl.java:24-29 | the callback's effect on the scope's elements and the manager's queues is exactly the ContentNotice run |
| Elements.AsCollection | src/reghzy/breezeui/core/ItemsControl.java:11 | the cast to Collection succeeds exactly on null and on list references, giving the referenced list |
| Elements.FirstNonElement | src/reghzy/breezeui/core/ItemsControl.java:62-66 | the index of the first item that is not an element: every earlier item is one and that item is not |
| Elements.CastError | src/reghzy/breezeui/core/ItemsControl.java:63-64 | a null item fails with a NullPointerException and any other non-element with a ClassCastException |
| Elements.LoopFailure | src/reghzy/breezeui/core/ItemsControl.java:62-66 | a loop casting every item returns iff every item is an element, otherwise fails with the cast error of the first non-element |
| Elements.Validations | src/reghzy/breezeui/core/ItemsControl.java:63-64 | the validate(valid) events of the first n items, one per item in list order |
| Elements.ValidateEach | src/reghzy/breezeui/core/ItemsControl.java:62-66 | the loop records validate(valid) on every item before the first non-element, in order, and fails exactly as LoopFailure says |
| Elements.AllAreElements | src/reghzy/breezeui/core/ItemsControl.java:69-73 | the instanceof scan returns true iff every item is an element |
| Elements.Fan | src/reghzy/breezeui/core/ItemsControl.java:83-99 | forwarding to the first n items asks exactly those elements' layout (for layout) or render (otherwise) |
| Elements.InvalidateEach | src/reghzy/breezeui/core/ItemsControl.java:88 | forEach(UIElement::invalidateLayout) / invalidateRender asks every item before the first non-element, then fails as LoopFailure says |
| Elements.ChildrenFailureCases | src/reghzy/breezeui/core/ItemsControl.java:61-81 | onChildrenChanged returns normally iff both values are collections of elements; a failed cast is a ClassCastException, a non-element old item its cast error, a non-element new item the RuntimeException |
| Elements.ChildrenEventsCases | src/reghzy/breezeui/core/ItemsControl.java:61-81 | no validation when a cast fails; validate(false) on every old child then validate(true) on every new child when it returns; only the old children before the failing item when an old item is not an element |
| Elements.ValidateLists | src/reghzy/breezeui/core/ItemsControl.java:62-78 | the loops over the old and new items fail and record validations exactly as ListsFailure and ListsEvents say |
| Elements.ValidateChildren | src/reghzy/breezeui/core/ItemsControl.java:61-79 | the casts and the loops of onChildrenChanged fail as ChildrenFailure says and record ChildrenEvents |
| Elements.ChildrenNoticeSets | src/reghzy/breezeui/core/ItemsControl.java:80 | a failed validation asks nothing; otherwise only the control's own layout is invalidated |
| Elements.OnChildrenChanged | src/reghzy/breezeui/core/ItemsControl.java:61-81 | onChildrenChanged fails as ChildrenFailure says, records ChildrenEvents, and its run is the control's layout only when nothing failed |
| Elements.ContentCallback | src/reghzy/breezeui/core/ContentControl.java:8 | the CONTENT callback fails with ClassCastException iff the owner is not a ContentControl, and otherwise runs onContentChanged |
| Elements.ChildrenCallback | src/reghzy/breezeui/core/ItemsControl.java:11 | the CHILDREN callback fails with ClassCastException iff the owner is not an ItemsControl, and otherwise is onChildrenChanged |
| Elements.ChildrenHandler | src/reghzy/breezeui/core/ItemsControl.java:11 | the generic callback description agrees with the children functions on the CHILDREN callback |
| Elements.RunCallback | src/reghzy/breezeui/core/properties/PropertyMeta.java:94-98 | the metadata's change callback is run when present and nothing happens when absent; failure, events and run are the handler's |
| Elements.NoticeEffectsBounds | src/reghzy/breezeui/core/FrameworkElement.java:185-206 | a notification whose callback threw asks nothing; otherwise it re-lays-out only the element, its parent and the new value's element, and re-renders only the element |
| Elements.Notify | src/reghzy/breezeui/core/FrameworkElement.java:185-206 | onPropertyChanged runs the callback of the metadata resolved for the runtime class, then, only if that returned, the framework routing; it fails as the callback does |
| Elements.ClearPlan | src/reghzy/breezeui/core/properties/DependencyObject.java:73-78 | clearValue always notifies, with the stored value as old value and the unset marker as new value, whether or not the property is suspended |
| Elements.ChangeReturnsIffNotThrown | src/reghzy/breezeui/core/properties/DependencyObject.java:60-70 | a change returns normally iff it was planned and its notification did not throw, and then returns the old stored value; a rejected value throws and notifies nothing |
| Elements.SuspendedChangeIsSilent | src/reghzy/breezeui/core/properties/DependencyObject.java:84-88 | on a suspended object the change returns the old value with no callback and no invalidation |
| Elements.ChangeEffectsBounds | src/reghzy/breezeui/core/properties/DependencyObject.java:60-67 | a change that throws asks no invalidation; one that is planned touches only the element, its parent and the new value's element, and re-renders only the element |
| Elements.NotifyChange | src/reghzy/breezeui/core/properties/DependencyObject.java:84-91 | raisePropertyChanged notifies unless the plan was made while suspended, and its result, events and run are the change's |
| Elements.Commit | src/reghzy/breezeui/core/properties/DependencyObject.java:61-66 | notify then store: the new value is stored only when the notification returned, otherwise the old store is left |
| Elements.SetElementValue | src/reghzy/breezeui/core/properties/DependencyObject.java:49-71 | setValue on an element: conversion and assignability decide the plan, the notification runs before the store, a throwing notification leaves the old value stored, and valid stores stay valid |
| Elements.ClearElementValue | src/reghzy/breezeui/core/properties/DependencyObject.java:73-78 | clearValue on an element notifies with the unset marker, stores the marker when the notification returns, and returns the old stored value |
| Layout.UIElement.constructor | src/reghzy/breezeui/core/UIElement.java:27-31 | a new element has an empty property store, zero layout rects, no parent, no dirty or updating flag, and has never updated its layout |
| Layout.UIElement.InvalidateLayout | src/reghzy/breezeui/core/UIElement.java:37-44 | nothing happens while updating or already layout-dirty; otherwise the element joins the rearrange queue and becomes layout-dirty; the render list is untouched and the queue invariant is kept |
| Layout.UIElement.InvalidateRender | src/reghzy/breezeui/core/UIElement.java:46-53 | nothing happens when already render-dirty; otherwise the element joins the render list and becomes render-dirty; the rearrange queue is untouched and the queue invariant is kept |
| Layout.UIElement.InvalidateVisual | src/reghzy/breezeui/core/UIElement.java:55-58 | render invalidation then layout invalidation, each queuing the element only when it was not already dirty |
| Layout.UIElement.SetParent | src/reghzy/breezeui/core/UIElement.java:64-66 | only the parent changes |
| Layout.UIElement.Measure | src/reghzy/breezeui/core/UIElement.java:93-120 | the core runs iff the element never measured, is dirty, or is not updating and its rect is not close to the given one; a run records the previous rect, stores the core's rect, clears both layout flags, and queues a render iff render-dirty or the rect moved; returns layoutRect |
| Layout.UIElement.BeginMeasure | src/reghzy/breezeui/core/UIElement.java:103-106 | before the core: never-updated is cleared, updating is set, and the previous rect is saved |
| Layout.UIElement.EndMeasure | src/reghzy/breezeui/core/UIElement.java:107-116 | the finally block clears updating and layout-dirty whether or not the core returned; only a returned core sets layoutRect and may queue a render |
| Layout.UIElement.CloseRender | src/reghzy/breezeui/core/UIElement.java:136-139 | the context is closed and then only isRenderDirty is cleared |
| Layout.ElementOfElementValue | src/reghzy/breezeui/core/UIElement.java:10 | an element stored as a property value is read back as that element |
| Layout.RemeasureRunsIffResultFar | src/reghzy/breezeui/core/UIElement.java:101-102 | after a measure that ran, measuring again with the same rect runs the core again iff the result was not close to that rect |
| Layout.BaseCoreMeasuresOnce | src/reghzy/breezeui/core/UIElement.java:128-130 | with the base measureCoreLayout (identity), a second measure with the same rect is skipped |
| Layout.MeasureFlags | src/reghzy/breezeui/core/UIElement.java:102-112 | measuring never changes isRenderDirty; a run leaves the element neither dirty nor updating and no longer never-updated; a skipped measure changes nothing |
| Layout.InvalidationIdempotent | src/reghzy/breezeui/core/UIElement.java:37-53 | invalidating twice is invalidating once, and an invalidated element is dirty unless it was mid-measure |
| Layout.ContextLayoutManager.constructor | src/reghzy/breezeui/core/ContextLayoutManager.java:19-22 | a new manager has empty rearrange and render sets and is active |
| Layout.ContextLayoutManager.SetInactive | src/reghzy/breezeui/core/ContextLayoutManager.java:89-91 | the manager becomes inactive and its sets are unchanged |
| Layout.ContextLayoutManager.SetActive | src/reghzy/breezeui/core/ContextLayoutManager.java:93-95 | the manager becomes active and its sets are unchanged |
| Layout.ClimbNoneStays | src/reghzy/breezeui/core/ContextLayoutManager.java:67-71 | a walk that gives up took one step more than its bound, every step to a parent inside the set |
| Layout.ClimbDivergesOnCycle | src/reghzy/breezeui/core/ContextLayoutManager.java:67-71 | the walk gives up only when the element's ancestors inside the set run into a parent cycle: some ancestor comes back to itself within as many steps as the set has elements |
| Layout.Climb | src/reghzy/breezeui/core/ContextLayoutManager.java:67-71 | the walk from an element ends on an element of the input set whose parent is not in the set and which the element reaches through its ancestors; an element without a parent in the set is its own result |
| Layout.AddLast | src/reghzy/breezeui/core/ContextLayoutManager.java:73 | LinkedHashSet.add: the element is in the result, nothing is lost or invented, and a duplicate-free sequence stays duplicate-free |
| Layout.PassFacts | src/reghzy/breezeui/core/ContextLayoutManager.java:66-74 | a pass fails iff one of its walks does not end; otherwise it keeps what was there, adds every element's walk result and nothing else, without duplicates |
| Layout.PassOfTopLevel | src/reghzy/breezeui/core/ContextLayoutManager.java:76-84 | a pass over elements that already have no parent in the set returns them unchanged, in order |
| Layout.SecondPassIsFirst | src/reghzy/breezeui/core/ContextLayoutManager.java:76-86 | the second loop of getTopLevelComponents returns the first loop's result unchanged |
| Layout.TopLevelComponentsAreTopLevel | src/reghzy/breezeui/core/ContextLayoutManager.java:61-87 | the result is drawn from the input, no result element has its parent in the input, and it holds no duplicates |
| Layout.TopLevelComponentsCover | src/reghzy/breezeui/core/ContextLayoutManager.java:61-87 | every input element is in the result or reaches a result element through its ancestors in the input |
| Layout.FindTopLevel | src/reghzy/breezeui/core/ContextLayoutManager.java:67-71 | the inner while loop computes the climb, or reports a walk that would not end on a parent cycle |
| Layout.GetTopLevelComponents | src/reghzy/breezeui/core/ContextLayoutManager.java:61-87 | the two loops compute TopLevelComponents of the rearrange elements in the walk order |
| Layout.UpdateWindowLayout | src/reghzy/breezeui/window/Window.java:69-73 | the window is marked layout-dirty and measured against a rect at the origin (0, 0) with the window's width and height, so its core always runs and its rect becomes the core's result; the render set gains the window exactly when that measure queues it |
| Layout.UpdateLayout | src/reghzy/breezeui/core/ContextLayoutManager.java:104-142 | a layout-dirty window is re-laid-out alone and the render set gains the window exactly when its measure queues it; otherwise each top-level element of the rearrange set that is not updating is measured against its parent's rect, or the window's when it has no parent, and the render set gains exactly the measured elements whose measure queues them; a parent cycle changes nothing; the rearrange set is never cleared |
| Layout.MeasureTopLevel | src/reghzy/breezeui/core/ContextLayoutManager.java:111-141 | when the window is clean: the rearrange set is collapsed to its top-level elements, each measured once in order, the render set gains exactly those whose measure queues them, and nothing outside them changes |
| Layout.MeasureEach | src/reghzy/breezeui/core/ContextLayoutManager.java:113-141 | the loop skips elements that are updating, measures the others against their available rect, adds to the render set exactly the measured elements whose measure queues them, and changes no other element of the set |
| Layout.MeasureUnlessUpdating | src/reghzy/breezeui/core/ContextLayoutManager.java:113-122 | one turn of the loop: an updating element is skipped and left as it was; any other is measured against its available rect, and is added to the render set exactly when that measure queues it |
| Layout.QueuedSnoc | src/reghzy/breezeui/core/ContextLayoutManager.java:113-122 | one more turn of the loop adds at most its own element to the render requests, and adds it exactly when its measure queues it |
| PropertyRouting.MouseOverRouting | src/reghzy/breezeui/core/FrameworkElement.java:185-206 | a change of IS_MOUSE_OVER (render-affecting by its framework override) asks a FrameworkElement to re-render and re-lay-out itself and nothing else; a bare UIElement routes nothing |
| PropertyRouting.MarginRouting | src/reghzy/breezeui/core/FrameworkElement.java:185-206 | a change of MARGIN asks a FrameworkElement only for its own layout, bypass or not; a bare UIElement routes nothing |
| PropertyRouting.LayoutPropertyRouting | src/reghzy/breezeui/core/FrameworkElement.java:198-200 | the alignments and the six size properties ask a FrameworkElement for its own layout, except WIDTH and HEIGHT on an element that bypasses its measurement policies |
| PropertyRouting.ControlPropertyRouting | src/reghzy/breezeui/core/FrameworkElement.java:189-205 | CHILDREN and CONTENT carry no effect bits, so their changes route nothing beyond their callbacks |
| ContentControl.ContentValue | src/reghzy/breezeui/core/ContentControl.java:20-22 | the value setContent stores is null exactly for no content, and refers to exactly the given element otherwise |
| ContentControl.ContentOf | src/reghzy/breezeui/core/ContentControl.java:16-18 | getContent reads null as no content and an element as that element; any other stored value fails the cast with ClassCastException |
| ContentControl.ContentRoundTrip | src/reghzy/breezeui/core/ContentControl.java:16-22 | getContent after setContent(x) gives back x |
| ContentControl.ContentPlan | src/reghzy/breezeui/core/ContentControl.java:8 | storing an element or null in the Object-typed CONTENT is never converted, coerced or rejected, and notifies unless suspended |
| ContentControl.ContentChange | src/reghzy/breezeui/core/ContentControl.java:8 | a content change on a content control returns the old value, records no events, and asks exactly for onContentChanged's invalidations, or nothing when suspended |
| ContentControl.SetContent | src/reghzy/breezeui/core/ContentControl.java:20-29 | setContent stores the new value, asks the control to re-lay-out and re-render and an element content to re-lay-out (unless suspended), and touches the new content's parent nowhere |
| ContentControl.GetContent | src/reghzy/breezeui/core/ContentControl.java:16-18 | getContent returns ContentOf the stored value, and getValue fills in the stored null default |
| ContentControl.BaseInput | src/reghzy/breezeui/core/ContentControl.java:34-36 | the rect given to the inherited core is the available rect, widened to cover the content's measured rect when there is content |
| ContentControl.MeasureChild | src/reghzy/breezeui/core/ContentControl.java:34-36 | no content measures nothing; a content is measured once against the available rect, returning its layoutRect |
| ContentControl.ContentCore | src/reghzy/breezeui/core/ContentControl.java:32-39 | measureCoreLayout fails with ClassCastException on a non-element content before measuring anything; with no content it is the inherited core on the rect; otherwise the content is measured once and the inherited core gets the widened rect |
| ItemsControl.ListPlan | src/reghzy/breezeui/core/ItemsControl.java:11 | storing a list in the Collection-typed CHILDREN is never converted, coerced or rejected, and notifies unless suspended |
| ItemsControl.FreshListChange | src/reghzy/breezeui/core/ItemsControl.java:55 | replacing null by a fresh empty list returns null, validates nothing and asks only the control's own layout, or nothing when suspended |
| ItemsControl.ReadChildren | src/reghzy/breezeui/core/ItemsControl.java:53 | getValue(CHILDREN) returns the stored value, storing the null default when nothing is stored, and touches no element |
| ItemsControl.StoreFreshList | src/reghzy/breezeui/core/ItemsControl.java:55 | the first use stores a fresh empty list through setValue, with onChildrenChanged's layout request unless suspended |
| ItemsControl.ChildrenFrom | src/reghzy/breezeui/core/ItemsControl.java:53-58 | after the read: null becomes a fresh stored list, a list is returned as is, and anything else fails the Collection cast with nothing stored |
| ItemsControl.GetChildren | src/reghzy/breezeui/core/ItemsControl.java:52-59 | getChildren returns the stored list, creates and stores an empty one on first use, and fails the cast on any other stored value |
| ItemsControl.Reparent | src/reghzy/breezeui/core/UIElement.java:64-66 | setParent changes one element's parent and nothing else in the scope |
| ItemsControl.Adopt | src/reghzy/breezeui/core/ItemsControl.java:34-36 | the element's parent becomes the control, then the control and the element are each asked to re-lay-out and re-render |
| ItemsControl.AppendTo | src/reghzy/breezeui/core/ItemsControl.java:37 | ArrayList.add appends the value and touches no element and no property map |
| ItemsControl.AppendChild | src/reghzy/breezeui/core/ItemsControl.java:37 | getChildren().add(x) appends x to the stored list, or to a fresh stored list on first use, or fails the cast with nothing appended |
| ItemsControl.AddElement | src/reghzy/breezeui/core/ItemsControl.java:34-37 | for a non-null element: reparent, both visuals invalidated, then the append as AppendChild says |
| ItemsControl.AddChild | src/reghzy/breezeui/core/ItemsControl.java:30-38 | null is rejected with IllegalArgumentException before anything changes; otherwise the element's parent becomes the control, both are asked to re-lay-out and re-render, and the element is appended to the children list, created on first use; a non-list stored value fails after the invalidations |
| ItemsControl.Disown | src/reghzy/breezeui/core/ItemsControl.java:43 | setParent(null) clears one element's parent and changes no list, property map or trace |
| ItemsControl.RemoveFrom | src/reghzy/breezeui/core/ItemsControl.java:44 | ArrayList.remove deletes the first occurrence of the value and reports whether there was one |
| ItemsControl.RemoveListed | src/reghzy/breezeui/core/ItemsControl.java:44 | getChildren().remove(x) removes x's first occurrence from the stored list; a fresh list on first use removes nothing; a non-list fails the cast |
| ItemsControl.RenderIfRemoved | src/reghzy/breezeui/core/ItemsControl.java:45-47 | the control is asked to re-render exactly when something was removed |
| ItemsControl.RemoveAndRender | src/reghzy/breezeui/core/ItemsControl.java:44-49 | the removal, then the render request exactly when it removed something |
| ItemsControl.RemoveElement | src/reghzy/breezeui/core/ItemsControl.java:43-49 | for a non-null element: parent cleared, first occurrence removed, render requested iff removed |
| ItemsControl.RemoveChild | src/reghzy/breezeui/core/ItemsControl.java:40-50 | null is rejected with IllegalArgumentException before anything changes; otherwise the parent is cleared, the first occurrence removed, the control re-rendered iff removed, and the result says whether the element was in the list |
| ItemsControl.ForwardOutcome | src/reghzy/breezeui/core/ItemsControl.java:83-99 | forwarding succeeds iff there is no list or every item is an element, and then reaches every child with a layout request or a render request, never both |
| ItemsControl.ForwardTo | src/reghzy/breezeui/core/ItemsControl.java:87-89 | forEach on the children when not null fails and asks exactly as ForwardFailure and ForwardEffects say |
| ItemsControl.ReadItems | src/reghzy/breezeui/core/ItemsControl.java:86 | getValue(CHILDREN) in a hook leaves the list's items as they were |
| ItemsControl.OnInvalidated | src/reghzy/breezeui/core/ItemsControl.java:83-99 | onLayoutInvalidated / onRenderInvalidated run the inherited hook, then forward the same request to every child in order, failing at a non-list stored value or a non-element child after asking the children before it |
| Dispatch.CompletedBit | src/reghzy/breezeui/dispatcher/DispatcherOperationStatus.java:4-9 | COMPLETED_SUCCESS and COMPLETED_FAILED are distinct and both carry the COMPLETED bit, and PENDING, ABORTED and EXECUTING do not |
| Dispatch.InvokeOutcome | src/reghzy/breezeui/dispatcher/DispatcherOperation.java:58-73 | after invoke, work that throws ends COMPLETED_FAILED even when aborted; work that returns ends ABORTED exactly when abort was called before or during it, COMPLETED_SUCCESS otherwise; the abort flag is never cleared and the earlier status plays no part |
| Dispatch.InvokeIdempotent | src/reghzy/breezeui/dispatcher/DispatcherOperation.java:58-73 | invoking an operation a second time leaves it in the state the first invoke gave it |
| Dispatch.DispatcherOperation.constructor | src/reghzy/breezeui/dispatcher/DispatcherOperation.java:18-28 | a new operation keeps its priority and work and is reset: PENDING and not aborted |
| Dispatch.DispatcherOperation.Abort | src/reghzy/breezeui/dispatcher/DispatcherOperation.java:50-52 | only the abort flag is set |
| Dispatch.DispatcherOperation.Reset | src/reghzy/breezeui/dispatcher/DispatcherOperation.java:80-83 | the operation is PENDING and not aborted again |
| Dispatch.DispatcherOperation.Invoke | src/reghzy/breezeui/dispatcher/DispatcherOperation.java:58-73 | the work runs once while the status is EXECUTING, the operation ends in the AfterInvoke state, and the work's exception is rethrown to the caller |
| Dispatch.DispatcherOperation.RunWork | src/reghzy/breezeui/dispatcher/DispatcherOperation.java:61 | the work records that it ran, may abort its own operation, and throws as it is defined to |
| Dispatch.DispatcherOperation.CompareTo | src/reghzy/breezeui/dispatcher/DispatcherOperation.java:75-78 | Integer.compare of the priority ranks: -1, 0 or 1, negative iff lower rank, zero iff equal rank |
| Dispatch.CompareToOrders | src/reghzy/breezeui/dispatcher/DispatcherOperation.java:75-78 | compareTo is antisymmetric and transitive, so it orders operations by rank |
| Dispatch.Runs | src/reghzy/breezeui/dispatcher/Dispatcher.java:78-81 | invoking a list records one run per operation, in list order, each seen while EXECUTING |
| Dispatch.FailuresFacts | src/reghzy/breezeui/dispatcher/Dispatcher.java:84-88 | the keys of the errors map are exactly the operations whose work throws, each once, in the order of their first failure |
| Dispatch.AggregatedIffSomeFails | src/reghzy/breezeui/dispatcher/Dispatcher.java:92-108 | the aggregate RuntimeException is thrown exactly when some operation's work threw |
| Dispatch.ProcessOperationList | src/reghzy/breezeui/dispatcher/Dispatcher.java:76-109 | every operation is invoked in order whether or not earlier ones threw, each ends in its one-invoke state, then the aggregate is thrown iff any threw; the list is not changed |
| Dispatch.DispatchQueue.constructor | src/reghzy/breezeui/dispatcher/DispatchQueue.java:16-26 | a new queue has eight empty buckets |
| Dispatch.DispatchQueue.Buckets | src/reghzy/breezeui/dispatcher/DispatchQueue.java:32-45 | getList maps every priority to its own bucket, eight in all |
| Dispatch.DispatchQueue.Enqueue | src/reghzy/breezeui/dispatcher/DispatchQueue.java:48-53 | the operation is appended to the end of its priority's bucket and no other bucket changes |
| Dispatch.DispatchQueue.Process | src/reghzy/breezeui/dispatcher/DispatchQueue.java:56-63 | only that priority's bucket is processed, in order, through processOperationList; an empty bucket does nothing; nothing is removed from any bucket |
| Dispatch.Dispatcher.constructor | src/reghzy/breezeui/dispatcher/Dispatcher.java:21-24 | a new dispatcher is owned by the constructing thread and has a fresh empty queue |
| Dispatch.Dispatcher.InvokeAt | src/reghzy/breezeui/dispatcher/Dispatcher.java:38-48 | a new operation is created; at APP_PRE_TICK on the owning thread it is invoked at once and enqueued nowhere, a throw propagating; otherwise it is enqueued pending without running |
| Dispatch.Dispatcher.Invoke | src/reghzy/breezeui/dispatcher/Dispatcher.java:34-36 | invoke(runnable) is invoke(runnable, APP_PRE_TICK) |
| Dispatch.Dispatcher.InvokeOperation | src/reghzy/breezeui/dispatcher/Dispatcher.java:50-62 | a null operation is an IllegalArgumentException with the queue unchanged; otherwise a non-pending operation is reset (a pending one keeps its abort flag) and appended to its bucket |
| App.BatchOfFacts | src/reghzy/breezeui/dispatcher/Dispatcher.java:76-109 | processing a bucket throws iff one of its operations' work throws, and records every run in order |
| App.TickOutcomes | src/reghzy/breezeui/Application.java:82-89 | the outcomes of successive ticks: each tick ends as the buckets forecast for its close request |
| App.RunLength | src/reghzy/breezeui/Application.java:82-89 | the run performs at least one tick when given any, and never more ticks than it has close answers |
| App.RunLengthStep | src/reghzy/breezeui/Application.java:82-89 | a tick that does not run through ends the run right after it; a tick that runs through leaves the rest of the run to the remaining ticks |
| App.RunResult | src/reghzy/breezeui/Application.java:81-100 | run rethrows the exception of the batch that threw, and otherwise returns normally having performed its ticks |
| App.StopAt | src/reghzy/breezeui/Application.java:121-131 | a batch that throws, or a close request after the pre-tick bucket, ends the tick there: the trace recorded up to that stage is the whole tick |
| App.GoOn | src/reghzy/breezeui/Application.java:121-181 | a stage whose batch does not throw, not the last, is followed by the next stage |
| App.EndAt | src/reghzy/breezeui/Application.java:177-180 | the post-tick bucket, when it does not throw, ends a tick that ran through with glClear |
| App.TickPhaseOrder | src/reghzy/breezeui/Application.java:121-181 | within one tick the buckets are processed once each in rank order from APP_PRE_TICK up to the stopping bucket; a close request processes only APP_PRE_TICK and a tick that runs through processes all eight |
| App.OutcomeStops | src/reghzy/breezeui/Application.java:121-181 | a tick that ran through stops at the last bucket and one that closed at the first |
| App.OutcomeCases | src/reghzy/breezeui/Application.java:121-181 | a tick fails iff some batch throws that is reached (the pre-tick one, or any when no close request), closes iff there is a close request and the pre-tick batch does not throw, and otherwise runs through |
| App.PassedIffLater | src/reghzy/breezeui/Application.java:121-181 | a tick goes past the stage of a bucket exactly when it stops at a later one |
| App.CloseReturnsEarly | src/reghzy/breezeui/Application.java:125-131 | a close request is acted on right after the pre-tick bucket, the messages and the window's tick: shutdown posts its wake-up and nothing of input, layout or render follows |
| App.OutcomeOfSetting | src/reghzy/breezeui/Application.java:121-181 | how a tick ends depends only on the buckets' operations and the close request, not on the messages or the manager |
| App.OutcomeFromLast | src/reghzy/breezeui/Application.java:121-181 | walking the buckets from any reached stage finds where the tick stops and how |
| App.EmptyBucketsOutcome | src/reghzy/breezeui/Application.java:121-181 | with all buckets empty a tick closes on a close request and otherwise runs through |
| App.RunExitsAfterFlag | src/reghzy/breezeui/Application.java:82-89 | the loop exits after the first tick that threw or after which the shutdown flag is set, and only then; every tick before it ran through |
| App.VisitsNewestFirst | src/reghzy/breezeui/Application.java:183-189 | processMessages visits every queued message once, newest first |
| App.RenderBlocksAt | src/reghzy/breezeui/Application.java:157-163 | each element of the render loop goes through open, begin, render, close and end in five consecutive events |
| App.CurrentApplication.constructor | src/reghzy/breezeui/Application.java:33-34 | initially there is no current application |
| App.NewApplication | src/reghzy/breezeui/Application.java:33-43 | a second application is refused with UnsupportedOperationException and the current one kept; otherwise the new instance, with an empty message queue, nothing running and no dispatcher, window or manager, becomes the current one |
| App.Enumerate | src/reghzy/breezeui/Application.java:157 | a walk of a HashSet visits each member exactly once |
| App.RenderAll | src/reghzy/breezeui/Application.java:157-163 | the render loop renders each element of the render set exactly once, clearing its render-dirty flag and nothing else |
| App.RenderEach | src/reghzy/breezeui/Application.java:157-163 | the loop over a walk order renders each element once in that order |
| App.RenderElement | src/reghzy/breezeui/Application.java:158-162 | one pass opens, begins, renders, closes (clearing render-dirty) and ends the element |
| App.ProcessMarked | src/reghzy/breezeui/dispatcher/DispatchQueue.java:56-63 | one bucket's processing, after its marker, throws as its aggregate and records its runs |
| App.ProcessPhase | src/reghzy/breezeui/Application.java:121 | process(k) during a tick throws and records as the tick's setting says for bucket k |
| App.IdleStages | src/reghzy/breezeui/Application.java:177-180 | the three idle buckets in order, stopping at the first that throws, then glClear |
| App.Application.constructor | src/reghzy/breezeui/Application.java:33-43 | a new application has no dispatcher, window or manager, an empty message queue, and is neither running nor marked for shutdown |
| App.Application.PushMessageInternal | src/reghzy/breezeui/Application.java:49-54 | the message is appended to the queue and the event loop woken; nothing else changes |
| App.Application.Shutdown | src/reghzy/breezeui/Application.java:270-273 | the shutdown flag is set and a null message is queued, waking the event loop |
| App.Application.GetCurrentLayoutManager | src/reghzy/breezeui/Application.java:291-298 | an existing manager is returned as is; otherwise a fresh empty active manager is created, kept and a null message queued |
| App.Application.ProcessMessages | src/reghzy/breezeui/Application.java:183-189 | every queued message is visited, newest first, and none is removed |
| App.Application.LayoutStage | src/reghzy/breezeui/Application.java:142-149 | with a manager: made active, updateLayout, made inactive; without one nothing happens |
| App.Application.ShowMainWindow | src/reghzy/breezeui/window/Window.java:141-146 | the window is marked as never laid out, `validate(true)` is recorded, and the window is measured, dirty, against a rect at the origin (0, 0) with the window's width and height, so its core always runs and its rect becomes the core's result; the manager is fetched, and created with a null message when missing, exactly when that measure queues the window, which it then adds to the render set |
| App.Application.Run | src/reghzy/breezeui/Application.java:56-101 | a null window is refused with IllegalArgumentException before anything changes; otherwise the window is kept, a dispatcher owned by the current thread created, the window shown, and the loop runs ticks until one throws or closes the window, then the finally block stops running, disposes the window and terminates GLFW |
| App.Application.RunLoop | src/reghzy/breezeui/Application.java:81-100 | the do-while loop and its finally block: a tick that threw ends it with that error, a tick after which the flag is set ends it normally, others wait for events and go on; it performs RunLength ticks |
| App.Application.RunTicks | src/reghzy/breezeui/Application.java:82-89 | the loop after its first pass ends with the first tick that does not run through, counting the ticks, the shutdown flag set iff the last tick closed |
| App.Application.Finally | src/reghzy/breezeui/Application.java:91-100 | the application stops running, the window is disposed, GLFW is terminated |
| App.Application.LoopStep | src/reghzy/breezeui/Application.java:82-88 | one pass: the tick, then the loop ends if it threw or the flag is set, and otherwise waits for events with no manager left |
| App.Application.TickOnce | src/reghzy/breezeui/Application.java:103-181 | one tick ends as the buckets and the close request forecast, sets the flag iff it closed, and leaves no manager when it ran through |
| App.Application.Tick | src/reghzy/breezeui/Application.java:103-181 | the stages run in rank order and stop at the first batch that throws; a close request stops after the pre-tick bucket, the messages and the window's tick; the manager is updated while active and left inactive, its render set walked, and dropped once RENDER_POST has run |
| App.Application.WindowTickStage | src/reghzy/breezeui/Application.java:123-132 | every queued message is visited newest first, the window ticks, and a close request sets the shutdown flag and queues a null message, which wakes the loop; without one nothing else changes |
| App.Application.TickStages | src/reghzy/breezeui/Application.java:121-181 | the tick from APP_PRE_TICK on: the pre-tick bucket, the messages, the window's tick and close check, then the rest |
| App.Application.TickFromInput | src/reghzy/breezeui/Application.java:135-181 | the tick from INPUT_PRE on: input, layout, render, idle |
| App.Application.TickFromLayout | src/reghzy/breezeui/Application.java:137-181 | the tick from INPUT_POST on: the layout stage follows the input batch |
| App.Application.TickFromRender | src/reghzy/breezeui/Application.java:152-181 | the tick from RENDER_PRE on; the manager is dropped after RENDER_POST |
| App.Application.TickFromRenderPost | src/reghzy/breezeui/Application.java:169-181 | the tick from RENDER_POST on; the manager is dropped once RENDER_POST has run |
| App.Application.RenderStage | src/reghzy/breezeui/Application.java:152-167 | processRenderPre clears the frame, then with a manager the render loop runs with the window active and the buffers are swapped |

## Left out

- GL, GLFW and NanoVG: window creation, `glfwMakeContextCurrent`, the refresh callback, `glfwShowWindow` inside `show`, `swapBuffers`, `dispose`, `Window.app_init` and `Application.setup`. No drawing is modelled; each of these calls is at most an event in the trace.
- The startup and shutdown hooks (`onStartupStage1..3`, `onShuttingDown`, `onShutdown`): empty in the core, so they are not modelled as steps.
- Concurrency: `synchronized` blocks, `volatile` fields, and the wake-ups by `glfwPostEmptyEvent`/`glfwWaitEvents`. The model has a single thread. The owning-thread test compares a thread-id parameter.
- The static accessors `Application.current()`, `pushMessage`, `ContextLayoutManager.of()` and `DispatcherOperation.of`. The application and the layout manager are passed explicitly.
- Dispatcher work never calls back into the dispatcher, the queue or the layout. Work is a value that returns, aborts its own operation, or throws.
- App.Application.Run: the loop runs over a finite sequence of `shouldClose()` answers, so a run still going when the sequence ends is reported as such.
- App.Application.Run: the buckets stay unchanged between ticks, because nothing enqueues during a run.
- App.Application.Run: it reports the number of ticks and the error, not each tick's trace; each tick's trace is stated by `App.Application.Tick`.
- App.Application.ShowMainWindow: the definition of `validate`, which `show` calls, is not part of this model; as for `ItemsControl`, the call is an event in the trace and changes nothing else.
- App.Application.LayoutStage: it bounds the render requests of the pass by the rearrange set and the window rather than restating them; `Layout.UpdateLayout` states them exactly.
- App.Application.Tick: its contract does not restate what `updateLayout` does to the elements, or what invoking the operations does to their states. `Layout.UpdateLayout` and `Dispatch.DispatchQueue.Process` state those.
- The `mainWindow != null` test inside `tick`: `run` sets the window before the first tick, so the model requires a window.
- `processMessage`: it ignores every message, so visiting a message is an event with no effect.
- `DispatcherOperation` creation stack traces and the text of the aggregate exception: diagnostics only. The aggregate lists the failed operations (`Dispatch.FailuresFacts`).
- The `DispatcherOperation.getDispatcher`/`getRunnable` getters and the `Dispatcher.getThread`/`getQueue` getters: they are fields of the model.
- Float geometry: `Rect` coordinates are exact reals, with no NaN, infinity or rounding. `Rect.isCloseTo` uses the 1e-5 tolerance as an exact real.
- `FrameworkElement.measureCoreLayout`, `getSuitableWidth`/`getSuitableHeight` and `getAlignmentLayout`: double arithmetic. Every element's core is a supplied function, and `Control.measureCoreLayout` is the supplied `base`.
- `ItemsControl.measureCoreLayout`: it needs one measure per child against the growing rect, over the float `Rect.max`. Only the content control's single child measure is modelled.
- The `PARENT` property and its `FrameworkElement` override: `PARENT` is not declared in the shown `UIElement`.
- ClassUtils.ConvertPrimitiveTo: three number-to-floating conversions end in the error `ConversionNotModelled`, rounded or not: a finite `Double` to `float` (even an exact one such as 0.5), an integer outside ±2^24 to `float`, and an integer outside ±2^53 to `double` (even an exactly representable one such as 2^25). Modelled are: integers within those bounds to `float` and `double`, a `Float` to either, a non-finite `Double` to `float`, a `Double` to `double`, every number to an integral type, `boolean` or `char`, every `Boolean`, and the null, non-primitive and cast-failure cases.
- The reflection-based `ClassUtils` helpers (`istEineInstanz*`, identifier checks, class names): reflection and Unicode tables.
- Coerce callbacks are pure functions of (property, owner, value). A callback with side effects is not modelled.
- Change callbacks other than the framework's two (`CONTENT` and `CHILDREN`): one event records the call, and they change nothing else.
- ItemsControl.AddChild, ItemsControl.RemoveChild: they do not state that a valid property store stays valid. `Properties.DependencyObject.SetValue` and `Elements.SetElementValue` do.
- Layout.UpdateWindowLayout, Layout.UpdateLayout, App.Application.ShowMainWindow: the rect the window is measured against is a `WindowRect`, whose origin is (0, 0) as in `new Rect(0, 0, size)`, but whose width and height are a parameter standing for `getWidth()` and `getHeight()`. Those read the window's `WIDTH` and `HEIGHT` doubles, which are NaN while unset and so cannot be a rect of exact reals; the read through `getValue`, and the default it stores into the window's property map when unset, are not modelled.
- Layout.UpdateLayout: when the main window is itself in the rearrange set, a parentless element is measured against the window's `layoutRect` as it stands at that point of the loop, which the window's own measure earlier in the same pass may have changed; the contract states the rect only for elements with a parent, or when the window is not in the set.
- StringUtils: Java strings are sequences of UTF-16 code units and the splits compare code units; the model's strings are sequences of Unicode scalar values, so a character outside the Basic Multilingual Plane is one `char` here and two code units in Java, and a lone surrogate cannot be searched for.
- Layout.GetTopLevelComponents: a parent cycle inside the rearrange set makes the source loop forever. The model's walk stops after as many steps as the set has elements and reports `WalkDiverges`; `Layout.ClimbDivergesOnCycle` shows that nothing but such a cycle stops it.
- The `Linq` members outside the modelled core: `random*`, `min`/`max`/`minDelta`/`maxDelta`, `toDoubles`, `sort*`, `pairMap`/`toMap*`, `classes`/`getTypeForElements`/`cast`/`instanceOf`, `getPrefixedRepresentation` and `copyTo`. They use randomness, floats, library sorting, hash maps and reflection.
- `DoubleAggregateOperator`, `Tuple2`, `Validate`, `Colour`, `Thickness`, `MinMax`, `Control` and `Rectangle`: floats, trivial wrappers, or drawing only.
- `Window.processSizeChanged`: window code, and only a use of `suspend`/`unsuspend`.
- Null descriptors and null owners passed to the property system: not representable, because descriptors and objects are references.

## Findings

| source | as written | input that shows it | evidently intended | confidence | as-written member | corrected member |
|---|---|---|---|---|---|---|
| src/reghzy/breezeui/utils/ObjUtils.java:50-68 | the Object-varargs `equals(source, targets...)` ends with `return true`, so it is true for every input | source `1`, targets `2, null`: no target matches, yet the result is true | true iff the source is among the targets (a null source matching a null target), false when the loops find nothing, like the tester overload at lines 105-124 | not executed | ObjUtils.EqualsVarargsAsWritten (shown by ObjUtils.EqualsVarargsAsWrittenMatchesNothing) | ObjUtils.EqualsVarargs (agreeing with the fixed-arity overloads by ObjUtils.FixedArityAgreesWithVarargs) |
