# Rokit event buses, modelled in Dafny

Rokit is an in-process event bus for Java. Its repository holds several
generations of the bus. Each keeps a table from event type to a list of bound
handlers ("consumers" or "listeners") and offers `subscribe`, `unsubscribe`,
`isSubscribed` and `post`. Each generation has its own rules for ordering and
removal. This project models each generation as its own state machine and
proves what its operations promise.

| module | what it models |
|---|---|
| `JavaModel` | optional values, `int`/`long` arithmetic with wrap-around, class objects with an assignability relation, runtime values, exceptions |
| `PriorityOrder` | lists in non-increasing priority; the stable sort of `List.sort`/`Stream.sorted` with a reversed `comparingInt(getPriority)`; `List.remove(Object)`; filtering |
| `JavaStrings` | `indexOf`/`lastIndexOf`/`substring`, `String.compareTo`, and the sort of distinct names |
| `Delivery` | in-order delivery of one event to a list of targets, stopping at the first exception |
| `Annotations` | handler discovery: declared methods with their annotations in declaration order |
| `Reflect` | `Method.invoke`: argument-count and argument-type checks, and the wrapping of what the body throws |
| `ReflectionUtil` | `toNonPrimitive`, the boxing table |
| `EventRegistry` | the index-based registry of `rokit-core`: one slot per catalogued event type, a backing list and a published snapshot per slot |
| `EventBusBuilder`, `ProviderBuilder` | the wrapper table builder and the provider-slot builder of `rokit-core` |
| `BaseEventConsumer`, `DefaultListenerHandler` | the consumer invocation and event-unwrapping protocol of `rokit-api` |
| `EventModel`, `ProcessorHelpers`, `GenericPayloadBinder` | the annotation processor's event model and pure helpers: FNV-1a, stable ids, event-id assignment, type-name string functions, the generic payload binder |
| `GeneratedDispatcher` | the copy-on-write dispatcher the processor emits: three parallel arrays per bucket, `findInsertPos`, `add`, `remove`, `dispatch`, and the per-subscriber removal bookkeeping |
| `SrcEventBus`, `SrcConsumers` | the reflective `EventBus` of the original library and its consumer classes (`EventConsumerImpl`, `BiEventConsumer`, `MultiEventConsumer`) |
| `ImperativeEventBus` | the bus that re-sorts its lists after each `add` |
| `ClassicListener`, `FunctionalEventBus` | the classic API's listener objects and its append-only bus |
| `ImplListener`, `EventBusImpl` | the hand-built `Listener`, its `Builder`, `Subscriber`, and the bus that takes listeners from a `SubscriberObject` |

Handler bodies are opaque: a handler is an id, and what it throws when called
is a parameter (`outcome` or `bodies`). A call that reaches a body is recorded
in a trace. Class objects are values of a datatype. A class table gives
`isAssignableFrom`. Priorities are 32-bit integers.

The generations break ties among equal priorities differently:
- The registry and the `src` `EventBus` are oldest-first: they append, then run a stable sort.
- `ImperativeEventBus` is also oldest-first: it appends, then sorts the list in place with a stable sort.
- The emitted dispatcher is newest-first: `findInsertPos` returns the leftmost position whose priority is at most the newcomer's (`GeneratedDispatcher.TieBreakDiffers`).
- `FunctionalEventBus` and `EventBusImpl` only append, with no ordering at all.

Where the code and its documentation differ, the model follows the code. Three cases:
- The Javadoc of the `src` `EventBus` describes handlers as one-parameter methods. The code's parameter-count filter is commented out, so a handler without parameters fails at `getParameterTypes()[0]`.
- `FunctionalEventBus.unsubscribe` compares the listener object with the subscriber, not the listener's instance. It therefore removes nothing, and `post` still reaches an unsubscribed object.
- `ImperativeEventBus.isSubscribed` always answers false.

## Model

| member | source | states |
|---|---|---|
| ReflectionUtil.ToNonPrimitive | src/main/java/bot/staro/rokit/utils/ReflectionUtil.java:21-24 | a reference class comes back unchanged; each of the eight tabled primitives maps to a reference class (its box); `void` maps to `null` |
| ReflectionUtil.BoxesDistinct | src/main/java/bot/staro/rokit/utils/ReflectionUtil.java:6-15 | the box table is injective: two distinct tabled primitives never share a box |
| ReflectionUtil.ToNonPrimitiveIdempotent | src/main/java/bot/staro/rokit/utils/ReflectionUtil.java:21-24 | every defined result is a reference class, so boxing it again returns it unchanged |
| Reflect.Invoke | rokit-api/src/main/java/bot/staro/rokit/impl/BaseEventConsumer.java:62-80 | the reflective call reaches the handler body at most once, exactly when the method is accessible, the receiver is non-null and every argument fits its parameter; a null receiver throws `NullPointerException` before the access check; once the call is made, what is thrown is exactly the body's exception wrapped in `InvocationTargetException`, or nothing when the body completes |
| BaseEventConsumer.PrimitiveExtraRejected | rokit-api/src/main/java/bot/staro/rokit/impl/BaseEventConsumer.java:84-93 | a non-null extra for a primitive parameter always fails the type check, because `isInstance` on a primitive class is false |
| BaseEventConsumer.InvokeStep | rokit-api/src/main/java/bot/staro/rokit/impl/BaseEventConsumer.java:60-82 | a one-parameter handler gets the event alone, by exactly the call `Invoke(handler, listener, [event])`; with no wrapper, a wrong number of extras or an extra of the wrong type the handler is skipped silently; when the wrapper yields the right number of extras of the right types, the call made is exactly `Invoke(handler, listener, [event] ++ extras)` |
| BaseEventConsumer.SingleParamIgnoresWrappers | rokit-api/src/main/java/bot/staro/rokit/impl/BaseEventConsumer.java:61-64 | a one-parameter handler behaves the same whatever wrapper table the bus holds |
| BaseEventConsumer.HandleException | rokit-api/src/main/java/bot/staro/rokit/impl/BaseEventConsumer.java:54-58 | always a RuntimeException: an `InvocationTargetException` gives "Listener threw" with its cause, anything else "Failed to invoke listener" wrapping it |
| BaseEventConsumer.AcceptSpec | rokit-api/src/main/java/bot/staro/rokit/impl/BaseEventConsumer.java:31-43 | a `preInvoke` that throws escapes as it is, unwrapped, and nothing else runs; a false `preInvoke` calls nothing and skips `postInvoke`; after a true one, `postInvoke` runs exactly when `invoke` completed; a failure of `invoke` is thrown as `handleException` of it, and a failure of `postInvoke` after a clean `invoke` as `handleException` of that one; nothing is thrown otherwise |
| BaseEventConsumer.BuildArgs | rokit-api/src/main/java/bot/staro/rokit/impl/BaseEventConsumer.java:76-78 | the fresh argument array has length `|extras| + 1` and holds `[event] ++ extras` |
| BaseEventConsumer.ValidateTypes | rokit-api/src/main/java/bot/staro/rokit/impl/BaseEventConsumer.java:84-94 | the early-exit loop returns exactly the predicate "every argument after the event is null or an instance of its declared type" |
| BaseEventConsumer.InvokeConsumer | rokit-api/src/main/java/bot/staro/rokit/impl/BaseEventConsumer.java:60-82 | the step-by-step `invoke` equals `InvokeStep` on the bus's wrapper table |
| BaseEventConsumer.Accept | rokit-api/src/main/java/bot/staro/rokit/impl/BaseEventConsumer.java:31-43 | the step-by-step `accept` equals `AcceptSpec` |
| DefaultListenerHandler.Rethrow | rokit-api/src/main/java/bot/staro/rokit/impl/DefaultListenerHandler.java:58-60 | an `IllegalAccessException` or `InvocationTargetException` is rethrown as RuntimeException("Failed to invoke listener"); any other exception escapes unchanged |
| DefaultListenerHandler.AnonAccept | rokit-api/src/main/java/bot/staro/rokit/impl/DefaultListenerHandler.java:31-61 | a one-parameter handler gets the event alone; no wrapper or a wrong number of extras skips silently; otherwise `[event] ++ extras` goes to the reflective call with no type check of its own; once the call is made, `accept` throws exactly when the body throws, and what it throws is `RuntimeException("Failed to invoke listener")` whose cause is the body's exception wrapped in `InvocationTargetException` |
| DefaultListenerHandler.PrimitiveExtraDiffers | rokit-api/src/main/java/bot/staro/rokit/impl/DefaultListenerHandler.java:51-56 | a handler `(Event, int)` fed a boxed Integer is skipped by BaseEventConsumer but called by the anonymous consumer, which leaves type checks to `Method.invoke` |
| DefaultListenerHandler.Accept | rokit-api/src/main/java/bot/staro/rokit/impl/DefaultListenerHandler.java:31-61 | the step-by-step anonymous `accept` equals `AnonAccept` |
| DefaultListenerHandler.CreateConsumer | rokit-api/src/main/java/bot/staro/rokit/impl/DefaultListenerHandler.java:19-82 | the returned consumer reports the given instance, priority and event type, and that same consumer is registered once: the slot becomes the stable descending sort of the old slot plus it; a type outside the catalog and every other slot are untouched |
| EventRegistry.Registry.EventId | rokit-core/src/main/java/bot/staro/rokit/EventRegistry.java:30 | the catalogued id of a class, and -1 exactly for a class outside the catalog |
| EventRegistry.Registry.constructor | rokit-core/src/main/java/bot/staro/rokit/EventRegistry.java:17-26 | N slots, each with an empty list and an empty snapshot array, and an empty wrapper table |
| EventRegistry.Registry.Post | rokit-core/src/main/java/bot/staro/rokit/EventRegistry.java:29-37 | a catalogued event class calls `accept` on the slot's current array in order, stopping at the first throw; an uncatalogued class calls nothing; a null event fails before any call |
| EventRegistry.Registry.InternalRegister | rokit-core/src/main/java/bot/staro/rokit/EventRegistry.java:51-59 | the slot becomes the stable descending-priority sort of old list plus `c`, the array is republished equal to it, every other slot is untouched, and a negative id changes nothing |
| EventRegistry.Registry.InternalUnregister | rokit-core/src/main/java/bot/staro/rokit/EventRegistry.java:61-69 | the slot loses only the first element equal to `c`; an absent `c` or a negative id leaves list and array untouched; other slots are untouched |
| EventRegistry.Registry.GetWrapper | rokit-core/src/main/java/bot/staro/rokit/EventRegistry.java:71-74 | the wrapper registered for the type, or null when none is |
| EventRegistry.RegisterPlacement | rokit-core/src/main/java/bot/staro/rokit/EventRegistry.java:51-58 | registering in a sorted slot grows it by one, keeps it sorted and a permutation of old plus new, and places the newcomer after every equal-or-higher priority and before every lower one (ties oldest-first) |
| EventRegistry.UnregisterShape | rokit-core/src/main/java/bot/staro/rokit/EventRegistry.java:64-67 | removal drops exactly the first occurrence, shortening the list by one and keeping the rest in order; an absent consumer leaves the list as it was |
| EventRegistry.RegisterThenUnregister | rokit-core/src/main/java/bot/staro/rokit/EventRegistry.java:51-69 | registering a consumer the sorted slot does not hold and then unregistering it restores the slot |
| EventBusBuilder.Builder.constructor | rokit-core/src/main/java/bot/staro/rokit/EventBusBuilder.java:32-37 | a new builder has an empty wrapper table |
| EventBusBuilder.Builder.Wrap | rokit-core/src/main/java/bot/staro/rokit/EventBusBuilder.java:39-42 | stores the wrapper under the type, replacing any earlier entry, and returns the same builder |
| EventBusBuilder.Builder.WrapSingle | rokit-core/src/main/java/bot/staro/rokit/EventBusBuilder.java:44-47 | writes into the same table as `wrap`, replacing any earlier entry, and returns the same builder |
| EventBusBuilder.Builder.Build | rokit-core/src/main/java/bot/staro/rokit/EventBusBuilder.java:49-53 | a fresh bus with empty slots whose wrapper table holds exactly the builder's entries |
| EventBusBuilder.Table | rokit-core/src/main/java/bot/staro/rokit/EventBusBuilder.java:39-47 | after a series of `wrap`/`wrapSingle` calls, the table's keys are exactly the types some call named |
| EventBusBuilder.LastCallWins | rokit-core/src/main/java/bot/staro/rokit/EventBusBuilder.java:39-47 | the last call for a type decides its wrapper, whatever came before |
| EventBusBuilder.BuildAfter | rokit-core/src/main/java/bot/staro/rokit/EventBusBuilder.java:39-53 | the built bus's `getWrapper` returns the last wrapper given for each type and null for a type no call named |
| ProviderBuilder.Placed | rokit-core/src/main/java/bot/staro/rokit/Builder.java:10-16 | after `withProvider(id, s)` the size is max(old size, id + 1), slot `id` holds `s`, other old slots are kept and new padding slots are null |
| ProviderBuilder.PlacedOverwrites | rokit-core/src/main/java/bot/staro/rokit/Builder.java:15 | a later call with the same id overwrites the slot |
| ProviderBuilder.PlacedKeepsOthers | rokit-core/src/main/java/bot/staro/rokit/Builder.java:10-16 | calls for two different ids both survive |
| ProviderBuilder.Builder.constructor | rokit-core/src/main/java/bot/staro/rokit/Builder.java:8 | the slot list starts empty |
| ProviderBuilder.Builder.WithProvider | rokit-core/src/main/java/bot/staro/rokit/Builder.java:10-17 | returns this builder; a negative id (and the largest int, whose `id + 1` wraps) fails on `set` with the list unpadded, otherwise the list becomes `Placed` of the old one |
| ProviderBuilder.Builder.Build | rokit-core/src/main/java/bot/staro/rokit/Builder.java:19-21 | hands the slots over in index order |
| EventModel.GenericArgumentFqn | rokit-processor/src/main/java/bot/staro/rokit/processor/EventListenerProcessor.java:927-938 | a name without '<' gives `java.lang.Object`, and the result is never the wildcard `?` |
| EventModel.GenericArgumentOfParameterized | rokit-processor/src/main/java/bot/staro/rokit/processor/EventListenerProcessor.java:923-938 | `Name<Arg>` is generic and its argument is exactly `Arg`, nested arguments included, with a wildcard read as `java.lang.Object` |
| EventModel.PlainNameNotGeneric | rokit-processor/src/main/java/bot/staro/rokit/processor/EventListenerProcessor.java:923-937 | a name with no '<' is not generic and its argument is `java.lang.Object` |
| EventModel.KeyLessStrictTotal | rokit-processor/src/main/java/bot/staro/rokit/processor/EventListenerProcessor.java:965 | ordering bucket keys by signature key, then condition key, is a strict total order |
| EventModel.Model.constructor | rokit-processor/src/main/java/bot/staro/rokit/processor/EventListenerProcessor.java:912-921 | a new event model has the given event name and empty guard, extractor, signature and bucket tables |
| EventModel.Model.RegisterGuard | rokit-processor/src/main/java/bot/staro/rokit/processor/EventListenerProcessor.java:940-945 | the first declared type of a guard is kept; a later different type throws the "conflicting types" IllegalStateException, and nothing else changes |
| EventModel.Model.RegisterExtractor | rokit-processor/src/main/java/bot/staro/rokit/processor/EventListenerProcessor.java:947-954 | the first extractor under a local name is kept; a later one with a different type or initializer throws "Extractor ... mismatch.", and nothing else changes |
| EventModel.Model.AddListener | rokit-processor/src/main/java/bot/staro/rokit/processor/EventListenerProcessor.java:956-961 | the signature is recorded once in insertion order; the listener's bucket becomes the stable descending sort of its old contents plus the listener; a new bucket key goes to the end of the key order; every bucket stays sorted |
| EventModel.Model.AddSignature | rokit-processor/src/main/java/bot/staro/rokit/processor/EventListenerProcessor.java:957 | the signature list stays without repeats and gains the key at its end only when it was absent |
| EventModel.Model.AddToBucket | rokit-processor/src/main/java/bot/staro/rokit/processor/EventListenerProcessor.java:958-960 | the bucket is created if absent, then becomes the stable descending sort of old contents plus the listener; other tables are untouched |
| EventModel.Model.OrderedBucketKeys | rokit-processor/src/main/java/bot/staro/rokit/processor/EventListenerProcessor.java:963-967 | every bucket key exactly once, strictly ascending by signature key, then condition key |
| EventModel.AppendSorted | rokit-processor/src/main/java/bot/staro/rokit/processor/EventListenerProcessor.java:959-960 | appending then sorting a sorted bucket keeps it sorted and inserts the listener after every listener of equal or higher priority |
| ProcessorHelpers.Fnv1aTestVectors | rokit-processor/src/main/java/bot/staro/rokit/processor/EventListenerProcessor.java:732-740 | the 64-bit FNV-1a offset basis and prime: the empty string hashes to 0xcbf29ce484222325 and "a" to 0xaf63dc4c8601ec8c, the published test vectors |
| ProcessorHelpers.Fnv1aLoop | rokit-processor/src/main/java/bot/staro/rokit/processor/EventListenerProcessor.java:732-740 | the xor-then-multiply loop over the 16-bit code units, wrapping modulo 2^64, equals the FNV-1a hash of the string |
| ProcessorHelpers.StableId | rokit-processor/src/main/java/bot/staro/rokit/processor/EventListenerProcessor.java:867-876 | the id is the FNV-1a hash of `owner#method(event\|signature)`, so it depends on those four strings alone |
| ProcessorHelpers.Raw | rokit-processor/src/main/java/bot/staro/rokit/processor/EventListenerProcessor.java:818-821 | the longest prefix of the name free of '<': the whole name when it has no '<', otherwise the text before its first '<' |
| ProcessorHelpers.RawOfParameterized | rokit-processor/src/main/java/bot/staro/rokit/processor/EventListenerProcessor.java:818-821 | the raw name of `Name<Args` is `Name` |
| ProcessorHelpers.SimpleName | rokit-processor/src/main/java/bot/staro/rokit/processor/EventListenerProcessor.java:813-816 | the longest suffix free of '.': the whole name when it has no '.', otherwise the text after its last '.' |
| ProcessorHelpers.SimpleNameOfQualified | rokit-processor/src/main/java/bot/staro/rokit/processor/EventListenerProcessor.java:813-816 | the simple name of `pkg.Name` is `Name` |
| ProcessorHelpers.SanitizeFqn | rokit-processor/src/main/java/bot/staro/rokit/processor/EventListenerProcessor.java:700-702 | same length; an ASCII letter, digit or '_' is kept and every other character, '.' included, becomes '_' |
| ProcessorHelpers.SanitizeFqnIdempotent | rokit-processor/src/main/java/bot/staro/rokit/processor/EventListenerProcessor.java:700-702 | sanitizing twice is sanitizing once |
| ProcessorHelpers.IdsFollowNameOrder | rokit-processor/src/main/java/bot/staro/rokit/processor/EventListenerProcessor.java:247-252 | ids that number a strictly ascending name list in order follow the string order of the names |
| ProcessorHelpers.SortedNames | rokit-processor/src/main/java/bot/staro/rokit/processor/EventListenerProcessor.java:247-248 | sorting distinct names yields each of them once, in strictly ascending order |
| ProcessorHelpers.NumberInOrder | rokit-processor/src/main/java/bot/staro/rokit/processor/EventListenerProcessor.java:249-252 | the numbering loop gives the i-th name id i and maps no other name |
| ProcessorHelpers.AssignEventIds | rokit-processor/src/main/java/bot/staro/rokit/processor/EventListenerProcessor.java:247-252 | the ids are a bijection from the event names onto [0, N) that follows the names' string order |
| JavaStrings.IndexOf | rokit-processor/src/main/java/bot/staro/rokit/processor/EventListenerProcessor.java:818-821 | `indexOf`: -1 exactly when the character is absent, otherwise a position holding it with no earlier occurrence |
| JavaStrings.LastIndexOf | rokit-processor/src/main/java/bot/staro/rokit/processor/EventListenerProcessor.java:813-816 | `lastIndexOf`: -1 exactly when the character is absent, otherwise a position holding it with no later occurrence |
| JavaStrings.StrLessStrictTotal | rokit-processor/src/main/java/bot/staro/rokit/processor/EventListenerProcessor.java:248 | `String.compareTo` ordering is irreflexive, transitive and total on distinct strings |
| JavaStrings.SortByCorrect | rokit-processor/src/main/java/bot/staro/rokit/processor/EventListenerProcessor.java:248 | sorting distinct elements under a strict total order yields a permutation that is strictly ascending |
| PriorityOrder.TiesEnd | rokit-core/src/main/java/bot/staro/rokit/EventRegistry.java:55-56 | the number of leading elements whose priority is at least `p`: every one before it is `>= p`, the one at it is `< p` |
| PriorityOrder.StableSortDescCorrect | rokit-core/src/main/java/bot/staro/rokit/EventRegistry.java:56 | the stable descending sort yields a non-increasing permutation of its input |
| PriorityOrder.StableSortDescOfSorted | rokit-core/src/main/java/bot/staro/rokit/EventRegistry.java:56 | sorting an already non-increasing list leaves it unchanged |
| PriorityOrder.AppendThenSort | rokit-core/src/main/java/bot/staro/rokit/EventRegistry.java:55-56 | appending to a sorted list and sorting stably places the newcomer after every element of equal or higher priority and keeps the list sorted |
| PriorityOrder.RemoveFirstShape | rokit-core/src/main/java/bot/staro/rokit/EventRegistry.java:65 | `List.remove(Object)` drops exactly the first occurrence and keeps the rest in order; an absent element leaves the list unchanged |
| PriorityOrder.RemoveFirstSorted | rokit-core/src/main/java/bot/staro/rokit/EventRegistry.java:65 | removing an element from a sorted list keeps it sorted |
| PriorityOrder.InsertThenRemove | rokit-core/src/main/java/bot/staro/rokit/EventRegistry.java:51-68 | inserting an absent element by stable sort and removing it again restores the list |
| PriorityOrder.Filter | src/main/java/bot/staro/rokit/EventBus.java:77-78 | the filtered list keeps exactly the elements satisfying the predicate, and is no longer than the input |
| PriorityOrder.FilterSorted | src/main/java/bot/staro/rokit/EventBus.java:77-78 | filtering a non-increasing list keeps it non-increasing |
| PriorityOrder.FilterKeepsAll | src/main/java/bot/staro/rokit/EventBus.java:77-78 | a filter that every element passes returns the list unchanged |
| PriorityOrder.FilterFilter | src/main/java/bot/staro/rokit/EventBus.java:77-78 | filtering twice equals filtering once by the conjunction of the two predicates |
| PriorityOrder.FilterSame | src/main/java/bot/staro/rokit/EventBus.java:77-78 | two predicates that agree on every element give the same filtered list |
| PriorityOrder.FilterCount | src/main/java/bot/staro/rokit/impl/ImperativeEventBus.java:73 | a kept element keeps all its copies; a dropped one has none left |
| SrcEventBus.ListeningMethods | src/main/java/bot/staro/rokit/EventBus.java:95-101 | the declared methods carrying an annotation with a registered factory, in declared order, and only those (no parameter-count filter) |
| SrcEventBus.AddConsumer | src/main/java/bot/staro/rokit/EventBus.java:59-63 | a new class gets the list `[l]`; an existing list gains `l` as a permutation, stays non-increasing, and on a sorted list `l` lands after every consumer of equal or higher priority; other classes are untouched |
| SrcEventBus.AppendSorted | src/main/java/bot/staro/rokit/EventBus.java:61-62 | concatenation then stable sort is a non-increasing permutation of old list plus newcomer, placing it after equal priorities |
| SrcEventBus.SubscribeAllSnoc | src/main/java/bot/staro/rokit/EventBus.java:48-66 | loop-step helper: one more handler method extends the loop by one `SubscribeOne` step, unless an earlier step threw |
| SrcEventBus.SubscribeAllStops | src/main/java/bot/staro/rokit/EventBus.java:51-66 | once a method has thrown (no parameters, so `getParameterTypes()[0]` fails), later methods are not visited and the earlier changes stay |
| SrcEventBus.Without | src/main/java/bot/staro/rokit/EventBus.java:77-79 | exactly `Filter(list, OtherThan(subscriber))`: the consumers whose instance is not the subscriber, in their order and with every copy; a consumer with a null instance makes the filter throw |
| SrcEventBus.WithoutSorted | src/main/java/bot/staro/rokit/EventBus.java:77-79 | the filter keeps the survivors in order, so a list sorted by priority stays sorted |
| SrcEventBus.UnsubscribeOne | src/main/java/bot/staro/rokit/EventBus.java:76-79 | fails for a method without parameters; otherwise only the list of the method's event class may change, and the key set is unchanged (`computeIfPresent`) |
| SrcEventBus.UnsubscribeAllStops | src/main/java/bot/staro/rokit/EventBus.java:75-80 | once a step has thrown, later methods are not visited |
| SrcEventBus.IsSubscribedIn | src/main/java/bot/staro/rokit/EventBus.java:91-93 | key presence in the subscriptions table; a null subscriber throws |
| SrcEventBus.Bus.constructor | src/main/java/bot/staro/rokit/EventBus.java:27-29 | the bus holds a copy of the factory table and empty listener and subscription tables |
| SrcEventBus.Bus.Post | src/main/java/bot/staro/rokit/EventBus.java:36-39 | the consumers under the event's exact runtime class, once each in list order, stopping at the first throw; an unregistered class reaches nobody; a null event throws |
| SrcEventBus.Bus.Subscribe | src/main/java/bot/staro/rokit/EventBus.java:47-67 | the new state and exception are those of `SubscribeSpec`: null throws; each listening method in turn adds its consumer and records its class, and the first failing method ends the loop |
| SrcEventBus.Bus.Unsubscribe | src/main/java/bot/staro/rokit/EventBus.java:74-83 | the new state and exception are those of `UnsubscribeSpec`: each listening method's class list is filtered, then the subscription record is removed |
| SrcEventBus.Bus.IsSubscribed | src/main/java/bot/staro/rokit/EventBus.java:91-93 | equals `IsSubscribedIn` on the bus state |
| SrcEventBus.Builder.constructor | src/main/java/bot/staro/rokit/EventBus.java:119-127 | the factory table maps the `Listener` annotation to the default factory |
| SrcEventBus.Builder.RegisterListenerFactory | src/main/java/bot/staro/rokit/EventBus.java:136-140 | puts the factory, replacing one for the same annotation, and returns the same builder |
| SrcEventBus.Builder.Build | src/main/java/bot/staro/rokit/EventBus.java:147-149 | a fresh bus holding the whole factory table, with empty tables |
| SrcEventBus.SubscribeAllSorted | src/main/java/bot/staro/rokit/EventBus.java:59-63 | every step of `subscribe` keeps every list non-increasing |
| SrcEventBus.SubscribeKeepsSorted | src/main/java/bot/staro/rokit/EventBus.java:47-67 | after `subscribe`, every list is in non-increasing priority order |
| SrcEventBus.UnsubscribeAllSorted | src/main/java/bot/staro/rokit/EventBus.java:75-80 | every step of `unsubscribe` keeps every list non-increasing |
| SrcEventBus.UnsubscribeKeepsSorted | src/main/java/bot/staro/rokit/EventBus.java:74-83 | after `unsubscribe`, every list is still in non-increasing priority order |
| SrcEventBus.SubscribeAllRecords | src/main/java/bot/staro/rokit/EventBus.java:56-64 | a completed `subscribe` that bound a method records the subscriber, with every bound method's event class |
| SrcEventBus.SubscribedIffBound | src/main/java/bot/staro/rokit/EventBus.java:64-93 | `isSubscribed` is true after a completed `subscribe` that bound at least one method and false after a completed `unsubscribe` |
| SrcEventBus.UnsubscribeAllRemoves | src/main/java/bot/staro/rokit/EventBus.java:75-80 | after the completed loop no list of a handler method's class holds a consumer of the subscriber, and the key set is unchanged |
| SrcEventBus.UnsubscribeRemovesAll | src/main/java/bot/staro/rokit/EventBus.java:74-83 | a completed `unsubscribe` leaves no consumer of the subscriber in its handler classes' lists; each such list becomes exactly its filter by `OtherThan(subscriber)` (order and copies kept), every other list is unchanged, the key set is kept and the subscription record is removed |
| SrcEventBus.UnsubscribeAllFilters | src/main/java/bot/staro/rokit/EventBus.java:74-83 | a loop over handler methods that completes keeps the key set, leaves every list of a handled class as its filter by `OtherThan(subscriber)` (however many methods handle that class) and every other list unchanged |
| SrcEventBus.SubscribeTwiceDuplicates | src/main/java/bot/staro/rokit/EventBus.java:47-66 | with no already-subscribed check, subscribing twice puts the consumer into the list twice |
| SrcConsumers.NewSingle | src/main/java/bot/staro/rokit/impl/EventConsumerImpl.java:25-49 | the consumer is built exactly for a one-parameter handler and reports the given instance, method and priority; otherwise the lambda lookup fails with an IllegalStateException |
| SrcConsumers.NewBi | src/main/java/bot/staro/rokit/impl/BiEventConsumer.java:22-48 | built exactly for a two-parameter handler, with `type` the second declared parameter type and the given wrapper |
| SrcConsumers.NewMulti | src/main/java/bot/staro/rokit/impl/MultiEventConsumer.java:24-51 | built for a handler of two or more parameters, with `types` the declared parameter types after the event, in order |
| SrcConsumers.InvokeSingle | src/main/java/bot/staro/rokit/impl/EventConsumerImpl.java:51-54 | the handler is called once with the event alone, and its exception is thrown as it is |
| SrcConsumers.InvokeBi | src/main/java/bot/staro/rokit/impl/BiEventConsumer.java:50-58 | the wrapper is asked once; the handler gets `(event, extra)` exactly when the extra's runtime class is `type` itself; a null extra throws; any other class is skipped |
| SrcConsumers.BiSkipsSubclass | src/main/java/bot/staro/rokit/impl/BiEventConsumer.java:53-55 | an instance of a proper subclass of `type` is skipped although the handler could accept it |
| SrcConsumers.Add | src/main/java/bot/staro/rokit/impl/MultiEventConsumer.java:77-81 | one element longer, with `o` first and the array's elements after it in order |
| SrcConsumers.CheckFrom | src/main/java/bot/staro/rokit/impl/MultiEventConsumer.java:60-64 | passes exactly when every extra is an instance of its boxed declared type; a `void` type throws |
| SrcConsumers.Rewrap | src/main/java/bot/staro/rokit/impl/MultiEventConsumer.java:71-73 | an access or target exception becomes a RuntimeException caused by it |
| SrcConsumers.MultiOutcome | src/main/java/bot/staro/rokit/impl/MultiEventConsumer.java:53-75 | a wrong extras count is skipped; a call happens only after all type checks pass; one extra goes to the two-argument lambda as `(event, extra)`, more go to the reflective call with `[event] ++ extras`, and once that call is made the consumer throws exactly the body's exception, wrapped and re-wrapped, or nothing |
| SrcConsumers.MultiSkipsNull | src/main/java/bot/staro/rokit/impl/MultiEventConsumer.java:60-64 | a null extra is never delivered, since `isInstance(null)` is false |
| SrcConsumers.InvokeMulti | src/main/java/bot/staro/rokit/impl/MultiEventConsumer.java:53-75 | the loop with early returns equals `MultiOutcome` |
| SrcConsumers.Equals | src/main/java/bot/staro/rokit/impl/EventConsumerImpl.java:71-83 | true for the same object and false for null; otherwise true exactly when the runtime classes match, the instances are equal and the methods are equal; a null instance throws |
| SrcConsumers.EqualsSymmetric | src/main/java/bot/staro/rokit/impl/EventConsumerImpl.java:71-83 | `equals` is symmetric between consumers with non-null instances |
| SrcConsumers.SameFieldsSameHash | src/main/java/bot/staro/rokit/impl/EventConsumerImpl.java:85-88 | `hashCode` reads only the instance and the method |
| SrcConsumers.EqualsThenSameHash | src/main/java/bot/staro/rokit/impl/EventConsumerImpl.java:85-88 | equal consumers hash alike, so `hashCode` is consistent with `equals` |
| ImperativeEventBus.RegisteredCount | src/main/java/bot/staro/rokit/impl/ImperativeEventBus.java:91-92 | how many of a method's annotations have a factory: positive exactly when some annotation has one |
| ImperativeEventBus.ListeningMethods | src/main/java/bot/staro/rokit/impl/ImperativeEventBus.java:88-99 | every listed method has exactly one parameter and a registered annotation |
| ImperativeEventBus.ListeningMethodsMembers | src/main/java/bot/staro/rokit/impl/ImperativeEventBus.java:88-99 | a method is listed exactly when it is declared, has one parameter and carries a registered annotation |
| ImperativeEventBus.ListedOncePerAnnotation | src/main/java/bot/staro/rokit/impl/ImperativeEventBus.java:90-95 | a one-parameter method is listed once for every registered annotation it carries |
| ImperativeEventBus.SubscribeOne | src/main/java/bot/staro/rokit/impl/ImperativeEventBus.java:47-57 | one loop step keeps the subscriber's record present |
| ImperativeEventBus.SubscribeAll | src/main/java/bot/staro/rokit/impl/ImperativeEventBus.java:46-60 | the subscriber's record stays present through the loop |
| ImperativeEventBus.SubscribeAllSnoc | src/main/java/bot/staro/rokit/impl/ImperativeEventBus.java:46-60 | loop-step helper: one more listed method extends the loop by one `SubscribeOne` step |
| ImperativeEventBus.RemoveHandler | src/main/java/bot/staro/rokit/impl/ImperativeEventBus.java:73 | exactly `Filter(list, Kept(m, instance))`: the listeners that are not (an equal method and this very instance), in their order and with every copy |
| ImperativeEventBus.RemoveHandlerSorted | src/main/java/bot/staro/rokit/impl/ImperativeEventBus.java:73 | `removeIf` keeps the survivors in order, so a sorted list stays sorted; each listener keeps all its copies, or none when it is one of the removed |
| ImperativeEventBus.UnsubscribeOne | src/main/java/bot/staro/rokit/impl/ImperativeEventBus.java:67-74 | one step changes only the list of the method's event class and keeps the key set |
| ImperativeEventBus.UnsubscribeAll | src/main/java/bot/staro/rokit/impl/ImperativeEventBus.java:66-75 | the loop keeps the key set of the listener table |
| ImperativeEventBus.UnsubscribeAllSnoc | src/main/java/bot/staro/rokit/impl/ImperativeEventBus.java:66-75 | loop-step helper: one more listed method extends the loop by one `UnsubscribeOne` step |
| ImperativeEventBus.PostTo | src/main/java/bot/staro/rokit/impl/ImperativeEventBus.java:30-39 | only listeners with an instance whose first parameter type accepts the event's class are invoked, each from the list |
| ImperativeEventBus.NullInstanceEndsPost | src/main/java/bot/staro/rokit/impl/ImperativeEventBus.java:31-33 | a listener with a null instance ends the whole dispatch: nothing after it is reached |
| ImperativeEventBus.PostIsDeliveryWhenAllAccept | src/main/java/bot/staro/rokit/impl/ImperativeEventBus.java:30-39 | when every listener has an instance and accepts the event's class, dispatch is plain in-order delivery |
| ImperativeEventBus.PostToStep | src/main/java/bot/staro/rokit/impl/ImperativeEventBus.java:30-39 | loop-step helper: one loop step at position `i`: return on a null instance, pass over a non-accepting listener, otherwise invoke and continue unless it threw |
| ImperativeEventBus.Bus.constructor | src/main/java/bot/staro/rokit/impl/ImperativeEventBus.java:19-21 | the factory table maps the `Listener` annotation to the default factory, and both tables are empty |
| ImperativeEventBus.Bus.Post | src/main/java/bot/staro/rokit/impl/ImperativeEventBus.java:24-40 | a null event throws; a class without a list does nothing; otherwise the result is `PostTo` on that class's list |
| ImperativeEventBus.Bus.Subscribe | src/main/java/bot/staro/rokit/impl/ImperativeEventBus.java:43-61 | a null instance throws and changes nothing; otherwise the new state is `SubscribeSpec`: the record is created, and each listed method's listener is added, the list re-sorted and the class appended to the record; the factory table is unchanged |
| ImperativeEventBus.Bus.Unsubscribe | src/main/java/bot/staro/rokit/impl/ImperativeEventBus.java:64-76 | a null instance throws; otherwise the new state is `UnsubscribeSpec`: for each listed method with a list, its listeners for this instance are removed and the record dropped; the factory table is unchanged |
| ImperativeEventBus.Bus.IsSubscribed | src/main/java/bot/staro/rokit/impl/ImperativeEventBus.java:79-81 | always false |
| ImperativeEventBus.Bus.RegisterListenerFactory | src/main/java/bot/staro/rokit/impl/ImperativeEventBus.java:84-86 | puts the factory, replacing one for the same annotation, and leaves both tables unchanged |
| ImperativeEventBus.SubscribeAllSorted | src/main/java/bot/staro/rokit/impl/ImperativeEventBus.java:54-55 | every step of `subscribe` keeps every list non-increasing |
| ImperativeEventBus.SubscribeKeepsSorted | src/main/java/bot/staro/rokit/impl/ImperativeEventBus.java:43-61 | after `subscribe`, every list is in non-increasing priority order |
| ImperativeEventBus.UnsubscribeAllSorted | src/main/java/bot/staro/rokit/impl/ImperativeEventBus.java:66-75 | every step of `unsubscribe` keeps every list non-increasing |
| ImperativeEventBus.UnsubscribeKeepsSorted | src/main/java/bot/staro/rokit/impl/ImperativeEventBus.java:64-76 | after `unsubscribe`, every list is still non-increasing |
| ImperativeEventBus.SubscribeRepeated | src/main/java/bot/staro/rokit/impl/ImperativeEventBus.java:46-60 | a method listed `n` times adds `n` copies of its listener to its class's list |
| ImperativeEventBus.SubscribeOneCounts | src/main/java/bot/staro/rokit/impl/ImperativeEventBus.java:53-55 | one step adds exactly one element, the listener the factory made |
| ImperativeEventBus.ResortCounts | src/main/java/bot/staro/rokit/impl/ImperativeEventBus.java:54-55 | re-sorting after `add` keeps every element and adds one copy of the new one |
| ImperativeEventBus.SubscribeAddsPerAnnotation | src/main/java/bot/staro/rokit/impl/ImperativeEventBus.java:43-61 | a one-parameter method with `k` registered annotations gets `k` listeners from one `subscribe`, although the inner loop breaks after the first |
| ImperativeEventBus.UnsubscribeAllRemoves | src/main/java/bot/staro/rokit/impl/ImperativeEventBus.java:66-75 | after the loop, no list of a listed method's class holds a listener for that method bound to this instance |
| ImperativeEventBus.UnsubscribeRemovesHandlers | src/main/java/bot/staro/rokit/impl/ImperativeEventBus.java:64-76 | after `unsubscribe`, no listener for any of the instance's handler methods bound to it remains; each list is exactly the old one filtered by `KeptAll` (the listeners of this instance whose method is one of its handler methods for that class go, all others stay in order); the key set is unchanged |
| ImperativeEventBus.UnsubscribeAllFilters | src/main/java/bot/staro/rokit/impl/ImperativeEventBus.java:66-75 | the removal loop leaves each class's list as the old list filtered by `KeptAll` of the methods looped over |
| FunctionalEventBus.ListeningMethods | src/main/java/bot/staro/rokit/classic/impl/FunctionalEventBus.java:69-75 | the result keeps declared order and every method in it has exactly one parameter and an annotation with a registered factory |
| FunctionalEventBus.ListeningMethodsMembers | src/main/java/bot/staro/rokit/classic/impl/FunctionalEventBus.java:69-75 | a declared method is listed if and only if it has one parameter and an annotation whose type has a registered factory |
| FunctionalEventBus.UnsubscribeOne | src/main/java/bot/staro/rokit/classic/impl/FunctionalEventBus.java:51-54 | `computeIfPresent` never adds or removes a class key |
| FunctionalEventBus.UnsubscribeAll | src/main/java/bot/staro/rokit/classic/impl/FunctionalEventBus.java:50-55 | the pass over all handler methods keeps the set of classes with a list |
| FunctionalEventBus.IsSubscribedIn | src/main/java/bot/staro/rokit/classic/impl/FunctionalEventBus.java:60-62 | a `null` argument fails; otherwise true exactly when the object has a subscription record |
| FunctionalEventBus.Bus.constructor | src/main/java/bot/staro/rokit/classic/impl/FunctionalEventBus.java:20-22 | the only factory is the one of the `Listener` annotation; both tables start empty |
| FunctionalEventBus.Bus.Post | src/main/java/bot/staro/rokit/classic/impl/FunctionalEventBus.java:24-27 | a `null` event throws before any delivery; an event whose exact class has no list reaches nobody; otherwise the class's listeners are invoked in list order, stopping at the first that throws |
| FunctionalEventBus.Bus.Subscribe | src/main/java/bot/staro/rokit/classic/impl/FunctionalEventBus.java:30-46 | the new tables are those of the subscribe specification (null fails with no change); the factories are unchanged |
| FunctionalEventBus.Bus.Unsubscribe | src/main/java/bot/staro/rokit/classic/impl/FunctionalEventBus.java:49-57 | the new tables are those of the unsubscribe specification (null fails with no change); the factories are unchanged |
| FunctionalEventBus.Bus.IsSubscribed | src/main/java/bot/staro/rokit/classic/impl/FunctionalEventBus.java:60-62 | agrees with `IsSubscribedIn` on the bus's tables |
| FunctionalEventBus.Bus.RegisterListenerFactory | src/main/java/bot/staro/rokit/classic/impl/FunctionalEventBus.java:65-67 | the factory replaces any earlier one for that annotation type; the listener tables are unchanged |
| FunctionalEventBus.MadeFor | src/main/java/bot/staro/rokit/classic/impl/FunctionalEventBus.java:39-42 | no more listeners are made for one class than there are handler methods |
| FunctionalEventBus.SubscribeAllAppends | src/main/java/bot/staro/rokit/classic/impl/FunctionalEventBus.java:39-42 | after subscribing, each class's list is its old list followed by the listeners made for that class, in method order |
| FunctionalEventBus.SubscribeAllKeys | src/main/java/bot/staro/rokit/classic/impl/FunctionalEventBus.java:42 | the classes with a list afterwards are the old ones plus the event classes of the handler methods |
| FunctionalEventBus.SubscribeAppends | src/main/java/bot/staro/rokit/classic/impl/FunctionalEventBus.java:30-46 | for `subscribe` of a non-null object: the new keys are the old keys plus the handled classes, and every list is its old list followed by the new listeners for its class |
| FunctionalEventBus.SubscribeAllRecords | src/main/java/bot/staro/rokit/classic/impl/FunctionalEventBus.java:43 | the subscriber gets a record once some method is bound, and the record holds every handled event class |
| FunctionalEventBus.SubscribedIffBound | src/main/java/bot/staro/rokit/classic/impl/FunctionalEventBus.java:43-62 | `isSubscribed` is true after a `subscribe` that bound a method and false after any `unsubscribe` |
| FunctionalEventBus.Classes | src/main/java/bot/staro/rokit/classic/impl/FunctionalEventBus.java:39 | every handler method's event class is in the set |
| FunctionalEventBus.UnsubscribeAllFilters | src/main/java/bot/staro/rokit/classic/impl/FunctionalEventBus.java:50-55 | the lists of handled classes become the old lists without entries equal to the subscriber, in order; other lists are unchanged |
| FunctionalEventBus.FilterTwice | src/main/java/bot/staro/rokit/classic/impl/FunctionalEventBus.java:52-54 | filtering a list twice by the same condition is filtering it once |
| FunctionalEventBus.UnsubscribeKeepsListeners | src/main/java/bot/staro/rokit/classic/impl/FunctionalEventBus.java:49-57 | when no listener object equals the subscriber, `unsubscribe` changes no list and only removes the subscription record |
| FunctionalEventBus.SubscribeThenUnsubscribeKeepsListeners | src/main/java/bot/staro/rokit/classic/impl/FunctionalEventBus.java:30-57 | subscribe followed by unsubscribe leaves the subscriber's listeners on the lists (so `post` still reaches it) while `isSubscribed` becomes false |
| FunctionalEventBus.MadeForSelf | src/main/java/bot/staro/rokit/classic/impl/FunctionalEventBus.java:39-42 | each listener made for a class comes from one of the handler methods |
| EventBusImpl.OfTypeMembers | src/main/java/bot/staro/rokit/impl/EventBusImpl.java:34-35 | a listener is in the result if and only if it is in the subscriber's list and its event class is the given one |
| EventBusImpl.AddAllKeys | src/main/java/bot/staro/rokit/impl/EventBusImpl.java:34-36 | after the `forEach`, the classes with a list are the old ones plus the event classes of the subscriber's listeners |
| EventBusImpl.SubscribeSpec | src/main/java/bot/staro/rokit/impl/EventBusImpl.java:32-38 | an argument that is not a `SubscriberObject` (including `null`) leaves the table as it is |
| EventBusImpl.RemoveAll | src/main/java/bot/staro/rokit/impl/EventBusImpl.java:43-46 | `remove` never adds or drops a class key |
| EventBusImpl.UnsubscribeSpec | src/main/java/bot/staro/rokit/impl/EventBusImpl.java:41-48 | an argument that is not a `SubscriberObject` leaves the table as it is |
| EventBusImpl.Bus.constructor | src/main/java/bot/staro/rokit/impl/EventBusImpl.java:15 | the table starts empty |
| EventBusImpl.Bus.Post | src/main/java/bot/staro/rokit/impl/EventBusImpl.java:18-21 | a `null` event throws; otherwise the listeners of the event's exact class (none if the class has no list) are invoked in order, stopping at the first that throws |
| EventBusImpl.Bus.PostGeneric | src/main/java/bot/staro/rokit/impl/EventBusImpl.java:24-29 | as `post`, restricted to the listeners without a generic type or with exactly the given one |
| EventBusImpl.Bus.Subscribe | src/main/java/bot/staro/rokit/impl/EventBusImpl.java:32-38 | the new table is `SubscribeSpec` of the old one |
| EventBusImpl.Bus.Unsubscribe | src/main/java/bot/staro/rokit/impl/EventBusImpl.java:41-48 | the new table is `UnsubscribeSpec` of the old one |
| EventBusImpl.Bus.IsSubscribed | src/main/java/bot/staro/rokit/impl/EventBusImpl.java:51-59 | true if and only if the argument is a `SubscriberObject` and one of its listeners is on its class's list |
| EventBusImpl.AddAllAppends | src/main/java/bot/staro/rokit/impl/EventBusImpl.java:34-36 | every class's list becomes its old list followed by the subscriber's listeners of that class, in their order, duplicates kept |
| EventBusImpl.RemoveAllRemoves | src/main/java/bot/staro/rokit/impl/EventBusImpl.java:43-46 | every class's list loses the first occurrence of each of the subscriber's listeners of that class, in order |
| EventBusImpl.RemoveEachAppended | src/main/java/bot/staro/rokit/impl/EventBusImpl.java:45 | removing distinct listeners once each from a list they were appended to (and were not on before) gives back the list |
| EventBusImpl.OfTypeDistinct | src/main/java/bot/staro/rokit/impl/EventBusImpl.java:34-35 | restricting a list of distinct listeners to one class keeps them distinct |
| EventBusImpl.SubscribeThenUnsubscribe | src/main/java/bot/staro/rokit/impl/EventBusImpl.java:32-48 | subscribing then unsubscribing an object whose listeners are distinct and on no list restores every list (a class that had none keeps an empty list) |
| EventBusImpl.SubscribedAfterSubscribe | src/main/java/bot/staro/rokit/impl/EventBusImpl.java:32-59 | an object with at least one listener is reported subscribed after `subscribe` |
| EventBusImpl.NotSubscribedAfterRoundTrip | src/main/java/bot/staro/rokit/impl/EventBusImpl.java:32-59 | after that round trip the object is no longer reported subscribed |
| EventBusImpl.GenericPostWithoutGenerics | src/main/java/bot/staro/rokit/impl/EventBusImpl.java:24-29 | when no listener of the class has a generic type, the generic `post` reaches the same listeners as the plain one |
| ImplListener.Invoke | src/main/java/bot/staro/rokit/impl/Listener.java:16-19 | the event reaches the consumer unchanged and at most once; the default consumer does nothing; a `null` consumer throws `NullPointerException`; a thunk's outcome is the listener's |
| ImplListener.Builder.constructor | src/main/java/bot/staro/rokit/impl/Listener.java:30-32 | a new builder has no type and the no-op consumer |
| ImplListener.Builder.WithType | src/main/java/bot/staro/rokit/impl/Listener.java:34-37 | overwrites the type, keeps the consumer, returns the same builder |
| ImplListener.Builder.WithConsumer | src/main/java/bot/staro/rokit/impl/Listener.java:39-42 | overwrites the consumer, keeps the type, returns the same builder |
| ImplListener.Builder.Build | src/main/java/bot/staro/rokit/impl/Listener.java:44-50 | fails with `IllegalStateException("Type must be defined")` exactly when no type was set; otherwise a listener with the builder's type and consumer |
| ImplListener.DefaultListenerIsSilent | src/main/java/bot/staro/rokit/impl/Listener.java:30-50 | a listener built with a type and no consumer does nothing and throws nothing when invoked |
| ImplListener.Subscriber.constructor | src/main/java/bot/staro/rokit/impl/Subscriber.java:10 | a new subscriber has no listeners |
| ImplListener.Subscriber.AddListener | src/main/java/bot/staro/rokit/impl/Subscriber.java:17-19 | appends the listener at the end |
| ImplListener.Subscriber.AddListenerFrom | src/main/java/bot/staro/rokit/impl/Subscriber.java:21-24 | a builder without a type throws and leaves the list unchanged; otherwise the built listener is appended; the same subscriber is returned |
| GenericPayloadBinder.Search | rokit-processor/src/main/java/bot/staro/rokit/processor/binders/GenericPayloadBinder.java:88-94 | the loop over a candidate list answers true if and only if the name is one of the candidates |
| GenericPayloadBinder.IsCandidateName | rokit-processor/src/main/java/bot/staro/rokit/processor/binders/GenericPayloadBinder.java:87-95 | true exactly for the nine names of `CANDIDATE_ACCESSORS` |
| GenericPayloadBinder.PatternKeyIsConstant | rokit-processor/src/main/java/bot/staro/rokit/processor/binders/GenericPayloadBinder.java:43-45 | every method and parameter get the same key `GENERIC_PAYLOAD` |
| GenericPayloadBinder.SkipRun | rokit-processor/src/main/java/bot/staro/rokit/processor/binders/GenericPayloadBinder.java:100 | drops the leading characters that are not ASCII letters or digits, and only those |
| GenericPayloadBinder.Collapse | rokit-processor/src/main/java/bot/staro/rokit/processor/binders/GenericPayloadBinder.java:100 | the result holds only ASCII letters, digits and single `_` separators, is empty only for empty input, is no longer than the input, and starts with `_` exactly when the input starts with a non-alphanumeric character |
| GenericPayloadBinder.CollapseKeepsAlnums | rokit-processor/src/main/java/bot/staro/rokit/processor/binders/GenericPayloadBinder.java:100 | the input's ASCII letters and digits all survive, in order, and no other letter or digit appears |
| GenericPayloadBinder.CollapseLength | rokit-processor/src/main/java/bot/staro/rokit/processor/binders/GenericPayloadBinder.java:100 | the result's length is the number of letters and digits plus the number of maximal runs of other characters: each run becomes exactly one `_` |
| GenericPayloadBinder.CollapseIsScan | rokit-processor/src/main/java/bot/staro/rokit/processor/binders/GenericPayloadBinder.java:100 | the replacement equals, on every input, a left-to-right scan that copies letters and digits and writes `_` at the first character of each run |
| GenericPayloadBinder.ScanNested | rokit-processor/src/main/java/bot/staro/rokit/processor/binders/GenericPayloadBinder.java:100 | `Outer$Inner` with alphanumeric parts scans to `Outer_Inner` |
| GenericPayloadBinder.CollapseOfAlnum | rokit-processor/src/main/java/bot/staro/rokit/processor/binders/GenericPayloadBinder.java:100 | text made only of ASCII letters and digits is unchanged |
| GenericPayloadBinder.LowerAscii | rokit-processor/src/main/java/bot/staro/rokit/processor/binders/GenericPayloadBinder.java:101 | `Character.toLowerCase` maps an upper-case ASCII letter to its lower-case letter and leaves digits and `_` alone |
| GenericPayloadBinder.LocalVarName | rokit-processor/src/main/java/bot/staro/rokit/processor/binders/GenericPayloadBinder.java:97-103 | fails with `IndexOutOfBoundsException` exactly when the simple name is empty; otherwise the name is the collapsed simple name with its first character lowercased (the one-character branch gives the same string) |
| GenericPayloadBinder.LocalVarNameIsIdentifier | rokit-processor/src/main/java/bot/staro/rokit/processor/binders/GenericPayloadBinder.java:97-103 | a returned name is non-empty, has no `.`, does not start with an upper-case letter, and holds only ASCII letters, digits and single `_` |
| GenericPayloadBinder.LocalVarNameOfQualified | rokit-processor/src/main/java/bot/staro/rokit/processor/binders/GenericPayloadBinder.java:97-103 | for `pkg.Name` with an alphanumeric `Name`, the result is `Name` with its first letter lowercased |
| GenericPayloadBinder.LocalVarNameOfNested | rokit-processor/src/main/java/bot/staro/rokit/processor/binders/GenericPayloadBinder.java:97-103 | for `pkg.Outer$Inner` with alphanumeric parts, the result is `outer_Inner` |
| GenericPayloadBinder.Plan | rokit-processor/src/main/java/bot/staro/rokit/processor/binders/GenericPayloadBinder.java:56-66 | without an accessor it throws `IllegalStateException` naming the event type; otherwise it fails only when `localVarName` fails, and returns no guards and one extractor that calls the accessor into the local, which is also the argument expression |
| GeneratedDispatcher.InsertPos | rokit-processor/src/main/java/bot/staro/rokit/processor/EventListenerProcessor.java:568-577 | the position is after every priority above `p` and at the first priority not above it |
| GeneratedDispatcher.InsertPosSorted | rokit-processor/src/main/java/bot/staro/rokit/processor/EventListenerProcessor.java:568-577 | on non-increasing priorities the position that splits them into "above `p`" and "at most `p`" is unique and equals `InsertPos` |
| GeneratedDispatcher.InsertPosKeepsOrder | rokit-processor/src/main/java/bot/staro/rokit/processor/EventListenerProcessor.java:519-533 | inserting a priority at its insertion position keeps the priorities non-increasing |
| GeneratedDispatcher.TieBreakDiffers | rokit-processor/src/main/java/bot/staro/rokit/processor/EventListenerProcessor.java:568-577 | when the priority is already present, the emitted `add` inserts before the entries of equal priority, not after them as the stable sort of the registry does |
| GeneratedDispatcher.DeleteKeepsOrder | rokit-processor/src/main/java/bot/staro/rokit/processor/EventListenerProcessor.java:552-560 | dropping one entry keeps the priorities non-increasing |
| GeneratedDispatcher.ArrayCopy | rokit-processor/src/main/java/bot/staro/rokit/processor/EventListenerProcessor.java:524-529 | `System.arraycopy` between two arrays: the target range equals the source range and the rest of the target is unchanged |
| GeneratedDispatcher.InsertAt | rokit-processor/src/main/java/bot/staro/rokit/processor/EventListenerProcessor.java:511-533 | the new array is fresh, one longer, and holds the old contents with the new entry at the given position |
| GeneratedDispatcher.DeleteAt | rokit-processor/src/main/java/bot/staro/rokit/processor/EventListenerProcessor.java:552-560 | the new array is fresh, one shorter, and holds the old contents without the entry at the index |
| GeneratedDispatcher.ContainsId | rokit-processor/src/main/java/bot/staro/rokit/processor/EventListenerProcessor.java:512-518 | the scan of the id array finds the id if and only if it is present (a `null` array holds none) |
| GeneratedDispatcher.IndexOf | rokit-processor/src/main/java/bot/staro/rokit/processor/EventListenerProcessor.java:548-549 | the scan by reference gives -1 exactly when the invoker is absent, and otherwise its first index |
| GeneratedDispatcher.FirstIndexOfPrefix | rokit-processor/src/main/java/bot/staro/rokit/processor/EventListenerProcessor.java:549 | an index holding the value with no earlier occurrence is the first index |
| GeneratedDispatcher.InsertKeepsDistinct | rokit-processor/src/main/java/bot/staro/rokit/processor/EventListenerProcessor.java:512-533 | inserting a value not already present keeps all entries distinct |
| GeneratedDispatcher.DeleteKeepsDistinct | rokit-processor/src/main/java/bot/staro/rokit/processor/EventListenerProcessor.java:552-560 | deleting an entry of a list of distinct entries keeps them distinct, removes the only occurrence of the deleted entry, and adds nothing new |
| GeneratedDispatcher.FindInsertPos | rokit-processor/src/main/java/bot/staro/rokit/processor/EventListenerProcessor.java:568-577 | `null` or `n <= 0` gives 0; otherwise the binary search returns a position in `0..n` with every priority before it above `p` and every one from it up to `n` at most `p` |
| GeneratedDispatcher.Bucket.constructor | rokit-processor/src/main/java/bot/staro/rokit/processor/EventListenerProcessor.java:475-484 | a new store's bucket arrays are all `null` |
| GeneratedDispatcher.Bucket.Add | rokit-processor/src/main/java/bot/staro/rokit/processor/EventListenerProcessor.java:506-539 | a known id changes nothing and returns a no-op removal; otherwise the three arrays are replaced by fresh ones with the invoker, priority and id inserted at the same insertion position, the bucket stays sorted by priority with distinct ids and invokers, and the returned removal removes this invoker |
| GeneratedDispatcher.Bucket.Remove | rokit-processor/src/main/java/bot/staro/rokit/processor/EventListenerProcessor.java:541-565 | an absent invoker changes nothing; otherwise the entry at its first index is dropped from all three arrays, which become `null` when it was the last one; the bucket stays sorted and the invoker is gone |
| GeneratedDispatcher.Bucket.Dispatch | rokit-processor/src/main/java/bot/staro/rokit/processor/EventListenerProcessor.java:637-644 | the invokers of the array read once are called in order, stopping at the first that throws |
| GeneratedDispatcher.State.constructor | rokit-processor/src/main/java/bot/staro/rokit/processor/EventListenerProcessor.java:334-335 | no subscriber has removals |
| GeneratedDispatcher.State.AddRemoval | rokit-processor/src/main/java/bot/staro/rokit/processor/EventListenerProcessor.java:341-347 | the removal is appended to the subscriber's list, which is created if absent, and the call returns true |
| GeneratedDispatcher.State.TakeRemovals | rokit-processor/src/main/java/bot/staro/rokit/processor/EventListenerProcessor.java:348 | a `null` subscriber throws; otherwise the subscriber's list is removed and returned, or `null` when it had none |
| GeneratedDispatcher.State.IsSubscribed | rokit-processor/src/main/java/bot/staro/rokit/processor/EventListenerProcessor.java:349 | a `null` subscriber throws; otherwise true exactly when it has a removal list |
| GeneratedDispatcher.RegisterOne | rokit-processor/src/main/java/bot/staro/rokit/processor/EventListenerProcessor.java:428-436 | a known id returns the no-op removal and leaves the bucket unchanged; otherwise a fresh adapter, with its priority and id, is inserted into the three arrays at `InsertPos` of the old priorities and everything else stays in order; the returned removal is appended to the subscriber's list |
| GeneratedDispatcher.RegisterNext | rokit-processor/src/main/java/bot/staro/rokit/processor/EventListenerProcessor.java:428-436 | one iteration of the loop: the ids and adapters of the earlier methods stay in their buckets, and the id and adapter of this method join them |
| GeneratedDispatcher.Register | rokit-processor/src/main/java/bot/staro/rokit/processor/EventListenerProcessor.java:404-446 | a `null` subscriber changes no bucket and no removal list; otherwise there is one removal per listener method, every method's id is in its bucket afterwards, every adapter added is in its bucket, and the removals are appended to the subscriber's list in method order |
| GeneratedDispatcher.RunRemoval | rokit-processor/src/main/java/bot/staro/rokit/processor/EventListenerProcessor.java:538 | an invoker not in its bucket leaves the bucket unchanged; otherwise the entry at its first index is dropped from all three arrays and the rest stay in order; exactly that invoker leaves |
| GeneratedDispatcher.RunRemovals | rokit-processor/src/main/java/bot/staro/rokit/processor/EventListenerProcessor.java:452 | an invoker leaves a touched bucket exactly when some removal of the list names that bucket and that invoker; every other invoker stays, and the buckets stay valid |
| GeneratedDispatcher.RunNext | rokit-processor/src/main/java/bot/staro/rokit/processor/EventListenerProcessor.java:452 | one iteration of the loop: only `list[i]`'s invoker leaves only `list[i]`'s bucket |
| GeneratedDispatcher.Unregister | rokit-processor/src/main/java/bot/staro/rokit/processor/EventListenerProcessor.java:448-453 | a `null` subscriber throws; otherwise its removal list is taken out of the state, each of its invokers leaves its bucket, and every other invoker stays |
| Annotations.FirstRegistered | src/main/java/bot/staro/rokit/EventBus.java:52-54 | the index of the first annotation with a registered factory: every earlier annotation has none, and the one found has one (or the index is past the end) |
| Delivery.DeliverShape | src/main/java/bot/staro/rokit/EventBus.java:36-39 | the calls are a prefix of the targets in order; all targets are called exactly when none throws; otherwise the last target called is the one that threw and every earlier one returned normally |
| Delivery.DeliverAll | src/main/java/bot/staro/rokit/classic/impl/FunctionalEventBus.java:24-27 | with no target throwing, every target is called once, in order, and nothing propagates |
| Delivery.JoinTwice | src/main/java/bot/staro/rokit/EventBus.java:37-38 | splitting a delivery after two prefixes is splitting it after their concatenation |
| Delivery.DeliverEach | src/main/java/bot/staro/rokit/EventBus.java:37-38 | the `forEach` loop calls the targets in order, stopping at the first that throws, as `Deliver` specifies |

## Left out

- Concurrency: `ConcurrentHashMap`, `CopyOnWriteArrayList`, `synchronized` blocks and `volatile` publication. Each operation is atomic and sequential here. Guarantees about what a concurrent `post` sees while a snapshot is replaced are not modelled.
- The static `REGISTRY` of `EventRegistry`, which `ServiceLoader` resolves. The catalog (its size and its event-id function) is a constructor parameter.
- Published snapshot arrays of `EventRegistry` are immutable once published, so they are sequence values in their slots. `Object[]` identity is not modelled.
- Reflection and the lambda metafactory are modelled through their parameters:
  - `getDeclaredMethods` and annotation lookup are a given list of declared methods with their annotations;
  - `setAccessible` is left out;
  - consumer creation through `LambdaMetafactory` is not modelled; a creation failure is an `IllegalStateException` whose message is the parameter `reason`.
- `Method.invoke`: widening primitive conversions are not modelled, and the detail message of an access error is not modelled.
- `Object.equals` and `hashCode` of objects that do not override them are reference identity, a `ref` or `self` field. Hash values are not computed.
- BaseEventConsumer.AcceptSpec: a `wrap` that throws or returns `null` is not modelled, so the "Failed to invoke listener" exception it would cause inside the `try` is not covered. `wrap` is a total function from event to extras, shared with `DefaultListenerHandler`. `BaseEventConsumer.InvokeStep` has the same limitation.
- Reflect.Invoke: the JDK's `IllegalArgumentException` for a receiver that is not an instance of the method's declaring class is not modelled. No caller in the core can reach it, because the receiver is always the subscriber whose declared methods were listed.
- Listener factories are total functions from subscriber and method to a listener; a factory that throws is not modelled.
- The `ClassCastException` of unchecked casts in the generic `invokeListener` calls is not modelled: the model assumes listeners receive the events of their own class.
- `EventWrapper`: its declared `arity`/`wrapInto` differ from the `wrap` that `BaseEventConsumer` and `DefaultListenerHandler` call. `wrap` is modelled as a function from event to a sequence of values. The `Builder` of `rokit-core` calls a `RokitEventBus(Object[])` constructor that `RokitEventBus` does not declare; `build` hands over the provider slots as a sequence.
- `EventBusImpl`: a listener whose `getType()` is `null` is not modelled (the concurrent map would reject it).
- `ImperativeEventBus.Bus.Subscribe` and `ImperativeEventBus.Bus.Unsubscribe` compute the new maps in local variables and store them after the loop, not on every iteration. No other code can observe the difference.
- `ImperativeEventBus.getEventParameterType` is used as `paramTypes[0]`. Its `null` branch is never reached for listed methods, which have one parameter.
- `Subscriber.getListeners` returns the live list in the source. The model returns the current contents, so the aliasing is not modelled.
- The annotation processor: the `javax.lang.model` element walking, the `Filer`/`Writer` output, `GenericPayloadBinder.supports` and `findAccessor` (the accessor is a parameter of `Plan`), and parameter plans (`paramPlans`, guard and extractor emission for each listener) are not modelled. The emitted algorithms are modelled, not the text that spells them out; in particular the grouping of buckets by condition in the emitted `dispatch` is left out, and `GeneratedDispatcher.Bucket.Dispatch` covers one bucket.
- Test vectors of the FNV-1a hash: only those for "" and "a" are proved. The loop is proved equal to the recursive definition for every input.
- Strings are sequences of UTF-16 code units; supplementary characters and locale rules are not modelled.
- Benchmarks, tests, interface-only files and stub files (`GeneratedBootstrap`, the delegating `RokitEventBus`) are not part of this model.
