# Service filters of protobuf RPC services, in Dafny

This project models `Protobuf::Rpc::ServiceFilters`. It is the mixin that lets
an RPC service class declare filters and exception handlers:

- `before_filter`, `after_filter` and `around_filter` register filters;
- `rescue_from` registers exception handlers;
- `run_filters(endpoint)` dispatches one call through all of them.

Its behaviour is pinned down by the behavioural examples in
`spec/lib/protobuf/rpc/service_filters_spec.rb`, and the model is built
from those examples alone; the implementation file
`lib/protobuf/rpc/service_filters.rb` is not part of this model. The
examples fix the call logs, the orderings and the edge cases they exercise;
among them, a filter registered twice runs once (lines 52-65 and 286-299).
Where no example decides a behaviour, the model makes a choice of its own;
each such choice is listed under "## Left out" together with the members
that depend on it.

## What is modelled

The modules are listed in dependency order.

- `Common`: names, options, results, counting a label in a log, and word occurrence in a message.
- `ClassHierarchy`: exception classes as a parent map.
  - `Ancestors` is the superclass chain starting at the class itself.
  - `IsA` is "is a subclass of, or the same class as".
- `ServiceInstance`: the service instance a dispatch runs on.
  - Each method or block is reduced to its effect on the call log: what it logs before `yield`, whether it yields, what it logs after, and whether it returns a value or raises a class.
  - Conditions are queries with a Ruby truthiness (`false` and `nil` are falsy).
  - `CallWith` calls an action with a block; `Call` calls it without one. Yielding without a block raises `LocalJumpError`, as in Ruby.
- `FilterRegistry`: the class-level registry.
  - Registering an action that is already registered for the same kind of filter is a no-op. Entries therefore stay in order of first registration.
  - `rescue_from` maps each listed class to its handler: the `:with` option if given, else the block. With neither, it is an `ArgumentError` whose message mentions `with`.
- `Applicability`: when a filter fires for an endpoint.
  - `only:` and `except:` are endpoint sets; an empty set does not constrain.
  - `if:` must be truthy and `unless:` must be falsy.
- `RescueDispatch`: the handler for a raised class. It is the handler of the nearest registered class along the raised class's superclass chain.
- `FilterChain`: `run_filters`. It returns the call log and an outcome: `Completed`, `ShortCircuited`, `Rescued(raised class)` or `Escaped(raised class)`.
  1. Before filters run in order. One that returns exactly `false` short-circuits the call.
  2. The around filters nest in order, with the endpoint innermost.
  3. After filters run in order.
  4. One rescue wrapper covers all of it.
- `PipelineProperties`: general properties of `run_filters`. Most are stated against independent descriptions of the expected log; `RescueWrapperKeepsPipelineLog`, `UncoveredErrorEscapes` and `ConditionFormIrrelevant` compare `run_filters` with its own pipeline or with itself, and the short-circuit lemmas are stated against `ReturnedFalseAt`, a before filter returning `false`. The log descriptions are:
  - `Logs`: the firing filters' logs in order;
  - `Tops`: the code before `yield`, outermost first;
  - `Bottoms`: the code after `yield`, innermost first.
- `FilterTestScenarios`: the `FilterTest` fixture, with each behavioural example as a lemma.
  - An example's `called` array is the log.
  - A per-filter call counter is the number of times its label occurs in the log.
  - `should_not_receive(:endpoint)` becomes "the endpoint's label is not in the log".
  - The handler's `ex_class` is the class carried by the `Rescued` outcome.

Three of the `unless:` examples have titles that do not match their conditions:

- line 208 says "a callable that returns true", but the lambda returns `false`;
- line 220 says "a method that returns false", but it names `check_true`;
- line 232 says "a callable that returns false", but the lambda at line 235 returns `true`.

The model follows the conditions as written. The filter fires in the first example and is skipped in the second and the third. This agrees with the assertions of all three examples.

## Model

| member | source | states |
|---|---|---|
| FilterRegistry.Append | spec/lib/protobuf/rpc/service_filters_spec.rb:52-56 | registering an action that is already registered leaves the list unchanged, a new one is appended at the end, and the registered actions grow by exactly the new action |
| FilterRegistry.Register | spec/lib/protobuf/rpc/service_filters_spec.rb:286-290 | registration only touches the list of its own kind of filter; the other two kinds and the rescue table are unchanged |
| FilterRegistry.RegisterAllKeepsFirstOccurrences | spec/lib/protobuf/rpc/service_filters_spec.rb:322-327 | registering a sequence of filters one at a time keeps, after the existing entries, exactly the first occurrence of each new action, in registration order |
| FilterRegistry.RegisterEachIsRegisterAll | spec/lib/protobuf/rpc/service_filters_spec.rb:52-56 | a run of `before_filter`, `after_filter` or `around_filter` calls builds that kind's list exactly as the fold `RegisterAll` does, and leaves the other kinds and the rescue table unchanged |
| FilterRegistry.RegisterAllDistinct | spec/lib/protobuf/rpc/service_filters_spec.rb:61-65 | after any sequence of registrations no action is registered twice, and every action that was registered is present |
| FilterRegistry.AddRescues | spec/lib/protobuf/rpc/service_filters_spec.rb:409 | every listed class maps to the one handler, and every class not listed keeps its earlier handler |
| FilterRegistry.RescueFrom | spec/lib/protobuf/rpc/service_filters_spec.rb:424-428 | `rescue_from` fails exactly when neither `:with` nor a block is given, with an `ArgumentError` whose message contains `with`; otherwise the listed classes map to the `:with` handler, or else the block, and the filters are unchanged |
| ClassHierarchy.Ancestors | spec/lib/protobuf/rpc/service_filters_spec.rb:369-371 | the chain starts at the class, each element's parent is the next element, no class appears twice before the last, and the chain ends at a class with no parent or at a repeated class |
| Common.Count | spec/lib/protobuf/rpc/service_filters_spec.rb:64 | the number of occurrences of a label is at most the log's length and is zero exactly when the label is absent |
| ServiceInstance.CallWith | spec/lib/protobuf/rpc/service_filters_spec.rb:308-318 | an action's code before `yield` opens the log; a yielding action logs its code before `yield`, the block's log, and its code after `yield` only when the block ended normally; an action that does not yield ignores its block; an exception from the block propagates; the call ends normally exactly when the action returns and the block, if run, did too |
| ServiceInstance.Call | spec/lib/protobuf/rpc/service_filters_spec.rb:19-21 | an action called without a block logs its own code and ends as it ends, unless it yields, which raises `LocalJumpError` |
| Applicability.Applies | spec/lib/protobuf/rpc/service_filters_spec.rb:77-242 | a filter fires when the endpoint passes `only:`, then `except:`, then `if:` is truthy and `unless:` falsy; its properties are the `OnlyFiresOnItsEndpoint`, `ExceptFiresElsewhere` and `IfAndUnlessFollowTheCondition` rows |
| Applicability.Fired | spec/lib/protobuf/rpc/service_filters_spec.rb:77-95 | a filter is among the fired ones exactly when it is registered and fires for the endpoint |
| Applicability.OnlyFiresOnItsEndpoint | spec/lib/protobuf/rpc/service_filters_spec.rb:77-95 | a filter with `only: e` fires exactly on endpoint `e` |
| Applicability.ExceptFiresElsewhere | spec/lib/protobuf/rpc/service_filters_spec.rb:107-124 | a filter with `except: e` fires exactly on endpoints other than `e` |
| Applicability.IfAndUnlessFollowTheCondition | spec/lib/protobuf/rpc/service_filters_spec.rb:127-242 | `if:` fires exactly when the condition is truthy, `unless:` exactly when it is falsy |
| Applicability.ResolveFilter | spec/lib/protobuf/rpc/service_filters_spec.rb:137-183 | replacing a method-name condition by a callable with the same value keeps the action and fires on exactly the same endpoints |
| PipelineProperties.ConditionFormIrrelevant | spec/lib/protobuf/rpc/service_filters_spec.rb:137-242 | writing every condition as a callable instead of a method name gives the same `run_filters` result |
| RescueDispatch.FirstRegistered | spec/lib/protobuf/rpc/service_filters_spec.rb:464-480 | finds nothing exactly when no class of the chain is registered, and otherwise the first registered one |
| RescueDispatch.HandlerFor | spec/lib/protobuf/rpc/service_filters_spec.rb:464-480 | there is no handler exactly when no class the raised one is-a is registered; a class registered itself gets its own handler; otherwise the handler of the nearest registered superclass |
| RescueDispatch.HandlerForNearest | spec/lib/protobuf/rpc/service_filters_spec.rb:464-480 | when the `j`th class of the chain is the first registered one, its handler is chosen |
| FilterChain.RunUnwrapped | spec/lib/protobuf/rpc/service_filters_spec.rb:245-265 | only a stage that halts on `false` (the before stage) can halt |
| FilterChain.RunPipeline | spec/lib/protobuf/rpc/service_filters_spec.rb:261-265 | a halted pipeline is the before stage alone: nothing after the halting filter runs |
| FilterChain.Rescue | spec/lib/protobuf/rpc/service_filters_spec.rb:413-420 | the log so far is kept; when the `j`th class of the raised class's chain is the nearest registered one, its handler runs next, and the exception is rescued with the raised class if the handler returns, or the handler's own exception escapes if it raises; an exception is rescued only when some class it is-a is registered, and escapes unchanged when none is |
| FilterChain.RunAround | spec/lib/protobuf/rpc/service_filters_spec.rb:302-362 | the around chain; its properties are the `AroundChainBoundaries`, `AroundFiltersNest` and `NonYieldingAroundCancelsInner` rows |
| FilterChain.RunFilters | spec/lib/protobuf/rpc/service_filters_spec.rb:61-65 | a dispatch completes exactly when the pipeline proceeds and is short-circuited exactly when it halted; `ShortCircuitedIffBeforeFilterReturnedFalse` ties the halt to a before filter returning `false` |
| PipelineProperties.ProceedingStageLogsFired | spec/lib/protobuf/rpc/service_filters_spec.rb:61-65 | a stage whose firing filters all proceed (return, and for a before filter return something other than `false`) logs exactly those filters, in order, and proceeds |
| PipelineProperties.StageStopsAtFirstStopper | spec/lib/protobuf/rpc/service_filters_spec.rb:245-265 | the first firing filter that raises, or returns `false` where that halts, ends its stage; the log holds the firing filters up to it and nothing after |
| PipelineProperties.AroundChainBoundaries | spec/lib/protobuf/rpc/service_filters_spec.rb:302-339 | with no firing around filter the chain is the endpoint's own call; otherwise the outermost firing filter's code before `yield` opens the log |
| PipelineProperties.RescueWrapperKeepsPipelineLog | spec/lib/protobuf/rpc/service_filters_spec.rb:413-420 | the rescue wrapper extends the pipeline's log and adds nothing unless the pipeline raised; a rescued class is-a registered class |
| PipelineProperties.AroundFiltersNest | spec/lib/protobuf/rpc/service_filters_spec.rb:332-339 | yielding around filters log all their code before `yield` outermost first, then the endpoint, then all their code after `yield` innermost first |
| PipelineProperties.NonYieldingAroundCancelsInner | spec/lib/protobuf/rpc/service_filters_spec.rb:341-362 | an around filter that does not yield replaces everything inside it, filters and endpoint, by its own log; the filters around it still finish |
| PipelineProperties.EnclosingWrapperStep | spec/lib/protobuf/rpc/service_filters_spec.rb:359-361 | a yielding filter wrapped around a cancelled chain adds its code before `yield` in front and its code after `yield` behind |
| PipelineProperties.ProceedingPipelineCompletes | spec/lib/protobuf/rpc/service_filters_spec.rb:295-299 | when the firing before and after filters proceed, the firing around filters yield and return and the endpoint returns, the log is the before filters, the around chain around the endpoint, then the after filters, and the dispatch completes |
| PipelineProperties.ShortCircuitSkipsEndpoint | spec/lib/protobuf/rpc/service_filters_spec.rb:261-265 | when the `k`th firing before filter returns `false` and every one ahead of it proceeds, the dispatch is short-circuited and its log is exactly the before filters up to the `k`th: no around filter, endpoint or after filter runs |
| PipelineProperties.HaltedStageReturnedFalse | spec/lib/protobuf/rpc/service_filters_spec.rb:245-265 | a before stage halts only at a firing filter that returned `false` after every earlier one proceeded, and its log is the filters up to that one |
| PipelineProperties.ShortCircuitMeansBeforeFilterReturnedFalse | spec/lib/protobuf/rpc/service_filters_spec.rb:245-265 | a short-circuited dispatch had some firing before filter return `false`, and its log is the before filters up to it |
| PipelineProperties.ShortCircuitedIffBeforeFilterReturnedFalse | spec/lib/protobuf/rpc/service_filters_spec.rb:245-265 | a dispatch is short-circuited exactly when some firing before filter returned `false` with every earlier one proceeding |
| PipelineProperties.BeforeFilterErrorIsRescued | spec/lib/protobuf/rpc/service_filters_spec.rb:407-481 | a before filter raising a covered class is followed by the nearest handler's log, the outcome is rescued with the exact raised class, and nothing else runs |
| PipelineProperties.UncoveredErrorEscapes | spec/lib/protobuf/rpc/service_filters_spec.rb:413-420 | an exception that no registered class covers escapes with its class and the log so far |
| FilterTestScenarios.FixtureMethod | spec/lib/protobuf/rpc/service_filters_spec.rb:19-48 | the fixture's methods; their bodies are stated by the `AroundBodies` and `RescueBodies` rows; `NonYieldingMethod` is the same fixture with `inner_around` redefined at lines 343-348 to log and not yield, as the `NonYieldingRun` row states |
| FilterTestScenarios.FixtureQuery | spec/lib/protobuf/rpc/service_filters_spec.rb:131-132 | `check_true` returns `true` and `check_false` returns `false` |
| FilterTestScenarios.BeforeRegistryDeduplicated | spec/lib/protobuf/rpc/service_filters_spec.rb:52-56 | `verify_before`, `verify_before`, `foo` registers one `verify_before` then `foo` |
| FilterTestScenarios.BeforeRegistryIsRegisterAll | spec/lib/protobuf/rpc/service_filters_spec.rb:52-56 | the three `before_filter` calls give the before list `RegisterAll` computes for `verify_before`, `verify_before`, `foo` |
| FilterTestScenarios.TwoLoggingBeforeFilters | spec/lib/protobuf/rpc/service_filters_spec.rb:61-63 | two logging before filters log in registration order ahead of the endpoint |
| FilterTestScenarios.BeforeFiltersRunInDefinitionOrder | spec/lib/protobuf/rpc/service_filters_spec.rb:61-65 | the log is `verify_before, foo, endpoint` and `verify_before` runs once |
| FilterTestScenarios.OneLoggingBeforeFilter | spec/lib/protobuf/rpc/service_filters_spec.rb:77-242 | one logging before filter appears ahead of the endpoint exactly when it fires |
| FilterTestScenarios.OnlyInvokesFilterOnListedEndpoint | spec/lib/protobuf/rpc/service_filters_spec.rb:82-87 | `only:` on the dispatched endpoint fires |
| FilterTestScenarios.OnlySkipsFilterOnOtherEndpoint | spec/lib/protobuf/rpc/service_filters_spec.rb:89-94 | `only:` on another endpoint skips the filter |
| FilterTestScenarios.ExceptInvokesFilterOnOtherEndpoint | spec/lib/protobuf/rpc/service_filters_spec.rb:112-117 | `except:` on another endpoint fires |
| FilterTestScenarios.ExceptSkipsFilterOnListedEndpoint | spec/lib/protobuf/rpc/service_filters_spec.rb:119-124 | `except:` on the dispatched endpoint skips the filter |
| FilterTestScenarios.IfMethodTrueInvokesFilter | spec/lib/protobuf/rpc/service_filters_spec.rb:137-147 | `if: :check_true` fires |
| FilterTestScenarios.IfCallableTrueInvokesFilter | spec/lib/protobuf/rpc/service_filters_spec.rb:149-159 | `if:` a lambda returning `true` fires |
| FilterTestScenarios.IfMethodFalseSkipsFilter | spec/lib/protobuf/rpc/service_filters_spec.rb:161-171 | `if: :check_false` skips |
| FilterTestScenarios.IfCallableFalseSkipsFilter | spec/lib/protobuf/rpc/service_filters_spec.rb:173-183 | `if:` a lambda returning `false` skips |
| FilterTestScenarios.UnlessMethodFalseInvokesFilter | spec/lib/protobuf/rpc/service_filters_spec.rb:196-206 | `unless: :check_false` fires |
| FilterTestScenarios.UnlessCallableFalseInvokesFilter | spec/lib/protobuf/rpc/service_filters_spec.rb:208-218 | `unless:` a lambda returning `false` fires |
| FilterTestScenarios.UnlessMethodTrueSkipsFilter | spec/lib/protobuf/rpc/service_filters_spec.rb:220-230 | `unless: :check_true` skips |
| FilterTestScenarios.UnlessCallableTrueSkipsFilter | spec/lib/protobuf/rpc/service_filters_spec.rb:232-242 | `unless:` a lambda returning `true` skips |
| FilterTestScenarios.FalseReturningFilterSkipsEndpoint | spec/lib/protobuf/rpc/service_filters_spec.rb:245-265 | the log is exactly `short_circuit_filter`, the dispatch is short-circuited and the endpoint does not run |
| FilterTestScenarios.AfterRegistryDeduplicated | spec/lib/protobuf/rpc/service_filters_spec.rb:286-290 | `verify_after`, `verify_after`, `foo` registers one `verify_after` then `foo` |
| FilterTestScenarios.TwoLoggingAfterFilters | spec/lib/protobuf/rpc/service_filters_spec.rb:295-297 | two logging after filters log in registration order behind the endpoint |
| FilterTestScenarios.AfterFiltersRunInDefinitionOrder | spec/lib/protobuf/rpc/service_filters_spec.rb:295-299 | the log is `endpoint, verify_after, foo` and `verify_after` runs once |
| FilterTestScenarios.AroundBodies | spec/lib/protobuf/rpc/service_filters_spec.rb:308-318 | `outer_around` and `inner_around` each log a top, yield, and log a bottom |
| FilterTestScenarios.AroundRegistryDeduplicated | spec/lib/protobuf/rpc/service_filters_spec.rb:322-327 | `outer, inner, outer, inner` registers `outer` then `inner` |
| FilterTestScenarios.TwoWrappers | spec/lib/protobuf/rpc/service_filters_spec.rb:334-338 | two wrappers' tops are outer then inner, their bottoms inner then outer |
| FilterTestScenarios.TwoAroundFiltersNest | spec/lib/protobuf/rpc/service_filters_spec.rb:332-339 | two yielding around filters nest around a logging endpoint and the dispatch completes |
| FilterTestScenarios.AroundFiltersNestInDefinitionOrder | spec/lib/protobuf/rpc/service_filters_spec.rb:332-339 | the log is `outer_around_top, inner_around_top, endpoint, inner_around_bottom, outer_around_bottom` |
| FilterTestScenarios.InnerWrapperCancels | spec/lib/protobuf/rpc/service_filters_spec.rb:356-362 | a yielding filter around a non-yielding one logs its top, the inner filter's log, then its bottom, and completes |
| FilterTestScenarios.NonYieldingRun | spec/lib/protobuf/rpc/service_filters_spec.rb:341-362 | with `inner_around` logging and not yielding inside `outer_around`, the log is `outer_around_top, inner_around, outer_around_bottom` and the dispatch completes |
| FilterTestScenarios.NonYieldingAroundCancelsEndpoint | spec/lib/protobuf/rpc/service_filters_spec.rb:341-362 | the log is `outer_around_top, inner_around, outer_around_bottom` and the endpoint does not run |
| FilterTestScenarios.RaisingFilterRescued | spec/lib/protobuf/rpc/service_filters_spec.rb:413-420 | one raising before filter followed by its nearest handler: filter log, handler log, rescued with the raised class |
| FilterTestScenarios.RescueExampleRun | spec/lib/protobuf/rpc/service_filters_spec.rb:407-481 | `rescue_from` then a raising `before_filter`: the filter's log, then the chosen handler's log, rescued with the raised class |
| FilterTestScenarios.RescueBodies | spec/lib/protobuf/rpc/service_filters_spec.rb:378-401 | the raising fixture filters log their name and raise their class; `custom_error_occurred` logs |
| FilterTestScenarios.RescueRegistryShape | spec/lib/protobuf/rpc/service_filters_spec.rb:409-411 | `rescue_from` then `before_filter` gives one before filter and a table mapping exactly the listed classes to the handler |
| FilterTestScenarios.MultipleClassesRun | spec/lib/protobuf/rpc/service_filters_spec.rb:407-420 | the shared handler rescues `CustomError3` after `filter_with_error3` |
| FilterTestScenarios.MultipleClassesShareOneHandler | spec/lib/protobuf/rpc/service_filters_spec.rb:407-421 | the log is `filter_with_error3, custom_error_occurred`, rescued as `CustomError3`, and the endpoint does not run |
| FilterTestScenarios.MissingHandlerIsArgumentError | spec/lib/protobuf/rpc/service_filters_spec.rb:424-428 | `rescue_from(CustomError1)` with no handler is an `ArgumentError` mentioning `with` |
| FilterTestScenarios.WithOptionHandlerRescues | spec/lib/protobuf/rpc/service_filters_spec.rb:430-442 | the log is `filter_with_error1, custom_error_occurred`, rescued as `CustomError1`, and the endpoint does not run |
| FilterTestScenarios.BlockHandlerRun | spec/lib/protobuf/rpc/service_filters_spec.rb:445-461 | the block handler rescues `CustomError1` after `filter_with_error1` |
| FilterTestScenarios.BlockHandlerRescues | spec/lib/protobuf/rpc/service_filters_spec.rb:445-462 | the log is `filter_with_error1, block_rescue_handler`, rescued as `CustomError1`, and the endpoint does not run |
| FilterTestScenarios.RuntimeErrorChain | spec/lib/protobuf/rpc/service_filters_spec.rb:464-471 | `RuntimeError`'s superclass chain starts `RuntimeError`, `StandardError` |
| FilterTestScenarios.SuperclassHandlerRun | spec/lib/protobuf/rpc/service_filters_spec.rb:464-480 | the `StandardError` handler rescues the `RuntimeError` raised by `filter_with_runtime_error` |
| FilterTestScenarios.SuperclassHandlerRescuesSubclass | spec/lib/protobuf/rpc/service_filters_spec.rb:464-481 | the log is `filter_with_runtime_error, standard_error_rescue_handler`, rescued as `RuntimeError` (not `StandardError`), and the endpoint does not run |

## Left out

- Dynamic attribute creation in the fixture's `initialize` and `__send__` (lines 9-17) are Ruby metaprogramming. The fixture's state is the call log.
- `clear_filters!` (lines 23-27) resets class-level state. Every example starts from the value `Empty` instead.
- The `before_action`, `after_action` and `around_action` aliases (lines 58-59, 292-293, 329-330) are only checked with `respond_to`, so they are left out.
- The `@before_filter_calls` and `@after_filter_calls` counters become the number of occurrences of the filter's label in the log (`Common.Count`).
- RSpec mocking (`should_not_receive(:endpoint)`) is stated as the endpoint's label not being in the log.
- Ruby symbols and strings are both `Name`: `:foo` and `"foo"` name the same method, endpoint or condition.
- A service's methods are a total function of their name. `FilterTestScenarios.FixtureMethod` gives every name the fixture does not define a body that raises `NoMethodError`, with no superclass in `Errors`; no example dispatches such a name, and Ruby's message and `method_missing` are not modelled.
- Conditions are fixed queries of the service. Side effects and exceptions inside `if:`/`unless:` conditions are not modelled, and a filter that runs earlier cannot change what a later condition returns.
- Yielding more than once is not modelled: an action yields once or not at all.
- The rescue handler's argument is the exception's class only; messages are not modelled.
- `filter_with_error2` (lines 383-386) is never registered by any example, so it is not in the fixture.
- Registering the same action again is a no-op even when the options differ: only the action is compared.
- Several behaviours are exercised by no example. The model makes a choice for each, and these members depend on it:
  - after filters do not run after a short-circuit: `FilterChain.RunPipeline`, `FilterChain.RunFilters`, `PipelineProperties.ShortCircuitSkipsEndpoint`, `PipelineProperties.ShortCircuitMeansBeforeFilterReturnedFalse`, `PipelineProperties.ShortCircuitedIffBeforeFilterReturnedFalse`;
  - when several classes of the raised class's superclass chain are registered, the nearest one's handler wins (the examples register only one covering class each): `RescueDispatch.FirstRegistered`, `RescueDispatch.HandlerFor`, `RescueDispatch.HandlerForNearest`, `PipelineProperties.BeforeFilterErrorIsRescued`;
  - `rescue_from` given both `:with` and a block uses `:with`: `FilterRegistry.RescueFrom`;
  - the `ArgumentError` of `rescue_from` without a handler carries the message `MissingHandlerMessage`; the example checks only that it mentions `with`: `FilterRegistry.RescueFrom`, `FilterTestScenarios.MissingHandlerIsArgumentError`;
  - an action that yields when called without a block raises `LocalJumpError`, which `Errors` places under `StandardError`: `ServiceInstance.Call`;
  - a class registered twice with `rescue_from` keeps the later handler: `FilterRegistry.AddRescues`;
  - an exception raised by a rescue handler escapes with the handler's class: `FilterChain.Rescue`;
  - exceptions from around filters, the endpoint or after filters reach the same rescue wrapper: `FilterChain.RunFilters`, `PipelineProperties.RescueWrapperKeepsPipelineLog`;
  - a filter with both `only:` and `except:` must pass both: `Applicability.Applies`.
