/**
 * The `FilterTest` fixture of the engine's behavioural examples and each
 * example as a lemma about the model.
 */
module FilterTestScenarios {
  import opened Common
  import opened ClassHierarchy
  import opened ServiceInstance
  import opened FilterRegistry
  import opened Applicability
  import opened FilterChain
  import opened PipelineProperties

  /** A fixture method that appends its own name to the log and returns a truthy value. */
  function Logging(n: Name): Body
  {
    Body([n], false, [], Return(OtherValue))
  }

  /** The methods of `FilterTest`, each reduced to its effect on the log. */
  function FixtureMethod(n: Name): Body
  {
    if n in {"endpoint", "verify_before", "foo", "endpoint_with_verify", "endpoint_without_verify",
             "verify_after", "custom_error_occurred"}
    then Logging(n)
    else if n == "short_circuit_filter" then Body([n], false, [], Return(FalseValue))
    else if n == "outer_around" then Body(["outer_around_top"], true, ["outer_around_bottom"], Return(OtherValue))
    else if n == "inner_around" then Body(["inner_around_top"], true, ["inner_around_bottom"], Return(OtherValue))
    else if n == "filter_with_error1" then Body([n], false, [], Raise("CustomError1"))
    else if n == "filter_with_error3" then Body([n], false, [], Raise("CustomError3"))
    else if n == "filter_with_runtime_error" then Body([n], false, [], Raise("RuntimeError"))
    else Body([], false, [], Raise("NoMethodError"))
  }

  /** The fixture's predicate methods `check_true` and `check_false`. */
  function FixtureQuery(n: Name): Value
  {
    if n == "check_true" then TrueValue
    else if n == "check_false" then FalseValue
    else NilValue
  }

  const Fixture := Service(FixtureMethod, FixtureQuery)

  /** The fixture methods the around examples use. */
  lemma AroundBodies()
    ensures FixtureMethod("outer_around") == Body(["outer_around_top"], true, ["outer_around_bottom"], Return(OtherValue))
    ensures FixtureMethod("inner_around") == Body(["inner_around_top"], true, ["inner_around_bottom"], Return(OtherValue))
    ensures FixtureMethod("endpoint") == Logging("endpoint")
  {
  }

  /** `inner_around` redefined so that it logs and never yields. */
  function NonYieldingMethod(n: Name): Body
  {
    if n == "inner_around" then Logging("inner_around") else FixtureMethod(n)
  }

  const NonYieldingFixture := Service(NonYieldingMethod, FixtureQuery)

  /**
   * The exception classes the examples raise and rescue, with Ruby's own
   * superclasses, and `LocalJumpError`, which the model raises for a yield
   * without a block.
   */
  const Errors: Hierarchy := map[
    "CustomError1" := "StandardError",
    "CustomError2" := "StandardError",
    "CustomError3" := "StandardError",
    "RuntimeError" := "StandardError",
    "LocalJumpError" := "StandardError",
    "StandardError" := "Exception"]

  function Before(reg: Registry, n: Name): Registry
  {
    Register(reg, Kind.Before, Unconditional(Method(n)))
  }

  function BeforeWith(reg: Registry, f: Filter): Registry
  {
    Register(reg, Kind.Before, f)
  }

  /** Registering `verify_before`, `verify_before`, `foo` keeps one `verify_before`. */
  lemma BeforeRegistryDeduplicated()
    ensures Before(Before(Before(Empty, "verify_before"), "verify_before"), "foo")
         == Registry([Unconditional(Method("verify_before")), Unconditional(Method("foo"))], [], [], map[])
  {
    var vb := Unconditional(Method("verify_before"));
    var foo := Unconditional(Method("foo"));
    assert Before(Empty, "verify_before").before == [vb];
    assert vb.action in Actions([vb]);
    assert foo.action !in Actions([vb]);
  }

  /** The same three `before_filter` calls, read as the fold `RegisterAll` the general lemmas use. */
  lemma BeforeRegistryIsRegisterAll()
    ensures var vb := Unconditional(Method("verify_before"));
            var foo := Unconditional(Method("foo"));
            Before(Before(Before(Empty, "verify_before"), "verify_before"), "foo").before
            == RegisterAll([], [vb, vb, foo])
  {
    var vb := Unconditional(Method("verify_before"));
    var foo := Unconditional(Method("foo"));
    var fs := [vb, vb, foo];
    var r1 := Before(Empty, "verify_before");
    var r2 := Before(r1, "verify_before");
    var r3 := Before(r2, "foo");
    assert fs[1..] == [vb, foo] && fs[1..][1..] == [foo] && fs[1..][1..][1..] == [];
    assert RegisterEach(r3, Kind.Before, []) == r3;
    assert RegisterEach(r2, Kind.Before, [foo]) == r3;
    assert RegisterEach(r1, Kind.Before, [vb, foo]) == r3;
    assert RegisterEach(Empty, Kind.Before, fs) == r3;
    RegisterEachIsRegisterAll(Empty, Kind.Before, fs);
  }

  /** Two unconditional before filters whose actions each log their own name. */
  lemma TwoLoggingBeforeFilters(s: Service, x: Name, y: Name, e: Name)
    requires s.methods(x) == Logging(x) && s.methods(y) == Logging(y) && s.methods(e) == Logging(e)
    ensures RunFilters(Registry([Unconditional(Method(x)), Unconditional(Method(y))], [], [], map[]), Errors, s, e)
         == Dispatch([x, y, e], Completed)
  {
    var fs := [Unconditional(Method(x)), Unconditional(Method(y))];
    assert Fired(s, e, fs) == fs;
    ProceedingPipelineCompletes(Registry(fs, [], [], map[]), Errors, s, e);
    assert Logs(s, fs) == [x, y];
  }

  /** Two unconditional after filters whose actions each log their own name. */
  lemma TwoLoggingAfterFilters(s: Service, x: Name, y: Name, e: Name)
    requires s.methods(x) == Logging(x) && s.methods(y) == Logging(y) && s.methods(e) == Logging(e)
    ensures RunFilters(Registry([], [Unconditional(Method(x)), Unconditional(Method(y))], [], map[]), Errors, s, e)
         == Dispatch([e, x, y], Completed)
  {
    var fs := [Unconditional(Method(x)), Unconditional(Method(y))];
    assert Fired(s, e, fs) == fs;
    ProceedingPipelineCompletes(Registry([], fs, [], map[]), Errors, s, e);
    assert Logs(s, fs) == [x, y];
  }

  lemma BeforeFiltersRunInDefinitionOrder()
    ensures var reg := Before(Before(Before(Empty, "verify_before"), "verify_before"), "foo");
            var r := RunFilters(reg, Errors, Fixture, "endpoint");
            && r == Dispatch(["verify_before", "foo", "endpoint"], Completed)
            && Count(r.trace, "verify_before") == 1
  {
    BeforeRegistryDeduplicated();
    assert FixtureMethod("verify_before") == Logging("verify_before");
    assert FixtureMethod("foo") == Logging("foo");
    assert FixtureMethod("endpoint") == Logging("endpoint");
    TwoLoggingBeforeFilters(Fixture, "verify_before", "foo", "endpoint");
  }

  /** A registry holding one before filter whose action only logs, dispatching an endpoint that only logs. */
  lemma OneLoggingBeforeFilter(f: Filter, e: Name)
    requires f.action.Method? && FixtureMethod(f.action.name) == Logging(f.action.name)
    requires FixtureMethod(e) == Logging(e)
    ensures RunFilters(BeforeWith(Empty, f), Errors, Fixture, e)
         == Dispatch((if Applies(Fixture, e, f) then [f.action.name] else []) + [e], Completed)
  {
    var reg := BeforeWith(Empty, f);
    assert reg == Registry([f], [], [], map[]);
    FiredStep(Fixture, e, [f]);
    ProceedingPipelineCompletes(reg, Errors, Fixture, e);
  }

  function VerifyBefore(only: set<Name>, except: set<Name>, ifCond: Option<Condition>, unlessCond: Option<Condition>)
    : Filter
  {
    Filter(Method("verify_before"), only, except, ifCond, unlessCond)
  }

  lemma OnlyInvokesFilterOnListedEndpoint()
    ensures RunFilters(BeforeWith(Empty, VerifyBefore({"endpoint_with_verify"}, {}, None, None)),
                       Errors, Fixture, "endpoint_with_verify")
         == Dispatch(["verify_before", "endpoint_with_verify"], Completed)
  {
    OneLoggingBeforeFilter(VerifyBefore({"endpoint_with_verify"}, {}, None, None), "endpoint_with_verify");
  }

  lemma OnlySkipsFilterOnOtherEndpoint()
    ensures RunFilters(BeforeWith(Empty, VerifyBefore({"endpoint_with_verify"}, {}, None, None)),
                       Errors, Fixture, "endpoint")
         == Dispatch(["endpoint"], Completed)
  {
    OneLoggingBeforeFilter(VerifyBefore({"endpoint_with_verify"}, {}, None, None), "endpoint");
  }

  lemma ExceptInvokesFilterOnOtherEndpoint()
    ensures RunFilters(BeforeWith(Empty, VerifyBefore({}, {"endpoint_without_verify"}, None, None)),
                       Errors, Fixture, "endpoint")
         == Dispatch(["verify_before", "endpoint"], Completed)
  {
    OneLoggingBeforeFilter(VerifyBefore({}, {"endpoint_without_verify"}, None, None), "endpoint");
  }

  lemma ExceptSkipsFilterOnListedEndpoint()
    ensures RunFilters(BeforeWith(Empty, VerifyBefore({}, {"endpoint_without_verify"}, None, None)),
                       Errors, Fixture, "endpoint_without_verify")
         == Dispatch(["endpoint_without_verify"], Completed)
  {
    OneLoggingBeforeFilter(VerifyBefore({}, {"endpoint_without_verify"}, None, None), "endpoint_without_verify");
  }

  lemma IfMethodTrueInvokesFilter()
    ensures RunFilters(BeforeWith(Empty, VerifyBefore({}, {}, Some(MethodCondition("check_true")), None)),
                       Errors, Fixture, "endpoint")
         == Dispatch(["verify_before", "endpoint"], Completed)
  {
    OneLoggingBeforeFilter(VerifyBefore({}, {}, Some(MethodCondition("check_true")), None), "endpoint");
  }

  lemma IfCallableTrueInvokesFilter()
    ensures RunFilters(BeforeWith(Empty, VerifyBefore({}, {}, Some(CallableCondition(TrueValue)), None)),
                       Errors, Fixture, "endpoint")
         == Dispatch(["verify_before", "endpoint"], Completed)
  {
    OneLoggingBeforeFilter(VerifyBefore({}, {}, Some(CallableCondition(TrueValue)), None), "endpoint");
  }

  lemma IfMethodFalseSkipsFilter()
    ensures RunFilters(BeforeWith(Empty, VerifyBefore({}, {}, Some(MethodCondition("check_false")), None)),
                       Errors, Fixture, "endpoint")
         == Dispatch(["endpoint"], Completed)
  {
    OneLoggingBeforeFilter(VerifyBefore({}, {}, Some(MethodCondition("check_false")), None), "endpoint");
  }

  lemma IfCallableFalseSkipsFilter()
    ensures RunFilters(BeforeWith(Empty, VerifyBefore({}, {}, Some(CallableCondition(FalseValue)), None)),
                       Errors, Fixture, "endpoint")
         == Dispatch(["endpoint"], Completed)
  {
    OneLoggingBeforeFilter(VerifyBefore({}, {}, Some(CallableCondition(FalseValue)), None), "endpoint");
  }

  lemma UnlessMethodFalseInvokesFilter()
    ensures RunFilters(BeforeWith(Empty, VerifyBefore({}, {}, None, Some(MethodCondition("check_false")))),
                       Errors, Fixture, "endpoint")
         == Dispatch(["verify_before", "endpoint"], Completed)
  {
    OneLoggingBeforeFilter(VerifyBefore({}, {}, None, Some(MethodCondition("check_false"))), "endpoint");
  }

  /** The callable in this example returns `false`, so the filter fires. */
  lemma UnlessCallableFalseInvokesFilter()
    ensures RunFilters(BeforeWith(Empty, VerifyBefore({}, {}, None, Some(CallableCondition(FalseValue)))),
                       Errors, Fixture, "endpoint")
         == Dispatch(["verify_before", "endpoint"], Completed)
  {
    OneLoggingBeforeFilter(VerifyBefore({}, {}, None, Some(CallableCondition(FalseValue))), "endpoint");
  }

  /** The method in this example is `check_true`, so the filter is skipped. */
  lemma UnlessMethodTrueSkipsFilter()
    ensures RunFilters(BeforeWith(Empty, VerifyBefore({}, {}, None, Some(MethodCondition("check_true")))),
                       Errors, Fixture, "endpoint")
         == Dispatch(["endpoint"], Completed)
  {
    OneLoggingBeforeFilter(VerifyBefore({}, {}, None, Some(MethodCondition("check_true"))), "endpoint");
  }

  lemma UnlessCallableTrueSkipsFilter()
    ensures RunFilters(BeforeWith(Empty, VerifyBefore({}, {}, None, Some(CallableCondition(TrueValue)))),
                       Errors, Fixture, "endpoint")
         == Dispatch(["endpoint"], Completed)
  {
    OneLoggingBeforeFilter(VerifyBefore({}, {}, None, Some(CallableCondition(TrueValue))), "endpoint");
  }

  lemma FalseReturningFilterSkipsEndpoint()
    ensures var r := RunFilters(Before(Empty, "short_circuit_filter"), Errors, Fixture, "endpoint");
            r == Dispatch(["short_circuit_filter"], ShortCircuited) && "endpoint" !in r.trace
  {
    var f := Unconditional(Method("short_circuit_filter"));
    var reg := Before(Empty, "short_circuit_filter");
    assert reg == Registry([f], [], [], map[]);
    FiredStep(Fixture, "endpoint", [f]);
    ShortCircuitSkipsEndpoint(reg, Errors, Fixture, "endpoint", 0);
    assert [f][..1] == [f];
  }

  function After(reg: Registry, n: Name): Registry
  {
    Register(reg, Kind.After, Unconditional(Method(n)))
  }

  /** Registering `verify_after`, `verify_after`, `foo` keeps one `verify_after`. */
  lemma AfterRegistryDeduplicated()
    ensures After(After(After(Empty, "verify_after"), "verify_after"), "foo")
         == Registry([], [Unconditional(Method("verify_after")), Unconditional(Method("foo"))], [], map[])
  {
    var va := Unconditional(Method("verify_after"));
    var foo := Unconditional(Method("foo"));
    assert After(Empty, "verify_after").after == [va];
    assert va.action in Actions([va]);
    assert foo.action !in Actions([va]);
  }

  lemma AfterFiltersRunInDefinitionOrder()
    ensures var reg := After(After(After(Empty, "verify_after"), "verify_after"), "foo");
            var r := RunFilters(reg, Errors, Fixture, "endpoint");
            && r == Dispatch(["endpoint", "verify_after", "foo"], Completed)
            && Count(r.trace, "verify_after") == 1
  {
    AfterRegistryDeduplicated();
    assert FixtureMethod("verify_after") == Logging("verify_after");
    assert FixtureMethod("foo") == Logging("foo");
    assert FixtureMethod("endpoint") == Logging("endpoint");
    TwoLoggingAfterFilters(Fixture, "verify_after", "foo", "endpoint");
  }

  function Around(reg: Registry, n: Name): Registry
  {
    Register(reg, Kind.Around, Unconditional(Method(n)))
  }

  /** `around_filter` for `outer_around`, `inner_around`, `outer_around`, `inner_around`. */
  function AroundRegistry(): Registry
  {
    Around(Around(Around(Around(Empty, "outer_around"), "inner_around"), "outer_around"), "inner_around")
  }

  lemma AroundRegistryDeduplicated()
    ensures AroundRegistry()
         == Registry([], [], [Unconditional(Method("outer_around")), Unconditional(Method("inner_around"))], map[])
  {
    var o := Unconditional(Method("outer_around"));
    var i := Unconditional(Method("inner_around"));
    var r1 := Around(Empty, "outer_around");
    assert r1.around == [o];
    assert i.action !in Actions([o]);
    var r2 := Around(r1, "inner_around");
    assert r2.around == [o, i];
    assert o.action in Actions([o, i]);
    assert i.action in Actions([o, i]);
  }

  lemma TwoWrappers(s: Service, o: Filter, i: Filter)
    ensures Tops(s, [o, i]) == BodyOf(s, o.action).pre + BodyOf(s, i.action).pre
    ensures Bottoms(s, [o, i]) == BodyOf(s, i.action).post + BodyOf(s, o.action).post
  {
    assert [o, i][1..] == [i];
    assert [i][1..] == [];
    assert Tops(s, [i]) == BodyOf(s, i.action).pre + Tops(s, []);
    assert Bottoms(s, [i]) == Bottoms(s, []) + BodyOf(s, i.action).post;
  }

  /** Two unconditional around filters that both yield nest around a logging endpoint. */
  lemma TwoAroundFiltersNest(reg: Registry, s: Service, e: Name, o: Filter, i: Filter)
    requires reg == Registry([], [], [o, i], map[])
    requires o == Unconditional(o.action) && i == Unconditional(i.action)
    requires BodyOf(s, o.action).yieldsBlock && BodyOf(s, o.action).ending.Return?
    requires BodyOf(s, i.action).yieldsBlock && BodyOf(s, i.action).ending.Return?
    requires s.methods(e) == Logging(e)
    ensures RunFilters(reg, Errors, s, e)
         == Dispatch(BodyOf(s, o.action).pre + BodyOf(s, i.action).pre + [e]
                     + BodyOf(s, i.action).post + BodyOf(s, o.action).post,
                     Completed)
  {
    assert Fired(s, e, [o, i]) == [o, i];
    ProceedingPipelineCompletes(reg, Errors, s, e);
    TwoWrappers(s, o, i);
  }

  lemma AroundFiltersNestInDefinitionOrder()
    ensures RunFilters(AroundRegistry(), Errors, Fixture, "endpoint")
         == Dispatch(["outer_around_top", "inner_around_top", "endpoint", "inner_around_bottom", "outer_around_bottom"],
                     Completed)
  {
    AroundRegistryDeduplicated();
    AroundBodies();
    TwoAroundFiltersNest(AroundRegistry(), Fixture, "endpoint",
                         Unconditional(Method("outer_around")), Unconditional(Method("inner_around")));
  }

  /** A yielding around filter wrapping one that does not yield: the endpoint never runs. */
  lemma InnerWrapperCancels(reg: Registry, s: Service, e: Name, o: Filter, i: Filter)
    requires reg == Registry([], [], [o, i], map[])
    requires o == Unconditional(o.action) && i == Unconditional(i.action)
    requires BodyOf(s, o.action).yieldsBlock && BodyOf(s, o.action).ending.Return?
    requires !BodyOf(s, i.action).yieldsBlock && BodyOf(s, i.action).ending.Return?
    ensures RunFilters(reg, Errors, s, e)
         == Dispatch(BodyOf(s, o.action).pre + LogOf(s, i.action) + BodyOf(s, o.action).post, Completed)
  {
    assert RunAround(s, e, [o, i]).trace
        == BodyOf(s, o.action).pre + LogOf(s, i.action) + BodyOf(s, o.action).post by {
      assert Fired(s, e, [o, i]) == [o, i];
      assert [o, i][..1] == [o];
      NonYieldingAroundCancelsInner(s, e, [o, i], 1);
      assert [o][1..] == [];
      assert Tops(s, [o]) == BodyOf(s, o.action).pre + Tops(s, []);
      assert Bottoms(s, [o]) == Bottoms(s, []) + BodyOf(s, o.action).post;
    }
    assert RunUnwrapped(s, e, [], true) == StageRun([], Proceed);
    assert RunUnwrapped(s, e, [], false) == StageRun([], Proceed);
    PipelineOfProceedingStages(reg, s, e);
  }

  /** The around chain `outer_around`, `inner_around` on the fixture whose `inner_around` does not yield. */
  lemma NonYieldingRun()
    ensures RunFilters(Registry([], [], [Unconditional(Method("outer_around")), Unconditional(Method("inner_around"))], map[]),
                       Errors, NonYieldingFixture, "endpoint")
         == Dispatch(["outer_around_top", "inner_around", "outer_around_bottom"], Completed)
  {
    var o := Unconditional(Method("outer_around"));
    var i := Unconditional(Method("inner_around"));
    var s := NonYieldingFixture;
    assert BodyOf(s, o.action) == Body(["outer_around_top"], true, ["outer_around_bottom"], Return(OtherValue)) by {
      AroundBodies();
      assert NonYieldingMethod("outer_around") == FixtureMethod("outer_around");
    }
    assert BodyOf(s, i.action) == Logging("inner_around");
    InnerWrapperCancels(Registry([], [], [o, i], map[]), s, "endpoint", o, i);
    assert ["outer_around_top"] + (["inner_around"] + []) + ["outer_around_bottom"]
        == ["outer_around_top", "inner_around", "outer_around_bottom"];
  }

  lemma NonYieldingAroundCancelsEndpoint()
    ensures var reg := Around(Around(AroundRegistry(), "outer_around"), "inner_around");
            var r := RunFilters(reg, Errors, NonYieldingFixture, "endpoint");
            r == Dispatch(["outer_around_top", "inner_around", "outer_around_bottom"], Completed)
            && "endpoint" !in r.trace
  {
    var o := Unconditional(Method("outer_around"));
    var i := Unconditional(Method("inner_around"));
    AroundRegistryDeduplicated();
    assert Around(Around(AroundRegistry(), "outer_around"), "inner_around") == AroundRegistry() by {
      assert o.action in Actions([o, i]);
      assert i.action in Actions([o, i]);
    }
    NonYieldingRun();
  }


  /** The fixture method every `:with` example names as its handler. */
  const CustomErrorOccurred := Method("custom_error_occurred")

  /** `rescue_from(*classes, ...)` followed by `before_filter(filter)`. */
  function RescueThenBefore(classes: seq<ClassName>, with: Option<ActionRef>, block: Option<ActionRef>, filter: Name)
    : Registry
    requires with.Some? || block.Some?
  {
    Before(RescueFrom(Empty, classes, with, block).value, filter)
  }

  /** The one-filter rescue examples share this shape: the filter logs and raises. */
  lemma RaisingFilterRescued(reg: Registry, s: Service, f: Filter, j: nat)
    requires reg.before == [f] && f == Unconditional(f.action)
    requires !BodyOf(s, f.action).yieldsBlock && BodyOf(s, f.action).ending.Raise?
    requires var c := BodyOf(s, f.action).ending.cls;
             && j < |Ancestors(Errors, c)| && Ancestors(Errors, c)[j] in reg.rescues
             && (forall i :: 0 <= i < j ==> Ancestors(Errors, c)[i] !in reg.rescues)
             && !BodyOf(s, reg.rescues[Ancestors(Errors, c)[j]]).yieldsBlock
             && BodyOf(s, reg.rescues[Ancestors(Errors, c)[j]]).ending.Return?
    ensures var c := BodyOf(s, f.action).ending.cls;
            (RunFilters(reg, Errors, s, "endpoint")
             == Dispatch(LogOf(s, f.action) + LogOf(s, reg.rescues[Ancestors(Errors, c)[j]]), Rescued(c)))
  {
    assert Fired(s, "endpoint", reg.before) == [f] by {
      FiredStep(s, "endpoint", [f]);
    }
    assert Logs(s, [f][..1]) == LogOf(s, f.action) by {
      assert [f][..1] == [f] && [f][1..] == [];
      assert Logs(s, [f]) == LogOf(s, f.action) + Logs(s, []);
    }
    BeforeFilterErrorIsRescued(reg, Errors, s, "endpoint", 0, j);
  }

  /**
   * `rescue_from(*classes, handler)` then `before_filter(filter)`, where the
   * filter raises `c` and the `j`th class of `c`'s superclass chain is the
   * nearest one listed: the filter's log, then the handler's, rescued.
   */
  lemma RescueExampleRun(s: Service, classes: seq<ClassName>, with: Option<ActionRef>, block: Option<ActionRef>,
                         filter: Name, c: ClassName, j: nat)
    requires with.Some? || block.Some?
    requires !BodyOf(s, Method(filter)).yieldsBlock && BodyOf(s, Method(filter)).ending == Raise(c)
    requires j < |Ancestors(Errors, c)| && Ancestors(Errors, c)[j] in classes
    requires forall i :: 0 <= i < j ==> Ancestors(Errors, c)[i] !in classes
    requires var handler := if with.Some? then with.value else block.value;
             !BodyOf(s, handler).yieldsBlock && BodyOf(s, handler).ending.Return?
    ensures RunFilters(RescueThenBefore(classes, with, block, filter), Errors, s, "endpoint")
         == Dispatch(LogOf(s, Method(filter)) + LogOf(s, if with.Some? then with.value else block.value), Rescued(c))
  {
    var reg := RescueThenBefore(classes, with, block, filter);
    RescueRegistryShape(classes, with, block, filter);
    RaisingFilterRescued(reg, s, Unconditional(Method(filter)), j);
  }

  lemma RescueBodies()
    ensures FixtureMethod("filter_with_error1") == Body(["filter_with_error1"], false, [], Raise("CustomError1"))
    ensures FixtureMethod("filter_with_error3") == Body(["filter_with_error3"], false, [], Raise("CustomError3"))
    ensures FixtureMethod("filter_with_runtime_error")
         == Body(["filter_with_runtime_error"], false, [], Raise("RuntimeError"))
    ensures FixtureMethod("custom_error_occurred") == Logging("custom_error_occurred")
  {
  }

  /** The registry `rescue_from(*classes, handler)` then `before_filter(filter)` builds. */
  lemma RescueRegistryShape(classes: seq<ClassName>, with: Option<ActionRef>, block: Option<ActionRef>, filter: Name)
    requires with.Some? || block.Some?
    ensures var reg := RescueThenBefore(classes, with, block, filter);
            && reg.before == [Unconditional(Method(filter))]
            && reg.rescues.Keys == (set c | c in classes)
            && forall c :: c in classes ==> reg.rescues[c] == (if with.Some? then with.value else block.value)
  {
    var f := Unconditional(Method(filter));
    assert f.action !in Actions([]);
  }

  lemma MultipleClassesShareOneHandler()
    ensures var r := RunFilters(
              RescueThenBefore(["CustomError1", "CustomError2", "CustomError3"], Some(CustomErrorOccurred), None,
                               "filter_with_error3"),
              Errors, Fixture, "endpoint");
            r == Dispatch(["filter_with_error3", "custom_error_occurred"], Rescued("CustomError3"))
            && "endpoint" !in r.trace
  {
    MultipleClassesRun();
    RescueBodies();
    RescuedLog(RunFilters(RescueThenBefore(["CustomError1", "CustomError2", "CustomError3"], Some(CustomErrorOccurred),
                                           None, "filter_with_error3"), Errors, Fixture, "endpoint"),
               LogOf(Fixture, Method("filter_with_error3")), LogOf(Fixture, CustomErrorOccurred),
               "filter_with_error3", "custom_error_occurred", "CustomError3");
  }

  /** A rescued run whose filter and handler each log one entry, neither of them the endpoint's. */
  lemma RescuedLog(r: Dispatch, filterLog: seq<Label>, handlerLog: seq<Label>, x: Label, y: Label, c: ClassName)
    requires r == Dispatch(filterLog + handlerLog, Rescued(c))
    requires filterLog == [x] && handlerLog == [y] && x != "endpoint" && y != "endpoint"
    ensures r == Dispatch([x, y], Rescued(c)) && "endpoint" !in r.trace
  {
  }

  lemma MultipleClassesRun()
    ensures RunFilters(RescueThenBefore(["CustomError1", "CustomError2", "CustomError3"], Some(CustomErrorOccurred),
                                        None, "filter_with_error3"), Errors, Fixture, "endpoint")
         == Dispatch(LogOf(Fixture, Method("filter_with_error3")) + LogOf(Fixture, CustomErrorOccurred),
                     Rescued("CustomError3"))
  {
    var classes := ["CustomError1", "CustomError2", "CustomError3"];
    assert Ancestors(Errors, "CustomError3")[0] == "CustomError3";
    assert classes[2] in classes;
    RescueBodies();
    RescueExampleRun(Fixture, classes, Some(CustomErrorOccurred), None, "filter_with_error3", "CustomError3", 0);
  }

  lemma MissingHandlerIsArgumentError()
    ensures var r := RescueFrom(Empty, ["CustomError1"], None, None);
            r.Err? && r.error.ArgumentError? && Mentions(r.error.message, "with")
  {
  }

  lemma WithOptionHandlerRescues()
    ensures var r := RunFilters(
              RescueThenBefore(["CustomError1"], Some(CustomErrorOccurred), None, "filter_with_error1"),
              Errors, Fixture, "endpoint");
            r == Dispatch(["filter_with_error1", "custom_error_occurred"], Rescued("CustomError1"))
            && "endpoint" !in r.trace
  {
    var reg := RescueThenBefore(["CustomError1"], Some(CustomErrorOccurred), None, "filter_with_error1");
    var filter := Method("filter_with_error1");
    assert RunFilters(reg, Errors, Fixture, "endpoint")
        == Dispatch(LogOf(Fixture, filter) + LogOf(Fixture, CustomErrorOccurred), Rescued("CustomError1")) by {
      assert Ancestors(Errors, "CustomError1")[0] == "CustomError1";
      assert "CustomError1" in ["CustomError1"];
      RescueBodies();
      RescueExampleRun(Fixture, ["CustomError1"], Some(CustomErrorOccurred), None, "filter_with_error1",
                       "CustomError1", 0);
    }
    RescueBodies();
    RescuedLog(RunFilters(reg, Errors, Fixture, "endpoint"), LogOf(Fixture, filter), LogOf(Fixture, CustomErrorOccurred),
               "filter_with_error1", "custom_error_occurred", "CustomError1");
  }

  /** The block handler of the examples, an anonymous callable. */
  function BlockHandler(entry: Label): ActionRef
  {
    Callable(0, Logging(entry))
  }

  lemma BlockHandlerRescues()
    ensures var r := RunFilters(
              RescueThenBefore(["CustomError1"], None, Some(BlockHandler("block_rescue_handler")), "filter_with_error1"),
              Errors, Fixture, "endpoint");
            r == Dispatch(["filter_with_error1", "block_rescue_handler"], Rescued("CustomError1"))
            && "endpoint" !in r.trace
  {
    var handler := BlockHandler("block_rescue_handler");
    var filter := Method("filter_with_error1");
    BlockHandlerRun();
    RescueBodies();
    RescuedLog(RunFilters(RescueThenBefore(["CustomError1"], None, Some(handler), "filter_with_error1"),
                          Errors, Fixture, "endpoint"),
               LogOf(Fixture, filter), LogOf(Fixture, handler), "filter_with_error1", "block_rescue_handler",
               "CustomError1");
  }

  lemma BlockHandlerRun()
    ensures RunFilters(RescueThenBefore(["CustomError1"], None, Some(BlockHandler("block_rescue_handler")),
                                        "filter_with_error1"), Errors, Fixture, "endpoint")
         == Dispatch(LogOf(Fixture, Method("filter_with_error1")) + LogOf(Fixture, BlockHandler("block_rescue_handler")),
                     Rescued("CustomError1"))
  {
    var handler := BlockHandler("block_rescue_handler");
    assert Ancestors(Errors, "CustomError1")[0] == "CustomError1";
    assert "CustomError1" in ["CustomError1"];
    RescueBodies();
    RescueExampleRun(Fixture, ["CustomError1"], None, Some(handler), "filter_with_error1", "CustomError1", 0);
  }

  /** `RuntimeError`'s superclass chain begins `RuntimeError`, `StandardError`. */
  lemma RuntimeErrorChain()
    ensures |Ancestors(Errors, "RuntimeError")| > 1
    ensures Ancestors(Errors, "RuntimeError")[0] == "RuntimeError"
    ensures Ancestors(Errors, "RuntimeError")[1] == "StandardError"
  {
    var chain := Ancestors(Errors, "RuntimeError");
    assert "RuntimeError" in Errors && Errors["RuntimeError"] == "StandardError";
  }

  /** Only `StandardError` is registered; the handler still sees `RuntimeError`. */
  lemma SuperclassHandlerRescuesSubclass()
    ensures var r := RunFilters(
              RescueThenBefore(["StandardError"], None, Some(BlockHandler("standard_error_rescue_handler")),
                               "filter_with_runtime_error"),
              Errors, Fixture, "endpoint");
            r == Dispatch(["filter_with_runtime_error", "standard_error_rescue_handler"], Rescued("RuntimeError"))
            && "endpoint" !in r.trace
  {
    SuperclassHandlerRun();
    RescueBodies();
    RescuedLog(RunFilters(RescueThenBefore(["StandardError"], None, Some(BlockHandler("standard_error_rescue_handler")),
                                           "filter_with_runtime_error"), Errors, Fixture, "endpoint"),
               LogOf(Fixture, Method("filter_with_runtime_error")),
               LogOf(Fixture, BlockHandler("standard_error_rescue_handler")),
               "filter_with_runtime_error", "standard_error_rescue_handler", "RuntimeError");
  }

  lemma SuperclassHandlerRun()
    ensures RunFilters(RescueThenBefore(["StandardError"], None, Some(BlockHandler("standard_error_rescue_handler")),
                                        "filter_with_runtime_error"), Errors, Fixture, "endpoint")
         == Dispatch(LogOf(Fixture, Method("filter_with_runtime_error"))
                     + LogOf(Fixture, BlockHandler("standard_error_rescue_handler")),
                     Rescued("RuntimeError"))
  {
    var handler := BlockHandler("standard_error_rescue_handler");
    RuntimeErrorChain();
    assert "StandardError" in ["StandardError"];
    assert "RuntimeError" !in ["StandardError"];
    RescueBodies();
    RescueExampleRun(Fixture, ["StandardError"], None, Some(handler), "filter_with_runtime_error", "RuntimeError", 1);
  }
}
