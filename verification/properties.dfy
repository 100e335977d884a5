/**
 * What `run_filters` promises, stated against independent descriptions of
 * the expected call log.
 */
module PipelineProperties {
  import opened Common
  import opened ClassHierarchy
  import opened ServiceInstance
  import opened FilterRegistry
  import opened Applicability
  import opened RescueDispatch
  import opened FilterChain

  /** The logs of the non-yielding actions of `fs`, one after another. */
  function Logs(s: Service, fs: seq<Filter>): seq<Label>
  {
    if |fs| == 0 then [] else LogOf(s, fs[0].action) + Logs(s, fs[1..])
  }

  /** The code before `yield` of each of `fs`, outermost first. */
  function Tops(s: Service, fs: seq<Filter>): seq<Label>
  {
    if |fs| == 0 then [] else BodyOf(s, fs[0].action).pre + Tops(s, fs[1..])
  }

  /** The code after `yield` of each of `fs`, innermost first. */
  function Bottoms(s: Service, fs: seq<Filter>): seq<Label>
  {
    if |fs| == 0 then [] else Bottoms(s, fs[1..]) + BodyOf(s, fs[0].action).post
  }

  /** One step of `Fired`. */
  lemma FiredStep(s: Service, e: Name, fs: seq<Filter>)
    requires |fs| > 0
    ensures Applies(s, e, fs[0]) ==> Fired(s, e, fs) == [fs[0]] + Fired(s, e, fs[1..])
    ensures !Applies(s, e, fs[0]) ==> Fired(s, e, fs) == Fired(s, e, fs[1..])
  {
  }

  lemma LogsCons(s: Service, f: Filter, fs: seq<Filter>)
    ensures Logs(s, [f] + fs) == LogOf(s, f.action) + Logs(s, fs)
  {
    assert ([f] + fs)[1..] == fs;
  }

  /** A filter that does not fire is passed over. */
  lemma UnwrappedSkipsHead(s: Service, e: Name, fs: seq<Filter>, stopOnFalse: bool)
    requires |fs| > 0 && !Applies(s, e, fs[0])
    ensures RunUnwrapped(s, e, fs, stopOnFalse) == RunUnwrapped(s, e, fs[1..], stopOnFalse)
  {
  }

  /** A firing filter that completes normally logs, then the stage goes on. */
  lemma UnwrappedRunsProceedingHead(s: Service, e: Name, fs: seq<Filter>, stopOnFalse: bool)
    requires |fs| > 0 && Applies(s, e, fs[0]) && Proceeds(s, fs[0].action, stopOnFalse)
    ensures var rest := RunUnwrapped(s, e, fs[1..], stopOnFalse);
            RunUnwrapped(s, e, fs, stopOnFalse) == StageRun(LogOf(s, fs[0].action) + rest.trace, rest.step)
  {
    assert Call(s, fs[0].action) == Run(LogOf(s, fs[0].action), Normal(BodyOf(s, fs[0].action).ending.value));
  }

  /** The filter stops the stage: it raises, or it returns `false` where that halts. */
  predicate StopsStage(s: Service, a: ActionRef, stopOnFalse: bool)
  {
    !BodyOf(s, a).yieldsBlock
    && (BodyOf(s, a).ending.Raise? || (stopOnFalse && BodyOf(s, a).ending == Return(FalseValue)))
  }

  /** How a stopping filter ends its stage. */
  function StopStep(s: Service, a: ActionRef): Step
  {
    if BodyOf(s, a).ending.Raise? then Fail(BodyOf(s, a).ending.cls) else Halt
  }

  lemma UnwrappedStopsAtHead(s: Service, e: Name, fs: seq<Filter>, stopOnFalse: bool)
    requires |fs| > 0 && Applies(s, e, fs[0]) && StopsStage(s, fs[0].action, stopOnFalse)
    ensures RunUnwrapped(s, e, fs, stopOnFalse) == StageRun(LogOf(s, fs[0].action), StopStep(s, fs[0].action))
  {
    assert Call(s, fs[0].action) == Run(LogOf(s, fs[0].action), Finish(BodyOf(s, fs[0].action).ending));
  }

  /**
   * When every firing filter runs to completion without returning `false`,
   * a stage logs exactly the firing filters' logs in registration order and
   * lets the pipeline proceed.
   */
  lemma {:induction false} ProceedingStageLogsFired(s: Service, e: Name, fs: seq<Filter>, stopOnFalse: bool)
    requires forall f | f in Fired(s, e, fs) :: Proceeds(s, f.action, stopOnFalse)
    ensures RunUnwrapped(s, e, fs, stopOnFalse) == StageRun(Logs(s, Fired(s, e, fs)), Proceed)
    decreases |fs|
  {
    if |fs| > 0 {
      FiredStep(s, e, fs);
      var rest := Fired(s, e, fs[1..]);
      if Applies(s, e, fs[0]) {
        assert Fired(s, e, fs) == [fs[0]] + rest;
        assert forall f | f in rest :: f in Fired(s, e, fs);
        ProceedingStageLogsFired(s, e, fs[1..], stopOnFalse);
        UnwrappedRunsProceedingHead(s, e, fs, stopOnFalse);
        LogsCons(s, fs[0], rest);
      } else {
        ProceedingStageLogsFired(s, e, fs[1..], stopOnFalse);
        UnwrappedSkipsHead(s, e, fs, stopOnFalse);
      }
    }
  }

  /**
   * The first firing filter that raises, or that returns `false` in a stage
   * that halts on `false`, ends the stage: the log holds the firing filters
   * up to and including it, and nothing after it runs.
   */
  lemma {:induction false} StageStopsAtFirstStopper(s: Service, e: Name, fs: seq<Filter>, k: nat, stopOnFalse: bool)
    requires k < |Fired(s, e, fs)|
    requires forall i :: 0 <= i < k ==> Proceeds(s, Fired(s, e, fs)[i].action, stopOnFalse)
    requires StopsStage(s, Fired(s, e, fs)[k].action, stopOnFalse)
    ensures RunUnwrapped(s, e, fs, stopOnFalse)
         == StageRun(Logs(s, Fired(s, e, fs)[..k + 1]), StopStep(s, Fired(s, e, fs)[k].action))
    decreases |fs|
  {
    var fired := Fired(s, e, fs);
    FiredStep(s, e, fs);
    if !Applies(s, e, fs[0]) {
      StageStopsAtFirstStopper(s, e, fs[1..], k, stopOnFalse);
      UnwrappedSkipsHead(s, e, fs, stopOnFalse);
    } else {
      var rest := Fired(s, e, fs[1..]);
      assert fired == [fs[0]] + rest;
      if k == 0 {
        UnwrappedStopsAtHead(s, e, fs, stopOnFalse);
        assert fired[..1] == [fs[0]] + [];
        LogsCons(s, fs[0], []);
      } else {
        assert Proceeds(s, fs[0].action, stopOnFalse) by { assert fired[0] == fs[0]; }
        forall i | 0 <= i < k - 1
          ensures Proceeds(s, rest[i].action, stopOnFalse)
        {
          assert rest[i] == fired[i + 1];
        }
        assert rest[k - 1] == fired[k];
        StageStopsAtFirstStopper(s, e, fs[1..], k - 1, stopOnFalse);
        UnwrappedRunsProceedingHead(s, e, fs, stopOnFalse);
        assert fired[..k + 1] == [fs[0]] + rest[..k];
        LogsCons(s, fs[0], rest[..k]);
      }
    }
  }

  /**
   * With no firing around filter the chain is the endpoint's own call;
   * otherwise the outermost firing filter's code before `yield` opens the log.
   */
  lemma {:induction false} AroundChainBoundaries(s: Service, e: Name, fs: seq<Filter>)
    ensures Fired(s, e, fs) == [] ==> RunAround(s, e, fs) == Call(s, Method(e))
    ensures Fired(s, e, fs) != [] ==>
              var top := BodyOf(s, Fired(s, e, fs)[0].action).pre;
              |top| <= |RunAround(s, e, fs).trace| && RunAround(s, e, fs).trace[..|top|] == top
    decreases |fs|
  {
    if |fs| > 0 {
      FiredStep(s, e, fs);
      if !Applies(s, e, fs[0]) {
        AroundChainBoundaries(s, e, fs[1..]);
      } else {
        assert Fired(s, e, fs)[0] == fs[0];
      }
    }
  }

  /**
   * The rescue wrapper keeps the pipeline's log: it adds nothing unless the
   * pipeline raised, and it rescues only a class that is-a registered class.
   */
  lemma RescueWrapperKeepsPipelineLog(reg: Registry, h: Hierarchy, s: Service, e: Name)
    ensures var p := RunPipeline(reg, s, e).trace;
            |p| <= |RunFilters(reg, h, s, e).trace| && RunFilters(reg, h, s, e).trace[..|p|] == p
    ensures !RunPipeline(reg, s, e).step.Fail? ==> RunFilters(reg, h, s, e).trace == RunPipeline(reg, s, e).trace
    ensures RunFilters(reg, h, s, e).outcome.Rescued? ==>
              exists a :: IsA(h, RunFilters(reg, h, s, e).outcome.raised, a) && a in reg.rescues
  {
  }

  /**
   * Around filters that all yield nest in registration order: every top
   * half outermost first, then the endpoint, then every bottom half
   * innermost first.
   */
  lemma {:induction false} AroundFiltersNest(s: Service, e: Name, fs: seq<Filter>)
    requires forall f | f in Fired(s, e, fs) ::
               BodyOf(s, f.action).yieldsBlock && BodyOf(s, f.action).ending.Return?
    requires Call(s, Method(e)).status.Normal?
    ensures RunAround(s, e, fs).trace
         == Tops(s, Fired(s, e, fs)) + Call(s, Method(e)).trace + Bottoms(s, Fired(s, e, fs))
    ensures RunAround(s, e, fs).status.Normal?
    decreases |fs|
  {
    if |fs| > 0 {
      FiredStep(s, e, fs);
      var rest := Fired(s, e, fs[1..]);
      assert forall f | f in rest :: f in Fired(s, e, fs);
      AroundFiltersNest(s, e, fs[1..]);
      var inner := RunAround(s, e, fs[1..]);
      if Applies(s, e, fs[0]) {
        var fired := Fired(s, e, fs);
        var b := BodyOf(s, fs[0].action);
        assert fired[0] == fs[0] && fired[1..] == rest;
        assert b.yieldsBlock && b.ending.Return?;
        assert RunAround(s, e, fs) == CallWith(s, fs[0].action, inner);
        assert CallWith(s, fs[0].action, inner) == Run(b.pre + inner.trace + b.post, Finish(b.ending));
        assert Tops(s, fired) == b.pre + Tops(s, rest);
        assert Bottoms(s, fired) == Bottoms(s, rest) + b.post;
        Nest(b.pre, Tops(s, rest), Call(s, Method(e)).trace, Bottoms(s, rest), b.post);
      } else {
        assert RunAround(s, e, fs) == inner;
      }
    }
  }

  /**
   * An around filter that does not yield cancels every filter nested in it
   * and the endpoint, while the filters enclosing it still run their code
   * after `yield`.
   */
  lemma {:induction false} NonYieldingAroundCancelsInner(s: Service, e: Name, fs: seq<Filter>, k: nat)
    requires k < |Fired(s, e, fs)|
    requires forall i :: 0 <= i < k ==>
               BodyOf(s, Fired(s, e, fs)[i].action).yieldsBlock
               && BodyOf(s, Fired(s, e, fs)[i].action).ending.Return?
    requires !BodyOf(s, Fired(s, e, fs)[k].action).yieldsBlock
    requires BodyOf(s, Fired(s, e, fs)[k].action).ending.Return?
    ensures RunAround(s, e, fs).trace
         == Tops(s, Fired(s, e, fs)[..k]) + LogOf(s, Fired(s, e, fs)[k].action)
            + Bottoms(s, Fired(s, e, fs)[..k])
    ensures RunAround(s, e, fs).status.Normal?
    decreases |fs|
  {
    FiredStep(s, e, fs);
    if !Applies(s, e, fs[0]) {
      NonYieldingAroundCancelsInner(s, e, fs[1..], k);
    } else if k == 0 {
      assert Fired(s, e, fs)[..0] == [];
    } else {
      var fired := Fired(s, e, fs);
      var rest := Fired(s, e, fs[1..]);
      assert fired == [fs[0]] + rest;
      assert rest[k - 1] == fired[k];
      forall i | 0 <= i < k - 1
        ensures BodyOf(s, rest[i].action).yieldsBlock && BodyOf(s, rest[i].action).ending.Return?
      {
        assert rest[i] == fired[i + 1];
      }
      NonYieldingAroundCancelsInner(s, e, fs[1..], k - 1);
      assert fired[0] == fs[0];
      EnclosingWrapperStep(s, e, fs, k);
    }
  }

  /** The inductive step of the lemma above for a wrapper that fires and yields. */
  lemma EnclosingWrapperStep(s: Service, e: Name, fs: seq<Filter>, k: nat)
    requires |fs| > 0 && Applies(s, e, fs[0]) && 0 < k < |Fired(s, e, fs)|
    requires BodyOf(s, fs[0].action).yieldsBlock && BodyOf(s, fs[0].action).ending.Return?
    requires var rest := Fired(s, e, fs[1..]);
             && RunAround(s, e, fs[1..]).status.Normal?
             && RunAround(s, e, fs[1..]).trace
                == Tops(s, rest[..k - 1]) + LogOf(s, rest[k - 1].action) + Bottoms(s, rest[..k - 1])
    ensures RunAround(s, e, fs).trace
         == Tops(s, Fired(s, e, fs)[..k]) + LogOf(s, Fired(s, e, fs)[k].action)
            + Bottoms(s, Fired(s, e, fs)[..k])
    ensures RunAround(s, e, fs).status.Normal?
  {
    FiredStep(s, e, fs);
    var fired := Fired(s, e, fs);
    var rest := Fired(s, e, fs[1..]);
    var b := BodyOf(s, fs[0].action);
    var inner := RunAround(s, e, fs[1..]);
    assert fired[..k] == [fs[0]] + rest[..k - 1];
    assert fired[..k][1..] == rest[..k - 1];
    assert fired[k] == rest[k - 1];
    assert RunAround(s, e, fs) == CallWith(s, fs[0].action, inner);
    assert CallWith(s, fs[0].action, inner) == Run(b.pre + inner.trace + b.post, Finish(b.ending));
    assert Tops(s, fired[..k]) == b.pre + Tops(s, rest[..k - 1]);
    assert Bottoms(s, fired[..k]) == Bottoms(s, rest[..k - 1]) + b.post;
    Nest(b.pre, Tops(s, rest[..k - 1]), LogOf(s, rest[k - 1].action), Bottoms(s, rest[..k - 1]), b.post);
  }

  /**
   * When every firing before and after filter proceeds (a before filter
   * returning anything but `false`), every firing around filter yields and
   * returns, and the endpoint returns, `run_filters` completes and logs
   * the before filters in order, the nested around chain with the endpoint
   * innermost, then the after filters in order.
   */
  lemma ProceedingPipelineCompletes(reg: Registry, h: Hierarchy, s: Service, e: Name)
    requires forall f | f in Fired(s, e, reg.before) :: Proceeds(s, f.action, true)
    requires forall f | f in Fired(s, e, reg.after) :: Proceeds(s, f.action, false)
    requires forall f | f in Fired(s, e, reg.around) ::
               BodyOf(s, f.action).yieldsBlock && BodyOf(s, f.action).ending.Return?
    requires !BodyOf(s, Method(e)).yieldsBlock && BodyOf(s, Method(e)).ending.Return?
    ensures RunFilters(reg, h, s, e)
         == Dispatch(Logs(s, Fired(s, e, reg.before))
                     + Tops(s, Fired(s, e, reg.around)) + LogOf(s, Method(e)) + Bottoms(s, Fired(s, e, reg.around))
                     + Logs(s, Fired(s, e, reg.after)),
                     Completed)
  {
    ProceedingStageLogsFired(s, e, reg.before, true);
    ProceedingStageLogsFired(s, e, reg.after, false);
    AroundFiltersNest(s, e, reg.around);
    var b := RunUnwrapped(s, e, reg.before, true);
    var a := RunAround(s, e, reg.around);
    var af := RunUnwrapped(s, e, reg.after, false);
    assert b.step == Proceed && af.step == Proceed && a.status.Normal?;
    assert Call(s, Method(e)).trace == LogOf(s, Method(e));
    PipelineOfProceedingStages(reg, s, e);
    assert RunPipeline(reg, s, e) == StageRun(b.trace + a.trace + af.trace, Proceed);
    assert RunFilters(reg, h, s, e) == Dispatch(b.trace + a.trace + af.trace, Completed);
    var x := Logs(s, Fired(s, e, reg.before));
    var t := Tops(s, Fired(s, e, reg.around));
    var l := LogOf(s, Method(e));
    var bo := Bottoms(s, Fired(s, e, reg.around));
    var y := Logs(s, Fired(s, e, reg.after));
    assert b.trace == x && a.trace == t + l + bo && af.trace == y;
    Regroup(x, t, l, bo, y);
  }

  lemma Nest(p: seq<Label>, t: seq<Label>, m: seq<Label>, b: seq<Label>, q: seq<Label>)
    ensures p + (t + m + b) + q == (p + t) + m + (b + q)
  {
  }

  lemma Regroup(x: seq<Label>, t: seq<Label>, l: seq<Label>, b: seq<Label>, y: seq<Label>)
    ensures x + (t + l + b) + y == x + t + l + b + y
  {
  }

  lemma PipelineOfProceedingStages(reg: Registry, s: Service, e: Name)
    requires RunUnwrapped(s, e, reg.before, true).step == Proceed
    requires RunAround(s, e, reg.around).status.Normal?
    ensures RunPipeline(reg, s, e)
         == StageRun(RunUnwrapped(s, e, reg.before, true).trace + RunAround(s, e, reg.around).trace
                     + RunUnwrapped(s, e, reg.after, false).trace,
                     RunUnwrapped(s, e, reg.after, false).step)
  {
  }

  /**
   * The `k`th firing filter of `fs` is the first to stop a stage that halts
   * on `false`, and it does so by returning `false`.
   */
  predicate ReturnedFalseAt(s: Service, e: Name, fs: seq<Filter>, k: nat)
  {
    && k < |Fired(s, e, fs)|
    && (forall i :: 0 <= i < k ==> Proceeds(s, Fired(s, e, fs)[i].action, true))
    && !BodyOf(s, Fired(s, e, fs)[k].action).yieldsBlock
    && BodyOf(s, Fired(s, e, fs)[k].action).ending == Return(FalseValue)
  }

  /**
   * A before filter returning `false` short-circuits `run_filters`: the log
   * holds only the before filters up to it, so neither the around chain,
   * the endpoint nor any after filter runs.
   */
  lemma ShortCircuitSkipsEndpoint(reg: Registry, h: Hierarchy, s: Service, e: Name, k: nat)
    requires ReturnedFalseAt(s, e, reg.before, k)
    ensures RunFilters(reg, h, s, e) == Dispatch(Logs(s, Fired(s, e, reg.before)[..k + 1]), ShortCircuited)
  {
    StageStopsAtFirstStopper(s, e, reg.before, k, true);
  }

  /** A stage that halts on `false` halts only at a filter that returned `false`. */
  lemma {:induction false} HaltedStageReturnedFalse(s: Service, e: Name, fs: seq<Filter>) returns (k: nat)
    requires RunUnwrapped(s, e, fs, true).step.Halt?
    ensures ReturnedFalseAt(s, e, fs, k)
    ensures RunUnwrapped(s, e, fs, true).trace == Logs(s, Fired(s, e, fs)[..k + 1])
    decreases |fs|
  {
    FiredStep(s, e, fs);
    var fired := Fired(s, e, fs);
    if !Applies(s, e, fs[0]) {
      UnwrappedSkipsHead(s, e, fs, true);
      k := HaltedStageReturnedFalse(s, e, fs[1..]);
    } else {
      var a := fs[0].action;
      var rest := Fired(s, e, fs[1..]);
      assert fired == [fs[0]] + rest;
      assert !BodyOf(s, a).yieldsBlock && BodyOf(s, a).ending.Return?;
      if BodyOf(s, a).ending.value == FalseValue {
        k := 0;
        UnwrappedStopsAtHead(s, e, fs, true);
        assert fired[..1] == [fs[0]] + [];
        LogsCons(s, fs[0], []);
      } else {
        UnwrappedRunsProceedingHead(s, e, fs, true);
        var j := HaltedStageReturnedFalse(s, e, fs[1..]);
        k := j + 1;
        forall i | 0 <= i < k
          ensures Proceeds(s, fired[i].action, true)
        {
          if i > 0 { assert fired[i] == rest[i - 1]; }
        }
        assert fired[k] == rest[j];
        assert fired[..k + 1] == [fs[0]] + rest[..j + 1];
        LogsCons(s, fs[0], rest[..j + 1]);
      }
    }
  }

  /**
   * `run_filters` is short-circuited only by a before filter returning
   * `false`: some firing before filter did, every one ahead of it went on,
   * and the log holds exactly the before filters up to it.
   */
  lemma ShortCircuitMeansBeforeFilterReturnedFalse(reg: Registry, h: Hierarchy, s: Service, e: Name)
    requires RunFilters(reg, h, s, e).outcome.ShortCircuited?
    ensures exists k: nat :: ReturnedFalseAt(s, e, reg.before, k)
                           && RunFilters(reg, h, s, e) == Dispatch(Logs(s, Fired(s, e, reg.before)[..k + 1]), ShortCircuited)
  {
    var k := HaltedStageReturnedFalse(s, e, reg.before);
    ShortCircuitSkipsEndpoint(reg, h, s, e, k);
  }

  /** Both directions: short-circuited exactly when a firing before filter returned `false`. */
  lemma ShortCircuitedIffBeforeFilterReturnedFalse(reg: Registry, h: Hierarchy, s: Service, e: Name)
    ensures RunFilters(reg, h, s, e).outcome.ShortCircuited? <==> exists k: nat :: ReturnedFalseAt(s, e, reg.before, k)
  {
    if RunFilters(reg, h, s, e).outcome.ShortCircuited? {
      ShortCircuitMeansBeforeFilterReturnedFalse(reg, h, s, e);
    }
    if k: nat :| ReturnedFalseAt(s, e, reg.before, k) {
      ShortCircuitSkipsEndpoint(reg, h, s, e, k);
    }
  }

  /**
   * A before filter raising an exception whose class, or a superclass of
   * it, has a handler: the nearest such handler runs next and receives the
   * exact raised class, nothing escapes, and neither the endpoint nor any
   * later filter runs.
   */
  lemma BeforeFilterErrorIsRescued(reg: Registry, h: Hierarchy, s: Service, e: Name, k: nat, j: nat)
    requires k < |Fired(s, e, reg.before)|
    requires forall i :: 0 <= i < k ==> Proceeds(s, Fired(s, e, reg.before)[i].action, true)
    requires !BodyOf(s, Fired(s, e, reg.before)[k].action).yieldsBlock
    requires BodyOf(s, Fired(s, e, reg.before)[k].action).ending.Raise?
    requires var c := BodyOf(s, Fired(s, e, reg.before)[k].action).ending.cls;
             && NearestRegistered(reg.rescues, h, c, j)
             && !BodyOf(s, reg.rescues[Ancestors(h, c)[j]]).yieldsBlock
             && BodyOf(s, reg.rescues[Ancestors(h, c)[j]]).ending.Return?
    ensures var c := BodyOf(s, Fired(s, e, reg.before)[k].action).ending.cls;
            (RunFilters(reg, h, s, e)
             == Dispatch(Logs(s, Fired(s, e, reg.before)[..k + 1]) + LogOf(s, reg.rescues[Ancestors(h, c)[j]]),
                         Rescued(c)))
  {
    var c := BodyOf(s, Fired(s, e, reg.before)[k].action).ending.cls;
    var handler := reg.rescues[Ancestors(h, c)[j]];
    var before := Logs(s, Fired(s, e, reg.before)[..k + 1]);
    StageStopsAtFirstStopper(s, e, reg.before, k, true);
    assert RunPipeline(reg, s, e) == StageRun(before, Fail(c));
    HandlerForNearest(reg.rescues, h, c, j);
    assert Call(s, handler) == Run(LogOf(s, handler), Finish(BodyOf(s, handler).ending));
    assert Rescue(reg, h, s, before, c) == Dispatch(before + LogOf(s, handler), Rescued(c));
  }

  /** An exception that no registered class covers escapes `run_filters` unchanged. */
  lemma UncoveredErrorEscapes(reg: Registry, h: Hierarchy, s: Service, e: Name)
    requires RunPipeline(reg, s, e).step.Fail?
    requires forall a :: IsA(h, RunPipeline(reg, s, e).step.cls, a) ==> a !in reg.rescues
    ensures RunFilters(reg, h, s, e)
         == Dispatch(RunPipeline(reg, s, e).trace, Escaped(RunPipeline(reg, s, e).step.cls))
  {
  }

  /** Writing conditions as callables instead of method names changes nothing. */
  lemma {:induction false} ResolvedStageSame(s: Service, e: Name, fs: seq<Filter>, stopOnFalse: bool)
    ensures RunUnwrapped(s, e, ResolveAll(s, fs), stopOnFalse) == RunUnwrapped(s, e, fs, stopOnFalse)
    decreases |fs|
  {
    if |fs| > 0 {
      ResolvedStageSame(s, e, fs[1..], stopOnFalse);
      assert ResolveAll(s, fs)[1..] == ResolveAll(s, fs[1..]);
    }
  }

  lemma {:induction false} ResolvedAroundSame(s: Service, e: Name, fs: seq<Filter>)
    ensures RunAround(s, e, ResolveAll(s, fs)) == RunAround(s, e, fs)
    decreases |fs|
  {
    if |fs| > 0 {
      ResolvedAroundSame(s, e, fs[1..]);
      assert ResolveAll(s, fs)[1..] == ResolveAll(s, fs[1..]);
    }
  }

  /**
   * An `if:`/`unless:` condition written as a method name and one written
   * as a callable with the same value give identical runs.
   */
  lemma ConditionFormIrrelevant(reg: Registry, h: Hierarchy, s: Service, e: Name)
    ensures var resolved := reg.(before := ResolveAll(s, reg.before),
                                 after := ResolveAll(s, reg.after),
                                 around := ResolveAll(s, reg.around));
            RunFilters(resolved, h, s, e) == RunFilters(reg, h, s, e)
  {
    var resolved := reg.(before := ResolveAll(s, reg.before),
                         after := ResolveAll(s, reg.after),
                         around := ResolveAll(s, reg.around));
    assert RunPipeline(resolved, s, e) == RunPipeline(reg, s, e) by {
      ResolvedStageSame(s, e, reg.before, true);
      ResolvedStageSame(s, e, reg.after, false);
      ResolvedAroundSame(s, e, reg.around);
    }
  }
}
