/**
 * `run_filters(endpoint)`: before filters, then the around chain with the
 * endpoint innermost, then after filters, all inside one rescue wrapper.
 */
module FilterChain {
  import opened Common
  import opened ClassHierarchy
  import opened ServiceInstance
  import opened FilterRegistry
  import opened Applicability
  import opened RescueDispatch

  /** How a stage of the pipeline ended. */
  datatype Step = Proceed | Halt | Fail(cls: ClassName)

  datatype StageRun = StageRun(trace: seq<Label>, step: Step)

  /** The observable end of `run_filters`. */
  datatype Outcome = Completed | ShortCircuited | Rescued(raised: ClassName) | Escaped(raised: ClassName)

  datatype Dispatch = Dispatch(trace: seq<Label>, outcome: Outcome)

  /**
   * Runs the filters of `fs` that fire for `endpoint`, in order, each
   * without a block.  An exception stops the stage; when `stopOnFalse`
   * holds, so does a filter returning exactly `false`.
   */
  function RunUnwrapped(s: Service, endpoint: Name, fs: seq<Filter>, stopOnFalse: bool): (r: StageRun)
    ensures r.step.Halt? ==> stopOnFalse
  {
    if |fs| == 0 then StageRun([], Proceed)
    else if !Applies(s, endpoint, fs[0]) then RunUnwrapped(s, endpoint, fs[1..], stopOnFalse)
    else
      var c := Call(s, fs[0].action);
      match c.status
      case Raised(x) => StageRun(c.trace, Fail(x))
      case Normal(v) =>
        if stopOnFalse && v == FalseValue then StageRun(c.trace, Halt)
        else
          var rest := RunUnwrapped(s, endpoint, fs[1..], stopOnFalse);
          StageRun(c.trace + rest.trace, rest.step)
  }

  /**
   * The around chain: each firing around filter gets as its block the run
   * of the filters after it, and the innermost block invokes the endpoint.
   */
  function RunAround(s: Service, endpoint: Name, fs: seq<Filter>): Run
  {
    if |fs| == 0 then Call(s, Method(endpoint))
    else if !Applies(s, endpoint, fs[0]) then RunAround(s, endpoint, fs[1..])
    else CallWith(s, fs[0].action, RunAround(s, endpoint, fs[1..]))
  }

  /** Everything `run_filters` does inside its rescue wrapper. */
  function RunPipeline(reg: Registry, s: Service, endpoint: Name): (r: StageRun)
    ensures r.step.Halt? ==> r == RunUnwrapped(s, endpoint, reg.before, true)
  {
    var b := RunUnwrapped(s, endpoint, reg.before, true);
    if !b.step.Proceed? then b
    else
      var a := RunAround(s, endpoint, reg.around);
      match a.status
      case Raised(x) => StageRun(b.trace + a.trace, Fail(x))
      case Normal(_) =>
        var af := RunUnwrapped(s, endpoint, reg.after, false);
        StageRun(b.trace + a.trace + af.trace, af.step)
  }

  /**
   * Hands an exception of class `c` to its handler, the one registered for
   * the nearest class of `c`'s superclass chain.  A handled exception does
   * not escape; one without a handler escapes unchanged, and an exception
   * the handler itself raises escapes in its place.
   */
  function Rescue(reg: Registry, h: Hierarchy, s: Service, trace: seq<Label>, c: ClassName): (r: Dispatch)
    ensures |trace| <= |r.trace| && r.trace[..|trace|] == trace
    ensures r.outcome.Rescued? || r.outcome.Escaped?
    ensures r.outcome.Rescued? ==> r.outcome.raised == c && exists a :: IsA(h, c, a) && a in reg.rescues
    ensures (forall a :: IsA(h, c, a) ==> a !in reg.rescues) ==> r == Dispatch(trace, Escaped(c))
    ensures forall j: nat :: NearestRegistered(reg.rescues, h, c, j) ==>
              var hr := Call(s, reg.rescues[Ancestors(h, c)[j]]);
              r == Dispatch(trace + hr.trace, if hr.status.Normal? then Rescued(c) else Escaped(hr.status.cls))
  {
    match HandlerFor(reg.rescues, h, c)
    case None => Dispatch(trace, Escaped(c))
    case Some(handler) =>
      assert forall j: nat :: NearestRegistered(reg.rescues, h, c, j) ==> handler == reg.rescues[Ancestors(h, c)[j]] by {
        forall j: nat | NearestRegistered(reg.rescues, h, c, j)
          ensures handler == reg.rescues[Ancestors(h, c)[j]]
        {
          HandlerForNearest(reg.rescues, h, c, j);
        }
      }
      var hr := Call(s, handler);
      match hr.status
      case Normal(_) => Dispatch(trace + hr.trace, Rescued(c))
      case Raised(x) => Dispatch(trace + hr.trace, Escaped(x))
  }

  /** `run_filters(endpoint)` on service `s` with exception hierarchy `h`. */
  function RunFilters(reg: Registry, h: Hierarchy, s: Service, endpoint: Name): (r: Dispatch)
    ensures r.outcome.Completed? <==> RunPipeline(reg, s, endpoint).step.Proceed?
    ensures r.outcome.ShortCircuited? <==> RunPipeline(reg, s, endpoint).step.Halt?
  {
    var p := RunPipeline(reg, s, endpoint);
    match p.step
    case Proceed => Dispatch(p.trace, Completed)
    case Halt => Dispatch(p.trace, ShortCircuited)
    case Fail(c) => Rescue(reg, h, s, p.trace, c)
  }
}
