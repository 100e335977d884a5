/**
 * The service instance as the filter engine sees it: methods it can invoke by
 * name, predicates it can evaluate, and anonymous callables.  Each invocation
 * is abstracted to its observable effect: what it appends to the call log,
 * whether it yields to the block it was given, and whether it returns a value
 * or raises an exception.
 */
module ServiceInstance {
  import opened Common

  /** A Ruby return value, as far as the engine distinguishes them. */
  datatype Value = FalseValue | NilValue | TrueValue | OtherValue

  /** Ruby truthiness: only `false` and `nil` are falsy. */
  predicate Truthy(v: Value)
  {
    v != FalseValue && v != NilValue
  }

  /** How a body finishes once its own code has run. */
  datatype Ending = Return(value: Value) | Raise(cls: ClassName)

  /**
   * The effect of one method or callable: it logs `pre`, then, if `yieldsBlock`,
   * hands control to its block once, then logs `post` and finishes with
   * `ending`.  A body that does not yield logs `pre + post`.
   */
  datatype Body = Body(pre: seq<Label>, yieldsBlock: bool, post: seq<Label>, ending: Ending)

  /**
   * A reference to code: a method named by a symbol, resolved on the
   * service at call time, or an anonymous callable.  `id` stands for the
   * callable's object identity, which is what Ruby compares.
   */
  datatype ActionRef = Method(name: Name) | Callable(id: nat, body: Body)

  /** An `if:`/`unless:` option: a predicate method's name or a callable. */
  datatype Condition = MethodCondition(name: Name) | CallableCondition(value: Value)

  /** The capability the engine needs from a live service instance. */
  datatype Service = Service(methods: Name -> Body, queries: Name -> Value)

  /** How a call returned control to its caller. */
  datatype Status = Normal(value: Value) | Raised(cls: ClassName)

  /** What a call appended to the log, and how it returned. */
  datatype Run = Run(trace: seq<Label>, status: Status)

  /** The class Ruby raises when a method yields but was given no block. */
  const LocalJumpError: ClassName := "LocalJumpError"

  function BodyOf(s: Service, a: ActionRef): Body
  {
    match a
    case Method(n) => s.methods(n)
    case Callable(_, b) => b
  }

  /** The value of a condition, whichever way it was written. */
  function Evaluate(s: Service, c: Condition): Value
  {
    match c
    case MethodCondition(n) => s.queries(n)
    case CallableCondition(v) => v
  }

  function Finish(e: Ending): Status
  {
    match e
    case Return(v) => Normal(v)
    case Raise(c) => Raised(c)
  }

  /** The log a body writes when it does not yield. */
  function LogOf(s: Service, a: ActionRef): seq<Label>
  {
    BodyOf(s, a).pre + BodyOf(s, a).post
  }

  /**
   * Invokes `a` with a block whose run is `inner`.  The block runs only if
   * the body yields; an exception from the block propagates through the
   * body, skipping its remaining code.
   */
  function CallWith(s: Service, a: ActionRef, inner: Run): (r: Run)
    ensures |BodyOf(s, a).pre| <= |r.trace| && r.trace[..|BodyOf(s, a).pre|] == BodyOf(s, a).pre
    ensures !BodyOf(s, a).yieldsBlock ==> r == Run(LogOf(s, a), Finish(BodyOf(s, a).ending))
    ensures BodyOf(s, a).yieldsBlock ==>
              r.trace == BodyOf(s, a).pre + inner.trace + (if inner.status.Normal? then BodyOf(s, a).post else [])
    ensures BodyOf(s, a).yieldsBlock && inner.status.Raised? ==> r.status == inner.status
    ensures r.status.Normal? <==>
              BodyOf(s, a).ending.Return? && (BodyOf(s, a).yieldsBlock ==> inner.status.Normal?)
  {
    var b := BodyOf(s, a);
    if !b.yieldsBlock then Run(b.pre + b.post, Finish(b.ending))
    else if inner.status.Raised? then Run(b.pre + inner.trace, inner.status)
    else Run(b.pre + inner.trace + b.post, Finish(b.ending))
  }

  /** Invokes `a` without a block; yielding then raises `LocalJumpError`. */
  function Call(s: Service, a: ActionRef): (r: Run)
    ensures BodyOf(s, a).yieldsBlock ==> r == Run(BodyOf(s, a).pre, Raised(LocalJumpError))
    ensures !BodyOf(s, a).yieldsBlock ==> r == Run(LogOf(s, a), Finish(BodyOf(s, a).ending))
  {
    CallWith(s, a, Run([], Raised(LocalJumpError)))
  }

  /**
   * Called without a block, `a` returns normally and lets its stage go on:
   * it does not yield, does not raise, and, in a stage that halts on
   * `false`, does not return `false`.
   */
  predicate Proceeds(s: Service, a: ActionRef, stopOnFalse: bool)
  {
    && !BodyOf(s, a).yieldsBlock
    && BodyOf(s, a).ending.Return?
    && (stopOnFalse ==> BodyOf(s, a).ending.value != FalseValue)
  }
}
