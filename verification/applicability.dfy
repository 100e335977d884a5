/** Whether a registered filter fires for a given endpoint on a given service. */
module Applicability {
  import opened Common
  import opened ServiceInstance
  import opened FilterRegistry

  /**
   * A filter fires when the endpoint passes its `only:` and `except:` sets
   * (an empty set does not constrain) and its `if:` condition is truthy and
   * its `unless:` condition is falsy (an absent condition does not constrain).
   */
  predicate Applies(s: Service, endpoint: Name, f: Filter)
  {
    && (f.only == {} || endpoint in f.only)
    && (f.except == {} || endpoint !in f.except)
    && (f.ifCond.None? || Truthy(Evaluate(s, f.ifCond.value)))
    && (f.unlessCond.None? || !Truthy(Evaluate(s, f.unlessCond.value)))
  }

  /** The filters of `fs` that fire for `endpoint`, in order. */
  function Fired(s: Service, endpoint: Name, fs: seq<Filter>): (r: seq<Filter>)
    ensures |r| <= |fs|
    ensures forall f :: f in r <==> f in fs && Applies(s, endpoint, f)
  {
    if |fs| == 0 then []
    else (if Applies(s, endpoint, fs[0]) then [fs[0]] else []) + Fired(s, endpoint, fs[1..])
  }

  /** A filter restricted with `only: [e]` fires on `e` and on no other endpoint. */
  lemma OnlyFiresOnItsEndpoint(s: Service, a: ActionRef, e: Name, endpoint: Name)
    ensures Applies(s, endpoint, Filter(a, {e}, {}, None, None)) <==> endpoint == e
  {
  }

  /** A filter restricted with `except: [e]` fires on every endpoint but `e`. */
  lemma ExceptFiresElsewhere(s: Service, a: ActionRef, e: Name, endpoint: Name)
    ensures Applies(s, endpoint, Filter(a, {}, {e}, None, None)) <==> endpoint != e
  {
  }

  /** `if:` fires exactly when the condition is truthy, `unless:` exactly when it is falsy. */
  lemma IfAndUnlessFollowTheCondition(s: Service, a: ActionRef, c: Condition, endpoint: Name)
    ensures Applies(s, endpoint, Filter(a, {}, {}, Some(c), None)) <==> Truthy(Evaluate(s, c))
    ensures Applies(s, endpoint, Filter(a, {}, {}, None, Some(c))) <==> !Truthy(Evaluate(s, c))
  {
  }

  /** A condition replaced by a callable with the value it evaluates to. */
  function Resolved(s: Service, c: Option<Condition>): (r: Option<Condition>)
    ensures r.Some? <==> c.Some?
    ensures c.Some? ==> r.value.CallableCondition? && Evaluate(s, r.value) == Evaluate(s, c.value)
  {
    match c
    case None => None
    case Some(cond) => Some(CallableCondition(Evaluate(s, cond)))
  }

  /** `f` with both conditions written as callables instead of method names. */
  function ResolveFilter(s: Service, f: Filter): (r: Filter)
    ensures r.action == f.action
    ensures forall e :: Applies(s, e, r) <==> Applies(s, e, f)
  {
    f.(ifCond := Resolved(s, f.ifCond), unlessCond := Resolved(s, f.unlessCond))
  }

  function ResolveAll(s: Service, fs: seq<Filter>): (r: seq<Filter>)
    ensures |r| == |fs|
    ensures forall i :: 0 <= i < |fs| ==> r[i] == ResolveFilter(s, fs[i])
  {
    if |fs| == 0 then [] else [ResolveFilter(s, fs[0])] + ResolveAll(s, fs[1..])
  }
}
