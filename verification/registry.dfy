/**
 * The per-service filter registry: before, after and around filters kept in
 * order of first registration, and the rescue table.  Registration is a pure
 * function from one registry value to the next.
 */
module FilterRegistry {
  import opened Common
  import opened ServiceInstance

  datatype Kind = Before | After | Around

  /**
   * One registered filter with its `only:`/`except:` endpoint sets (empty
   * means unconstrained) and optional `if:`/`unless:` conditions.
   */
  datatype Filter = Filter(
    action: ActionRef,
    only: set<Name>,
    except: set<Name>,
    ifCond: Option<Condition>,
    unlessCond: Option<Condition>)

  /** A filter registered without options. */
  function Unconditional(a: ActionRef): Filter
  {
    Filter(a, {}, {}, None, None)
  }

  datatype Registry = Registry(
    before: seq<Filter>,
    after: seq<Filter>,
    around: seq<Filter>,
    rescues: map<ClassName, ActionRef>)

  const Empty := Registry([], [], [], map[])

  function Filters(reg: Registry, k: Kind): seq<Filter>
  {
    match k
    case Before => reg.before
    case After => reg.after
    case Around => reg.around
  }

  /** The actions registered in `fs`. */
  function Actions(fs: seq<Filter>): set<ActionRef>
  {
    set f | f in fs :: f.action
  }

  /** No action is registered twice. */
  predicate Distinct(fs: seq<Filter>)
  {
    forall i, j :: 0 <= i < j < |fs| ==> fs[i].action != fs[j].action
  }

  /** Adds `f` at the end unless its action is already registered. */
  function Append(fs: seq<Filter>, f: Filter): (r: seq<Filter>)
    ensures f.action in Actions(fs) ==> r == fs
    ensures f.action !in Actions(fs) ==> r == fs + [f]
    ensures Actions(r) == Actions(fs) + {f.action}
  {
    if f.action in Actions(fs) then fs else fs + [f]
  }

  /** Appending never registers an action twice. */
  lemma AppendKeepsDistinct(fs: seq<Filter>, f: Filter)
    requires Distinct(fs)
    ensures Distinct(Append(fs, f))
  {
    assert forall i :: 0 <= i < |fs| ==> fs[i].action in Actions(fs);
  }

  /** `before_filter`, `after_filter` or `around_filter`, according to `k`. */
  function Register(reg: Registry, k: Kind, f: Filter): (r: Registry)
    ensures Filters(r, k) == Append(Filters(reg, k), f)
    ensures forall k' :: k' != k ==> Filters(r, k') == Filters(reg, k')
    ensures r.rescues == reg.rescues
  {
    match k
    case Before => reg.(before := Append(reg.before, f))
    case After => reg.(after := Append(reg.after, f))
    case Around => reg.(around := Append(reg.around, f))
  }

  /** Registers each of `fs` in turn. */
  function RegisterAll(acc: seq<Filter>, fs: seq<Filter>): seq<Filter>
    decreases |fs|
  {
    if |fs| == 0 then acc else RegisterAll(Append(acc, fs[0]), fs[1..])
  }

  /** Registers each of `fs` in turn as a filter of kind `k`, one `Register` call at a time. */
  function RegisterEach(reg: Registry, k: Kind, fs: seq<Filter>): Registry
    decreases |fs|
  {
    if |fs| == 0 then reg else RegisterEach(Register(reg, k, fs[0]), k, fs[1..])
  }

  /**
   * A run of `Register` calls of one kind builds that kind's list exactly as
   * `RegisterAll` does, and leaves the other kinds and the rescue table alone.
   */
  lemma {:induction false} RegisterEachIsRegisterAll(reg: Registry, k: Kind, fs: seq<Filter>)
    ensures Filters(RegisterEach(reg, k, fs), k) == RegisterAll(Filters(reg, k), fs)
    ensures forall k' :: k' != k ==> Filters(RegisterEach(reg, k, fs), k') == Filters(reg, k')
    ensures RegisterEach(reg, k, fs).rescues == reg.rescues
    decreases |fs|
  {
    if |fs| > 0 {
      RegisterEachIsRegisterAll(Register(reg, k, fs[0]), k, fs[1..]);
    }
  }

  /** The filters of `fs` whose action is not in `drop`, in order. */
  function Without(fs: seq<Filter>, drop: set<ActionRef>): (r: seq<Filter>)
    ensures |r| <= |fs|
  {
    if |fs| == 0 then []
    else (if fs[0].action in drop then [] else [fs[0]]) + Without(fs[1..], drop)
  }

  /** Reference definition: each action's first occurrence, in order. */
  function FirstOccurrences(fs: seq<Filter>): seq<Filter>
    decreases |fs|
  {
    if |fs| == 0 then []
    else [fs[0]] + FirstOccurrences(Without(fs[1..], {fs[0].action}))
  }

  lemma {:induction false} WithoutTwice(fs: seq<Filter>, a: set<ActionRef>, b: set<ActionRef>)
    ensures Without(Without(fs, a), b) == Without(fs, a + b)
  {
    if |fs| > 0 {
      WithoutTwice(fs[1..], a, b);
      var f := fs[0];
      if f.action in a {
        assert Without(fs, a) == Without(fs[1..], a);
        assert Without(fs, a + b) == Without(fs[1..], a + b);
      } else {
        var w := Without(fs[1..], a);
        assert Without(fs, a) == [f] + w;
        assert ([f] + w)[1..] == w;
        if f.action in b {
          assert Without([f] + w, b) == Without(w, b);
          assert Without(fs, a + b) == Without(fs[1..], a + b);
        } else {
          assert Without([f] + w, b) == [f] + Without(w, b);
          assert Without(fs, a + b) == [f] + Without(fs[1..], a + b);
        }
      }
    }
  }

  /**
   * Registering a list of filters one by one keeps, after what was already
   * there, the first occurrence of each new action in registration order.
   */
  lemma {:induction false} RegisterAllKeepsFirstOccurrences(acc: seq<Filter>, fs: seq<Filter>)
    ensures RegisterAll(acc, fs) == acc + FirstOccurrences(Without(fs, Actions(acc)))
    decreases |fs|
  {
    if |fs| > 0 {
      var f := fs[0];
      var drop := Actions(acc);
      if f.action in drop {
        KnownActionStep(acc, fs);
        RegisterAllKeepsFirstOccurrences(acc, fs[1..]);
      } else {
        var tail := FirstOccurrences(Without(fs[1..], drop + {f.action}));
        assert RegisterAll(acc, fs) == acc + [f] + tail by {
          NewActionRegistered(acc, fs);
          RegisterAllKeepsFirstOccurrences(acc + [f], fs[1..]);
        }
        NewActionStep(fs, drop);
        assert acc + [f] + tail == acc + ([f] + tail);
      }
    }
  }

  /** An already registered action changes neither the registry nor what is left to add. */
  lemma KnownActionStep(acc: seq<Filter>, fs: seq<Filter>)
    requires |fs| > 0 && fs[0].action in Actions(acc)
    ensures RegisterAll(acc, fs) == RegisterAll(acc, fs[1..])
    ensures Without(fs, Actions(acc)) == Without(fs[1..], Actions(acc))
  {
  }

  /** A new action is appended and joins the registered actions. */
  lemma NewActionRegistered(acc: seq<Filter>, fs: seq<Filter>)
    requires |fs| > 0 && fs[0].action !in Actions(acc)
    ensures RegisterAll(acc, fs) == RegisterAll(acc + [fs[0]], fs[1..])
    ensures Actions(acc + [fs[0]]) == Actions(acc) + {fs[0].action}
  {
  }

  /** The inductive step of the lemma above when the first action is new. */
  lemma NewActionStep(fs: seq<Filter>, drop: set<ActionRef>)
    requires |fs| > 0 && fs[0].action !in drop
    ensures [fs[0]] + FirstOccurrences(Without(fs[1..], drop + {fs[0].action}))
         == FirstOccurrences(Without(fs, drop))
  {
    var f := fs[0];
    var w := Without(fs[1..], drop);
    assert Without(fs, drop) == [f] + w;
    assert ([f] + w)[1..] == w;
    assert FirstOccurrences([f] + w) == [f] + FirstOccurrences(Without(w, {f.action}));
    WithoutTwice(fs[1..], drop, {f.action});
  }

  /** Registration never produces two entries for one action, and loses none. */
  lemma {:induction false} RegisterAllDistinct(acc: seq<Filter>, fs: seq<Filter>)
    requires Distinct(acc)
    ensures Distinct(RegisterAll(acc, fs))
    ensures Actions(RegisterAll(acc, fs)) == Actions(acc) + Actions(fs)
    decreases |fs|
  {
    if |fs| > 0 {
      var next := Append(acc, fs[0]);
      AppendKeepsDistinct(acc, fs[0]);
      RegisterAllDistinct(next, fs[1..]);
      assert RegisterAll(acc, fs) == RegisterAll(next, fs[1..]);
      ActionsOfTail(fs);
    }
  }

  lemma ActionsOfTail(fs: seq<Filter>)
    requires |fs| > 0
    ensures Actions(fs) == {fs[0].action} + Actions(fs[1..])
  {
    assert fs == [fs[0]] + fs[1..];
  }

  /** `rescue_from` failed because no handler was given. */
  datatype ConfigError = ArgumentError(message: string)

  const MissingHandlerMessage := "Option :with missing from rescue_from options"

  /** Maps every class of `classes` to `handler`, later entries replacing earlier ones. */
  function AddRescues(m: map<ClassName, ActionRef>, classes: seq<ClassName>, handler: ActionRef)
    : (r: map<ClassName, ActionRef>)
    decreases |classes|
    ensures r.Keys == m.Keys + (set c | c in classes)
    ensures forall c :: c in classes ==> r[c] == handler
    ensures forall c :: c in m && c !in classes ==> r[c] == m[c]
  {
    if |classes| == 0 then m
    else AddRescues(m[classes[0] := handler], classes[1..], handler)
  }

  /**
   * `rescue_from(*classes, with: ...)` or `rescue_from(*classes) { ... }`:
   * the `with:` handler takes precedence over the block; with neither, the
   * registration fails.
   */
  function RescueFrom(reg: Registry, classes: seq<ClassName>, with: Option<ActionRef>, block: Option<ActionRef>)
    : (r: Result<Registry, ConfigError>)
    ensures r.Err? <==> with.None? && block.None?
    ensures r.Err? ==> Mentions(r.error.message, "with")
    ensures r.Ok? ==>
              && r.value.before == reg.before && r.value.after == reg.after && r.value.around == reg.around
              && r.value.rescues.Keys == reg.rescues.Keys + (set c | c in classes)
              && (forall c :: c in classes ==> r.value.rescues[c] == (if with.Some? then with.value else block.value))
              && (forall c :: c in reg.rescues && c !in classes ==> r.value.rescues[c] == reg.rescues[c])
  {
    var handler := if with.Some? then with else block;
    match handler
    case None =>
      var m := MissingHandlerMessage;
      assert m[8] == 'w' && m[9] == 'i' && m[10] == 't' && m[11] == 'h';
      assert m[8..12] == "with";
      assert OccursAt(m, "with", 8);
      Err(ArgumentError(MissingHandlerMessage))
    case Some(h) => Ok(reg.(rescues := AddRescues(reg.rescues, classes, h)))
  }
}
