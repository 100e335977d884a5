/** Finding the registered handler for a raised exception. */
module RescueDispatch {
  import opened Common
  import opened ClassHierarchy
  import opened ServiceInstance

  /**
   * The position of the first class of `chain` that has an entry in `table`,
   * if any.
   */
  function FirstRegistered(table: map<ClassName, ActionRef>, chain: seq<ClassName>): (r: Option<nat>)
    ensures r.None? <==> forall i :: 0 <= i < |chain| ==> chain[i] !in table
    ensures r.Some? ==> r.value < |chain| && chain[r.value] in table
    ensures r.Some? ==> forall i :: 0 <= i < r.value ==> chain[i] !in table
  {
    if |chain| == 0 then None
    else if chain[0] in table then Some(0)
    else match FirstRegistered(table, chain[1..])
      case None => None
      case Some(k) => Some(k + 1)
  }

  /**
   * The handler for an exception of class `c`: the one registered for `c`
   * itself if there is one, otherwise the one registered for its nearest
   * superclass; none when no class in its chain is registered.
   */
  function HandlerFor(table: map<ClassName, ActionRef>, h: Hierarchy, c: ClassName): (r: Option<ActionRef>)
    ensures r.None? <==> forall a :: IsA(h, c, a) ==> a !in table
    ensures c in table ==> r == Some(table[c])
    ensures r.Some? ==>
              exists k :: 0 <= k < |Ancestors(h, c)| && Ancestors(h, c)[k] in table
                          && r.value == table[Ancestors(h, c)[k]]
                          && forall i :: 0 <= i < k ==> Ancestors(h, c)[i] !in table
  {
    var chain := Ancestors(h, c);
    match FirstRegistered(table, chain)
    case None => None
    case Some(k) => Some(table[chain[k]])
  }

  /** The `j`th class of `c`'s superclass chain is the first one with an entry in `table`. */
  predicate NearestRegistered(table: map<ClassName, ActionRef>, h: Hierarchy, c: ClassName, j: nat)
  {
    && j < |Ancestors(h, c)|
    && Ancestors(h, c)[j] in table
    && forall i :: 0 <= i < j ==> Ancestors(h, c)[i] !in table
  }

  /** The handler chosen is the one of the nearest registered class in the superclass chain. */
  lemma HandlerForNearest(table: map<ClassName, ActionRef>, h: Hierarchy, c: ClassName, j: nat)
    requires NearestRegistered(table, h, c, j)
    ensures HandlerFor(table, h, c) == Some(table[Ancestors(h, c)[j]])
  {
    var chain := Ancestors(h, c);
    var k := FirstRegistered(table, chain);
    assert k.Some?;
    assert !(k.value < j);
    assert !(k.value > j);
  }
}
