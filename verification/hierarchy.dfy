/** The exception class hierarchy the rescue dispatcher consults. */
module ClassHierarchy {
  import opened Common

  /** Each class maps to its superclass; a root class has no entry. */
  type Hierarchy = map<ClassName, ClassName>

  /**
   * The superclass chain of `c`, starting with `c` itself (Ruby's
   * `c.ancestors` restricted to classes).  The walk stops at a root; on a
   * malformed, cyclic map it stops as soon as a class repeats.
   */
  function Ancestors(h: Hierarchy, c: ClassName): (r: seq<ClassName>)
    ensures |r| >= 1 && r[0] == c
    ensures forall i :: 0 <= i < |r| - 1 ==> r[i] in h && h[r[i]] == r[i + 1]
    ensures r[|r| - 1] !in h || r[|r| - 1] in r[..|r| - 1]
    ensures forall i, j :: 0 <= i < j < |r| - 1 ==> r[i] != r[j]
    ensures |r| <= |h| + 1
    decreases |h|
  {
    if c in h then
      var rest := Ancestors(h - {c}, h[c]);
      var r := [c] + rest;
      assert r[1..] == rest;
      assert r[|r| - 1] == rest[|rest| - 1];
      assert rest[|rest| - 1] in h - {c} ==> rest[|rest| - 1] in r[1..|r| - 1];
      assert r[0] in r[..|r| - 1];
      r
    else
      [c]
  }

  /** `c.is_a?(a)`: `a` is `c` or one of its superclasses. */
  predicate IsA(h: Hierarchy, c: ClassName, a: ClassName)
  {
    a in Ancestors(h, c)
  }
}
