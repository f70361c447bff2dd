/** Which dependencies every schedule of the roles respects. */
module Precedence {
  import opened TopologicalOrder

  ghost predicate Before(order: seq<Role>, a: Role, b: Role) {
    exists i, j :: 0 <= i < j < |order| && order[i] == a && order[j] == b
  }

  /** A walk along edges leads from a to b. */
  ghost predicate Reaches(a: Role, b: Role, R: set<Role>, E: set<Edge>) {
    exists p :: WalkBetween(p, a, b, R, E)
  }

  ghost predicate WalkBetween(p: seq<Role>, a: Role, b: Role, R: set<Role>, E: set<Edge>) {
    |p| >= 2 && p[0] == a && p[|p| - 1] == b && IsWalk(p, R, E)
  }

  /** A list that can begin a schedule: no role twice, every source of a listed role before it. */
  ghost predicate Begins(p: seq<Role>, R: set<Role>, E: set<Edge>) {
    Distinct(p) && Elements(p) <= R && forall k :: 0 <= k < |p| ==> SourcesBefore(p, k, R, E)
  }

  ghost predicate SourcesBefore(p: seq<Role>, k: nat, R: set<Role>, E: set<Edge>)
    requires k < |p|
  {
    forall y :: Linked(R, E, y, p[k]) ==> y in p[..k]
  }

  ghost predicate Closed(T: set<Role>, R: set<Role>, E: set<Edge>) {
    T <= R && forall x, y :: x in T && Linked(R, E, y, x) ==> y in T
  }

  lemma AppendBegins(p: seq<Role>, x: Role, R: set<Role>, E: set<Edge>)
    requires Begins(p, R, E) && x in R && x !in p && forall y :: Linked(R, E, y, x) ==> y in p
    ensures Begins(p + [x], R, E) && Elements(p + [x]) == Elements(p) + {x}
  {
    var q := p + [x];
    forall k | 0 <= k < |q| ensures SourcesBefore(q, k, R, E) {
      if k < |p| {
        assert q[..k] == p[..k];
        assert SourcesBefore(p, k, R, E);
      } else {
        assert q[..k] == p;
      }
    }
  }

  /** Without a cycle some role left in a closed set has all its sources placed. */
  lemma SomeRoleIsFree(p: seq<Role>, T: set<Role>, R: set<Role>, E: set<Edge>) returns (x: Role)
    requires Closed(T, R, E) && !HasCycle(R, E) && Elements(p) <= T && Elements(p) != T
    ensures x in T && x !in p && forall y :: Linked(R, E, y, x) ==> y in p
  {
    var left := T - Elements(p);
    if Stuck(left, R, E) {
      assert left != {} by { assert Elements(p) + left == T; }
      var s :| s in left;
      StuckHasCycle(left, [s], R, E);
    }
    assert exists z :: z in left && !HasSourceIn(z, left, R, E);
    x :| x in left && !HasSourceIn(x, left, R, E);
    forall y | Linked(R, E, y, x) ensures y in p {
      assert y in T;
    }
  }

  /** Without a cycle the beginning of a schedule extends within any closed set. */
  lemma {:induction false} Extends(p: seq<Role>, T: set<Role>, R: set<Role>, E: set<Edge>) returns (q: seq<Role>)
    requires Begins(p, R, E) && Elements(p) <= T && Closed(T, R, E) && !HasCycle(R, E)
    ensures p <= q && Begins(q, R, E) && Elements(q) == T
    decreases T - Elements(p)
  {
    if Elements(p) == T {
      q := p;
    } else {
      var x := SomeRoleIsFree(p, T, R, E);
      AppendBegins(p, x, R, E);
      q := Extends(p + [x], T, R, E);
    }
  }

  lemma BeginsIsSchedule(q: seq<Role>, R: set<Role>, E: set<Edge>)
    requires Begins(q, R, E) && Elements(q) == R
    ensures IsSchedule(q, R, E)
  {
    forall i, j | 0 <= i < |q| && 0 <= j < |q| && Linked(R, E, q[i], q[j]) ensures i < j {
      assert SourcesBefore(q, j, R, E);
    }
  }

  /** A role together with everything that leads to it. */
  ghost function Ancestors(b: Role, R: set<Role>, E: set<Edge>): set<Role> {
    set x | x in R && (x == b || Reaches(x, b, R, E))
  }

  lemma AncestorsClosed(b: Role, R: set<Role>, E: set<Edge>)
    ensures Closed(Ancestors(b, R, E), R, E)
  {
    forall x, y | x in Ancestors(b, R, E) && Linked(R, E, y, x) ensures y in Ancestors(b, R, E) {
      if x == b {
        assert WalkBetween([y, b], y, b, R, E);
      } else {
        var p :| WalkBetween(p, x, b, R, E);
        WalkPrepend(y, p, R, E);
        assert WalkBetween([y] + p, y, b, R, E);
      }
    }
  }

  /** If nothing leads from a to b, some schedule has b first: b's ancestors, b, then the rest. */
  lemma ScheduleWithout(a: Role, b: Role, R: set<Role>, E: set<Edge>) returns (order: seq<Role>)
    requires a in R && b in R && a != b && !HasCycle(R, E) && !Reaches(a, b, R, E)
    ensures IsSchedule(order, R, E) && !Before(order, a, b)
  {
    AncestorsClosed(b, R, E);
    var first := Extends([], Ancestors(b, R, E), R, E);
    order := Extends(first, R, R, E);
    BeginsIsSchedule(order, R, E);
    assert b in Elements(first) && a !in Elements(first);
    forall k | 0 <= k < |first| ensures order[k] != a {
      assert order[k] == first[k] && first[k] in Elements(first);
    }
    var j :| 0 <= j < |first| && first[j] == b;
    assert order[j] == b;
  }

  /** Every schedule puts a before b exactly when a walk of edges leads from a to b. */
  lemma AlwaysBeforeIff(a: Role, b: Role, R: set<Role>, E: set<Edge>)
    requires a in R && b in R && a != b && !HasCycle(R, E)
    ensures (forall order :: IsSchedule(order, R, E) ==> Before(order, a, b)) <==> Reaches(a, b, R, E)
  {
    if Reaches(a, b, R, E) {
      var p :| WalkBetween(p, a, b, R, E);
      forall order | IsSchedule(order, R, E) ensures Before(order, a, b) {
        assert a in Elements(order) && b in Elements(order);
        var i, j :| 0 <= i < |order| && 0 <= j < |order| && order[i] == a && order[j] == b;
        WalkIncreases(p, order, R, E, i, j);
      }
    } else {
      var order := ScheduleWithout(a, b, R, E);
      assert IsSchedule(order, R, E) && !Before(order, a, b);
    }
  }

  /** Without a cycle there is a schedule at all. */
  lemma ScheduleExistsIff(R: set<Role>, E: set<Edge>)
    ensures (exists order :: IsSchedule(order, R, E)) <==> !HasCycle(R, E)
  {
    if !HasCycle(R, E) {
      var order := Extends([], R, R, E);
      BeginsIsSchedule(order, R, E);
    } else if order :| IsSchedule(order, R, E) {
      CycleExcludesSchedule(order, R, E);
    }
  }
}
