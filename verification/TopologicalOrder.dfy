/** Ordering of graph roles: the sorted-ready-list topological sort of the graph engine. */
module TopologicalOrder {
  import opened Strings

  type Role = string

  datatype Edge = Edge(source: Role, target: Role)

  /** The returned list, or the sorted roles named in the `ValueError`. */
  datatype Outcome = Ordered(order: seq<Role>) | Cyclic(remaining: seq<Role>)

  // ----- what an order is, independently of the algorithm -----

  ghost function Elements<T>(s: seq<T>): set<T> {
    set x | x in s
  }

  ghost predicate Distinct<T>(s: seq<T>) {
    forall i, j :: 0 <= i < j < |s| ==> s[i] != s[j]
  }

  /** An edge counts only when both of its ends are listed. */
  predicate Linked(roles: set<Role>, edges: set<Edge>, a: Role, b: Role) {
    a in roles && b in roles && Edge(a, b) in edges
  }

  /** Every role once, every source before its target. */
  ghost predicate IsSchedule(order: seq<Role>, roles: set<Role>, edges: set<Edge>) {
    && Distinct(order)
    && Elements(order) == roles
    && forall i, j :: 0 <= i < |order| && 0 <= j < |order| && Linked(roles, edges, order[i], order[j]) ==> i < j
  }

  /** A closed walk along edges. */
  ghost predicate IsCycle(p: seq<Role>, roles: set<Role>, edges: set<Edge>) {
    |p| >= 2 && p[0] == p[|p| - 1] && IsWalk(p, roles, edges)
  }

  ghost predicate IsWalk(p: seq<Role>, roles: set<Role>, edges: set<Edge>) {
    forall i :: 0 <= i < |p| - 1 ==> Linked(roles, edges, p[i], p[i + 1])
  }

  ghost predicate HasCycle(roles: set<Role>, edges: set<Edge>) {
    exists p :: IsCycle(p, roles, edges)
  }

  /** Lexicographic order on lists of roles. */
  ghost predicate LexLeq(a: seq<Role>, b: seq<Role>) {
    a == [] || (b != [] && (Less(a[0], b[0]) || (a[0] == b[0] && LexLeq(a[1..], b[1..]))))
  }

  /** At position k the first of two lists that agree so far is decided. */
  ghost predicate DecidedAtRole(a: seq<Role>, b: seq<Role>, k: nat) {
    k < |a| && k < |b| && a[..k] == b[..k] && Less(a[k], b[k])
  }

  lemma TailDecidedRole(a: seq<Role>, b: seq<Role>, k: nat)
    requires a != [] && b != [] && a[0] == b[0]
    ensures DecidedAtRole(a[1..], b[1..], k) <==> DecidedAtRole(a, b, k + 1)
  {
    if k + 1 < |a| && k + 1 < |b| {
      assert a[..k + 1] == [a[0]] + a[1..][..k] && b[..k + 1] == [b[0]] + b[1..][..k];
      assert a[1..][..k] == a[..k + 1][1..] && b[1..][..k] == b[..k + 1][1..];
    }
  }

  /** The list order in full: a prefix comes first, and otherwise the first differing role decides, in string order. */
  lemma {:induction false} LexLeqIff(a: seq<Role>, b: seq<Role>)
    ensures LexLeq(a, b) <==> a <= b || exists k: nat :: DecidedAtRole(a, b, k)
  {
    if a != [] && b != [] {
      LessAsymmetric(a[0], b[0]);
      if a[0] == b[0] {
        LexLeqIff(a[1..], b[1..]);
        assert a <= b <==> a[1..] <= b[1..];
        if k: nat :| DecidedAtRole(a[1..], b[1..], k) {
          TailDecidedRole(a, b, k);
        }
        if k: nat :| DecidedAtRole(a, b, k) {
          assert k > 0;
          TailDecidedRole(a, b, k - 1);
        }
      } else {
        assert Less(a[0], b[0]) ==> DecidedAtRole(a, b, 0);
        if k: nat :| DecidedAtRole(a, b, k) {
          assert k > 0 ==> a[..k][0] == b[..k][0];
        }
      }
    }
  }

  ghost predicate IsLeastSchedule(order: seq<Role>, roles: set<Role>, edges: set<Edge>) {
    && IsSchedule(order, roles, edges)
    && forall other :: IsSchedule(other, roles, edges) ==> LexLeq(order, other)
  }

  /** Every member has a predecessor among the members, so none can ever be scheduled. */
  ghost predicate Stuck(S: set<Role>, roles: set<Role>, edges: set<Edge>) {
    S <= roles && forall x {:trigger HasSourceIn(x, S, roles, edges)} :: x in S ==> HasSourceIn(x, S, roles, edges)
  }

  ghost predicate HasSourceIn(x: Role, S: set<Role>, roles: set<Role>, edges: set<Edge>) {
    exists y :: y in S && Linked(roles, edges, y, x)
  }

  // ----- the greedy choice -----

  ghost predicate Ready(x: Role, placed: set<Role>, roles: set<Role>, edges: set<Edge>) {
    x in roles && x !in placed && forall y :: Linked(roles, edges, y, x) ==> y in placed
  }

  /** The k-th role is the least one whose predecessors are all placed before it. */
  ghost predicate ChosenAt(order: seq<Role>, k: nat, roles: set<Role>, edges: set<Edge>)
    requires k < |order|
  {
    && Ready(order[k], Elements(order[..k]), roles, edges)
    && forall x :: Ready(x, Elements(order[..k]), roles, edges) ==> Leq(order[k], x)
  }

  ghost predicate Greedy(order: seq<Role>, roles: set<Role>, edges: set<Edge>) {
    forall k :: 0 <= k < |order| ==> ChosenAt(order, k, roles, edges)
  }

  lemma GreedyExtend(order: seq<Role>, x: Role, roles: set<Role>, edges: set<Edge>)
    requires Greedy(order, roles, edges)
    requires Ready(x, Elements(order), roles, edges)
    requires forall y :: Ready(y, Elements(order), roles, edges) ==> Leq(x, y)
    ensures Greedy(order + [x], roles, edges)
  {
    var o := order + [x];
    forall k | 0 <= k < |o| ensures ChosenAt(o, k, roles, edges) {
      if k < |order| {
        assert o[..k] == order[..k];
        assert ChosenAt(order, k, roles, edges);
      } else {
        assert o[..k] == order;
      }
    }
  }

  lemma GreedyIsSchedule(order: seq<Role>, roles: set<Role>, edges: set<Edge>)
    requires Greedy(order, roles, edges) && Elements(order) == roles
    ensures IsSchedule(order, roles, edges)
  {
    forall i, j | 0 <= i < j < |order| ensures order[i] != order[j] {
      assert ChosenAt(order, j, roles, edges);
      assert order[i] in order[..j];
    }
    forall i, j | 0 <= i < |order| && 0 <= j < |order| && Linked(roles, edges, order[i], order[j])
      ensures i < j
    {
      assert ChosenAt(order, j, roles, edges);
      assert order[i] in order[..j];
    }
  }

  /** Exchange argument: whatever schedule agrees up to k, the greedy one continues no later. */
  lemma {:induction false} GreedyIsLeastFrom(order: seq<Role>, other: seq<Role>, k: nat, roles: set<Role>,
                                             edges: set<Edge>)
    requires Greedy(order, roles, edges) && Elements(order) == roles && IsSchedule(other, roles, edges)
    requires k <= |order| && k <= |other| && order[..k] == other[..k]
    ensures LexLeq(order[k..], other[k..])
    decreases |order| - k
  {
    if k < |order| {
      assert ChosenAt(order, k, roles, edges);
      assert order[k] in Elements(order) && order[k] !in order[..k];
      assert other[..|other|] == other;
      assert k < |other|;
      assert Ready(other[k], Elements(other[..k]), roles, edges) by {
        forall y | Linked(roles, edges, y, other[k]) ensures y in Elements(other[..k]) {
          assert y in Elements(other);
          var i :| 0 <= i < |other| && other[i] == y;
          assert i < k;
          assert other[..k][i] == y;
        }
        assert other[k] in Elements(other);
        assert forall i :: 0 <= i < k ==> other[i] != other[k];
      }
      if order[k] == other[k] {
        assert order[..k + 1] == order[..k] + [order[k]] == other[..k + 1];
        GreedyIsLeastFrom(order, other, k + 1, roles, edges);
        assert order[k..][1..] == order[k + 1..] && other[k..][1..] == other[k + 1..];
      }
    }
  }

  lemma GreedyIsLeast(order: seq<Role>, roles: set<Role>, edges: set<Edge>)
    requires Greedy(order, roles, edges) && Elements(order) == roles
    ensures IsLeastSchedule(order, roles, edges)
  {
    GreedyIsSchedule(order, roles, edges);
    forall other | IsSchedule(other, roles, edges) ensures LexLeq(order, other) {
      GreedyIsLeastFrom(order, other, 0, roles, edges);
      assert order[0..] == order && other[0..] == other;
    }
  }

  lemma {:induction false} LexAntisymmetric(a: seq<Role>, b: seq<Role>)
    requires LexLeq(a, b) && LexLeq(b, a)
    ensures a == b
  {
    if a != [] && b != [] {
      LessAsymmetric(a[0], b[0]);
      LessAsymmetric(b[0], a[0]);
      LexAntisymmetric(a[1..], b[1..]);
      assert a == [a[0]] + a[1..] && b == [b[0]] + b[1..];
    }
  }

  /** The answer depends on the sets of roles and edges alone, not on how they were listed. */
  lemma LeastScheduleUnique(a: seq<Role>, b: seq<Role>, roles: set<Role>, edges: set<Edge>)
    requires IsLeastSchedule(a, roles, edges) && IsLeastSchedule(b, roles, edges)
    ensures a == b
  {
    LexAntisymmetric(a, b);
  }

  // ----- cycles -----

  lemma WalkPrepend(y: Role, p: seq<Role>, roles: set<Role>, edges: set<Edge>)
    requires p != [] && IsWalk(p, roles, edges) && Linked(roles, edges, y, p[0])
    ensures IsWalk([y] + p, roles, edges)
  {
    var q := [y] + p;
    forall k | 0 <= k < |q| - 1 ensures Linked(roles, edges, q[k], q[k + 1]) {
      if k > 0 {
        assert Linked(roles, edges, p[k - 1], p[k]);
      }
    }
  }

  lemma CloseCycle(p: seq<Role>, i: nat, roles: set<Role>, edges: set<Edge>)
    requires i < |p| && IsWalk(p, roles, edges) && Linked(roles, edges, p[i], p[0])
    ensures HasCycle(roles, edges)
  {
    WalkPrepend(p[i], p, roles, edges);
    var q := [p[i]] + p;
    var c := q[..i + 2];
    forall k | 0 <= k < |c| - 1 ensures Linked(roles, edges, c[k], c[k + 1]) {
      assert Linked(roles, edges, q[k], q[k + 1]);
    }
    assert IsCycle(c, roles, edges);
  }

  /** A stuck set contains a cycle: walk backwards until a role repeats. */
  lemma {:induction false} StuckHasCycle(S: set<Role>, p: seq<Role>, roles: set<Role>, edges: set<Edge>)
    requires Stuck(S, roles, edges) && p != [] && Elements(p) <= S
    requires Distinct(p) && IsWalk(p, roles, edges)
    ensures HasCycle(roles, edges)
    decreases S - Elements(p)
  {
    assert p[0] in Elements(p);
    assert HasSourceIn(p[0], S, roles, edges);
    var y :| y in S && Linked(roles, edges, y, p[0]);
    if y in p {
      var i :| 0 <= i < |p| && p[i] == y;
      CloseCycle(p, i, roles, edges);
    } else {
      WalkPrepend(y, p, roles, edges);
      assert Elements([y] + p) == Elements(p) + {y};
      StuckHasCycle(S, [y] + p, roles, edges);
    }
  }

  /** Along a walk the positions in a schedule increase, so no schedule survives a cycle. */
  lemma {:induction false} WalkIncreases(p: seq<Role>, order: seq<Role>, roles: set<Role>, edges: set<Edge>,
                                         i: nat, j: nat)
    requires IsSchedule(order, roles, edges) && IsWalk(p, roles, edges) && |p| >= 2
    requires i < |order| && j < |order| && order[i] == p[0] && order[j] == p[|p| - 1]
    ensures i < j
    decreases |p|
  {
    assert Linked(roles, edges, p[0], p[1]);
    if |p| > 2 {
      assert p[1] in Elements(order);
      var m :| 0 <= m < |order| && order[m] == p[1];
      forall k | 0 <= k < |p[1..]| - 1 ensures Linked(roles, edges, p[1..][k], p[1..][k + 1]) {
        assert Linked(roles, edges, p[k + 1], p[k + 2]);
      }
      WalkIncreases(p[1..], order, roles, edges, m, j);
    }
  }

  lemma CycleExcludesSchedule(order: seq<Role>, roles: set<Role>, edges: set<Edge>)
    requires IsSchedule(order, roles, edges)
    ensures !HasCycle(roles, edges)
  {
    if HasCycle(roles, edges) {
      var p :| IsCycle(p, roles, edges);
      assert Linked(roles, edges, p[0], p[1]);
      assert p[0] in Elements(order);
      var i :| 0 <= i < |order| && order[i] == p[0];
      WalkIncreases(p, order, roles, edges, i, i);
    }
  }

  // ----- the algorithm -----

  /** `incoming[x]` holds the predecessors of x that are not yet placed. */
  ghost predicate Waits(incoming: map<Role, set<Role>>, placed: set<Role>, R: set<Role>, E: set<Edge>) {
    && incoming.Keys == R
    && forall x, y :: x in R ==> (y in incoming[x] <==> Linked(R, E, y, x) && y !in placed)
  }

  ghost predicate Leads(outgoing: map<Role, set<Role>>, R: set<Role>, E: set<Edge>) {
    && outgoing.Keys == R
    && forall x, t :: x in R ==> (t in outgoing[x] <==> Linked(R, E, x, t))
  }

  lemma ReadyWhenNothingWaits(x: Role, incoming: map<Role, set<Role>>, placed: set<Role>, R: set<Role>, E: set<Edge>)
    requires Waits(incoming, placed, R, E) && x in R && x !in placed
    ensures incoming[x] == {} <==> Ready(x, placed, R, E)
  {
    assert forall y :: Linked(R, E, y, x) ==> y in placed || y in incoming[x];
    if incoming[x] != {} {
      var y :| y in incoming[x];
      assert Linked(R, E, y, x) && y !in placed;
    }
  }

  /** Builds `incoming` and `outgoing` from the edges whose ends are both listed. */
  method LinkRoles(roleNames: seq<Role>, edges: seq<Edge>)
    returns (incoming: map<Role, set<Role>>, outgoing: map<Role, set<Role>>)
    ensures Waits(incoming, {}, Elements(roleNames), Elements(edges))
    ensures Leads(outgoing, Elements(roleNames), Elements(edges))
  {
    incoming := map role | role in roleNames :: {};
    outgoing := map role | role in roleNames :: {};
    ghost var R := Elements(roleNames);
    for k := 0 to |edges|
      invariant incoming.Keys == outgoing.Keys == R
      invariant forall x, y :: x in R ==> (y in incoming[x] <==> y in R && Edge(y, x) in edges[..k])
      invariant forall x, t :: x in R ==> (t in outgoing[x] <==> t in R && Edge(x, t) in edges[..k])
    {
      var source, target := edges[k].source, edges[k].target;
      assert edges[..k + 1] == edges[..k] + [Edge(source, target)];
      if source in roleNames && target in roleNames {
        incoming := incoming[target := incoming[target] + {source}];
        outgoing := outgoing[source := outgoing[source] + {target}];
      }
    }
    assert edges[..|edges|] == edges;
  }

  /** Removes a placed role from its targets' incoming sets and queues those left without any. */
  method Release(role: Role, targets: seq<Role>, incoming: map<Role, set<Role>>, ready: seq<Role>)
    returns (incoming': map<Role, set<Role>>, ready': seq<Role>)
    requires forall t :: t in targets ==> t in incoming
    ensures incoming'.Keys == incoming.Keys
    ensures forall x :: x in incoming ==> incoming'[x] == if x in targets then incoming[x] - {role} else incoming[x]
    ensures forall x :: x in ready' <==> x in ready || (x in targets && incoming[x] - {role} == {})
  {
    incoming', ready' := incoming, ready;
    for k := 0 to |targets|
      invariant incoming'.Keys == incoming.Keys
      invariant forall x :: x in incoming ==>
        incoming'[x] == if x in targets[..k] then incoming[x] - {role} else incoming[x]
      invariant forall x :: x in ready' <==> x in ready || (x in targets[..k] && incoming[x] - {role} == {})
    {
      var target := targets[k];
      assert targets[..k + 1] == targets[..k] + [target];
      incoming' := incoming'[target := incoming'[target] - {role}];
      if incoming'[target] == {} {
        ready' := ready' + [target];
      }
    }
    assert targets[..|targets|] == targets;
  }

  ghost predicate Consistent(placed: seq<Role>, remaining: set<Role>, incoming: map<Role, set<Role>>,
                             ready: seq<Role>, R: set<Role>, E: set<Edge>) {
    && remaining == R - Elements(placed)
    && Elements(placed) <= R
    && Waits(incoming, Elements(placed), R, E)
    && (forall x :: x in ready ==> x in R)
    && (forall x :: x in remaining && incoming[x] == {} ==> x in ready)
    && (forall x :: x in ready ==> incoming[x] == {})
    && Sorted(ready)
    && Greedy(placed, R, E)
  }

  method SetToSeq(s: set<Role>) returns (r: seq<Role>)
    ensures Elements(r) == s
  {
    r := [];
    var rest := s;
    while rest != {}
      invariant Elements(r) + rest == s
      decreases rest
    {
      var x :| x in rest;
      r := r + [x];
      rest := rest - {x};
    }
  }

  /** `sorted(...)` of a set. */
  method SortedElements(s: set<Role>) returns (r: seq<Role>)
    ensures Sorted(r) && Elements(r) == s
  {
    var unsorted := SetToSeq(s);
    SortMembers(unsorted);
    r := Sort(unsorted);
  }

  /** One turn of the loop: take the least queued role unless it is already placed. */
  method Round(ordered: seq<Role>, remaining: set<Role>, incoming: map<Role, set<Role>>, ready: seq<Role>,
               outgoing: map<Role, set<Role>>, ghost R: set<Role>, ghost E: set<Edge>)
    returns (ordered': seq<Role>, remaining': set<Role>, incoming': map<Role, set<Role>>, ready': seq<Role>)
    requires Consistent(ordered, remaining, incoming, ready, R, E) && Leads(outgoing, R, E) && ready != []
    ensures Consistent(ordered', remaining', incoming', ready', R, E)
    ensures remaining' < remaining || (remaining' == remaining && |ready'| < |ready|)
  {
    var role := ready[0];
    if role !in remaining {
      ordered', remaining', incoming', ready' := ordered, remaining, incoming, ready[1..];
    } else {
      var targets := SortedElements(outgoing[role]);
      assert forall t :: t in targets <==> t in Elements(targets);
      var queued;
      incoming', queued := Release(role, targets, incoming, ready[1..]);
      AfterRelease(ordered, targets, remaining, incoming, incoming', ready, queued, R, E);
      ordered', remaining', ready' := ordered + [role], remaining - {role}, Sort(queued);
      assert role in remaining;
    }
  }

  method Order(roleNames: seq<Role>, edges: seq<Edge>) returns (r: Outcome)
    ensures r.Ordered? <==> !HasCycle(Elements(roleNames), Elements(edges))
    ensures r.Ordered? ==> IsLeastSchedule(r.order, Elements(roleNames), Elements(edges))
    ensures r.Cyclic? ==>
      r.remaining != [] && Sorted(r.remaining) && Stuck(Elements(r.remaining), Elements(roleNames), Elements(edges))
    ensures r.Cyclic? ==> forall S :: Stuck(S, Elements(roleNames), Elements(edges)) ==> S <= Elements(r.remaining)
  {
    ghost var R, E := Elements(roleNames), Elements(edges);
    var incoming, outgoing := LinkRoles(roleNames, edges);
    var remaining := set role | role in roleNames;
    var ordered: seq<Role> := [];
    var ready := SortedElements(set role | role in roleNames && incoming[role] == {});
    assert forall x :: x in ready <==> x in Elements(ready);
    while ready != []
      invariant Consistent(ordered, remaining, incoming, ready, R, E)
      decreases remaining, |ready|
    {
      ordered, remaining, incoming, ready := Round(ordered, remaining, incoming, ready, outgoing, R, E);
    }
    Conclude(ordered, remaining, incoming, R, E);
    if remaining != {} {
      var left := SortedElements(remaining);
      r := Cyclic(left);
    } else {
      r := Ordered(ordered);
    }
  }

  lemma Conclude(placed: seq<Role>, remaining: set<Role>, incoming: map<Role, set<Role>>, R: set<Role>, E: set<Edge>)
    requires Consistent(placed, remaining, incoming, [], R, E)
    ensures remaining == {} <==> !HasCycle(R, E)
    ensures remaining == {} ==> IsLeastSchedule(placed, R, E)
    ensures remaining != {} ==> Stuck(remaining, R, E) && forall S :: Stuck(S, R, E) ==> S <= remaining
  {
    if remaining != {} {
      NothingReadyIsStuck(placed, remaining, incoming, R, E);
      var x :| x in remaining;
      StuckHasCycle(remaining, [x], R, E);
      forall S | Stuck(S, R, E) ensures S <= remaining {
        StuckNeverPlaced(S, placed, R, E);
      }
    } else {
      assert Elements(placed) == R;
      GreedyIsLeast(placed, R, E);
      CycleExcludesSchedule(placed, R, E);
    }
  }

  lemma TakeLeastReady(placed: seq<Role>, remaining: set<Role>, incoming: map<Role, set<Role>>, ready: seq<Role>,
                       R: set<Role>, E: set<Edge>)
    requires Consistent(placed, remaining, incoming, ready, R, E) && ready != [] && ready[0] in remaining
    ensures Greedy(placed + [ready[0]], R, E)
  {
    var role := ready[0];
    ReadyWhenNothingWaits(role, incoming, Elements(placed), R, E);
    assert role in ready;
    forall y | Ready(y, Elements(placed), R, E) ensures Leq(role, y) {
      ReadyWhenNothingWaits(y, incoming, Elements(placed), R, E);
      assert y in ready;
      var i :| 0 <= i < |ready| && ready[i] == y;
    }
    GreedyExtend(placed, role, R, E);
  }

  lemma AfterRelease(placed: seq<Role>, targets: seq<Role>, remaining: set<Role>, incoming: map<Role, set<Role>>,
                     incoming': map<Role, set<Role>>, ready: seq<Role>, queued: seq<Role>, R: set<Role>, E: set<Edge>)
    requires Consistent(placed, remaining, incoming, ready, R, E) && ready != [] && ready[0] in remaining
    requires forall t :: t in targets <==> Linked(R, E, ready[0], t)
    requires forall t :: t in targets ==> t in incoming
    requires incoming'.Keys == R
    requires forall x :: x in R ==> incoming'[x] == if x in targets then incoming[x] - {ready[0]} else incoming[x]
    requires forall x :: x in queued <==> x in ready[1..] || (x in targets && incoming[x] - {ready[0]} == {})
    ensures Consistent(placed + [ready[0]], remaining - {ready[0]}, incoming', Sort(queued), R, E)
  {
    TakeLeastReady(placed, remaining, incoming, ready, R, E);
    SortMembers(queued);
    var role, placed' := ready[0], placed + [ready[0]];
    assert Elements(placed') == Elements(placed) + {role};
    assert Waits(incoming', Elements(placed'), R, E);
    assert ready == [role] + ready[1..];
  }

  lemma NothingReadyIsStuck(placed: seq<Role>, remaining: set<Role>, incoming: map<Role, set<Role>>, R: set<Role>,
                            E: set<Edge>)
    requires Consistent(placed, remaining, incoming, [], R, E)
    ensures Stuck(remaining, R, E)
  {
    forall x | x in remaining ensures HasSourceIn(x, remaining, R, E) {
      assert incoming[x] != {};
      var y :| y in incoming[x];
      assert Linked(R, E, y, x) && y in remaining;
    }
  }

  lemma {:induction false} StuckNeverPlaced(S: set<Role>, order: seq<Role>, R: set<Role>, E: set<Edge>)
    requires Stuck(S, R, E) && Greedy(order, R, E)
    ensures forall x :: x in S ==> x !in order
    decreases |order|
  {
    if order != [] {
      var k := |order| - 1;
      var front := order[..k];
      forall i | 0 <= i < |front| ensures ChosenAt(front, i, R, E) {
        assert ChosenAt(order, i, R, E);
        assert front[..i] == order[..i];
      }
      StuckNeverPlaced(S, front, R, E);
      assert ChosenAt(order, k, R, E);
      assert Elements(order) == Elements(front) + {order[k]};
      assert forall y :: Linked(R, E, y, order[k]) ==> y in Elements(front);
      assert forall y :: y in Elements(front) ==> y !in S;
      assert !HasSourceIn(order[k], S, R, E);
    }
  }
}
