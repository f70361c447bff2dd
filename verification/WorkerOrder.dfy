/** Which order the selected worker roles of a graph snapshot run in. */
module WorkerOrder {
  import opened Sequences
  import opened TopologicalOrder
  import opened Precedence

  type NodeId = string

  datatype GraphNode = GraphNode(role: Role, id: NodeId)
  datatype NodeEdge = NodeEdge(fromNode: NodeId, toNode: NodeId)

  /** `d[key] = value` on a Python dict: a known key keeps its place. */
  function Put(d: seq<GraphNode>, entry: GraphNode): seq<GraphNode> {
    if d == [] then [entry]
    else if d[0].role == entry.role then [entry] + d[1..]
    else [d[0]] + Put(d[1..], entry)
  }

  /** `node_by_role`, in dict order. */
  function NodeByRole(nodes: seq<GraphNode>): seq<GraphNode> {
    if nodes == [] then [] else Put(NodeByRole(nodes[..|nodes| - 1]), nodes[|nodes| - 1])
  }

  /** `role_by_node`: of two roles on one node the later dict entry wins. */
  function RoleByNode(entries: seq<GraphNode>): map<NodeId, Role> {
    if entries == [] then map[]
    else
      var last := entries[|entries| - 1];
      RoleByNode(entries[..|entries| - 1])[last.id := last.role]
  }

  function SelectedIds(entries: seq<GraphNode>, selected: set<Role>): set<NodeId> {
    set k | 0 <= k < |entries| && entries[k].role in selected :: entries[k].id
  }

  lemma {:induction false} RoleByNodeCovers(entries: seq<GraphNode>, k: nat)
    requires k < |entries|
    ensures entries[k].id in RoleByNode(entries)
    ensures (forall i, j :: 0 <= i < j < |entries| ==> entries[i].id != entries[j].id)
            ==> RoleByNode(entries)[entries[k].id] == entries[k].role
  {
    if k < |entries| - 1 {
      RoleByNodeCovers(entries[..|entries| - 1], k);
    }
  }

  /** `role_by_node` names for each node the role of its last entry. */
  lemma {:induction false} RoleByNodeIs(entries: seq<GraphNode>, k: nat)
    requires k < |entries| && forall j :: k < j < |entries| ==> entries[j].id != entries[k].id
    ensures entries[k].id in RoleByNode(entries) && RoleByNode(entries)[entries[k].id] == entries[k].role
  {
    if k < |entries| - 1 {
      RoleByNodeIs(entries[..|entries| - 1], k);
    }
  }

  /** The edges handed to the topological sort: both ends selected, named by role. */
  function RoleEdges(nodeEdges: seq<NodeEdge>, ids: set<NodeId>, roleOf: map<NodeId, Role>): (r: seq<Edge>)
    requires ids <= roleOf.Keys
    ensures forall e :: e in r <==>
      exists k :: 0 <= k < |nodeEdges| && nodeEdges[k].fromNode in ids && nodeEdges[k].toNode in ids
                                             && e == Edge(roleOf[nodeEdges[k].fromNode], roleOf[nodeEdges[k].toNode])
  {
    if nodeEdges == [] then []
    else
      var rest := RoleEdges(nodeEdges[..|nodeEdges| - 1], ids, roleOf);
      var last := nodeEdges[|nodeEdges| - 1];
      if last.fromNode in ids && last.toNode in ids
        then rest + [Edge(roleOf[last.fromNode], roleOf[last.toNode])] else rest
  }

  function SnapshotEdges(selected: set<Role>, nodes: seq<GraphNode>, nodeEdges: seq<NodeEdge>): seq<Edge> {
    var entries := NodeByRole(nodes);
    var ids, roleOf := SelectedIds(entries, selected), RoleByNode(entries);
    assert ids <= roleOf.Keys by {
      forall id | id in ids ensures id in roleOf.Keys {
        var k :| 0 <= k < |entries| && entries[k].id == id;
        RoleByNodeCovers(entries, k);
      }
    }
    RoleEdges(nodeEdges, ids, roleOf)
  }

  method TopologicalWorkerOrder(selectedRoles: seq<Role>, graphRoles: seq<Role>, nodes: seq<GraphNode>,
                                nodeEdges: seq<NodeEdge>)
    returns (r: Outcome)
    ensures selectedRoles == [] ==> r == Ordered([])
    ensures selectedRoles != [] && graphRoles == [] ==> r == Ordered(selectedRoles)
    ensures selectedRoles != [] && graphRoles != [] ==>
              var R := Elements(graphRoles) * Elements(selectedRoles);
              var E := Elements(SnapshotEdges(Elements(selectedRoles), nodes, nodeEdges));
              && (r.Ordered? <==> !HasCycle(R, E))
              && (r.Ordered? ==> exists k :: 0 <= k <= |r.order| && IsLeastSchedule(r.order[..k], R, E)
                                          && r.order[k..] == KeepIn(selectedRoles, Elements(selectedRoles) - R))
  {
    if selectedRoles == [] {
      return Ordered([]);
    }
    if graphRoles == [] {
      return Ordered(selectedRoles);
    }
    var selected := set role | role in selectedRoles;
    var listed := KeepIn(graphRoles, selected);
    assert Elements(listed) == Elements(graphRoles) * Elements(selectedRoles);
    r := Order(listed, SnapshotEdges(selected, nodes, nodeEdges));
    if r.Ordered? {
      ghost var head := r.order;
      var ordered := set role | role in r.order;
      var missing := KeepIn(selectedRoles, selected - ordered);
      assert ordered == Elements(head);
      r := Ordered(r.order + missing);
      assert r.order[..|head|] == head && r.order[|head|..] == missing;
    }
  }

  /** The snapshot names each role and each node once, as the graph editor requires. */
  ghost predicate OneToOne(nodes: seq<GraphNode>) {
    forall i, j :: 0 <= i < j < |nodes| ==> nodes[i].role != nodes[j].role && nodes[i].id != nodes[j].id
  }

  lemma {:induction false} PutNew(d: seq<GraphNode>, entry: GraphNode)
    requires forall i :: 0 <= i < |d| ==> d[i].role != entry.role
    ensures Put(d, entry) == d + [entry]
  {
    if d != [] {
      PutNew(d[1..], entry);
    }
  }

  lemma {:induction false} NodeByRoleIdentity(nodes: seq<GraphNode>)
    requires OneToOne(nodes)
    ensures NodeByRole(nodes) == nodes
  {
    if nodes != [] {
      NodeByRoleIdentity(nodes[..|nodes| - 1]);
      PutNew(nodes[..|nodes| - 1], nodes[|nodes| - 1]);
    }
  }

  /** An entry of `node_by_role`: a listed node that no later one with its role replaces. */
  ghost predicate LastOfRole(nodes: seq<GraphNode>, k: nat, e: GraphNode) {
    k < |nodes| && nodes[k] == e && forall j :: k < j < |nodes| ==> nodes[j].role != e.role
  }

  lemma {:induction false} PutIs(d: seq<GraphNode>, entry: GraphNode)
    requires forall i, j :: 0 <= i < j < |d| ==> d[i].role != d[j].role
    ensures var r := Put(d, entry);
      && (forall e :: e in r <==> e == entry || (e in d && e.role != entry.role))
      && (forall i, j :: 0 <= i < j < |r| ==> r[i].role != r[j].role)
  {
    if d != [] && d[0].role != entry.role {
      PutIs(d[1..], entry);
    }
  }

  /** `node_by_role` holds for each role exactly its last listed node. */
  lemma {:induction false} NodeByRoleIs(nodes: seq<GraphNode>)
    ensures forall i, j :: 0 <= i < j < |NodeByRole(nodes)| ==> NodeByRole(nodes)[i].role != NodeByRole(nodes)[j].role
    ensures forall e :: e in NodeByRole(nodes) <==> exists k: nat :: LastOfRole(nodes, k, e)
  {
    if nodes != [] {
      var front, last := nodes[..|nodes| - 1], nodes[|nodes| - 1];
      NodeByRoleIs(front);
      PutIs(NodeByRole(front), last);
      forall e ensures e in NodeByRole(nodes) <==> exists k: nat :: LastOfRole(nodes, k, e) {
        LastOfRoleStep(nodes, e);
      }
    }
  }

  lemma LastOfRoleStep(nodes: seq<GraphNode>, e: GraphNode)
    requires nodes != []
    ensures var front, last := nodes[..|nodes| - 1], nodes[|nodes| - 1];
      (exists k: nat :: LastOfRole(nodes, k, e)) <==>
        e == last || ((exists k: nat :: LastOfRole(front, k, e)) && e.role != last.role)
  {
    var front, last := nodes[..|nodes| - 1], nodes[|nodes| - 1];
    if e == last {
      assert LastOfRole(nodes, |nodes| - 1, e);
    }
    if k: nat :| LastOfRole(front, k, e) && e.role != last.role {
      assert LastOfRole(nodes, k, e);
    }
    if k: nat :| LastOfRole(nodes, k, e) && k < |front| {
      assert LastOfRole(front, k, e);
    }
  }

  /** In a one-to-one snapshot an edge reaches the sort exactly when it joins two selected nodes directly. */
  lemma DirectEdgesOnly(selected: set<Role>, nodes: seq<GraphNode>, nodeEdges: seq<NodeEdge>, i: nat, j: nat)
    requires OneToOne(nodes) && i < |nodes| && j < |nodes|
    ensures Edge(nodes[i].role, nodes[j].role) in SnapshotEdges(selected, nodes, nodeEdges)
            <==> (nodes[i].role in selected && nodes[j].role in selected
                  && NodeEdge(nodes[i].id, nodes[j].id) in nodeEdges)
  {
    NodeByRoleIdentity(nodes);
    var ids, roleOf := SelectedIds(nodes, selected), RoleByNode(nodes);
    forall k | 0 <= k < |nodes|
      ensures nodes[k].id in roleOf && roleOf[nodes[k].id] == nodes[k].role
      ensures nodes[k].id in ids <==> nodes[k].role in selected
    {
      RoleByNodeCovers(nodes, k);
    }
    var e := Edge(nodes[i].role, nodes[j].role);
    if e in SnapshotEdges(selected, nodes, nodeEdges) {
      var k :| 0 <= k < |nodeEdges| && nodeEdges[k].fromNode in ids && nodeEdges[k].toNode in ids
               && e == Edge(roleOf[nodeEdges[k].fromNode], roleOf[nodeEdges[k].toNode]);
      var a :| 0 <= a < |nodes| && nodes[a].role in selected && nodes[a].id == nodeEdges[k].fromNode;
      var b :| 0 <= b < |nodes| && nodes[b].role in selected && nodes[b].id == nodeEdges[k].toNode;
      assert a == i && b == j;
    }
    if nodes[i].role in selected && nodes[j].role in selected && NodeEdge(nodes[i].id, nodes[j].id) in nodeEdges {
      var k :| 0 <= k < |nodeEdges| && nodeEdges[k] == NodeEdge(nodes[i].id, nodes[j].id);
      assert nodeEdges[k].fromNode in ids && nodeEdges[k].toNode in ids;
    }
  }

  /** A snapshot edge joins the nodes of the two roles. */
  ghost predicate DirectEdge(nodes: seq<GraphNode>, nodeEdges: seq<NodeEdge>, x: Role, y: Role) {
    exists i, j :: 0 <= i < |nodes| && 0 <= j < |nodes| && Joins(nodes, nodeEdges, i, j, x, y)
  }

  ghost predicate Joins(nodes: seq<GraphNode>, nodeEdges: seq<NodeEdge>, i: nat, j: nat, x: Role, y: Role)
    requires i < |nodes| && j < |nodes|
  {
    nodes[i].role == x && nodes[j].role == y && NodeEdge(nodes[i].id, nodes[j].id) in nodeEdges
  }

  /** A path of snapshot edges from a to b that never leaves R. */
  ghost predicate PathInside(p: seq<Role>, a: Role, b: Role, R: set<Role>, nodes: seq<GraphNode>,
                             nodeEdges: seq<NodeEdge>) {
    && |p| >= 2 && p[0] == a && p[|p| - 1] == b
    && (forall k :: 0 <= k < |p| ==> p[k] in R)
    && forall k :: 0 <= k < |p| - 1 ==> DirectEdge(nodes, nodeEdges, p[k], p[k + 1])
  }

  lemma SnapshotEdgeHasNodes(selected: set<Role>, nodes: seq<GraphNode>, nodeEdges: seq<NodeEdge>, e: Edge)
    requires OneToOne(nodes) && e in SnapshotEdges(selected, nodes, nodeEdges)
    ensures exists i, j :: 0 <= i < |nodes| && 0 <= j < |nodes| && e == Edge(nodes[i].role, nodes[j].role)
  {
    NodeByRoleIdentity(nodes);
    var ids, roleOf := SelectedIds(nodes, selected), RoleByNode(nodes);
    forall k | 0 <= k < |nodes| ensures nodes[k].id in roleOf && roleOf[nodes[k].id] == nodes[k].role {
      RoleByNodeCovers(nodes, k);
    }
    var k :| 0 <= k < |nodeEdges| && nodeEdges[k].fromNode in ids && nodeEdges[k].toNode in ids
             && e == Edge(roleOf[nodeEdges[k].fromNode], roleOf[nodeEdges[k].toNode]);
    var i :| 0 <= i < |nodes| && nodes[i].role in selected && nodes[i].id == nodeEdges[k].fromNode;
    var j :| 0 <= j < |nodes| && nodes[j].role in selected && nodes[j].id == nodeEdges[k].toNode;
  }

  lemma LinkedIffDirect(selected: set<Role>, nodes: seq<GraphNode>, nodeEdges: seq<NodeEdge>, R: set<Role>,
                        x: Role, y: Role)
    requires OneToOne(nodes) && R <= selected
    ensures Linked(R, Elements(SnapshotEdges(selected, nodes, nodeEdges)), x, y)
            <==> x in R && y in R && DirectEdge(nodes, nodeEdges, x, y)
  {
    if Linked(R, Elements(SnapshotEdges(selected, nodes, nodeEdges)), x, y) {
      SnapshotEdgeHasNodes(selected, nodes, nodeEdges, Edge(x, y));
      var i, j :| 0 <= i < |nodes| && 0 <= j < |nodes| && Edge(x, y) == Edge(nodes[i].role, nodes[j].role);
      DirectEdgesOnly(selected, nodes, nodeEdges, i, j);
      assert Joins(nodes, nodeEdges, i, j, x, y);
    }
    if x in R && y in R && DirectEdge(nodes, nodeEdges, x, y) {
      var i, j :| 0 <= i < |nodes| && 0 <= j < |nodes| && Joins(nodes, nodeEdges, i, j, x, y);
      DirectEdgesOnly(selected, nodes, nodeEdges, i, j);
    }
  }

  lemma WalkIffPathInside(p: seq<Role>, a: Role, b: Role, selected: set<Role>, nodes: seq<GraphNode>,
                          nodeEdges: seq<NodeEdge>, R: set<Role>)
    requires OneToOne(nodes) && R <= selected
    ensures WalkBetween(p, a, b, R, Elements(SnapshotEdges(selected, nodes, nodeEdges))) <==>
      PathInside(p, a, b, R, nodes, nodeEdges)
  {
    var E := Elements(SnapshotEdges(selected, nodes, nodeEdges));
    forall k | 0 <= k < |p| - 1
      ensures Linked(R, E, p[k], p[k + 1]) <==>
        p[k] in R && p[k + 1] in R && DirectEdge(nodes, nodeEdges, p[k], p[k + 1])
    {
      LinkedIffDirect(selected, nodes, nodeEdges, R, p[k], p[k + 1]);
    }
    if WalkBetween(p, a, b, R, E) {
      forall k | 0 <= k < |p| ensures p[k] in R {
        assert k < |p| - 1 ==> Linked(R, E, p[k], p[k + 1]);
        assert k > 0 ==> Linked(R, E, p[k - 1], p[k]);
      }
    }
  }

  /** Which dependencies of a snapshot are kept: all schedules of the selected listed roles put a before b exactly
      when a path of snapshot edges leads from a to b without leaving those roles. A path through an unselected node
      does not count. */
  lemma DependencyKeptIff(a: Role, b: Role, selectedRoles: seq<Role>, graphRoles: seq<Role>, nodes: seq<GraphNode>,
                          nodeEdges: seq<NodeEdge>)
    requires OneToOne(nodes) && a != b
    requires var R := Elements(graphRoles) * Elements(selectedRoles);
      a in R && b in R && !HasCycle(R, Elements(SnapshotEdges(Elements(selectedRoles), nodes, nodeEdges)))
    ensures var R := Elements(graphRoles) * Elements(selectedRoles);
      (forall order :: IsSchedule(order, R, Elements(SnapshotEdges(Elements(selectedRoles), nodes, nodeEdges))) ==>
        Before(order, a, b))
      <==> exists p :: PathInside(p, a, b, R, nodes, nodeEdges)
  {
    var R, E := Elements(graphRoles) * Elements(selectedRoles),
      Elements(SnapshotEdges(Elements(selectedRoles), nodes, nodeEdges));
    AlwaysBeforeIff(a, b, R, E);
    if Reaches(a, b, R, E) {
      var p :| WalkBetween(p, a, b, R, E);
      WalkIffPathInside(p, a, b, Elements(selectedRoles), nodes, nodeEdges, R);
    }
    if p :| PathInside(p, a, b, R, nodes, nodeEdges) {
      WalkIffPathInside(p, a, b, Elements(selectedRoles), nodes, nodeEdges, R);
    }
  }

  /** So the order the graph engine returns respects every dependency that stays inside the selection. */
  lemma ReturnedOrderKeepsDependencies(order: seq<Role>, k: nat, a: Role, b: Role, p: seq<Role>,
                                       selectedRoles: seq<Role>, graphRoles: seq<Role>,
                                       nodes: seq<GraphNode>, nodeEdges: seq<NodeEdge>)
    requires OneToOne(nodes) && k <= |order| && a != b
    requires var R := Elements(graphRoles) * Elements(selectedRoles);
      && IsLeastSchedule(order[..k], R, Elements(SnapshotEdges(Elements(selectedRoles), nodes, nodeEdges)))
      && PathInside(p, a, b, R, nodes, nodeEdges)
    ensures Before(order, a, b)
  {
    var R, E := Elements(graphRoles) * Elements(selectedRoles),
      Elements(SnapshotEdges(Elements(selectedRoles), nodes, nodeEdges));
    CycleExcludesSchedule(order[..k], R, E);
    DependencyKeptIff(a, b, selectedRoles, graphRoles, nodes, nodeEdges);
    assert Before(order[..k], a, b);
    var i, j :| 0 <= i < j < k && order[..k][i] == a && order[..k][j] == b;
    assert order[i] == a && order[j] == b;
  }

  /** For instance, with z -> m -> a and m unselected, a is scheduled before z. */
  lemma PathThroughUnselectedIgnored()
    ensures var nodes := [GraphNode("a", "1"), GraphNode("m", "2"), GraphNode("z", "3")];
            var nodeEdges := [NodeEdge("3", "2"), NodeEdge("2", "1")];
            var E := Elements(SnapshotEdges({"a", "z"}, nodes, nodeEdges));
            E == {} && IsLeastSchedule(["a", "z"], {"a", "z"}, E)
  {
    var nodes := [GraphNode("a", "1"), GraphNode("m", "2"), GraphNode("z", "3")];
    var nodeEdges := [NodeEdge("3", "2"), NodeEdge("2", "1")];
    NodeByRoleIdentity(nodes);
    var ids := SelectedIds(nodes, {"a", "z"});
    forall id | id in ids ensures id != "2" {
      var k :| 0 <= k < |nodes| && nodes[k].role in {"a", "z"} && nodes[k].id == id;
    }
    forall k | 0 <= k < |nodeEdges| ensures !(nodeEdges[k].fromNode in ids && nodeEdges[k].toNode in ids) {
    }
    var edges := SnapshotEdges({"a", "z"}, nodes, nodeEdges);
    assert forall e :: e !in edges;
    assert Elements(edges) == {};
    TwoRolesLeast();
  }

  lemma TwoRolesLeast()
    ensures IsLeastSchedule(["a", "z"], {"a", "z"}, {})
  {
    var order := ["a", "z"];
    assert order[..0] == [] && order[..1] == ["a"] && ["a"][0] == "a";
    assert Elements(order[..0]) == {};
    assert Elements(order[..1]) == {"a"};
    assert Elements(order) == {"a", "z"} by {
      assert order[0] == "a" && order[1] == "z";
    }
    assert ChosenAt(order, 0, {"a", "z"}, {});
    assert ChosenAt(order, 1, {"a", "z"}, {});
    GreedyIsLeast(order, {"a", "z"}, {});
  }
}
