/** Unique node ids for the roles of a migrated agent graph. */
module NodeNames {
  import opened Strings

  datatype Node = Node(id: string, roleId: string, title: string)

  /** The n-th name tried: the base, then base_2, base_3, ... */
  function Candidate(base: string, n: nat): string {
    if n == 0 then base else base + "_" + Numeral(n + 1)
  }

  lemma CandidateInjective(base: string, m: nat, n: nat)
    requires Candidate(base, m) == Candidate(base, n)
    ensures m == n
  {
    if m > 0 && n > 0 {
      var prefix := base + "_";
      assert Numeral(m + 1) == Candidate(base, m)[|prefix|..] == Candidate(base, n)[|prefix|..] == Numeral(n + 1);
      NumeralInjective(m + 1, n + 1);
    }
  }

  /** The first candidate not yet used. The loop ends because each refused candidate is another used name. */
  method FreshName(base: string, used: set<string>) returns (nodeId: string, ghost n: nat)
    ensures nodeId !in used
    ensures nodeId == Candidate(base, n) && forall m :: 0 <= m < n ==> Candidate(base, m) in used
  {
    nodeId, n := base, 0;
    var suffix := 2;
    ghost var tried: set<string> := {};
    while nodeId in used
      invariant suffix == n + 2 && nodeId == Candidate(base, n)
      invariant forall m :: 0 <= m < n ==> Candidate(base, m) in used
      invariant tried == set m | 0 <= m < n :: Candidate(base, m)
      decreases used - tried
    {
      assert nodeId !in tried by {
        forall m | 0 <= m < n ensures Candidate(base, m) != nodeId {
          if Candidate(base, m) == Candidate(base, n) {
            CandidateInjective(base, m, n);
          }
        }
      }
      tried := tried + {nodeId};
      nodeId := base + "_" + Numeral(suffix);
      suffix, n := suffix + 1, n + 1;
    }
  }

  ghost predicate DistinctNodeIds(nodes: seq<Node>) {
    forall i, j :: 0 <= i < j < |nodes| ==> nodes[i].id != nodes[j].id
  }

  /** One of the first k nodes has the id. */
  ghost predicate Taken(nodes: seq<Node>, k: nat, id: string)
    requires k <= |nodes|
  {
    exists j :: 0 <= j < k && nodes[j].id == id
  }

  /** Node k has its base's n-th candidate, and the nodes before it have taken the earlier ones. */
  ghost predicate FirstFreeAt(nodes: seq<Node>, k: nat, base: string, n: nat)
    requires k < |nodes|
  {
    nodes[k].id == Candidate(base, n) && forall m :: 0 <= m < n ==> Taken(nodes, k, Candidate(base, m))
  }

  ghost predicate FirstFree(nodes: seq<Node>, k: nat, slug: string -> string)
    requires k < |nodes|
  {
    exists n :: FirstFreeAt(nodes, k, slug(nodes[k].title), n)
  }

  function TitleOf(names: map<string, string>, roleId: string): string {
    if roleId in names then names[roleId] else roleId
  }

  /** One node per role id, in order. */
  ghost predicate NodesFor(nodes: seq<Node>, roleIds: seq<string>, names: map<string, string>, slug: string -> string) {
    && |nodes| == |roleIds|
    && (forall k :: 0 <= k < |nodes| ==> nodes[k].roleId == roleIds[k] && nodes[k].title == TitleOf(names, roleIds[k]))
    && (forall k :: 0 <= k < |nodes| ==> FirstFree(nodes, k, slug))
    && DistinctNodeIds(nodes)
  }

  /** A node of the list carries the role and the id. */
  ghost predicate HasNode(nodes: seq<Node>, roleId: string, id: string) {
    exists k :: 0 <= k < |nodes| && nodes[k].roleId == roleId && nodes[k].id == id
  }

  ghost predicate MapsRoles(roleToNode: map<string, string>, nodes: seq<Node>, roleIds: seq<string>) {
    && (forall r :: r in roleToNode <==> r in roleIds)
    && (forall r :: r in roleToNode ==> HasNode(nodes, r, roleToNode[r]))
  }

  lemma AppendNode(nodes: seq<Node>, x: Node, n: nat, roleIds: seq<string>, names: map<string, string>,
                   slug: string -> string)
    requires NodesFor(nodes, roleIds, names, slug) && x.title == TitleOf(names, x.roleId)
    requires x.id == Candidate(slug(x.title), n) && !Taken(nodes, |nodes|, x.id)
    requires forall m :: 0 <= m < n ==> Taken(nodes, |nodes|, Candidate(slug(x.title), m))
    ensures NodesFor(nodes + [x], roleIds + [x.roleId], names, slug)
  {
    var all := nodes + [x];
    forall k | 0 <= k < |all| ensures FirstFree(all, k, slug) {
      if k < |nodes| {
        assert FirstFree(nodes, k, slug);
        var m: nat :| FirstFreeAt(nodes, k, slug(nodes[k].title), m);
        forall j | 0 <= j < m ensures Taken(all, k, Candidate(slug(nodes[k].title), j)) {
          TakenAppend(nodes, x, k, Candidate(slug(nodes[k].title), j));
        }
        assert FirstFreeAt(all, k, slug(all[k].title), m);
      } else {
        forall j | 0 <= j < n ensures Taken(all, k, Candidate(slug(x.title), j)) {
          TakenAppend(nodes, x, k, Candidate(slug(x.title), j));
        }
        assert FirstFreeAt(all, k, slug(all[k].title), n);
      }
    }
    forall i | 0 <= i < |nodes| ensures nodes[i].id != x.id {
      assert Taken(nodes, |nodes|, nodes[i].id);
    }
  }

  lemma TakenAppend(nodes: seq<Node>, x: Node, k: nat, id: string)
    requires k <= |nodes| && Taken(nodes, k, id)
    ensures Taken(nodes + [x], k, id)
  {
    var j :| 0 <= j < k && nodes[j].id == id;
    assert (nodes + [x])[j].id == id;
  }

  lemma AppendMapping(roleToNode: map<string, string>, nodes: seq<Node>, x: Node, roleIds: seq<string>)
    requires MapsRoles(roleToNode, nodes, roleIds)
    ensures MapsRoles(roleToNode[x.roleId := x.id], nodes + [x], roleIds + [x.roleId])
  {
    var all, mapping := nodes + [x], roleToNode[x.roleId := x.id];
    forall r | r in mapping ensures HasNode(all, r, mapping[r]) {
      if r == x.roleId {
        assert all[|nodes|] == x;
      } else {
        assert HasNode(nodes, r, roleToNode[r]);
        var k :| 0 <= k < |nodes| && nodes[k].roleId == r && nodes[k].id == roleToNode[r];
        assert all[k] == nodes[k];
      }
    }
  }

  /** For any list of role ids: one node per listed role, each with the first free candidate, ids pairwise distinct,
      and a role-to-node map onto those nodes. */
  method NodesForRoles(roleIds: seq<string>, names: map<string, string>, slug: string -> string)
    returns (nodes: seq<Node>, roleToNode: map<string, string>)
    ensures NodesFor(nodes, roleIds, names, slug)
    ensures MapsRoles(roleToNode, nodes, roleIds)
  {
    nodes, roleToNode := [], map[];
    var used: set<string> := {};
    for i := 0 to |roleIds|
      invariant NodesFor(nodes, roleIds[..i], names, slug)
      invariant MapsRoles(roleToNode, nodes, roleIds[..i])
      invariant forall id :: id in used <==> Taken(nodes, i, id)
    {
      var roleId := roleIds[i];
      var title := TitleOf(names, roleId);
      var nodeId, n := FreshName(slug(title), used);
      var node := Node(nodeId, roleId, title);
      AppendNode(nodes, node, n, roleIds[..i], names, slug);
      AppendMapping(roleToNode, nodes, node, roleIds[..i]);
      assert roleIds[..i + 1] == roleIds[..i] + [roleId];
      forall id ensures id in used + {nodeId} <==> Taken(nodes + [node], i + 1, id) {
        if Taken(nodes, i, id) {
          TakenAppend(nodes, node, i, id);
        }
        assert (nodes + [node])[i].id == nodeId;
      }
      used := used + {nodeId};
      roleToNode := roleToNode[roleId := nodeId];
      nodes := nodes + [node];
    }
    assert roleIds[..|roleIds|] == roleIds;
  }

  /** In numbers: when the first three roles share a base name, the second gets the suffix 2, the third the suffix
      3. */
  lemma ThreeAlike(nodes: seq<Node>, roleIds: seq<string>, names: map<string, string>, slug: string -> string,
                   base: string)
    requires NodesFor(nodes, roleIds, names, slug) && |nodes| >= 3
    requires forall k :: 0 <= k < 3 ==> slug(nodes[k].title) == base
    ensures nodes[0].id == base && nodes[1].id == base + "_2" && nodes[2].id == base + "_3"
  {
    Suffixes(base);
    assert FirstFree(nodes, 0, slug) && FirstFree(nodes, 1, slug) && FirstFree(nodes, 2, slug);
    var a: nat :| FirstFreeAt(nodes, 0, base, a);
    assert !Taken(nodes, 0, Candidate(base, 0));
    var b: nat :| FirstFreeAt(nodes, 1, base, b);
    assert b > 1 ==> Taken(nodes, 1, Candidate(base, 1));
    var c: nat :| FirstFreeAt(nodes, 2, base, c);
    assert c > 2 ==> Taken(nodes, 2, Candidate(base, 2));
    CandidateDiffers(base);
  }

  lemma Suffixes(base: string)
    ensures Candidate(base, 0) == base && Candidate(base, 1) == base + "_2" && Candidate(base, 2) == base + "_3"
  {
    assert Numeral(2) == "2" && Numeral(3) == "3";
  }

  lemma CandidateDiffers(base: string)
    ensures Candidate(base, 0) != Candidate(base, 1) && Candidate(base, 0) != Candidate(base, 2)
    ensures Candidate(base, 1) != Candidate(base, 2)
  {
    assert Candidate(base, 1)[|base| + 1] == Numeral(2)[0] && Candidate(base, 2)[|base| + 1] == Numeral(3)[0];
  }

  /** No two roles share a node. */
  lemma RoleMapInjective(nodes: seq<Node>, roleToNode: map<string, string>, roleIds: seq<string>,
                         names: map<string, string>,
                         slug: string -> string, r: string, s: string)
    requires NodesFor(nodes, roleIds, names, slug) && MapsRoles(roleToNode, nodes, roleIds)
    requires r in roleIds && s in roleIds && roleToNode[r] == roleToNode[s]
    ensures r == s
  {
    assert HasNode(nodes, r, roleToNode[r]) && HasNode(nodes, s, roleToNode[s]);
  }
}
