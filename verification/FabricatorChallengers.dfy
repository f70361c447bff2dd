/** Whom a synthesis names for the challenge, and in which order. */
module FabricatorChallengers {
  import opened Options
  import opened Sequences
  import opened FabricatorModel
  import opened FabricatorTheorems

  // ----- order of first appearance -----

  /** Position of the first x, or the length. */
  function First(s: seq<Id>, x: Id): (k: nat)
    ensures k <= |s| && (k < |s| <==> x in s) && (k < |s| ==> s[k] == x) && forall j :: 0 <= j < k ==> s[j] != x
  {
    if s == [] || s[0] == x then 0
    else
      assert s == [s[0]] + s[1..];
      1 + First(s[1..], x)
  }

  lemma FirstTail(a: seq<Id>, b: seq<Id>, x: Id)
    requires a != [] && a[0] != x
    ensures First(a + b, x) == 1 + First(a[1..] + b, x)
  {
    assert (a + b)[0] == a[0] && (a + b)[1..] == a[1..] + b;
  }

  lemma {:induction false} FirstLeft(a: seq<Id>, b: seq<Id>, x: Id)
    requires x in a
    ensures First(a + b, x) == First(a, x)
  {
    if a[0] != x {
      FirstLeft(a[1..], b, x);
      FirstTail(a, b, x);
    } else {
      assert (a + b)[0] == x;
    }
  }

  lemma {:induction false} FirstRight(a: seq<Id>, b: seq<Id>, x: Id)
    requires x !in a && x in b
    ensures First(a + b, x) == |a| + First(b, x)
  {
    if a == [] {
      assert a + b == b;
    } else {
      FirstRight(a[1..], b, x);
      FirstTail(a, b, x);
    }
  }

  /** The list names each of its elements once, in the order in which they first appear in s. */
  ghost predicate InOrderOf(r: seq<Id>, s: seq<Id>) {
    forall i, j :: 0 <= i < j < |r| ==> First(s, r[i]) < First(s, r[j])
  }

  /** `dedupe` keeps first appearances in their order. */
  lemma {:induction false} DedupeInOrder(ids: seq<Id>)
    ensures InOrderOf(Dedupe(ids), ids)
  {
    if ids != [] {
      var front, last := ids[..|ids| - 1], ids[|ids| - 1];
      DedupeInOrder(front);
      assert ids == front + [last];
      forall x | x in front ensures First(ids, x) == First(front, x) < |front| {
        FirstLeft(front, [last], x);
      }
      if last !in front {
        FirstRight(front, [last], last);
      }
    }
  }

  ghost predicate Has(env: Env, id: Id, property: Response -> bool) {
    ResponseOf(env, Expert, id).Some? && property(ResponseOf(env, Expert, id).value)
  }

  lemma {:induction false} HavingInOrder(env: Env, ids: seq<Id>, property: Response -> bool, x: Id, y: Id)
    requires Has(env, x, property) && Has(env, y, property) && x in ids && y in ids && First(ids, x) < First(ids, y)
    ensures var h := Having(env, Expert, ids, property); First(h, x) < First(h, y)
  {
    if ids[0] != x {
      HavingInOrder(env, ids[1..], property, x, y);
    }
  }

  // ----- the candidates -----

  /** An expert's response blocks (0), challenges a recommendation (1), is uncertain (2), or none of these (3). */
  function Group(env: Env, id: Id): nat {
    match ResponseOf(env, Expert, id)
    case None => 3
    case Some(x) =>
      if x.verdict.VerdictBlock? || x.blockers then 0 else if x.challenged then 1 else if x.uncertain then 2 else 3
  }

  /** a is named before b: by group, then by the order of selection. */
  ghost predicate NamedBefore(r: Run, env: Env, a: Id, b: Id) {
    Group(env, a) < Group(env, b) || (Group(env, a) == Group(env, b) && First(r.experts, a) < First(r.experts, b))
  }

  /** The experts of one group, with those of later groups that share its trait. */
  function Part(r: Run, env: Env, group: nat): seq<Id> {
    Having(env, Expert, r.experts, if group == 0 then Blocking else if group == 1 then Challenges else Uncertain)
  }

  function Parts(r: Run, env: Env): seq<Id> {
    Part(r, env, 0) + Part(r, env, 1) + Part(r, env, 2)
  }

  lemma PartMembers(r: Run, env: Env, x: Id)
    ensures x in Part(r, env, 0) <==> x in r.experts && Group(env, x) == 0
    ensures x in Part(r, env, 1) ==> x in r.experts && Group(env, x) <= 1
    ensures x in Part(r, env, 2) ==> x in r.experts && Group(env, x) <= 2
    ensures x in r.experts && Group(env, x) < 3 ==> x in Part(r, env, Group(env, x))
  {
  }

  lemma PartsMembers(r: Run, env: Env)
    ensures forall x :: x in Parts(r, env) <==> x in r.experts && Group(env, x) < 3
  {
    forall x ensures x in Parts(r, env) <==> x in r.experts && Group(env, x) < 3 {
      PartMembers(r, env, x);
    }
  }

  function Offset(r: Run, env: Env, group: nat): nat {
    if group == 0 then 0 else if group == 1 then |Part(r, env, 0)| else |Part(r, env, 0)| + |Part(r, env, 1)|
  }

  lemma LaterNotInPart(r: Run, env: Env, x: Id)
    ensures Group(env, x) == 1 ==> x !in Part(r, env, 0)
    ensures Group(env, x) == 2 ==> x !in Part(r, env, 0) && x !in Part(r, env, 1)
  {
  }

  /** Where an expert first stands among the three parts. */
  lemma FirstInParts(r: Run, env: Env, x: Id)
    requires x in r.experts && Group(env, x) < 3
    ensures var g := Group(env, x);
      x in Part(r, env, g) && First(Parts(r, env), x) == Offset(r, env, g) + First(Part(r, env, g), x)
  {
    var b, c, u := Part(r, env, 0), Part(r, env, 1), Part(r, env, 2);
    PartMembers(r, env, x);
    LaterNotInPart(r, env, x);
    if Group(env, x) == 0 {
      FirstLeft(b, c, x);
      FirstLeft(b + c, u, x);
    } else if Group(env, x) == 1 {
      FirstRight(b, c, x);
      FirstLeft(b + c, u, x);
    } else {
      FirstRight(b + c, u, x);
    }
  }

  lemma OffsetsGrow(r: Run, env: Env, g: nat, h: nat)
    requires g < h <= 2
    ensures Offset(r, env, g) + |Part(r, env, g)| <= Offset(r, env, h)
  {
  }

  lemma SameGroupOrder(r: Run, env: Env, x: Id, y: Id)
    requires x in r.experts && y in r.experts && Group(env, x) == Group(env, y) < 3
    requires First(r.experts, x) < First(r.experts, y)
    ensures var g := Group(env, x); First(Part(r, env, g), x) < First(Part(r, env, g), y)
  {
    var g := Group(env, x);
    HavingInOrder(env, r.experts, if g == 0 then Blocking else if g == 1 then Challenges else Uncertain, x, y);
  }

  lemma NamedOrder(r: Run, env: Env, x: Id, y: Id)
    requires x in r.experts && y in r.experts && Group(env, x) < 3 && Group(env, y) < 3 && NamedBefore(r, env, x, y)
    ensures First(Parts(r, env), x) < First(Parts(r, env), y)
  {
    FirstInParts(r, env, x);
    FirstInParts(r, env, y);
    if Group(env, x) == Group(env, y) {
      SameGroupOrder(r, env, x, y);
    } else {
      OffsetsGrow(r, env, Group(env, x), Group(env, y));
    }
  }

  lemma NamedTotal(r: Run, env: Env, x: Id, y: Id)
    requires x in r.experts && y in r.experts && x != y
    ensures NamedBefore(r, env, x, y) || NamedBefore(r, env, y, x)
  {
    assert First(r.experts, x) != First(r.experts, y);
  }

  lemma OrderNamed(r: Run, env: Env, x: Id, y: Id)
    requires x in r.experts && y in r.experts && Group(env, x) < 3 && Group(env, y) < 3
    requires First(Parts(r, env), x) < First(Parts(r, env), y)
    ensures NamedBefore(r, env, x, y)
  {
    if x != y {
      NamedTotal(r, env, x, y);
      if NamedBefore(r, env, y, x) {
        NamedOrder(r, env, y, x);
      }
    }
  }

  /** The list is strictly sorted by the naming order and holds only contested experts. */
  ghost predicate SortedNames(r: Run, env: Env, c: seq<Id>) {
    && (forall i :: 0 <= i < |c| ==> c[i] in r.experts && Group(env, c[i]) < 3)
    && (forall i, j :: 0 <= i < j < |c| ==> NamedBefore(r, env, c[i], c[j]))
  }

  lemma NamedSorted(r: Run, env: Env)
    ensures SortedNames(r, env, Dedupe(Parts(r, env)))
  {
    var named := Dedupe(Parts(r, env));
    PartsMembers(r, env);
    DedupeInOrder(Parts(r, env));
    forall i | 0 <= i < |named| ensures named[i] in r.experts && Group(env, named[i]) < 3 {
      assert named[i] in named;
    }
    forall i, j | 0 <= i < j < |named| ensures NamedBefore(r, env, named[i], named[j]) {
      OrderNamed(r, env, named[i], named[j]);
    }
  }

  /** The list is full, and x comes after all it names. */
  ghost predicate LeftOut(r: Run, env: Env, c: seq<Id>, x: Id) {
    |c| == r.maxChallenge && forall i :: 0 <= i < |c| ==> NamedBefore(r, env, c[i], x)
  }

  /** Whoever a shorter beginning of a sorted list leaves out comes after all it names. */
  lemma LeftOutComesAfter(r: Run, env: Env, named: seq<Id>, n: nat, x: Id)
    requires SortedNames(r, env, named) && x in named && x !in Prefix(named, n) && n == r.maxChallenge
    ensures LeftOut(r, env, Prefix(named, n), x)
  {
    var c := Prefix(named, n);
    var k :| 0 <= k < |named| && named[k] == x;
    assert forall i :: 0 <= i < |c| ==> c[i] == named[i] && named[i] in c;
  }

  lemma NamedCandidates(r: Run, env: Env)
    ensures var s, named := BuildSynthesis(r, env), Dedupe(Parts(r, env));
      s.candidates == Prefix(if s.required && named == [] then r.experts else named, r.maxChallenge)
  {
  }

  /** The candidates of a contested synthesis: exactly the first ones, up to the cap, of the experts whose response
      blocks, challenges or is uncertain; blocking ones first, then challenging, then uncertain ones, each group in the
      order of selection. */
  lemma CandidatesAre(r: Run, env: Env)
    requires Contested(r, env)
    ensures SortedNames(r, env, BuildSynthesis(r, env).candidates)
    ensures forall x :: x in r.experts && Group(env, x) < 3 && x !in BuildSynthesis(r, env).candidates ==>
              LeftOut(r, env, BuildSynthesis(r, env).candidates, x)
  {
    var named := Dedupe(Parts(r, env));
    ContestedIff(r, env);
    NamedCandidates(r, env);
    NamedSorted(r, env);
    var c := Prefix(named, r.maxChallenge);
    PrefixSorted(r, env, named, r.maxChallenge);
    PartsMembers(r, env);
    forall x | x in r.experts && Group(env, x) < 3 && x !in c ensures LeftOut(r, env, c, x) {
      LeftOutComesAfter(r, env, named, r.maxChallenge, x);
    }
  }

  lemma PrefixSorted(r: Run, env: Env, named: seq<Id>, n: nat)
    requires SortedNames(r, env, named)
    ensures SortedNames(r, env, Prefix(named, n))
  {
    var c := Prefix(named, n);
    assert forall i :: 0 <= i < |c| ==> c[i] == named[i];
  }

  lemma ContestedGroup(r: Run, env: Env)
    ensures Contested(r, env) <==> exists x :: x in r.experts && Group(env, x) < 3
  {
    forall x | x in r.experts
      ensures Group(env, x) < 3 <==>
        ResponseOf(env, Expert, x).Some?
        && var a := ResponseOf(env, Expert, x).value; Blocking(a) || a.challenged || a.uncertain
    {
    }
  }

  lemma ContestedIff(r: Run, env: Env)
    ensures Contested(r, env) <==> Dedupe(Parts(r, env)) != []
  {
    PartsMembers(r, env);
    ContestedGroup(r, env);
    NonEmptyMember(Dedupe(Parts(r, env)));
  }

  /** Without a contested response a required challenge names the first selected experts up to the cap, any other
      none. */
  lemma UncontestedCandidates(r: Run, env: Env)
    requires !Contested(r, env)
    ensures var s := BuildSynthesis(r, env);
      s.candidates == if s.required then r.experts[..Min(|r.experts|, r.maxChallenge)] else []
  {
    ContestedIff(r, env);
    NamedCandidates(r, env);
    assert r.experts[..|r.experts|] == r.experts;
  }

  function Min(a: nat, b: nat): nat {
    if a < b then a else b
  }

  /** The dispatched experts are the candidates as named, or the first selected experts when there are none. */
  lemma ChallengersAre(r: Run, env: Env)
    requires r.synthesis == Some(BuildSynthesis(r, env))
    ensures var c := BuildSynthesis(r, env).candidates;
      SelectChallengeExperts(r) == if c != [] then c else r.experts[..Min(|r.experts|, r.maxChallenge)]
  {
    var c := BuildSynthesis(r, env).candidates;
    CandidatesWithinCap(r, env);
    KeepAll(c, Members(r.experts));
    if |r.experts| <= r.maxChallenge {
      assert r.experts[..|r.experts|] == r.experts;
    }
  }
}
