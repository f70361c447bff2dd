/** What the items and clusters of a report say about the responses. */
module FindingReports {
  import opened Strings
  import opened FindingClusters

  // ----- items -----

  /** Every item names its response, is classified by its text and kind, and is as severe as its kind says: a blocker
      or a Block verdict blocks, an advisory is advisory, anything else asks for a revision. */
  lemma ItemFields(items: seq<Item>, r: Response, includeAdvisory: bool, classify: Classifier, k: nat)
    requires ItemsOf(items, r, includeAdvisory, classify) && k < |items|
    ensures var x := items[k];
      && x.phase == r.phase && x.expert == r.expert && x.topic == classify(x.text, x.kind)
      && (x.severity == BlockerLevel <==> x.kind == Blocker || (x.kind == VerdictItem && r.verdict == Block))
      && (x.severity == AdvisoryLevel <==> x.kind == Advisory)
      && (x.kind == VerdictItem ==> r.verdict != Proceed)
  {
    VerdictRawText(r, includeAdvisory, k);
  }

  lemma VerdictRawText(r: Response, includeAdvisory: bool, k: nat)
    requires k < |RawItems(r, includeAdvisory)|
    ensures var x := RawItems(r, includeAdvisory)[k];
      x.kind == VerdictItem ==>
        r.verdict != Proceed && x.text == VerdictText(r.verdict) && (x.text == "block" <==> r.verdict == Block)
  {
    var raw := RawItems(r, includeAdvisory);
    VerdictTextBlocks(r.verdict);
    if raw[k].kind == VerdictItem {
      var n := CountKind(raw[..k + 1], VerdictItem);
      NumberedText(raw, k);
      RawItemsComplete(r, includeAdvisory, VerdictItem);
    }
  }

  lemma VerdictTextBlocks(verdict: Verdict)
    ensures VerdictText(verdict) == "block" <==> verdict == Block
  {
    assert "proceed"[0] == 'p' && "revise"[0] == 'r' && "block"[0] == 'b';
  }

  /** A response that does not proceed has exactly one verdict item, the first. */
  lemma VerdictItemIff(items: seq<Item>, r: Response, includeAdvisory: bool, classify: Classifier)
    requires ItemsOf(items, r, includeAdvisory, classify)
    ensures (exists k :: 0 <= k < |items| && items[k].kind == VerdictItem) <==> r.verdict != Proceed
    ensures r.verdict != Proceed ==>
      items != [] && items[0].kind == VerdictItem && (items[0].severity == BlockerLevel <==> r.verdict == Block)
  {
    var raw := RawItems(r, includeAdvisory);
    if r.verdict != Proceed {
      assert raw[0] == Raw(VerdictItem, VerdictText(r.verdict));
      assert items[0] == ItemAt(r, raw, 0, classify);
      ItemFields(items, r, includeAdvisory, classify, 0);
    }
    if k :| 0 <= k < |items| && items[k].kind == VerdictItem {
      ItemFields(items, r, includeAdvisory, classify, k);
    }
  }

  function KindRank(kind: Kind): nat {
    match kind
    case VerdictItem => 0 case Blocker => 1 case Advisory => 2 case Constraint => 3
    case ChallengedRecommendation => 4 case Verification => 5
  }

  ghost predicate KindsInOrder(raw: seq<Raw>) {
    forall i, j :: 0 <= i < j < |raw| ==> KindRank(raw[i].kind) <= KindRank(raw[j].kind)
  }

  lemma KindsAppend(a: seq<Raw>, tag: Kind, texts: seq<string>)
    requires KindsInOrder(a) && forall k :: 0 <= k < |a| ==> KindRank(a[k].kind) <= KindRank(tag)
    ensures KindsInOrder(a + Tag(tag, texts))
    ensures forall k :: 0 <= k < |a + Tag(tag, texts)| ==> KindRank((a + Tag(tag, texts))[k].kind) <= KindRank(tag)
  {
  }

  /** Items come kind by kind: verdict, blockers, advisories, constraints, challenged recommendations, verifications. */
  lemma RawItemsInOrder(r: Response, includeAdvisory: bool)
    ensures KindsInOrder(RawItems(r, includeAdvisory))
  {
    var a := VerdictRaw(r.verdict);
    KindsAppend(a, Blocker, r.blockers);
    var b := a + Tag(Blocker, r.blockers);
    var advisory := if includeAdvisory then r.advisory else [];
    KindsAppend(b, Advisory, advisory);
    var c := b + Tag(Advisory, advisory);
    KindsAppend(c, Constraint, r.constraints);
    var d := c + Tag(Constraint, r.constraints);
    KindsAppend(d, ChallengedRecommendation, r.challenged);
    KindsAppend(d + Tag(ChallengedRecommendation, r.challenged), Verification, r.verification);
  }

  lemma Hyphens(a: string, b: string, c: string, d: string)
    ensures a + "-" + (b + "-" + c) + "-" + d == (a + "-") + b + ("-" + c + "-" + d)
  {
  }

  /** Ids are written as phase, expert, kind and number, joined by hyphens, counted from one. */
  lemma ItemIdFormat(expert: string)
    ensures ItemId(Review, expert, Blocker, 1) == "review-" + expert + "-blocker-1"
  {
    Hyphens("review", expert, "blocker", "1");
    assert Numeral(1) == "1";
    assert "review" + "-" == "review-";
    assert "-" + "blocker" + "-" + "1" == "-blocker-1";
  }

  // ----- clusters -----

  /** A cluster lists its items in their order: each stands behind as many as its topic had before it. */
  lemma {:induction false} ItemPosition(items: seq<Item>, topic: string, k: nat)
    requires k < |items| && items[k].topic == topic
    ensures var at := CountTopic(items[..k], topic);
      at < |ClusterOf(items, topic).itemIds| && ClusterOf(items, topic).itemIds[at] == items[k].id
  {
    var last: nat := |items| - 1;
    var front := items[..last];
    var before := ClusterOf(front, topic);
    ClusterFaithful(front, topic);
    assert ClusterOf(items, topic) == if items[last].topic == topic then AddItem(before, items[last]) else before;
    if k < last {
      ItemPosition(front, topic, k);
      assert front[..k] == items[..k] && front[k] == items[k];
    } else {
      assert items[..k] == front;
    }
  }

  /** Some item of the topic is the expert's. */
  ghost predicate HasExpert(items: seq<Item>, topic: string, e: string) {
    exists k :: 0 <= k < |items| && items[k].topic == topic && items[k].expert == e
  }

  lemma ExpertStep(items: seq<Item>, topic: string, e: string)
    requires items != []
    ensures var front, last := items[..|items| - 1], items[|items| - 1];
      HasExpert(items, topic, e) <==> HasExpert(front, topic, e) || (last.topic == topic && last.expert == e)
  {
    var front, last := items[..|items| - 1], items[|items| - 1];
    if k :| 0 <= k < |front| && front[k].topic == topic && front[k].expert == e {
      assert items[k] == front[k];
    }
    if k :| 0 <= k < |items| && items[k].topic == topic && items[k].expert == e && k < |front| {
      assert front[k] == items[k];
    }
    assert items[|front|] == last;
  }

  /** A cluster's experts are those of its items, each once. */
  lemma {:induction false} ClusterExperts(items: seq<Item>, topic: string)
    ensures var c := ClusterOf(items, topic);
      && (forall e :: e in c.experts <==> HasExpert(items, topic, e))
      && (forall i, j :: 0 <= i < j < |c.experts| ==> c.experts[i] != c.experts[j])
  {
    if items != [] {
      ClusterExperts(items[..|items| - 1], topic);
      forall e ensures e in ClusterOf(items, topic).experts <==> HasExpert(items, topic, e) {
        ExpertStep(items, topic, e);
      }
    }
  }

  /** Some item of the topic has the severity. */
  ghost predicate HasSeverity(items: seq<Item>, topic: string, severity: Severity) {
    exists k :: 0 <= k < |items| && items[k].topic == topic && items[k].severity == severity
  }

  /** A cluster blocks when one of its items does, else asks for a revision when one does, else is advisory. */
  lemma {:induction false} ClusterSeverity(items: seq<Item>, topic: string)
    ensures ClusterOf(items, topic).severity ==
      if HasSeverity(items, topic, BlockerLevel) then BlockerLevel
      else if HasSeverity(items, topic, ReviseLevel) then ReviseLevel
      else AdvisoryLevel
  {
    if items != [] {
      ClusterSeverity(items[..|items| - 1], topic);
      SeverityStep(items, topic, BlockerLevel);
      SeverityStep(items, topic, ReviseLevel);
    }
  }

  lemma SeverityStep(items: seq<Item>, topic: string, severity: Severity)
    requires items != []
    ensures var front, last := items[..|items| - 1], items[|items| - 1];
      HasSeverity(items, topic, severity) <==>
        HasSeverity(front, topic, severity) || (last.topic == topic && last.severity == severity)
  {
    var front, last := items[..|items| - 1], items[|items| - 1];
    if k :| 0 <= k < |front| && front[k].topic == topic && front[k].severity == severity {
      assert items[k] == front[k];
    }
    if k :| 0 <= k < |items| && items[k].topic == topic && items[k].severity == severity && k < |front| {
      assert front[k] == items[k];
    }
    assert items[|front|] == last;
  }

  /** The order of the report: blocking clusters first, then revisions, then advisories; equally severe ones by id. */
  lemma ReportOrder(clusters: seq<Cluster>, items: seq<Item>, i: nat, j: nat)
    requires ClustersOf(clusters, items) && i < j < |clusters|
    ensures clusters[j].severity == BlockerLevel ==> clusters[i].severity == BlockerLevel
    ensures clusters[j].severity == ReviseLevel ==> clusters[i].severity != AdvisoryLevel
    ensures clusters[i].severity == clusters[j].severity ==>
      Leq("cluster-" + clusters[i].topic, "cluster-" + clusters[j].topic)
  {
    assert Precedes(clusters[i], clusters[j]);
  }
}
