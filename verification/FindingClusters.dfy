/** Source items of expert responses and their clusters by topic. */
module FindingClusters {
  import opened Strings

  datatype Phase = Expert | Challenge | Review

  datatype Verdict = Proceed | Revise | Block

  datatype Kind = VerdictItem | Blocker | Advisory | Constraint | ChallengedRecommendation | Verification

  datatype Severity = AdvisoryLevel | ReviseLevel | BlockerLevel

  datatype Response = Response(phase: Phase, expert: string, verdict: Verdict, blockers: seq<string>,
                               advisory: seq<string>,
                               constraints: seq<string>, challenged: seq<string>, verification: seq<string>)

  datatype Raw = Raw(kind: Kind, text: string)

  datatype Item = Item(id: string, phase: Phase, expert: string, kind: Kind, text: string, topic: string,
                       severity: Severity)

  /** `classify_finding_topic`: keyword rules on the text. */
  type Classifier = (string, Kind) -> string

  function PhaseName(phase: Phase): string {
    match phase case Expert => "expert" case Challenge => "challenge" case Review => "review"
  }

  function KindName(kind: Kind): string {
    match kind
    case VerdictItem => "verdict" case Blocker => "blocker" case Advisory => "advisory" case Constraint => "constraint"
    case ChallengedRecommendation => "challenged_recommendation" case Verification => "verification"
  }

  function VerdictText(verdict: Verdict): string {
    match verdict case Proceed => "proceed" case Revise => "revise" case Block => "block"
  }

  function SeverityOf(kind: Kind, text: string): Severity {
    if kind.Blocker? || (kind.VerdictItem? && text == "block") then BlockerLevel
    else if kind.Advisory? then AdvisoryLevel
    else ReviseLevel
  }

  function Rank(s: Severity): nat {
    match s case AdvisoryLevel => 0 case ReviseLevel => 1 case BlockerLevel => 2
  }

  /** `f"{phase}-{expert}-{kind}-{n}"`. */
  function ItemId(phase: Phase, expert: string, kind: Kind, n: nat): string {
    PhaseName(phase) + "-" + (expert + "-" + KindName(kind)) + "-" + Numeral(n)
  }

  // ----- items of one response -----

  function Tag(kind: Kind, texts: seq<string>): seq<Raw> {
    seq(|texts|, i requires 0 <= i < |texts| => Raw(kind, texts[i]))
  }

  function VerdictRaw(verdict: Verdict): seq<Raw> {
    if verdict.Proceed? then [] else [Raw(VerdictItem, VerdictText(verdict))]
  }

  function RawItems(r: Response, includeAdvisory: bool): seq<Raw> {
    VerdictRaw(r.verdict)
    + Tag(Blocker, r.blockers)
    + Tag(Advisory, if includeAdvisory then r.advisory else [])
    + Tag(Constraint, r.constraints)
    + Tag(ChallengedRecommendation, r.challenged)
    + Tag(Verification, r.verification)
  }

  function CountKind(raw: seq<Raw>, kind: Kind): nat {
    if raw == [] then 0 else CountKind(raw[..|raw| - 1], kind) + if raw[|raw| - 1].kind == kind then 1 else 0
  }

  function NumberedItem(r: Response, x: Raw, number: nat, classify: Classifier): Item {
    Item(ItemId(r.phase, r.expert, x.kind, number), r.phase, r.expert, x.kind, x.text,
         classify(x.text, x.kind), SeverityOf(x.kind, x.text))
  }

  /** The k-th item: numbered among the items of its kind. */
  function ItemAt(r: Response, raw: seq<Raw>, k: nat, classify: Classifier): Item
    requires k < |raw|
  {
    NumberedItem(r, raw[k], CountKind(raw[..k + 1], raw[k].kind), classify)
  }

  ghost predicate ItemsOf(items: seq<Item>, r: Response, includeAdvisory: bool, classify: Classifier) {
    var raw := RawItems(r, includeAdvisory);
    |items| == |raw| && forall k :: 0 <= k < |raw| ==> items[k] == ItemAt(r, raw, k, classify)
  }

  ghost predicate Counted(counts: map<Kind, nat>, raw: seq<Raw>) {
    forall kind: Kind :: CountKind(raw, kind) == if kind in counts then counts[kind] else 0
  }

  lemma CountNext(counts: map<Kind, nat>, raw: seq<Raw>, k: nat)
    requires k < |raw| && Counted(counts, raw[..k])
    ensures var n := if raw[k].kind in counts then counts[raw[k].kind] else 0;
            CountKind(raw[..k + 1], raw[k].kind) == n + 1 && Counted(counts[raw[k].kind := n + 1], raw[..k + 1])
  {
    assert raw[..k + 1][..k] == raw[..k];
  }

  /** The first |items| raw items, numbered. */
  ghost predicate Numbered(items: seq<Item>, r: Response, raw: seq<Raw>, classify: Classifier) {
    |items| <= |raw| && forall k :: 0 <= k < |items| ==> items[k] == ItemAt(r, raw, k, classify)
  }

  lemma NumberedNext(items: seq<Item>, r: Response, raw: seq<Raw>, classify: Classifier, x: Item)
    requires Numbered(items, r, raw, classify) && |items| < |raw| && x == ItemAt(r, raw, |items|, classify)
    ensures Numbered(items + [x], r, raw, classify)
  {
  }

  /** Numbers the raw items, counting each kind separately. */
  method NumberItems(r: Response, raw: seq<Raw>, classify: Classifier) returns (items: seq<Item>)
    ensures |items| == |raw| && forall k :: 0 <= k < |raw| ==> items[k] == ItemAt(r, raw, k, classify)
  {
    var counts: map<Kind, nat> := map[];
    items := [];
    for k := 0 to |raw|
      invariant |items| == k && Numbered(items, r, raw, classify)
      invariant Counted(counts, raw[..k])
    {
      var x := raw[k];
      var number := (if x.kind in counts then counts[x.kind] else 0) + 1;
      CountNext(counts, raw, k);
      NumberedNext(items, r, raw, classify, NumberedItem(r, x, number, classify));
      counts := counts[x.kind := number];
      items := items + [NumberedItem(r, x, number, classify)];
    }
  }

  method SourceItemsForResponse(r: Response, includeAdvisory: bool, classify: Classifier) returns (items: seq<Item>)
    ensures ItemsOf(items, r, includeAdvisory, classify)
  {
    items := NumberItems(r, RawItems(r, includeAdvisory), classify);
  }

  // ----- ids are distinct -----

  /** Splitting at the last separator is unique when the part after it has none. */
  lemma JoinInjectiveRight(sep: char, a: string, x: string, b: string, y: string)
    requires Free(sep, x) && Free(sep, y) && a + [sep] + x == b + [sep] + y
    ensures a == b && x == y
  {
    var s, t := a + [sep] + x, b + [sep] + y;
    assert s[|a|] == sep && t[|b|] == sep;
    assert forall i :: |a| < i < |s| ==> s[i] == x[i - |a| - 1] && s[i] != sep;
    assert forall i :: |b| < i < |t| ==> t[i] == y[i - |b| - 1] && t[i] != sep;
    assert |a| == |b|;
    assert a == s[..|a|] && b == t[..|b|];
    assert x == s[|a| + 1..] && y == t[|b| + 1..];
  }

  /** An id determines its phase, expert, kind and number, whatever characters the expert's name has. */
  lemma ItemIdInjective(p: Phase, e: string, k: Kind, n: nat, p': Phase, e': string, k': Kind, n': nat)
    requires ItemId(p, e, k, n) == ItemId(p', e', k', n')
    ensures p == p' && e == e' && k == k' && n == n'
  {
    var left, left' := PhaseName(p) + "-" + (e + "-" + KindName(k)), PhaseName(p') + "-" + (e' + "-" + KindName(k'));
    assert ItemId(p, e, k, n) == left + ['-'] + Numeral(n) && ItemId(p', e', k', n') == left' + ['-'] + Numeral(n');
    JoinInjectiveRight('-', left, Numeral(n), left', Numeral(n'));
    NumeralInjective(n, n');
    JoinInjective('-', PhaseName(p), e + "-" + KindName(k), PhaseName(p'), e' + "-" + KindName(k'));
    PhaseNameInjective(p, p');
    JoinInjectiveRight('-', e, KindName(k), e', KindName(k'));
    KindNameInjective(k, k');
  }

  lemma PhaseNameInjective(p: Phase, p': Phase)
    ensures PhaseName(p) == PhaseName(p') ==> p == p'
  {
    assert PhaseName(p)[0] == PhaseName(p')[0] ==> p == p';
  }

  lemma KindNameInjective(k: Kind, k': Kind)
    ensures KindName(k) == KindName(k') ==> k == k'
  {
    assert KindName(k)[..4] == KindName(k')[..4] ==> k == k' by {
      assert KindName(VerdictItem)[3] == 'd' && KindName(Verification)[3] == 'i';
      assert KindName(Constraint)[1] == 'o' && KindName(ChallengedRecommendation)[1] == 'h';
      assert KindName(k)[0] == KindName(k)[..4][0] && KindName(k')[0] == KindName(k')[..4][0];
      assert KindName(k)[1] == KindName(k)[..4][1] && KindName(k')[1] == KindName(k')[..4][1];
      assert KindName(k)[3] == KindName(k)[..4][3] && KindName(k')[3] == KindName(k')[..4][3];
    }
  }

  lemma {:induction false} CountsGrow(raw: seq<Raw>, i: nat, j: nat)
    requires i < j < |raw| && raw[i].kind == raw[j].kind
    ensures CountKind(raw[..i + 1], raw[i].kind) < CountKind(raw[..j + 1], raw[j].kind)
    decreases j
  {
    var kind := raw[i].kind;
    assert raw[..j + 1][..j] == raw[..j];
    CountsMonotone(raw, i + 1, j, kind);
  }

  lemma {:induction false} CountsMonotone(raw: seq<Raw>, a: nat, b: nat, kind: Kind)
    requires a <= b <= |raw|
    ensures CountKind(raw[..a], kind) <= CountKind(raw[..b], kind)
    decreases b - a
  {
    if a < b {
      assert raw[..b][..b - 1] == raw[..b - 1];
      CountsMonotone(raw, a, b - 1, kind);
    }
  }

  ghost predicate DistinctIds(items: seq<Item>) {
    forall i, j :: 0 <= i < j < |items| ==> items[i].id != items[j].id
  }

  lemma ResponseIdsDistinct(items: seq<Item>, r: Response, includeAdvisory: bool, classify: Classifier)
    requires ItemsOf(items, r, includeAdvisory, classify)
    ensures DistinctIds(items)
  {
    var raw := RawItems(r, includeAdvisory);
    forall i, j | 0 <= i < j < |items| ensures items[i].id != items[j].id {
      if raw[i].kind == raw[j].kind {
        CountsGrow(raw, i, j);
      }
      if items[i].id == items[j].id {
        ItemIdInjective(r.phase, r.expert, raw[i].kind, CountKind(raw[..i + 1], raw[i].kind),
                        r.phase, r.expert, raw[j].kind, CountKind(raw[..j + 1], raw[j].kind));
      }
    }
  }

  lemma OtherResponseIds(x: Item, y: Item, i: nat, j: nat, a: seq<Item>, b: seq<Item>, r: Response, r': Response,
                         includeAdvisory: bool, classify: Classifier)
    requires ItemsOf(a, r, includeAdvisory, classify) && ItemsOf(b, r', includeAdvisory, classify)
    requires i < |a| && j < |b| && x == a[i] && y == b[j]
    requires (r.phase, r.expert) != (r'.phase, r'.expert)
    ensures x.id != y.id
  {
    if x.id == y.id {
      var raw, raw' := RawItems(r, includeAdvisory), RawItems(r', includeAdvisory);
      ItemIdInjective(r.phase, r.expert, raw[i].kind, CountKind(raw[..i + 1], raw[i].kind),
                      r'.phase, r'.expert, raw'[j].kind, CountKind(raw'[..j + 1], raw'[j].kind));
    }
  }

  function ItemsFor(r: Response, includeAdvisory: bool, classify: Classifier): seq<Item> {
    var raw := RawItems(r, includeAdvisory);
    seq(|raw|, k requires 0 <= k < |raw| => ItemAt(r, raw, k, classify))
  }

  function AllItems(responses: seq<Response>, includeAdvisory: bool, classify: Classifier): seq<Item> {
    if responses == [] then []
    else AllItems(responses[..|responses| - 1], includeAdvisory, classify)
         + ItemsFor(responses[|responses| - 1], includeAdvisory, classify)
  }

  /** `response_source_items`: the items of all responses, in order. */
  method ResponseSourceItems(responses: seq<Response>, includeAdvisory: bool, classify: Classifier)
    returns (items: seq<Item>)
    ensures items == AllItems(responses, includeAdvisory, classify)
  {
    items := [];
    for k := 0 to |responses|
      invariant items == AllItems(responses[..k], includeAdvisory, classify)
    {
      var more := SourceItemsForResponse(responses[k], includeAdvisory, classify);
      assert more == ItemsFor(responses[k], includeAdvisory, classify);
      assert responses[..k + 1][..k] == responses[..k];
      items := items + more;
    }
    assert responses[..|responses|] == responses;
  }

  ghost predicate DistinctAuthors(responses: seq<Response>) {
    forall i, j :: 0 <= i < j < |responses| ==>
      (responses[i].phase, responses[i].expert) != (responses[j].phase, responses[j].expert)
  }

  /** Every item comes from one of the responses. */
  lemma {:induction false} ItemHasResponse(responses: seq<Response>, includeAdvisory: bool, classify: Classifier,
                                           i: nat) returns (k: nat, p: nat)
    requires i < |AllItems(responses, includeAdvisory, classify)|
    ensures k < |responses| && p < |ItemsFor(responses[k], includeAdvisory, classify)|
    ensures AllItems(responses, includeAdvisory, classify)[i] == ItemsFor(responses[k], includeAdvisory, classify)[p]
  {
    var last := |responses| - 1;
    var front := AllItems(responses[..last], includeAdvisory, classify);
    if i < |front| {
      k, p := ItemHasResponse(responses[..last], includeAdvisory, classify, i);
    } else {
      k, p := last, i - |front|;
    }
  }

  lemma DistinctAppend(a: seq<Item>, b: seq<Item>)
    requires DistinctIds(a) && DistinctIds(b)
    requires forall i, j :: 0 <= i < |a| && 0 <= j < |b| ==> a[i].id != b[j].id
    ensures DistinctIds(a + b)
  {
  }

  /** When no expert answers a phase twice, no two items of the whole report share an id. */
  lemma {:induction false} AllIdsDistinct(responses: seq<Response>, includeAdvisory: bool, classify: Classifier)
    requires DistinctAuthors(responses)
    ensures DistinctIds(AllItems(responses, includeAdvisory, classify))
  {
    if responses != [] {
      var last := |responses| - 1;
      var r := responses[last];
      var front, more := AllItems(responses[..last], includeAdvisory, classify), ItemsFor(r, includeAdvisory, classify);
      AllIdsDistinct(responses[..last], includeAdvisory, classify);
      ResponseIdsDistinct(more, r, includeAdvisory, classify);
      forall i, j | 0 <= i < |front| && 0 <= j < |more| ensures front[i].id != more[j].id {
        var k, p := ItemHasResponse(responses[..last], includeAdvisory, classify, i);
        OtherResponseIds(front[i], more[j], p, j, ItemsFor(responses[k], includeAdvisory, classify), more,
                         responses[k], r, includeAdvisory, classify);
      }
      DistinctAppend(front, more);
    }
  }

  // ----- clusters -----

  datatype Cluster = Cluster(topic: string, severity: Severity, itemIds: seq<string>, itemCount: nat,
                             experts: seq<string>)

  function ClusterId(topic: string): string {
    "cluster-" + topic
  }

  function AppendUnique(s: seq<string>, x: string): seq<string> {
    if x in s then s else s + [x]
  }

  function AddItem(c: Cluster, x: Item): Cluster {
    Cluster(c.topic, if Rank(x.severity) > Rank(c.severity) then x.severity else c.severity,
            c.itemIds + [x.id], c.itemCount + 1, AppendUnique(c.experts, x.expert))
  }

  /** The cluster the loop has built for a topic from the given items. */
  function ClusterOf(items: seq<Item>, topic: string): Cluster {
    if items == [] then Cluster(topic, AdvisoryLevel, [], 0, [])
    else
      var before, last := ClusterOf(items[..|items| - 1], topic), items[|items| - 1];
      if last.topic == topic then AddItem(before, last) else before
  }

  function Topics(items: seq<Item>): set<string> {
    set k | 0 <= k < |items| :: items[k].topic
  }

  /** Reports order clusters by falling severity, then by id. */
  predicate Precedes(a: Cluster, b: Cluster) {
    Rank(a.severity) > Rank(b.severity)
      || (Rank(a.severity) == Rank(b.severity) && Leq(ClusterId(a.topic), ClusterId(b.topic)))
  }

  ghost predicate InOrder(clusters: seq<Cluster>) {
    forall i, j :: 0 <= i < j < |clusters| ==> Precedes(clusters[i], clusters[j])
  }

  lemma PrecedesTransitive(a: Cluster, b: Cluster, c: Cluster)
    requires Precedes(a, b) && Precedes(b, c)
    ensures Precedes(a, c)
  {
    if Leq(ClusterId(a.topic), ClusterId(b.topic)) && Leq(ClusterId(b.topic), ClusterId(c.topic)) {
      LeqTransitive(ClusterId(a.topic), ClusterId(b.topic), ClusterId(c.topic));
    }
  }

  function InsertCluster(c: Cluster, s: seq<Cluster>): (r: seq<Cluster>)
    ensures multiset(r) == multiset(s) + multiset{c}
  {
    if s == [] || Precedes(c, s[0]) then [c] + s
    else
      assert s == [s[0]] + s[1..];
      [s[0]] + InsertCluster(c, s[1..])
  }

  lemma {:induction false} InsertInOrder(c: Cluster, s: seq<Cluster>)
    requires InOrder(s)
    ensures InOrder(InsertCluster(c, s))
  {
    if s == [] {
    } else if Precedes(c, s[0]) {
      forall j | 0 <= j < |s| ensures Precedes(c, s[j]) {
        if j > 0 { PrecedesTransitive(c, s[0], s[j]); }
      }
    } else {
      LessTotal(ClusterId(c.topic), ClusterId(s[0].topic));
      InsertInOrder(c, s[1..]);
      var r := InsertCluster(c, s[1..]);
      forall x | x in r ensures Precedes(s[0], x) {
        assert x in multiset(r);
        assert x == c || x in s[1..];
      }
    }
  }

  ghost predicate DistinctTopics(clusters: seq<Cluster>) {
    forall i, j :: 0 <= i < j < |clusters| ==> clusters[i].topic != clusters[j].topic
  }

  /** One finished cluster per topic, in report order. */
  ghost predicate ClustersOf(clusters: seq<Cluster>, items: seq<Item>) {
    && (forall c :: c in clusters ==> c.topic in Topics(items) && c == ClusterOf(items, c.topic))
    && (forall t :: t in Topics(items) ==> ClusterOf(items, t) in clusters)
    && DistinctTopics(clusters)
    && InOrder(clusters)
  }

  lemma {:induction false} ClusterTopic(items: seq<Item>, topic: string)
    ensures ClusterOf(items, topic).topic == topic
  {
    if items != [] {
      ClusterTopic(items[..|items| - 1], topic);
    }
  }

  method BuildClusters(items: seq<Item>) returns (byTopic: map<string, Cluster>)
    ensures byTopic.Keys == Topics(items)
    ensures forall t :: t in byTopic ==> byTopic[t] == ClusterOf(items, t)
  {
    byTopic := map[];
    for k := 0 to |items|
      invariant forall t :: t in byTopic <==> exists j :: 0 <= j < k && items[j].topic == t
      invariant forall t ::
        (if t in byTopic then byTopic[t] else Cluster(t, AdvisoryLevel, [], 0, [])) == ClusterOf(items[..k], t)
    {
      var x := items[k];
      assert items[..k + 1][..k] == items[..k];
      var cluster := if x.topic in byTopic then byTopic[x.topic] else Cluster(x.topic, AdvisoryLevel, [], 0, []);
      byTopic := byTopic[x.topic := AddItem(cluster, x)];
    }
    assert items[..|items|] == items;
  }

  method FindingClustersFromSourceItems(items: seq<Item>) returns (clusters: seq<Cluster>)
    ensures ClustersOf(clusters, items)
  {
    var byTopic := BuildClusters(items);
    var rest := byTopic.Keys;
    clusters := [];
    while rest != {}
      invariant rest <= byTopic.Keys
      invariant InOrder(clusters) && DistinctTopics(clusters)
      invariant forall c :: c in clusters ==> c.topic in byTopic.Keys - rest && c == byTopic[c.topic]
      invariant forall t :: t in byTopic.Keys - rest ==> byTopic[t] in clusters
      decreases rest
    {
      var topic :| topic in rest;
      ClusterTopic(items, topic);
      InsertInOrder(byTopic[topic], clusters);
      InsertKeeps(byTopic[topic], clusters);
      clusters, rest := InsertCluster(byTopic[topic], clusters), rest - {topic};
    }
  }

  lemma InsertMembers(c: Cluster, s: seq<Cluster>)
    ensures forall x :: x in InsertCluster(c, s) <==> x == c || x in s
  {
    forall x ensures x in InsertCluster(c, s) <==> x == c || x in s {
      assert x in InsertCluster(c, s) <==> x in multiset(InsertCluster(c, s));
      assert x in s <==> x in multiset(s);
    }
  }

  lemma DistinctCons(x: Cluster, s: seq<Cluster>)
    requires DistinctTopics(s) && forall y :: y in s ==> y.topic != x.topic
    ensures DistinctTopics([x] + s)
  {
  }

  lemma {:induction false} InsertKeeps(c: Cluster, s: seq<Cluster>)
    requires DistinctTopics(s) && forall x :: x in s ==> x.topic != c.topic
    ensures DistinctTopics(InsertCluster(c, s))
    ensures forall x :: x in InsertCluster(c, s) <==> x == c || x in s
  {
    InsertMembers(c, s);
    if s == [] || Precedes(c, s[0]) {
      DistinctCons(c, s);
    } else {
      InsertKeeps(c, s[1..]);
      DistinctCons(s[0], InsertCluster(c, s[1..]));
    }
  }

  // ----- the clusters partition the items -----

  /** A cluster lists exactly its topic's items, counts them, and has the greatest of their severities. */
  lemma {:induction false} ClusterFaithful(items: seq<Item>, topic: string)
    ensures var c := ClusterOf(items, topic);
      && c.itemCount == |c.itemIds| == CountTopic(items, topic)
      && (forall k :: 0 <= k < |items| && items[k].topic == topic ==>
         items[k].id in c.itemIds && Rank(items[k].severity) <= Rank(c.severity))
      && (forall id :: id in c.itemIds ==> exists k :: 0 <= k < |items| && items[k].topic == topic && items[k].id == id)
      && (c.severity == AdvisoryLevel
          || exists k :: 0 <= k < |items| && items[k].topic == topic && items[k].severity == c.severity)
  {
    if items != [] {
      var front := items[..|items| - 1];
      ClusterFaithful(front, topic);
      assert forall k :: 0 <= k < |front| ==> front[k] == items[k];
      assert items[|items| - 1] == items[|front|];
    }
  }

  function CountTopic(items: seq<Item>, topic: string): nat {
    if items == [] then 0
    else CountTopic(items[..|items| - 1], topic) + if items[|items| - 1].topic == topic then 1 else 0
  }

  function TotalCount(clusters: seq<Cluster>): nat {
    if clusters == [] then 0 else TotalCount(clusters[..|clusters| - 1]) + clusters[|clusters| - 1].itemCount
  }

  function SumTopics(items: seq<Item>, topics: seq<string>): nat {
    if topics == [] then 0 else SumTopics(items, topics[..|topics| - 1]) + CountTopic(items, topics[|topics| - 1])
  }

  /** Adding an item raises the total over a list of distinct topics by one exactly when its topic is listed. */
  lemma {:induction false} SumTopicsStep(items: seq<Item>, x: Item, topics: seq<string>)
    requires forall i, j :: 0 <= i < j < |topics| ==> topics[i] != topics[j]
    ensures SumTopics(items + [x], topics) == SumTopics(items, topics) + if x.topic in topics then 1 else 0
  {
    if topics != [] {
      var front, last := topics[..|topics| - 1], topics[|topics| - 1];
      SumTopicsStep(items, x, front);
      assert (items + [x])[..|items|] == items;
      assert topics == front + [last];
      assert last !in front;
    }
  }

  lemma {:induction false} SumTopicsTotal(items: seq<Item>, topics: seq<string>)
    requires forall i, j :: 0 <= i < j < |topics| ==> topics[i] != topics[j]
    requires forall k :: 0 <= k < |items| ==> items[k].topic in topics
    ensures SumTopics(items, topics) == |items|
  {
    if items == [] {
      SumTopicsEmpty(topics);
    } else {
      var front, last := items[..|items| - 1], items[|items| - 1];
      SumTopicsTotal(front, topics);
      SumTopicsStep(front, last, topics);
      assert items == front + [last];
    }
  }

  lemma {:induction false} SumTopicsEmpty(topics: seq<string>)
    ensures SumTopics([], topics) == 0
  {
    if topics != [] {
      SumTopicsEmpty(topics[..|topics| - 1]);
    }
  }

  lemma {:induction false} TotalIsSum(clusters: seq<Cluster>, items: seq<Item>, topics: seq<string>)
    requires |topics| == |clusters| && forall k :: 0 <= k < |clusters| ==>
      topics[k] == clusters[k].topic && clusters[k] == ClusterOf(items, topics[k])
    ensures TotalCount(clusters) == SumTopics(items, topics)
  {
    if clusters != [] {
      TotalIsSum(clusters[..|clusters| - 1], items, topics[..|topics| - 1]);
      ClusterFaithful(items, topics[|topics| - 1]);
    }
  }

  ghost predicate InExactlyOne(id: string, clusters: seq<Cluster>) {
    exists c :: 0 <= c < |clusters| && OnlyIn(id, clusters, c)
  }

  ghost predicate OnlyIn(id: string, clusters: seq<Cluster>, c: int)
    requires 0 <= c < |clusters|
  {
    forall d :: 0 <= d < |clusters| ==> (id in clusters[d].itemIds <==> d == c)
  }

  lemma ItemInExactlyOne(clusters: seq<Cluster>, items: seq<Item>, k: nat)
    requires ClustersOf(clusters, items) && DistinctIds(items) && k < |items|
    ensures InExactlyOne(items[k].id, clusters)
    ensures exists c :: 0 <= c < |clusters| && clusters[c].topic == items[k].topic
  {
    var t := items[k].topic;
    assert ClusterOf(items, t) in clusters;
    var c :| 0 <= c < |clusters| && clusters[c] == ClusterOf(items, t);
    ClusterTopic(items, t);
    ClusterFaithful(items, t);
    forall d | 0 <= d < |clusters| && items[k].id in clusters[d].itemIds ensures d == c {
      assert clusters[d] in clusters;
      ClusterFaithful(items, clusters[d].topic);
      var j :| 0 <= j < |items| && items[j].topic == clusters[d].topic && items[j].id == items[k].id;
    }
    assert OnlyIn(items[k].id, clusters, c);
  }

  function TopicList(clusters: seq<Cluster>): seq<string> {
    seq(|clusters|, i requires 0 <= i < |clusters| => clusters[i].topic)
  }

  lemma ClusterAt(clusters: seq<Cluster>, items: seq<Item>, k: nat)
    requires ClustersOf(clusters, items) && k < |clusters|
    ensures clusters[k] == ClusterOf(items, clusters[k].topic)
  {
    assert clusters[k] in clusters;
  }

  lemma CountsAddUp(clusters: seq<Cluster>, items: seq<Item>)
    requires ClustersOf(clusters, items)
    requires forall k :: 0 <= k < |items| ==> items[k].topic in TopicList(clusters)
    ensures TotalCount(clusters) == |items|
  {
    forall k | 0 <= k < |clusters| ensures clusters[k] == ClusterOf(items, TopicList(clusters)[k]) {
      ClusterAt(clusters, items, k);
    }
    TotalIsSum(clusters, items, TopicList(clusters));
    SumTopicsTotal(items, TopicList(clusters));
  }

  /** Clustering loses and repeats nothing: each item lies in exactly one cluster, the counts add up to the number of
      items, and the report is ordered by severity and id. */
  lemma ClustersPartition(clusters: seq<Cluster>, items: seq<Item>)
    requires ClustersOf(clusters, items) && DistinctIds(items)
    ensures TotalCount(clusters) == |items|
    ensures forall k :: 0 <= k < |items| ==> InExactlyOne(items[k].id, clusters)
    ensures InOrder(clusters)
  {
    forall k | 0 <= k < |items| ensures items[k].topic in TopicList(clusters) && InExactlyOne(items[k].id, clusters) {
      ItemInExactlyOne(clusters, items, k);
      var c :| 0 <= c < |clusters| && clusters[c].topic == items[k].topic;
      assert TopicList(clusters)[c] == items[k].topic;
    }
    CountsAddUp(clusters, items);
  }

  // ----- every response field is carried over -----

  function VerdictTextsOf(verdict: Verdict): seq<string> {
    if verdict.Proceed? then [] else [VerdictText(verdict)]
  }

  /** The response field an item kind is drawn from. */
  function FieldTexts(r: Response, includeAdvisory: bool, kind: Kind): seq<string> {
    match kind
    case VerdictItem => VerdictTextsOf(r.verdict)
    case Blocker => r.blockers
    case Advisory => if includeAdvisory then r.advisory else []
    case Constraint => r.constraints
    case ChallengedRecommendation => r.challenged
    case Verification => r.verification
  }

  function TextsOfKind(raw: seq<Raw>, kind: Kind): seq<string> {
    if raw == [] then []
    else
      var front, last := TextsOfKind(raw[..|raw| - 1], kind), raw[|raw| - 1];
      if last.kind == kind then front + [last.text] else front
  }

  lemma {:induction false} TextsOfKindAppend(a: seq<Raw>, b: seq<Raw>, kind: Kind)
    ensures TextsOfKind(a + b, kind) == TextsOfKind(a, kind) + TextsOfKind(b, kind)
  {
    if b == [] {
      assert a + b == a;
    } else {
      TextsOfKindAppend(a, b[..|b| - 1], kind);
      assert (a + b)[..|a + b| - 1] == a + b[..|b| - 1];
    }
  }

  lemma {:induction false} TagTexts(tag: Kind, texts: seq<string>, kind: Kind)
    ensures TextsOfKind(Tag(tag, texts), kind) == if tag == kind then texts else []
  {
    if texts != [] {
      TagTexts(tag, texts[..|texts| - 1], kind);
      assert Tag(tag, texts)[..|texts| - 1] == Tag(tag, texts[..|texts| - 1]);
      assert texts == texts[..|texts| - 1] + [texts[|texts| - 1]];
    }
  }

  lemma TextsOfSix(a: seq<Raw>, b: seq<Raw>, c: seq<Raw>, d: seq<Raw>, e: seq<Raw>, f: seq<Raw>, kind: Kind)
    ensures TextsOfKind(a + b + c + d + e + f, kind) ==
      TextsOfKind(a, kind) + TextsOfKind(b, kind) + TextsOfKind(c, kind) + TextsOfKind(d, kind)
      + TextsOfKind(e, kind) + TextsOfKind(f, kind)
  {
    TextsOfKindAppend(a + b + c + d + e, f, kind);
    TextsOfKindAppend(a + b + c + d, e, kind);
    TextsOfKindAppend(a + b + c, d, kind);
    TextsOfKindAppend(a + b, c, kind);
    TextsOfKindAppend(a, b, kind);
  }

  lemma VerdictTexts(verdict: Verdict, kind: Kind)
    ensures TextsOfKind(VerdictRaw(verdict), kind) == Own(VerdictItem, VerdictTextsOf(verdict), kind)
  {
    if !verdict.Proceed? {
      assert TextsOfKind([], kind) == [];
      assert VerdictRaw(verdict)[..0] == [];
    }
  }

  /** The texts of one kind among six tagged parts: only the part with that tag contributes. */
  lemma TaggedTexts(a: seq<Raw>, b: seq<string>, c: seq<string>, d: seq<string>, e: seq<string>, f: seq<string>,
                    kind: Kind)
    ensures TextsOfKind(a + Tag(Blocker, b) + Tag(Advisory, c) + Tag(Constraint, d) + Tag(ChallengedRecommendation, e)
                        + Tag(Verification, f), kind)
            == TextsOfKind(a, kind) + Own(Blocker, b, kind) + Own(Advisory, c, kind) + Own(Constraint, d, kind)
               + Own(ChallengedRecommendation, e, kind) + Own(Verification, f, kind)
  {
    TextsOfSix(a, Tag(Blocker, b), Tag(Advisory, c), Tag(Constraint, d), Tag(ChallengedRecommendation, e),
               Tag(Verification, f), kind);
    TagTexts(Blocker, b, kind);
    TagTexts(Advisory, c, kind);
    TagTexts(Constraint, d, kind);
    TagTexts(ChallengedRecommendation, e, kind);
    TagTexts(Verification, f, kind);
  }

  function Own(tag: Kind, texts: seq<string>, kind: Kind): seq<string> {
    if tag == kind then texts else []
  }

  lemma OwnSum(a: seq<string>, b: seq<string>, c: seq<string>, d: seq<string>, e: seq<string>, f: seq<string>,
               kind: Kind)
    ensures Own(VerdictItem, a, kind) + Own(Blocker, b, kind) + Own(Advisory, c, kind) + Own(Constraint, d, kind)
            + Own(ChallengedRecommendation, e, kind) + Own(Verification, f, kind)
            == match kind case VerdictItem => a case Blocker => b case Advisory => c case Constraint => d
                          case ChallengedRecommendation => e case Verification => f
  {
    match kind
    case VerdictItem =>
    case Blocker =>
    case Advisory =>
    case Constraint =>
    case ChallengedRecommendation =>
    case Verification =>
  }

  /** The raw items of each kind are exactly its field, in order. */
  lemma RawItemsComplete(r: Response, includeAdvisory: bool, kind: Kind)
    ensures TextsOfKind(RawItems(r, includeAdvisory), kind) == FieldTexts(r, includeAdvisory, kind)
  {
    var advisory := if includeAdvisory then r.advisory else [];
    TaggedTexts(VerdictRaw(r.verdict), r.blockers, advisory, r.constraints, r.challenged, r.verification, kind);
    VerdictTexts(r.verdict, kind);
    OwnSum(VerdictTextsOf(r.verdict), r.blockers, advisory, r.constraints, r.challenged, r.verification, kind);
  }

  lemma {:induction false} NumberedText(raw: seq<Raw>, k: nat)
    requires k < |raw|
    ensures var n := CountKind(raw[..k + 1], raw[k].kind);
            1 <= n <= |TextsOfKind(raw, raw[k].kind)| && raw[k].text == TextsOfKind(raw, raw[k].kind)[n - 1]
  {
    var kind, last := raw[k].kind, |raw| - 1;
    CountIsLength(raw[..k + 1], kind);
    if k == last {
      assert raw[..k + 1] == raw;
    } else {
      NumberedText(raw[..last], k);
      assert raw[..last][..k + 1] == raw[..k + 1];
    }
  }

  lemma {:induction false} CountIsLength(raw: seq<Raw>, kind: Kind)
    ensures CountKind(raw, kind) == |TextsOfKind(raw, kind)|
  {
    if raw != [] {
      CountIsLength(raw[..|raw| - 1], kind);
    }
  }

  /** The item numbered n of a kind carries the n-th text of its field, and as many items exist as the field has
      texts. */
  lemma ItemsCarryFields(items: seq<Item>, r: Response, includeAdvisory: bool, classify: Classifier, k: nat)
    requires ItemsOf(items, r, includeAdvisory, classify) && k < |items|
    ensures var field := FieldTexts(r, includeAdvisory, items[k].kind);
            exists n: nat :: 1 <= n <= |field| && items[k].id == ItemId(r.phase, r.expert, items[k].kind, n)
              && items[k].text == field[n - 1]
    ensures forall kind :: CountKind(RawItems(r, includeAdvisory), kind) == |FieldTexts(r, includeAdvisory, kind)|
  {
    var raw := RawItems(r, includeAdvisory);
    NumberedText(raw, k);
    RawItemsComplete(r, includeAdvisory, raw[k].kind);
    forall kind ensures CountKind(raw, kind) == |FieldTexts(r, includeAdvisory, kind)| {
      CountIsLength(raw, kind);
      RawItemsComplete(r, includeAdvisory, kind);
    }
  }

  /** A cluster is reported as a blocker exactly when it holds a blocker finding or a blocking verdict. */
  lemma BlockerClusterIff(items: seq<Item>, topic: string)
    requires forall x :: x in items ==> x.severity == SeverityOf(x.kind, x.text)
    ensures ClusterOf(items, topic).severity.BlockerLevel? <==>
      exists k :: 0 <= k < |items| && items[k].topic == topic
        && (items[k].kind.Blocker? || (items[k].kind.VerdictItem? && items[k].text == "block"))
  {
    ClusterFaithful(items, topic);
    var c := ClusterOf(items, topic);
    if c.severity.BlockerLevel? {
      var k :| 0 <= k < |items| && items[k].topic == topic && items[k].severity == c.severity;
      assert items[k] in items;
    }
    if k :|
         0 <= k < |items| && items[k].topic == topic
         && (items[k].kind.Blocker? || (items[k].kind.VerdictItem? && items[k].text == "block")) {
      assert items[k] in items;
    }
  }
}
