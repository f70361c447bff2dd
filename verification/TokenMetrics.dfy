/** Token usage of a run, in total and by provider. */
module TokenMetrics {
  import opened Options

  /** A usage record. Reported fields that are missing, not an integer or a boolean are `None`. */
  datatype Usage = Usage(input: Option<int>, output: Option<int>, total: Option<int>)

  datatype Field = Input | Output | Total

  /** A model event: its provider, and its usage when that is a dictionary. */
  datatype Event = Event(provider: string, usage: Option<Usage>)

  function Get(u: Usage, f: Field): Option<int> {
    match f case Input => u.input case Output => u.output case Total => u.total
  }

  const ZERO := Usage(Some(0), Some(0), Some(0))
  const UNKNOWN := Usage(None, None, None)

  function SumOptional(left: Option<int>, right: Option<int>): Option<int> {
    match right
    case None => left
    case Some(n) => Some((if left.Some? then left.value else 0) + n)
  }

  function AddTokenUsage(existing: Option<Usage>, item: Option<Usage>): Usage {
    var current := if existing.Some? then existing.value else ZERO;
    match item
    case None => current
    case Some(u) => Usage(SumOptional(current.input, u.input), SumOptional(current.output, u.output),
                          SumOptional(current.total, u.total))
  }

  predicate Reports(u: Option<Usage>) {
    u.Some? && (u.value.input.Some? || u.value.output.Some? || u.value.total.Some?)
  }

  // ----- what the numbers mean -----

  function Reported(e: Event, f: Field): int {
    if e.usage.Some? && Get(e.usage.value, f).Some? then Get(e.usage.value, f).value else 0
  }

  /** The reported tokens of one provider's events. */
  function SumOf(events: seq<Event>, provider: string, f: Field): int {
    if events == [] then 0
    else
      var last := events[|events| - 1];
      SumOf(events[..|events| - 1], provider, f) + if last.provider == provider then Reported(last, f) else 0
  }

  function SumAll(events: seq<Event>, f: Field): int {
    if events == [] then 0 else SumAll(events[..|events| - 1], f) + Reported(events[|events| - 1], f)
  }

  ghost predicate Holds(u: Usage, value: Field -> int) {
    forall f :: Get(u, f) == Some(value(f))
  }

  lemma AddHolds(existing: Option<Usage>, e: Event, value: Field -> int, value': Field -> int)
    requires existing.Some? ==> Holds(existing.value, value)
    requires existing.None? ==> forall f :: value(f) == 0
    requires forall f :: value'(f) == value(f) + Reported(e, f)
    ensures Holds(AddTokenUsage(existing, e.usage), value')
  {
    forall f ensures Get(AddTokenUsage(existing, e.usage), f) == Some(value'(f)) {
      if existing.Some? {
        assert Get(existing.value, f) == Some(value(f));
      }
    }
  }

  lemma SumStep(events: seq<Event>, k: nat, f: Field)
    requires k < |events|
    ensures SumAll(events[..k + 1], f) == SumAll(events[..k], f) + Reported(events[k], f)
    ensures forall p ::
              SumOf(events[..k + 1], p, f) == SumOf(events[..k], p, f) +
                if events[k].provider == p then Reported(events[k], f) else 0
  {
    assert events[..k + 1][..k] == events[..k];
  }

  /** The run's total: every field is the sum of what was reported, or everything is unknown when nothing was. */
  method SumTokenUsage(events: seq<Event>) returns (r: Usage)
    ensures (exists k :: 0 <= k < |events| && Reports(events[k].usage)) ==> Holds(r, f => SumAll(events, f))
    ensures (forall k :: 0 <= k < |events| ==> !Reports(events[k].usage)) ==> r == UNKNOWN
  {
    var total, sawAny := ZERO, false;
    for k := 0 to |events|
      invariant Holds(total, f => SumAll(events[..k], f))
      invariant sawAny <==> exists j :: 0 <= j < k && Reports(events[j].usage)
    {
      forall f ensures SumAll(events[..k + 1], f) == SumAll(events[..k], f) + Reported(events[k], f) {
        SumStep(events, k, f);
      }
      AddHolds(Some(total), events[k], f => SumAll(events[..k], f), f => SumAll(events[..k + 1], f));
      total := AddTokenUsage(Some(total), events[k].usage);
      sawAny := sawAny || Reports(events[k].usage);
    }
    assert events[..|events|] == events;
    r := if sawAny then total else UNKNOWN;
  }

  /** One record for each provider that had an event, holding the sums of its events. */
  ghost predicate ByProvider(usage: map<string, Usage>, events: seq<Event>) {
    && (forall p :: p in usage <==> exists k :: 0 <= k < |events| && events[k].provider == p)
    && forall p :: p in usage ==> Holds(usage[p], f => SumOf(events, p, f))
  }

  lemma {:induction false} AbsentIsZero(events: seq<Event>, p: string, f: Field)
    requires forall k :: 0 <= k < |events| ==> events[k].provider != p
    ensures SumOf(events, p, f) == 0
  {
    if events != [] {
      AbsentIsZero(events[..|events| - 1], p, f);
    }
  }

  lemma ByProviderStep(usage: map<string, Usage>, events: seq<Event>, k: nat)
    requires k < |events| && ByProvider(usage, events[..k])
    ensures var e := events[k];
            ByProvider(usage[e.provider := AddTokenUsage(if e.provider in usage then Some(usage[e.provider]) else None,
                                                         e.usage)], events[..k + 1])
  {
    var e, before, after := events[k], events[..k], events[..k + 1];
    var existing := if e.provider in usage then Some(usage[e.provider]) else None;
    assert after == before + [e];
    forall f
      ensures forall p :: SumOf(after, p, f) == SumOf(before, p, f) + if e.provider == p then Reported(e, f) else 0
    {
      SumStep(events, k, f);
    }
    if existing.None? {
      assert forall j :: 0 <= j < k ==> before[j].provider != e.provider;
      forall f ensures SumOf(before, e.provider, f) == 0 {
        AbsentIsZero(before, e.provider, f);
      }
    }
    AddHolds(existing, e, f => SumOf(before, e.provider, f), f => SumOf(after, e.provider, f));
    forall p ensures p == e.provider || p in usage <==> exists j :: 0 <= j < |after| && after[j].provider == p {
      assert after[k].provider == e.provider;
      assert forall j :: 0 <= j < k ==> after[j] == before[j];
    }
  }

  method ProviderUsage(events: seq<Event>) returns (usage: map<string, Usage>)
    ensures ByProvider(usage, events)
  {
    usage := map[];
    for k := 0 to |events|
      invariant ByProvider(usage, events[..k])
    {
      ByProviderStep(usage, events, k);
      var provider := events[k].provider;
      usage := usage[provider := AddTokenUsage(if provider in usage then Some(usage[provider]) else None,
                                               events[k].usage)];
    }
    assert events[..|events|] == events;
  }

  // ----- conservation -----

  function SumProviders(events: seq<Event>, providers: seq<string>, f: Field): int {
    if providers == [] then 0
    else SumProviders(events, providers[..|providers| - 1], f) + SumOf(events, providers[|providers| - 1], f)
  }

  ghost predicate Distinct(providers: seq<string>) {
    forall i, j :: 0 <= i < j < |providers| ==> providers[i] != providers[j]
  }

  lemma {:induction false} SumProvidersEmpty(providers: seq<string>, f: Field)
    ensures SumProviders([], providers, f) == 0
  {
    if providers != [] {
      SumProvidersEmpty(providers[..|providers| - 1], f);
    }
  }

  lemma {:induction false} SumProvidersStep(events: seq<Event>, e: Event, providers: seq<string>, f: Field)
    requires Distinct(providers)
    ensures SumProviders(events + [e], providers, f) == SumProviders(events, providers, f) +
      if e.provider in providers then Reported(e, f) else 0
  {
    if providers != [] {
      var front, last := providers[..|providers| - 1], providers[|providers| - 1];
      SumProvidersStep(events, e, front, f);
      assert (events + [e])[..|events|] == events;
      assert providers == front + [last];
      assert last !in front;
    }
  }

  /** Nothing is lost or counted twice: over any listing of the providers, each once, the providers' sums add up to
      the run's total. */
  lemma {:induction false} UsageConserved(events: seq<Event>, providers: seq<string>, f: Field)
    requires Distinct(providers) && forall k :: 0 <= k < |events| ==> events[k].provider in providers
    ensures SumProviders(events, providers, f) == SumAll(events, f)
  {
    if events == [] {
      SumProvidersEmpty(providers, f);
    } else {
      var front, last := events[..|events| - 1], events[|events| - 1];
      UsageConserved(front, providers, f);
      SumProvidersStep(front, last, providers, f);
      assert events == front + [last];
    }
  }

  function RecordSum(usage: map<string, Usage>, providers: seq<string>, f: Field): int
    requires forall p :: p in providers ==> p in usage && Get(usage[p], f).Some?
  {
    if providers == [] then 0
    else RecordSum(usage, providers[..|providers| - 1], f) + Get(usage[providers[|providers| - 1]], f).value
  }

  lemma {:induction false} RecordSumIsSum(usage: map<string, Usage>, events: seq<Event>,
                                          providers: seq<string>, f: Field)
    requires ByProvider(usage, events) && forall p :: p in providers ==> p in usage && Get(usage[p], f).Some?
    ensures RecordSum(usage, providers, f) == SumProviders(events, providers, f)
  {
    if providers != [] {
      RecordSumIsSum(usage, events, providers[..|providers| - 1], f);
      assert Holds(usage[providers[|providers| - 1]], g => SumOf(events, providers[|providers| - 1], g));
    }
  }

  /** For the records themselves: when some event reported tokens, each field of the run's total is the sum of that
      field over the provider records. */
  lemma RecordsAddUpToTotal(usage: map<string, Usage>, events: seq<Event>, total: Usage,
                            providers: seq<string>, f: Field)
    requires ByProvider(usage, events) && Holds(total, g => SumAll(events, g))
    requires Distinct(providers) && forall p :: p in providers <==> p in usage
    ensures forall p :: p in providers ==> Get(usage[p], f).Some?
    ensures Get(total, f) == Some(RecordSum(usage, providers, f))
  {
    forall p | p in providers ensures Get(usage[p], f).Some? {
      assert Holds(usage[p], g => SumOf(events, p, g));
    }
    RecordSumIsSum(usage, events, providers, f);
    forall k | 0 <= k < |events| ensures events[k].provider in providers {
      assert events[k].provider in usage;
    }
    UsageConserved(events, providers, f);
  }
}
