/** Provider health: a failure rate that trips at one half, and an integer moving
    average of latencies. */
module ProviderHealth {

  datatype Health = Health(available: bool, latencyMs: int, failureRate: real, weight: real)

  const FRESH := Health(true, 0, 0.0, 1.0)

  const MAX_INT64 := 0x7fff_ffff_ffff_ffff
  const MIN_INT64 := -0x8000_0000_0000_0000
  const SAMPLE_LIMIT := 0x1000_0000_0000_0000

  predicate IsInt64(x: int) { MIN_INT64 <= x <= MAX_INT64 }

  /** The int64 that an overflowing sum or product leaves. */
  function Wrap(x: int): (r: int)
    ensures IsInt64(r) && (IsInt64(x) ==> r == x)
  {
    (x - MIN_INT64) % 0x1_0000_0000_0000_0000 + MIN_INT64
  }

  /** Division by eight, toward zero. */
  function Eighth(x: int): int {
    if x >= 0 then x / 8 else -(-x / 8)
  }

  /** 0 stands for "no sample yet"; samples that are not positive are ignored. */
  function NextLatency(latency: int, sample: int): int {
    if sample <= 0 then latency
    else if latency == 0 then sample
    else Eighth(Wrap(Wrap(latency * 7) + sample))
  }

  function NextRate(rate: real, success: bool): real {
    if success then
      if rate * 0.5 < 0.01 then 0.0 else rate * 0.5
    else
      if rate * 0.9 + 0.1 > 1.0 then 1.0 else rate * 0.9 + 0.1
  }

  function Record(h: Health, success: bool, sample: int): Health {
    var rate := NextRate(h.failureRate, success);
    h.(latencyMs := NextLatency(h.latencyMs, sample), failureRate := rate, available := h.available && rate <= 0.5)
  }

  /** What happens to one provider after its registration. */
  datatype Event = Result(success: bool, sample: int) | SetAvailable(available: bool)

  function Apply(h: Health, e: Event): Health {
    match e
    case Result(success, sample) => Record(h, success, sample)
    case SetAvailable(b) => h.(available := b)
  }

  function Run(events: seq<Event>): Health {
    if events == [] then FRESH else Apply(Run(events[..|events| - 1]), events[|events| - 1])
  }

  function Failures(events: seq<Event>): nat {
    if events == [] then 0
    else
      var e := events[|events| - 1];
      Failures(events[..|events| - 1]) + if e.Result? && !e.success then 1 else 0
  }

  // ---------- the failure rate ----------

  /** 0.9^k */
  function Decay(k: nat): real {
    if k == 0 then 1.0 else 0.9 * Decay(k - 1)
  }

  /** However failures and successes mix, after k failures the rate is in
      [0, 1 - 0.9^k]. */
  lemma {:induction false} RateBound(events: seq<Event>)
    ensures 0.0 <= Run(events).failureRate <= 1.0 - Decay(Failures(events)) < 1.0
  {
    if events != [] { RateBound(events[..|events| - 1]); }
  }

  lemma {:induction false} DecayUpTo(k: nat)
    ensures Decay(k) > 0.0
    ensures k <= 6 ==> Decay(k) >= 0.531441
    ensures k >= 7 ==> Decay(k) <= 0.4782969
  {
    if k > 0 { DecayUpTo(k - 1); }
    assert k == 6 ==> Decay(6) == 0.9 * Decay(5) && Decay(5) == 0.9 * Decay(4) && Decay(4) == 0.9 * Decay(3)
                      && Decay(3) == 0.9 * Decay(2) && Decay(2) == 0.9 * Decay(1) && Decay(1) == 0.9;
  }

  /** RecordResult marks an available provider down only on a failure, and not
      before the seventh since its registration. */
  lemma {:induction false} NeverDownBeforeSeventhFailure(events: seq<Event>, success: bool, sample: int)
    requires Run(events).available && !Record(Run(events), success, sample).available
    ensures !success && Failures(events + [Result(success, sample)]) >= 7
  {
    var all := events + [Result(success, sample)];
    assert all[..|events|] == events;
    RateBound(events);
    RateBound(all);
    DecayUpTo(Failures(all));
  }

  /** n failures in a row from rate f give exactly 1 - (1 - f) * 0.9^n. */
  lemma {:induction false} StraightFailures(h: Health, n: nat)
    requires 0.0 <= h.failureRate <= 1.0
    ensures FailTimes(h, n).failureRate == 1.0 - (1.0 - h.failureRate) * Decay(n)
    ensures FailTimes(h, n).available ==> h.available
    ensures n > 0 && FailTimes(h, n).failureRate > 0.5 ==> !FailTimes(h, n).available
  {
    if n > 0 {
      StraightFailures(h, n - 1);
      DecayUpTo(n - 1);
      var g, d := 1.0 - h.failureRate, Decay(n - 1);
      assert g * d >= 0.0;
      assert g * (0.9 * d) == 0.9 * (g * d);
    }
  }

  function FailTimes(h: Health, n: nat): Health {
    if n == 0 then h else Record(FailTimes(h, n - 1), false, 0)
  }

  lemma {:induction false} AvailabilityOnlyFalls(h: Health, m: nat, n: nat)
    requires m <= n && FailTimes(h, n).available
    ensures FailTimes(h, m).available
    decreases n
  {
    if m < n { AvailabilityOnlyFalls(h, m, n - 1); }
  }

  /** On a fresh provider exactly the seventh straight failure trips it. */
  lemma {:induction false} SeventhStraightFailureTrips(n: nat)
    ensures FailTimes(FRESH, n).available <==> n < 7
  {
    if n < 7 {
      FewFailuresKeep(n);
    } else {
      StraightFailures(FRESH, 7);
      DecayUpTo(7);
      if FailTimes(FRESH, n).available { AvailabilityOnlyFalls(FRESH, 7, n); }
    }
  }

  lemma {:induction false} FewFailuresKeep(n: nat)
    requires n < 7
    ensures FailTimes(FRESH, n).available
  {
    if n > 0 {
      FewFailuresKeep(n - 1);
      StraightFailures(FRESH, n);
      DecayUpTo(n);
    }
  }

  function SucceedTimes(h: Health, n: nat): Health {
    if n == 0 then h else Record(SucceedTimes(h, n - 1), true, 0)
  }

  /** rate * 0.5^n */
  function Halved(rate: real, n: nat): real {
    if n == 0 then rate else 0.5 * Halved(rate, n - 1)
  }

  /** n successes in a row halve the rate n times; below one percent it is 0. */
  lemma {:induction false} StraightSuccesses(h: Health, n: nat)
    requires 0.0 <= h.failureRate <= 1.0
    ensures 0.0 <= Halved(h.failureRate, n) <= 1.0
    ensures n > 0 ==> SucceedTimes(h, n).failureRate ==
                      if Halved(h.failureRate, n) < 0.01 then 0.0 else Halved(h.failureRate, n)
    ensures SucceedTimes(h, n).available == h.available
  {
    if n > 0 { StraightSuccesses(h, n - 1); }
  }

  /** Seven straight successes forget any failure rate; from the highest rate
      fewer do not. */
  lemma {:induction false} SevenSuccessesForget(h: Health, n: nat)
    requires 0.0 <= h.failureRate <= 1.0
    ensures n >= 7 ==> SucceedTimes(h, n).failureRate == 0.0
    ensures n < 7 && h.failureRate == 1.0 ==> SucceedTimes(h, n).failureRate > 0.0
  {
    StraightSuccesses(h, n);
    HalvedUpTo(h.failureRate, n);
  }

  lemma {:induction false} HalvedUpTo(rate: real, k: nat)
    requires 0.0 <= rate <= 1.0
    ensures k >= 7 ==> 0.0 <= Halved(rate, k) <= 0.0078125
    ensures k <= 6 && rate == 1.0 ==> Halved(rate, k) >= 0.015625
  {
    if k > 7 {
      HalvedUpTo(rate, k - 1);
    } else {
      assert Halved(rate, 1) == 0.5 * rate && Halved(rate, 2) == 0.5 * Halved(rate, 1);
      assert Halved(rate, 4) == 0.25 * Halved(rate, 2);
      assert Halved(rate, 6) == 0.25 * Halved(rate, 4);
    }
  }

  predicate AllResults(events: seq<Event>) { forall i :: 0 <= i < |events| ==> events[i].Result? }

  /** With results alone, a provider is available exactly as long as its failure rate
      has never been above one half. */
  lemma {:induction false} AvailableIffNeverAboveHalf(events: seq<Event>)
    requires AllResults(events)
    ensures Run(events).available <==> forall n :: 0 <= n <= |events| ==> Run(events[..n]).failureRate <= 0.5
  {
    assert events[..|events|] == events;
    if events != [] {
      var init := events[..|events| - 1];
      assert AllResults(init) by { assert forall i :: 0 <= i < |init| ==> init[i] == events[i]; }
      AvailableIffNeverAboveHalf(init);
      assert forall n :: 0 <= n <= |init| ==> init[..n] == events[..n];
      assert events[|events| - 1].Result?;
    }
  }

  /** No result, good or bad, revives a provider: only UpdateHealth does. */
  lemma {:induction false} ResultsNeverRevive(h: Health, events: seq<Event>)
    requires !h.available && forall i :: 0 <= i < |events| ==> events[i].Result?
    ensures !RunFrom(h, events).available
  {
    if events != [] { ResultsNeverRevive(h, events[..|events| - 1]); }
  }

  function RunFrom(h: Health, events: seq<Event>): Health {
    if events == [] then h else Apply(RunFrom(h, events[..|events| - 1]), events[|events| - 1])
  }

  // ---------- the latency average ----------

  /** Positive samples between lo and hi, below 2^60, keep the average between lo
      and hi; it is the sentinel 0 exactly until the first positive sample. */
  lemma {:induction false} LatencyBounds(events: seq<Event>, lo: int, hi: int)
    requires 1 <= lo <= hi < SAMPLE_LIMIT
    requires forall i :: 0 <= i < |events| && events[i].Result? && events[i].sample > 0 ==> lo <= events[i].sample <= hi
    ensures var l := Run(events).latencyMs;
            && (l == 0 <==> !HasSample(events))
            && (HasSample(events) ==> lo <= l <= hi)
  {
    if events != [] {
      var init, e := events[..|events| - 1], events[|events| - 1];
      LatencyBounds(init, lo, hi);
      HasSampleSplit(events);
    }
  }

  /** No wider: if samples of 2^60 are in the range, or beyond it, some sample in it
      given twice overflows and leaves the average below them all. */
  lemma {:induction false} LargeSamplesLeaveBounds(lo: int, hi: int) returns (sample: int)
    requires 1 <= lo <= hi <= MAX_INT64 && SAMPLE_LIMIT <= hi
    ensures lo <= sample <= hi
    ensures Run([Result(true, sample), Result(true, sample)]).latencyMs < lo
  {
    sample := if lo < SAMPLE_LIMIT then SAMPLE_LIMIT else lo;
    var e := Result(true, sample);
    assert [e, e][..1] == [e] && [e][..0] == [];
    assert Run([e]) == Apply(FRESH, e);
    assert Run([e, e]).latencyMs == NextLatency(sample, sample);
    if lo < SAMPLE_LIMIT {
      assert Wrap(SAMPLE_LIMIT * 7) == SAMPLE_LIMIT * 7 && Wrap(SAMPLE_LIMIT * 8) == MIN_INT64;
    }
  }

  predicate HasSample(events: seq<Event>) {
    exists i :: 0 <= i < |events| && events[i].Result? && events[i].sample > 0
  }

  lemma {:induction false} HasSampleSplit(events: seq<Event>)
    requires events != []
    ensures HasSample(events) <==>
            HasSample(events[..|events| - 1]) || (events[|events| - 1].Result? && events[|events| - 1].sample > 0)
  {
    var init := events[..|events| - 1];
    if HasSample(init) {
      var i :| 0 <= i < |init| && init[i].Result? && init[i].sample > 0;
      assert events[i] == init[i];
    }
    if HasSample(events) {
      var i :| 0 <= i < |events| && events[i].Result? && events[i].sample > 0;
      assert i == |events| - 1 || events[i] == init[i];
    }
  }

  function Iterate(latency: int, sample: int, n: nat): int {
    if n == 0 then latency else NextLatency(Iterate(latency, sample, n - 1), sample)
  }

  function Distance(a: int, b: int): nat { if a < b then b - a else a - b }

  /** Where a constant sample drives the average: down to the sample itself, but
      up only to seven below it, since the division rounds down. */
  function Limit(latency: int, sample: int): int {
    if latency >= sample then sample else if latency <= sample - 7 then sample - 7 else latency
  }

  /** Neither the first step nor any later one overflows. */
  predicate NoOverflow(latency: int, sample: int) {
    1 <= latency && 1 <= sample < SAMPLE_LIMIT && latency * 7 + sample <= MAX_INT64
  }

  lemma {:induction false} OneStep(latency: int, sample: int)
    requires NoOverflow(latency, sample)
    ensures NoOverflow(NextLatency(latency, sample), sample)
    ensures NextLatency(latency, sample) >= 1
    ensures Limit(NextLatency(latency, sample), sample) == Limit(latency, sample)
    ensures latency == Limit(latency, sample) ==> NextLatency(latency, sample) == latency
    ensures latency != Limit(latency, sample) ==>
            Distance(NextLatency(latency, sample), sample) < Distance(latency, sample)
  {
  }

  /** One step of the average is an eighth of the way to the sample, rounded down. */
  lemma {:induction false} StepsAnEighth(latency: int, sample: int)
    requires latency >= 1 && sample >= 1 && latency * 7 + sample <= MAX_INT64
    ensures 8 * NextLatency(latency, sample) <= 7 * latency + sample < 8 * NextLatency(latency, sample) + 8
  {
  }

  /** Under a constant sample the average strictly approaches its limit and is
      there, for good, after at most as many steps as its distance. */
  lemma {:induction false} ConstantSampleConverges(latency: int, sample: int, n: nat)
    requires NoOverflow(latency, sample)
    ensures NoOverflow(Iterate(latency, sample, n), sample)
    ensures Limit(Iterate(latency, sample, n), sample) == Limit(latency, sample)
    ensures Iterate(latency, sample, n) == Limit(latency, sample)
            || Distance(Iterate(latency, sample, n), sample) + n <= Distance(latency, sample)
    ensures n >= Distance(latency, sample) ==>
            sample - 7 <= Iterate(latency, sample, n) == Limit(latency, sample) <= sample
  {
    if n > 0 {
      ConstantSampleConverges(latency, sample, n - 1);
      OneStep(Iterate(latency, sample, n - 1), sample);
    }
  }

  function Pow(base: nat, n: nat): nat {
    if n == 0 then 1 else base * Pow(base, n - 1)
  }

  /** How far the average is from the range [sample - 7, sample + 7]. */
  function Excess(latency: int, sample: int): nat {
    var d := Distance(latency, sample);
    if d <= 7 then 0 else d - 7
  }

  lemma {:induction false} ExcessShrinks(latency: int, sample: int)
    requires NoOverflow(latency, sample)
    ensures 8 * Excess(NextLatency(latency, sample), sample) <= 7 * Excess(latency, sample)
  {
  }

  lemma {:induction false} Chain(a: nat, b: nat, p: nat, q: nat, e: nat)
    requires 8 * a <= 7 * b && p * b <= q * e
    ensures (8 * p) * a <= (7 * q) * e
  {
    assert p * (8 * a) <= p * (7 * b);
    assert (8 * p) * a == p * (8 * a) && 7 * (p * b) == p * (7 * b);
    assert 7 * (q * e) == (7 * q) * e;
  }

  /** The approach is geometric: whatever exceeds a distance of seven shrinks by
      7/8 with every sample. */
  lemma {:induction false} ConvergesGeometrically(latency: int, sample: int, n: nat)
    requires NoOverflow(latency, sample)
    ensures Pow(8, n) * Excess(Iterate(latency, sample, n), sample) <= Pow(7, n) * Excess(latency, sample)
  {
    if n > 0 {
      var before := Iterate(latency, sample, n - 1);
      ConvergesGeometrically(latency, sample, n - 1);
      ConstantSampleConverges(latency, sample, n - 1);
      ExcessShrinks(before, sample);
      Chain(Excess(NextLatency(before, sample), sample), Excess(before, sample), Pow(8, n - 1), Pow(7, n - 1),
            Excess(latency, sample));
    }
  }
}

/** Provider selection over the recorded health. */
module Routing {
  import opened Common
  import opened ProviderHealth
  import opened Arithmetic

  datatype Strategy = Latency | RoundRobin | Weighted | Availability | Unknown

  /** A registered adapter (possibly nil) and the models it says it supports. */
  datatype Provider = Nil | Provider(models: seq<string>)

  predicate Supports(p: Provider, model: string) {
    p.Provider? && exists i :: 0 <= i < |p.models| && (p.models[i] == model || p.models[i] == "*")
  }

  /** Registered, marked available, and supporting the model. */
  predicate Eligible(providers: map<string, Provider>, health: map<string, Health>, name: string, model: string) {
    name in providers && name in health && health[name].available && Supports(providers[name], model)
  }

  datatype Choice = NoProvider | Chosen(name: string)

  function Sum(health: map<string, Health>, names: seq<string>): real
    requires forall i :: 0 <= i < |names| ==> names[i] in health
  {
    if names == [] then 0.0 else Sum(health, names[..|names| - 1]) + health[names[|names| - 1]].weight
  }

  lemma {:induction false} SumOfOnes(health: map<string, Health>, names: seq<string>)
    requires forall i :: 0 <= i < |names| ==> names[i] in health && health[names[i]].weight == 1.0
    ensures Sum(health, names) == |names| as real
  {
    if names != [] { SumOfOnes(health, names[..|names| - 1]); }
  }

  lemma {:induction false} StaysInRange(latency: int, sample: int, rate: real, success: bool)
    requires IsInt64(latency) && IsInt64(sample) && 0.0 <= rate <= 1.0
    ensures IsInt64(NextLatency(latency, sample)) && 0.0 <= NextRate(rate, success) <= 1.0
  {
  }

  class Router {
    var providers: map<string, Provider>
    var health: map<string, Health>
    const strategy: Strategy
    var roundRobinCounter: nat

    /** Every provider has a health record, whose numbers are in range. */
    ghost predicate Valid()
      reads this
    {
      && providers.Keys == health.Keys
      && forall n :: n in health ==>
                       0.0 <= health[n].failureRate <= 1.0 && IsInt64(health[n].latencyMs) && health[n].weight == 1.0
    }

    constructor (strategy: Strategy)
      ensures Valid() && providers == map[] && this.strategy == strategy
    {
      providers, health, roundRobinCounter := map[], map[], 0;
      this.strategy := strategy;
    }

    method RegisterProvider(name: string, p: Provider)
      requires Valid()
      modifies `providers, `health
      ensures Valid() && providers == old(providers)[name := p] && health == old(health)[name := FRESH]
      ensures health[name] == Health(true, 0, 0.0, 1.0)
    {
      providers := providers[name := p];
      health := health[name := Health(true, 0, 0.0, 1.0)];
    }

    method UpdateHealth(name: string, available: bool)
      requires Valid()
      modifies `health
      ensures Valid()
      ensures health == if name !in old(health) then old(health)
                        else old(health)[name := Apply(old(health)[name], SetAvailable(available))]
    {
      if name in health {
        health := health[name := health[name].(available := available)];
      }
    }

    /** One recorded result is one step of the provider's health. */
    method RecordResult(name: string, success: bool, sample: int)
      requires Valid() && IsInt64(sample)
      modifies `health
      ensures Valid()
      ensures health == if name !in old(health) then old(health)
                        else old(health)[name := Apply(old(health)[name], Result(success, sample))]
    {
      if name !in health {
        return;
      }
      var latency, rate := health[name].latencyMs, health[name].failureRate;
      StaysInRange(latency, sample, rate, success);
      if sample > 0 {
        if latency == 0 {
          latency := sample;
        } else {
          latency := Eighth(Wrap(Wrap(latency * 7) + sample));
        }
      }
      if success {
        rate := rate * 0.5;
        if rate < 0.01 {
          rate := 0.0;
        }
      } else {
        rate := rate * 0.9 + 0.1;
        if rate > 1.0 {
          rate := 1.0;
        }
      }
      var available := if rate > 0.5 then false else health[name].available;
      health := health[name := health[name].(available := available, latencyMs := latency, failureRate := rate)];
    }

    method IsProviderAvailable(name: string, model: string) returns (b: bool)
      requires Valid() && name in providers
      ensures b == Eligible(providers, health, name, model)
      ensures b <==> && health[name].available && providers[name].Provider?
                     && (model in providers[name].models || "*" in providers[name].models)
    {
      if !health[name].available || providers[name].Nil? {
        return false;
      }
      var models := providers[name].models;
      for i := 0 to |models|
        invariant forall j :: 0 <= j < i ==> models[j] != model && models[j] != "*"
      {
        if models[i] == model || models[i] == "*" {
          return true;
        }
      }
      return false;
    }

    /** The eligible providers, in whatever order the map is walked. */
    method Candidates(model: string) returns (names: seq<string>)
      requires Valid()
      ensures forall i :: 0 <= i < |names| ==> Eligible(providers, health, names[i], model)
      ensures forall n :: Eligible(providers, health, n, model) ==> n in names
      ensures Distinct(names)
    {
      names := [];
      var todo := providers.Keys;
      while todo != {}
        invariant todo <= providers.Keys
        invariant forall i :: 0 <= i < |names| ==> Eligible(providers, health, names[i], model)
        invariant forall n :: Eligible(providers, health, n, model) && n !in todo ==> n in names
        invariant Distinct(names) && forall i :: 0 <= i < |names| ==> names[i] !in todo
      {
        var name :| name in todo;
        todo := todo - {name};
        var ok := IsProviderAvailable(name, model);
        if ok {
          names := names + [name];
        }
      }
    }

    method SelectByLatency(names: seq<string>) returns (c: Choice)
      requires Valid() && forall i :: 0 <= i < |names| ==> names[i] in health
      ensures c.NoProvider? <==> forall i :: 0 <= i < |names| ==> health[names[i]].latencyMs == MAX_INT64
      ensures c.Chosen? ==>
                && c.name in names
                && forall i :: 0 <= i < |names| ==> health[c.name].latencyMs <= health[names[i]].latencyMs
    {
      c := NoProvider;
      var least := MAX_INT64;
      for i := 0 to |names|
        invariant c.NoProvider? <==> least == MAX_INT64
        invariant c.Chosen? ==> c.name in names && health[c.name].latencyMs == least
        invariant forall j :: 0 <= j < i ==> least <= health[names[j]].latencyMs
      {
        if health[names[i]].latencyMs < least {
          least, c := health[names[i]].latencyMs, Chosen(names[i]);
        }
      }
    }

    method SelectByAvailability(names: seq<string>) returns (c: Choice)
      requires Valid() && forall i :: 0 <= i < |names| ==> names[i] in health
      ensures c.NoProvider? <==> names == []
      ensures c.Chosen? ==>
                && c.name in names
                && forall i :: 0 <= i < |names| ==> health[c.name].failureRate <= health[names[i]].failureRate
    {
      c := NoProvider;
      var least := 2.0;  // any rate is below the largest float
      for i := 0 to |names|
        invariant c.NoProvider? <==> i == 0
        invariant c.NoProvider? ==> least == 2.0
        invariant c.Chosen? ==> c.name in names && health[c.name].failureRate == least
        invariant forall j :: 0 <= j < i ==> least <= health[names[j]].failureRate
      {
        if health[names[i]].failureRate < least {
          least, c := health[names[i]].failureRate, Chosen(names[i]);
        }
      }
    }

    method TotalWeight(names: seq<string>) returns (total: real)
      requires Valid() && forall i :: 0 <= i < |names| ==> names[i] in health
      ensures total == Sum(health, names) && total >= 0.0
    {
      total := 0.0;
      for i := 0 to |names|
        invariant total == Sum(health, names[..i]) && total >= 0.0
      {
        assert names[..i + 1][..i] == names[..i];
        total := total + health[names[i]].weight;
      }
      assert names[..|names|] == names;
    }

    /** The index whose slice of the cumulative weights holds the target, or the
        first one if the target lies beyond the total. */
    method PickSlice(names: seq<string>, target: real) returns (k: nat)
      requires Valid() && names != [] && forall i :: 0 <= i < |names| ==> names[i] in health
      ensures k < |names|
      ensures target <= Sum(health, names[..k + 1]) || (k == 0 && Sum(health, names) < target)
      ensures k > 0 ==> Sum(health, names[..k]) < target
    {
      var cumulative := 0.0;
      for i := 0 to |names|
        invariant cumulative == Sum(health, names[..i])
        invariant i > 0 ==> cumulative < target
      {
        assert names[..i + 1][..i] == names[..i];
        cumulative := cumulative + health[names[i]].weight;
        if target <= cumulative {
          return i;
        }
      }
      assert names[..|names|] == names;
      return 0;
    }

    /** `random` in [0, 1): the chosen candidate is the one whose slice of the
        cumulative weights holds random * total. */
    method SelectByWeight(names: seq<string>, random: real) returns (c: Choice, k: nat)
      requires Valid() && names != [] && 0.0 <= random < 1.0
      requires forall i :: 0 <= i < |names| ==> names[i] in health
      ensures k < |names| && c == Chosen(names[k])
      ensures random * Sum(health, names) <= Sum(health, names[..k + 1])
      ensures k > 0 ==> Sum(health, names[..k]) < random * Sum(health, names)
      ensures random * |names| as real <= (k + 1) as real && (k > 0 ==> k as real < random * |names| as real)
    {
      var total := TotalWeight(names);
      MulNonNegative(1.0 - random, total);
      k := PickSlice(names, random * total);
      SumOfOnes(health, names);
      SumOfOnes(health, names[..k]);
      SumOfOnes(health, names[..k + 1]);
      c := Chosen(names[k]);
    }

    method SelectByRoundRobin(names: seq<string>) returns (c: Choice)
      requires names != []
      modifies `roundRobinCounter
      ensures c == Chosen(names[old(roundRobinCounter) % |names|])
      ensures roundRobinCounter == (old(roundRobinCounter) + 1) % 0x1_0000_0000_0000_0000
    {
      var index := roundRobinCounter;
      roundRobinCounter := (roundRobinCounter + 1) % 0x1_0000_0000_0000_0000;
      return Chosen(names[index % |names|]);
    }

    /** A provider is returned exactly if some provider is eligible, and the one
        returned is: registered, available and supporting the model.  By latency
        (also the default) and by availability it is a best one; by latency, one
        whose latency is the largest int64 cannot be chosen. */
    method SelectProvider(model: string, random: real) returns (c: Choice)
      requires Valid() && 0.0 <= random < 1.0
      modifies `roundRobinCounter
      ensures c.NoProvider? <==>
              forall n :: Eligible(providers, health, n, model) ==>
                            (strategy.Latency? || strategy.Unknown?) && health[n].latencyMs == MAX_INT64
      ensures c.Chosen? ==> Eligible(providers, health, c.name, model)
      ensures c.Chosen? && (strategy.Latency? || strategy.Unknown?) ==>
                forall n :: Eligible(providers, health, n, model) ==> health[c.name].latencyMs <= health[n].latencyMs
      ensures c.Chosen? && strategy.Availability? ==>
                forall n :: Eligible(providers, health, n, model) ==>
                  health[c.name].failureRate <= health[n].failureRate
    {
      var names := Candidates(model);
      if names == [] {
        return NoProvider;
      }
      match strategy {
        case RoundRobin =>
          c := SelectByRoundRobin(names);
        case Weighted =>
          var chosen, _ := SelectByWeight(names, random);
          c := chosen;
        case Availability =>
          c := SelectByAvailability(names);
        case _ =>
          c := SelectByLatency(names);
      }
      assert Eligible(providers, health, names[0], model);
      assert c.Chosen? ==> Eligible(providers, health, c.name, model);
    }
  }
}
