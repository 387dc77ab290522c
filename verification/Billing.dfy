/** Token usage accumulated over a turn, and what a turn is charged. */
module Billing {
  import opened Sequences

  datatype Source = Provider | Estimated | EstimatedSplit | Mixed

  datatype Usage = Usage(input: int, cached: int, output: int, source: Source)

  predicate Proper(u: Usage) { 0 <= u.cached <= u.input && 0 <= u.output }

  function Total(u: Usage): int { u.input + u.output }

  predicate Counts(u: Usage) { Total(u) != 0 }

  /** What adding makes of the source: the total is looked at after the addition. */
  function SourceAfter(mine: Source, theirs: Source, counts: bool): Source {
    if !counts then theirs else if mine != theirs then Mixed else mine
  }

  function Plus(a: Usage, b: Usage): Usage {
    Usage(a.input + b.input, Min(a.cached + b.cached, a.input + b.input), a.output + b.output,
          SourceAfter(a.source, b.source, Total(a) + Total(b) != 0))
  }

  const FRESH := Usage(0, 0, 0, Provider)

  class TokenUsage {
    var input: int
    var cached: int
    var output: int
    var source: Source

    function State(): Usage
      reads this
    {
      Usage(input, cached, output, source)
    }

    constructor (input: int, cached: int, output: int, source: Source)
      ensures Proper(State())
      ensures Proper(Usage(input, cached, output, source)) ==> State() == Usage(input, cached, output, source)
      ensures State() == Usage(Max(input, 0), Min(Max(cached, 0), Max(input, 0)), Max(output, 0), source)
    {
      var whole := if input > 0 then input else 0;
      var reused := if cached > 0 then cached else 0;
      this.source := source;
      this.input := whole;
      this.cached := if reused < whole then reused else whole;
      this.output := if output > 0 then output else 0;
    }

    /** Adding nothing changes nothing. Otherwise every component adds up exactly, and cached input stays
        within input. */
    method Add(other: TokenUsage?)
      requires Proper(State()) && (other != null ==> Proper(other.State()))
      modifies this
      ensures Proper(State())
      ensures State() == if other == null then old(State()) else Plus(old(State()), old(other.State()))
      ensures other != null ==>
        && input == old(input + other.input)
        && cached == old(cached + other.cached)
        && output == old(output + other.output)
        && source == if input + output == 0 then old(other.source)
                     else if old(source) == old(other.source) then old(source) else Mixed
    {
      if other == null { return; }
      var theirs := other.source;
      input := input + other.input;
      cached := cached + other.cached;
      output := output + other.output;
      cached := Min(cached, input);
      if input + output == 0 {
        source := theirs;
      } else if source != theirs {
        source := Mixed;
      }
    }
  }

  /** Usages added one after the other onto a fresh one. */
  function Sum(us: seq<Usage>): Usage {
    if us == [] then FRESH else Plus(Sum(Init(us)), Last(us))
  }

  ghost predicate AllProper(us: seq<Usage>) {
    forall u :: u in us ==> Proper(u)
  }

  function Inputs(us: seq<Usage>): int { if us == [] then 0 else Inputs(Init(us)) + Last(us).input }

  function CachedInputs(us: seq<Usage>): int { if us == [] then 0 else CachedInputs(Init(us)) + Last(us).cached }

  function Outputs(us: seq<Usage>): int { if us == [] then 0 else Outputs(Init(us)) + Last(us).output }

  lemma ProperInit(us: seq<Usage>)
    requires us != [] && AllProper(us)
    ensures AllProper(Init(us)) && Proper(Last(us))
  {
    assert forall u :: u in Init(us) ==> u in us;
  }

  /** Accumulation loses nothing: each component of the sum is the sum of that component. */
  lemma {:induction false} SumIsExact(us: seq<Usage>)
    requires AllProper(us)
    ensures Proper(Sum(us))
    ensures Sum(us).input == Inputs(us) && Sum(us).cached == CachedInputs(us) && Sum(us).output == Outputs(us)
  {
    if us != [] {
      ProperInit(us);
      SumIsExact(Init(us));
    }
  }

  ghost predicate AllFrom(us: seq<Usage>, source: Source) { forall u :: u in us ==> u.source == source }

  /** The source of a sum of usages of one source, of which the first counts something or not: it
      survives, except that the first one that counts turns a fresh sum's source into mixed, unless it is
      the provider's; and mixed stays mixed. */
  function Kept(source: Source, counts: bool): Source {
    if source == Provider || !counts then source else Mixed
  }

  ghost predicate Keeps(us: seq<Usage>, source: Source)
    requires us != []
  {
    && Sum(us).source == Kept(source, Counts(us[0]))
    && (Counts(us[0]) ==> Counts(Sum(us)))
  }

  lemma {:induction false} SourceOfSum(us: seq<Usage>, source: Source)
    requires us != [] && AllProper(us) && AllFrom(us, source)
    ensures Keeps(us, source)
    decreases |us|
  {
    OneSourceInit(us, source);
    hide Keeps, AllProper, AllFrom;
    if |us| == 1 {
      SourceOfOne(us, source);
    } else {
      SourceOfSum(Init(us), source);
      SourceOfMore(us, source);
    }
  }

  lemma SourceOfOne(us: seq<Usage>, source: Source)
    requires |us| == 1 && Proper(us[0]) && us[0].source == source
    ensures Keeps(us, source)
  {
    hide Sum, Plus, Counts, Proper;
    SumOfOne(us);
    FreshSource(us[0]);
  }

  lemma SumOfOne(us: seq<Usage>)
    requires |us| == 1
    ensures Sum(us) == Plus(FRESH, us[0])
  {
    assert Init(us) == [];
  }

  lemma FreshSource(u: Usage)
    ensures Plus(FRESH, u).source == SourceAfter(Provider, u.source, Counts(u))
    ensures Counts(Plus(FRESH, u)) <==> Counts(u)
  {
    hide SourceAfter, Min;
    assert Total(Plus(FRESH, u)) == Total(u);
  }

  lemma SourceOfMore(us: seq<Usage>, source: Source)
    requires |us| > 1 && Proper(Sum(Init(us))) && Proper(Last(us)) && Last(us).source == source
    requires Keeps(Init(us), source)
    ensures Keeps(us, source)
  {
    var early, next := Init(us), Last(us);
    assert early[0] == us[0];
    assert Sum(us) == Plus(Sum(early), next);
    PlusSource(Sum(early), next);
    hide Sum, Plus, Counts, Proper, Init, Last;
  }

  lemma OneSourceInit(us: seq<Usage>, source: Source)
    requires us != [] && AllProper(us) && AllFrom(us, source)
    ensures AllProper(Init(us)) && AllFrom(Init(us), source) && Proper(Sum(Init(us)))
    ensures Proper(Last(us)) && Last(us).source == source && Proper(us[0]) && us[0].source == source
  {
    ProperInit(us);
    SumIsExact(Init(us));
    assert forall u :: u in Init(us) ==> u in us;
    assert Last(us) in us && us[0] in us;
  }

  lemma PlusSource(a: Usage, b: Usage)
    requires Proper(a) && Proper(b)
    ensures Plus(a, b).source == SourceAfter(a.source, b.source, Counts(a) || Counts(b))
    ensures Counts(Plus(a, b)) <==> Counts(a) || Counts(b)
  {
    hide SourceAfter, Min;
    assert Total(Plus(a, b)) == Total(a) + Total(b);
  }

  /** Usages that all have one source accumulate to that source if and only if it is the provider's, or
      mixed already, or the first of them counts nothing; otherwise the sum reads mixed. */
  lemma OneSourceIsKept(us: seq<Usage>, source: Source)
    requires us != [] && AllProper(us) && AllFrom(us, source)
    ensures Sum(us).source == source <==> source == Provider || source == Mixed || Total(us[0]) == 0
    ensures Sum(us).source == source || Sum(us).source == Mixed
  {
    SourceOfSum(us, source);
  }

  /** The smallest case of it: one estimated token reads mixed. */
  lemma OneEstimateReadsMixed()
    ensures Sum([Usage(1, 0, 0, Estimated)]).source == Mixed
  {
    var one := Usage(1, 0, 0, Estimated);
    SourceOfOne([one], Estimated);
    hide Sum;
  }

  // ---------------------------------------------------------------------------------------------
  // Charging

  datatype Rates = Rates(system: bool, input: real, cached: real, output: real)

  predicate Billable(r: Rates) {
    r.system && (r.input > 0.0 || r.cached > 0.0 || r.output > 0.0)
  }

  function Ceiling(x: real): int { -((-x).Floor) }

  /** Ceiling is the least integer not below. */
  lemma CeilingIsLeast(x: real, n: int)
    ensures x <= Ceiling(x) as real < x + 1.0
    ensures n as real >= x <==> n >= Ceiling(x)
  {
  }

  function Uncached(u: Usage): int { Max(u.input - u.cached, 0) }

  function Times(amount: real, rate: real): real { amount * rate }

  /** A usage at the model's rates. */
  function Weighted(r: Rates, u: Usage): real {
    Times(Uncached(u) as real, r.input) + Times(u.cached as real, r.cached) + Times(u.output as real, r.output)
  }

  /** What a usage is worth before rounding. */
  function Worth(r: Rates, multiplier: real, u: Usage): real {
    Times(Weighted(r, u), multiplier)
  }

  /** `billable_tokens`: nothing for nothing used or a model that is not billed; a negative multiplier is
      refused only when something is to be charged. */
  function Charge(r: Rates, multiplier: real, u: Usage): Result<int> {
    if Total(u) <= 0 || !Billable(r) then Ok(0)
    else if multiplier < 0.0 then Err("billing_multiplier must be non-negative")
    else Ok(Ceiling(Worth(r, multiplier, u)))
  }

  function Charges(r: Rates, multiplier: real, us: seq<Usage>): int
    requires multiplier >= 0.0
  {
    if us == [] then 0 else Charges(r, multiplier, Init(us)) + Charge(r, multiplier, Last(us)).value
  }

  lemma Distributes(x: real, y: real, rate: real)
    ensures Times(x + y, rate) == Times(x, rate) + Times(y, rate)
  {
  }

  lemma WeightedAdds(r: Rates, a: Usage, b: Usage)
    requires Proper(a) && Proper(b)
    ensures Weighted(r, Plus(a, b)) == Weighted(r, a) + Weighted(r, b)
  {
    var p := Plus(a, b);
    var ua, ub := Uncached(a) as real, Uncached(b) as real;
    var ca, cb := a.cached as real, b.cached as real;
    var oa, ob := a.output as real, b.output as real;
    assert Uncached(p) as real == ua + ub && p.cached as real == ca + cb && p.output as real == oa + ob;
    hide Uncached, Plus, Times;
    calc {
      Weighted(r, p);
    ==
      Times(ua + ub, r.input) + Times(ca + cb, r.cached) + Times(oa + ob, r.output);
    == { Distributes(ua, ub, r.input); Distributes(ca, cb, r.cached); Distributes(oa, ob, r.output); }
      Times(ua, r.input) + Times(ub, r.input) + (Times(ca, r.cached) + Times(cb, r.cached))
      + (Times(oa, r.output) + Times(ob, r.output));
    ==
      Weighted(r, a) + Weighted(r, b);
    }
  }

  /** Worth is additive over usages. */
  lemma WorthAdds(r: Rates, multiplier: real, a: Usage, b: Usage)
    requires Proper(a) && Proper(b)
    ensures Worth(r, multiplier, Plus(a, b)) == Worth(r, multiplier, a) + Worth(r, multiplier, b)
  {
    WeightedAdds(r, a, b);
    hide Weighted, Plus, Times;
    Distributes(Weighted(r, a), Weighted(r, b), multiplier);
  }

  lemma NothingWorthNothing(r: Rates, multiplier: real, u: Usage)
    requires Proper(u) && Total(u) == 0
    ensures Worth(r, multiplier, u) == 0.0
  {
    assert Uncached(u) == 0 && u.cached == 0 && u.output == 0;
    assert Weighted(r, u) == 0.0;
  }

  /** Input that was not cached, cached input and output, each at its own rate, times the multiplier. */
  lemma WorthIs(r: Rates, multiplier: real, u: Usage)
    requires Proper(u)
    ensures
      Worth(r, multiplier, u)
      == multiplier
         * ((u.input - u.cached) as real * r.input + u.cached as real * r.cached + u.output as real * r.output)
  {
  }

  lemma ChargeAtWorth(r: Rates, multiplier: real, u: Usage)
    requires Proper(u)
    ensures
      var c := Charge(r, multiplier, u);
      && (c.Err? <==> Billable(r) && Total(u) > 0 && multiplier < 0.0)
      && (!Billable(r) ==> c == Ok(0))
      && (c.Ok? && Billable(r) ==> Worth(r, multiplier, u) <= c.value as real < Worth(r, multiplier, u) + 1.0)
  {
    if Total(u) == 0 { NothingWorthNothing(r, multiplier, u); }
    hide Worth;
    CeilingIsLeast(Worth(r, multiplier, u), 0);
  }

  /** A charge is refused exactly when there is something to bill at a negative multiplier. Otherwise a
      model that is not billed costs nothing, and a billed one the least integer not below the worth: input
      that was not cached, cached input and output, each at its own rate, times the multiplier. */
  lemma ChargeIsCeiling(r: Rates, multiplier: real, u: Usage)
    requires Proper(u)
    ensures
      var c := Charge(r, multiplier, u);
      var billed := r.system && (r.input > 0.0 || r.cached > 0.0 || r.output > 0.0);
      var worth := multiplier
        * ((u.input - u.cached) as real * r.input + u.cached as real * r.cached + u.output as real * r.output);
      && (c.Err? <==> billed && u.input + u.output > 0 && multiplier < 0.0)
      && (!billed ==> c == Ok(0))
      && (c.Ok? && billed ==> worth <= c.value as real < worth + 1.0)
  {
    ChargeAtWorth(r, multiplier, u);
    WorthIs(r, multiplier, u);
    hide Worth, Charge;
  }

  lemma {:induction false} ChargesBound(r: Rates, multiplier: real, us: seq<Usage>)
    requires AllProper(us) && Billable(r) && multiplier >= 0.0
    ensures Worth(r, multiplier, Sum(us)) <= Charges(r, multiplier, us) as real
    ensures us != [] ==> (Charges(r, multiplier, us) as real) < Worth(r, multiplier, Sum(us)) + |us| as real
  {
    if us == [] {
      NothingWorthNothing(r, multiplier, FRESH);
    } else {
      hide Worth, Ceiling, Charge, Plus;
      ProperInit(us);
      SumIsExact(Init(us));
      WorthAdds(r, multiplier, Sum(Init(us)), Last(us));
      ChargesBound(r, multiplier, Init(us));
      ChargeAtWorth(r, multiplier, Last(us));
      if Init(us) == [] { NothingWorthNothing(r, multiplier, FRESH); }
    }
  }

  /** Charging a turn batch by batch costs at least as much as charging it at once, and less than one
      token more per batch. */
  lemma BatchesCost(r: Rates, multiplier: real, us: seq<Usage>)
    requires AllProper(us) && us != [] && multiplier >= 0.0
    ensures
      var once := Charge(r, multiplier, Sum(us)).value;
      once <= Charges(r, multiplier, us) < once + |us|
  {
    hide Worth, Charge;
    SumIsExact(us);
    ChargeAtWorth(r, multiplier, Sum(us));
    if Billable(r) { ChargesBound(r, multiplier, us); } else { NothingCharged(r, multiplier, us); }
  }

  lemma {:induction false} NothingCharged(r: Rates, multiplier: real, us: seq<Usage>)
    requires !Billable(r) && multiplier >= 0.0
    ensures Charges(r, multiplier, us) == 0
  {
    if us != [] { NothingCharged(r, multiplier, Init(us)); }
  }
}
