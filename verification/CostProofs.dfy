/** What a cost report says, in prices, milliseconds and whole cents, without the functions that compute it. */
module CostProofs {
  import opened CostReport

  function Cents(n: int): real { n as real / 100.0 }

  /** The whole number nearest to `x`, the upper one of two equally near. */
  ghost predicate IsNearest(n: int, x: real) { n as real - 0.5 <= x < n as real + 0.5 }

  lemma RoundIff(x: real, n: int)
    ensures Round(x) == n <==> IsNearest(n, x)
  {
  }

  lemma WholeCentsIff(x: real)
    ensures WholeCents(x) <==> exists n: nat :: x == Cents(n)
  {
    if WholeCents(x) {
      var n := Round(x * 100.0);
      RoundIff(x * 100.0, n);
      assert x == Cents(n);
    }
    if n: nat :| x == Cents(n) {
      assert x * 100.0 == n as real;
      RoundIff(x * 100.0, n);
    }
  }

  /** What the instances cost in a whole month. */
  ghost function TotalPrice(prices: PriceList, instances: seq<Instance>): real {
    if instances == [] then 0.0
    else TotalPrice(prices, instances[..|instances| - 1]) + prices(instances[|instances| - 1].size)
  }

  lemma {:induction false} MonthlyIsTotal(prices: PriceList, p: Present, instances: seq<Instance>)
    requires Month(p)
    ensures SumMonthly(Items(prices, p, instances)) == TotalPrice(prices, instances)
  {
    if instances == [] {
    } else {
      MonthlyIsTotal(prices, p, instances[..|instances| - 1]);
      SumsUnfold(prices, p, instances);
    }
  }

  /** The share of the monthly price for so many milliseconds of the month. */
  ghost function Share(price: real, p: Present, ms: int): real
    requires p.daysInMonth > 0
  {
    price * ms as real / (p.daysInMonth as real * 86_400_000.0)
  }

  lemma ProratedIsShare(price: real, instance: Instance, p: Present)
    requires p.Valid()
    ensures Prorated(price, p, DaysRunning(instance, p)) == Share(price, p, UpThisMonth(instance, p))
  {
    var d, days, up := p.daysInMonth as real, DaysRunning(instance, p), UpThisMonth(instance, p) as real;
    CapNeverCuts(instance, p);
    QuotientTimes(price, d);
    Rearrange(price / d, days, d, 86_400_000.0);
    TimesQuotient(price / d * days, d * 86_400_000.0);
  }

  lemma Rearrange(q: real, x: real, d: real, m: real)
    ensures q * x * (d * m) == (q * d) * (x * m)
  {
    assert q * x * (d * m) == q * (x * (d * m)) == q * (d * (x * m));
  }

  /** The sum of the shares: what the report would say if nothing were rounded. */
  ghost function TotalShare(prices: PriceList, p: Present, instances: seq<Instance>): real
    requires p.daysInMonth > 0
  {
    if instances == [] then 0.0
    else
      var last := instances[|instances| - 1];
      TotalShare(prices, p, instances[..|instances| - 1]) + Share(prices(last.size), p, UpThisMonth(last, p))
  }

  lemma {:induction false} ExactIsTotal(prices: PriceList, p: Present, instances: seq<Instance>)
    requires p.Valid()
    ensures ExactSum(prices, p, instances) == TotalShare(prices, p, instances)
  {
    if instances == [] {
    } else {
      var last := instances[|instances| - 1];
      ExactIsTotal(prices, p, instances[..|instances| - 1]);
      ProratedIsShare(prices(last.size), last, p);
    }
  }

  /** The item names the instance and its price, with its uptime in nearest tenths of days and its share in nearest cents. */
  ghost predicate Describes(item: Item, instance: Instance, prices: PriceList, p: Present)
    requires p.daysInMonth > 0
  {
    var up := UpThisMonth(instance, p);
    && item.name == instance.name && item.size == instance.size && item.monthlyCostUsd == prices(instance.size)
    && (exists n: int :: item.daysRunning == Tenths(n) && IsNearest(n, up as real / 8_640_000.0))
    && (exists n: int :: item.accumulatedCostUsd == Cents(n)
                         && IsNearest(n, Share(prices(instance.size), p, up) * 100.0))
  }

  function Tenths(n: int): real { n as real / 10.0 }

  lemma ItemMeaning(instance: Instance, prices: PriceList, p: Present)
    requires p.Valid()
    ensures Describes(ItemOf(prices, p, instance), instance, prices, p)
  {
    var price, days := prices(instance.size), DaysRunning(instance, p);
    CapNeverCuts(instance, p);
    ProratedIsShare(price, instance, p);
    var tenths, cents := Round(days * 10.0), Round(Prorated(price, p, days) * 100.0);
    RoundIff(days * 10.0, tenths);
    RoundIff(Prorated(price, p, days) * 100.0, cents);
    assert days * 10.0 == UpThisMonth(instance, p) as real / 8_640_000.0;
    assert ItemOf(prices, p, instance).daysRunning == Tenths(tenths);
    assert ItemOf(prices, p, instance).accumulatedCostUsd == Cents(cents);
  }

  /** The amount is the accumulated one scaled from the days begun to the whole month, in nearest cents. */
  ghost predicate Scales(projected: real, accumulated: real, p: Present)
    requires p.dayOfMonth > 0
  {
    exists n: int :: projected == Cents(n)
      && IsNearest(n, accumulated * p.daysInMonth as real / p.dayOfMonth as real * 100.0)
  }

  lemma ProjectionMeaning(accumulated: real, p: Present)
    requires Month(p)
    ensures Fraction(p) > 0.0 && Scales(ToCents(accumulated / Fraction(p)), accumulated, p)
  {
    InvertFraction(accumulated, p.dayOfMonth as real, p.daysInMonth as real);
    var x := accumulated / Fraction(p) * 100.0;
    RoundIff(x, Round(x));
    assert ToCents(accumulated / Fraction(p)) == Cents(Round(x));
  }

  /** One item per instance. */
  ghost predicate DescribesAll(items: seq<Item>, instances: seq<Instance>, prices: PriceList, p: Present)
    requires p.daysInMonth > 0
  {
    |items| == |instances| && forall i :: 0 <= i < |items| ==> Describes(items[i], instances[i], prices, p)
  }

  lemma ItemsMeaning(instances: seq<Instance>, prices: PriceList, p: Present)
    requires p.Valid()
    ensures DescribesAll(Items(prices, p, instances), instances, prices, p)
  {
    forall i | 0 <= i < |instances| ensures Describes(ItemOf(prices, p, instances[i]), instances[i], prices, p) {
      ItemMeaning(instances[i], prices, p);
    }
  }

  /**
   A report on whole-cent prices: one item per instance, the monthly amount is the sum of the prices, the accumulated
   amount differs from the sum of the shares by half a cent per instance at most, and the projected amount is the
   accumulated one scaled from the days begun to the whole month, in nearest cents.
   */
  lemma ReportMeaning(prices: PriceList, instances: seq<Instance>, p: Present)
    requires p.Valid() && WholeCentPrices(prices)
    ensures var r := GenerateCostReport(prices, instances, p);
      && DescribesAll(r.breakdown, instances, prices, p)
      && r.monthly == TotalPrice(prices, instances)
      && Near(r.accumulated, TotalShare(prices, p, instances), HalfCents(|instances|))
      && Scales(r.projected, r.accumulated, p)
  {
    ItemsMeaning(instances, prices, p);
    MonthlyIsTotal(prices, p, instances);
    AccumulatedIsBounded(prices, instances, p);
    ExactIsTotal(prices, p, instances);
    ProjectionMeaning(GenerateCostReport(prices, instances, p).accumulated, p);
  }

  lemma InvertFraction(x: real, day: real, d: real)
    requires day > 0.0 && d > 0.0
    ensures day / d > 0.0 && x / (day / d) == x * d / day
  {
    QuotientIsPositive(day, d);
    QuotientTimes(day, d);
    TimesQuotient(x, day / d);
    TimesQuotient(x * d, day);
    var f := day / d;
    QuotientTimes(x, f);
    assert x / f * day == x / f * (f * d) == x / f * f * d == x * d;
    TimesQuotient(x / f, day);
  }
}
