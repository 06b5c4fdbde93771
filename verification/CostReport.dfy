/** Prorated cost reports, in dollars as exact reals rounded half up to cents. */
module CostReport {

  const MS_PER_DAY := 86_400_000

  datatype Size = Small | Medium | Large

  /** An instance and the time it was created, in milliseconds. */
  datatype Instance = Instance(name: string, size: Size, createdAt: int)

  /** What the calendar says about the present: when its month began, how long it is, and today's date. */
  datatype Present = Present(now: int, monthStart: int, daysInMonth: nat, dayOfMonth: nat) {
    ghost predicate Valid() {
      && 1 <= dayOfMonth <= daysInMonth
      && monthStart + (dayOfMonth - 1) * MS_PER_DAY <= now < monthStart + dayOfMonth * MS_PER_DAY
    }
  }

  datatype Item = Item(name: string, size: Size, monthlyCostUsd: real, daysRunning: real, accumulatedCostUsd: real)

  datatype Report = Report(monthly: real, projected: real, accumulated: real, breakdown: seq<Item>)

  type PriceList = Size -> real

  /** Rounding to the nearest integer, halves upwards. */
  function Round(x: real): int { (x + 0.5).Floor }

  function ToCents(x: real): real { Round(x * 100.0) as real / 100.0 }

  function DaysBetween(start: int, end: int): real {
    if end <= start then 0.0 else (end - start) as real / MS_PER_DAY as real
  }

  function DaysRunning(instance: Instance, p: Present): real {
    var start := if instance.createdAt > p.monthStart then instance.createdAt else p.monthStart;
    var days := DaysBetween(start, p.now);
    if days <= p.dayOfMonth as real then days else p.dayOfMonth as real
  }

  /** The exact share of the monthly price. */
  function Prorated(price: real, p: Present, days: real): real
    requires p.daysInMonth > 0
  {
    price / p.daysInMonth as real * days
  }

  function ItemOf(prices: PriceList, p: Present, instance: Instance): Item
    requires p.daysInMonth > 0
  {
    var price := prices(instance.size);
    var days := DaysRunning(instance, p);
    Item(instance.name, instance.size, price, Round(days * 10.0) as real / 10.0, ToCents(Prorated(price, p, days)))
  }

  function Items(prices: PriceList, p: Present, instances: seq<Instance>): (items: seq<Item>)
    requires p.daysInMonth > 0
    ensures |items| == |instances|
    ensures forall i :: 0 <= i < |items| ==> items[i] == ItemOf(prices, p, instances[i])
  {
    seq(|instances|, i requires 0 <= i < |instances| => ItemOf(prices, p, instances[i]))
  }

  function SumMonthly(items: seq<Item>): real {
    if items == [] then 0.0 else SumMonthly(items[..|items| - 1]) + items[|items| - 1].monthlyCostUsd
  }

  function SumAccumulated(items: seq<Item>): real {
    if items == [] then 0.0 else SumAccumulated(items[..|items| - 1]) + items[|items| - 1].accumulatedCostUsd
  }

  function GenerateCostReport(prices: PriceList, instances: seq<Instance>, p: Present): Report
    requires p.daysInMonth > 0
  {
    var breakdown := Items(prices, p, instances);
    var monthly := SumMonthly(breakdown);
    var accumulated := ToCents(SumAccumulated(breakdown));
    var fraction := p.dayOfMonth as real / p.daysInMonth as real;
    var projected := if fraction > 0.0 then ToCents(accumulated / fraction) else monthly;
    Report(monthly, projected, accumulated, breakdown)
  }

  // ---------------------------------------------------------------------------
  // Bounds
  // ---------------------------------------------------------------------------

  /** A whole, non-negative number of cents. */
  ghost predicate WholeCents(x: real) {
    0.0 <= x && x == ToCents(x)
  }

  ghost predicate WholeCentPrices(prices: PriceList) {
    forall size :: WholeCents(prices(size))
  }

  lemma RoundIsNear(x: real)
    ensures x - 0.5 < Round(x) as real <= x + 0.5
  {
  }

  lemma CentsAreNear(x: real)
    ensures x - 0.005 <= ToCents(x) <= x + 0.005
  {
    RoundIsNear(x * 100.0);
  }

  /** Rounding does not pass a whole number of cents. */
  lemma CentsStayBelow(x: real, y: real)
    requires x <= y && y == ToCents(y)
    ensures ToCents(x) <= y
  {
    RoundIsMonotone(x * 100.0, y * 100.0);
  }

  lemma RoundIsMonotone(x: real, y: real)
    requires x <= y
    ensures Round(x) <= Round(y)
  {
  }

  lemma CentsAddUp(x: real, y: real)
    requires x == ToCents(x) && y == ToCents(y)
    ensures x + y == ToCents(x + y)
  {
    var m, n := Round(x * 100.0), Round(y * 100.0);
    assert (x + y) * 100.0 == (m + n) as real;
    RoundOfInteger(m + n);
  }

  lemma RoundOfInteger(n: int)
    ensures Round(n as real) == n
  {
  }

  lemma ToCentsIsWhole(x: real)
    ensures ToCents(ToCents(x)) == ToCents(x)
  {
    var n := Round(x * 100.0);
    assert ToCents(x) * 100.0 == n as real;
    RoundOfInteger(n);
  }

  // Arithmetic of shares, one product at a time

  lemma ProductOrder(q: real, x: real, y: real)
    requires 0.0 <= q && 0.0 <= x <= y
    ensures 0.0 <= q * x <= q * y
  {
    assert q * (y - x) >= 0.0;
  }

  lemma QuotientTimes(a: real, d: real)
    requires d > 0.0
    ensures a / d * d == a
    ensures 0.0 <= a ==> 0.0 <= a / d
  {
  }

  lemma QuotientOrder(x: real, y: real, d: real)
    requires d > 0.0 && x <= y
    ensures x / d <= y / d
  {
    QuotientTimes(x, d);
    QuotientTimes(y, d);
    assert (y / d - x / d) * d >= 0.0;
  }

  lemma TimesQuotient(x: real, d: real)
    requires d > 0.0
    ensures x * d / d == x
  {
  }

  /** A share of the price for a part of the month is at most the price for a longer part. */
  lemma ShareOrder(price: real, days: real, longer: real, d: real)
    requires 0.0 <= price && 0.0 <= days <= longer && d > 0.0
    ensures 0.0 <= price / d * days <= price / d * longer
  {
    QuotientTimes(price, d);
    ProductOrder(price / d, days, longer);
  }

  lemma SwapQuotient(price: real, x: real, d: real)
    requires d > 0.0
    ensures price / d * x == price * (x / d)
  {
  }

  lemma DaysAreBounded(instance: Instance, p: Present)
    ensures 0.0 <= DaysRunning(instance, p) <= p.dayOfMonth as real
  {
  }

  /** How many milliseconds of this month an instance has been up. */
  ghost function UpThisMonth(instance: Instance, p: Present): int {
    if p.now <= instance.createdAt then 0
    else if instance.createdAt <= p.monthStart then p.now - p.monthStart
    else p.now - instance.createdAt
  }

  /** When the calendar is consistent the cap at today's date never cuts anything off. */
  lemma CapNeverCuts(instance: Instance, p: Present)
    requires p.Valid()
    ensures DaysRunning(instance, p) * MS_PER_DAY as real == UpThisMonth(instance, p) as real
  {
    QuotientTimes(UpThisMonth(instance, p) as real, MS_PER_DAY as real);
  }

  /** The exact share, item by item. */
  ghost function ExactSum(prices: PriceList, p: Present, instances: seq<Instance>): real
    requires p.daysInMonth > 0
  {
    if instances == [] then 0.0
    else
      var last := instances[|instances| - 1];
      ExactSum(prices, p, instances[..|instances| - 1]) + Prorated(prices(last.size), p, DaysRunning(last, p))
  }

  /** How much of the month has begun. */
  function Fraction(p: Present): real
    requires p.daysInMonth > 0
  {
    p.dayOfMonth as real / p.daysInMonth as real
  }

  lemma FractionRange(p: Present)
    requires 1 <= p.dayOfMonth <= p.daysInMonth
    ensures 0.0 < Fraction(p) <= 1.0
  {
    var day, d := p.dayOfMonth as real, p.daysInMonth as real;
    QuotientOrder(day, d, d);
    QuotientIsPositive(day, d);
  }

  lemma QuotientIsPositive(x: real, d: real)
    requires d > 0.0 && x > 0.0
    ensures x / d > 0.0
  {
    assert x / d * d == x;
  }

  lemma ItemBounds(price: real, p: Present, days: real)
    requires WholeCents(price) && 1 <= p.dayOfMonth <= p.daysInMonth && 0.0 <= days <= p.dayOfMonth as real
    ensures var exact := Prorated(price, p, days);
      && 0.0 <= exact <= price * Fraction(p)
      && exact - 0.005 <= ToCents(exact) <= exact + 0.005
      && ToCents(exact) <= price
  {
    var d := p.daysInMonth as real;
    ShareOrder(price, days, p.dayOfMonth as real, d);
    ShareOrder(price, days, d, d);
    QuotientTimes(price, d);
    SwapQuotient(price, p.dayOfMonth as real, d);
    CentsAreNear(Prorated(price, p, days));
    CentsStayBelow(Prorated(price, p, days), price);
  }

  ghost predicate Month(p: Present) {
    1 <= p.dayOfMonth <= p.daysInMonth
  }

  /** The sums over a list, in terms of the list without its last instance. */
  lemma SumsUnfold(prices: PriceList, p: Present, instances: seq<Instance>)
    requires Month(p) && instances != []
    ensures var front, item := instances[..|instances| - 1], ItemOf(prices, p, instances[|instances| - 1]);
      && SumMonthly(Items(prices, p, instances)) == SumMonthly(Items(prices, p, front)) + item.monthlyCostUsd
      && SumAccumulated(Items(prices, p, instances)) == SumAccumulated(Items(prices, p, front)) + item.accumulatedCostUsd
  {
    var items := Items(prices, p, instances);
    assert items[..|items| - 1] == Items(prices, p, instances[..|instances| - 1]);
  }

  lemma {:induction false} SumsAreWholeCents(prices: PriceList, p: Present, instances: seq<Instance>)
    requires Month(p) && WholeCentPrices(prices)
    ensures SumMonthly(Items(prices, p, instances)) == ToCents(SumMonthly(Items(prices, p, instances)))
    ensures SumAccumulated(Items(prices, p, instances)) == ToCents(SumAccumulated(Items(prices, p, instances)))
  {
    if instances == [] {
      RoundOfInteger(0);
    } else {
      var front, last := instances[..|instances| - 1], instances[|instances| - 1];
      var share := Prorated(prices(last.size), p, DaysRunning(last, p));
      SumsAreWholeCents(prices, p, front);
      SumsUnfold(prices, p, instances);
      ToCentsIsWhole(share);
      CentsAddUp(SumMonthly(Items(prices, p, front)), prices(last.size));
      CentsAddUp(SumAccumulated(Items(prices, p, front)), ToCents(share));
    }
  }

  lemma {:induction false} AccumulatedIsBelowMonthly(prices: PriceList, p: Present, instances: seq<Instance>)
    requires Month(p) && WholeCentPrices(prices)
    ensures 0.0 <= SumAccumulated(Items(prices, p, instances)) <= SumMonthly(Items(prices, p, instances))
  {
    if instances == [] {
    } else {
      var front, last := instances[..|instances| - 1], instances[|instances| - 1];
      AccumulatedIsBelowMonthly(prices, p, front);
      SumsUnfold(prices, p, instances);
      DaysAreBounded(last, p);
      ItemBounds(prices(last.size), p, DaysRunning(last, p));
    }
  }

  /** Each rounding adds at most half a cent of error. */
  lemma {:induction false} ErrorIsBounded(prices: PriceList, p: Present, instances: seq<Instance>)
    requires Month(p) && WholeCentPrices(prices)
    ensures Near(SumAccumulated(Items(prices, p, instances)), ExactSum(prices, p, instances), HalfCents(|instances|))
  {
    if instances == [] {
    } else {
      var front, last := instances[..|instances| - 1], instances[|instances| - 1];
      ErrorIsBounded(prices, p, front);
      SumsUnfold(prices, p, instances);
      CentsAreNear(Prorated(prices(last.size), p, DaysRunning(last, p)));
    }
  }

  ghost predicate Near(x: real, y: real, distance: real) {
    y - distance <= x <= y + distance
  }

  /** A bound that scales each price bounds the sum by the scaled total, for any additive scale. */
  lemma {:induction false} ExactIsScaled(prices: PriceList, p: Present, instances: seq<Instance>, scale: real -> real)
    requires Month(p) && Additive(scale)
    requires forall i: Instance :: Prorated(prices(i.size), p, DaysRunning(i, p)) <= scale(prices(i.size))
    ensures ExactSum(prices, p, instances) <= scale(SumMonthly(Items(prices, p, instances)))
  {
    if instances == [] {
    } else {
      ExactIsScaled(prices, p, instances[..|instances| - 1], scale);
      SumsUnfold(prices, p, instances);
    }
  }

  ghost predicate Additive(scale: real -> real) {
    scale(0.0) == 0.0 && forall a, b :: scale(a + b) == scale(a) + scale(b)
  }

  ghost function ScaleBy(f: real): real -> real {
    x => x * f
  }

  lemma ScalingIsAdditive(f: real)
    ensures Additive(ScaleBy(f))
  {
    assert ScaleBy(f)(0.0) == 0.0;
    forall a: real, b: real ensures ScaleBy(f)(a + b) == ScaleBy(f)(a) + ScaleBy(f)(b) {
      Distribute(a, b, f);
    }
    AdditiveMeans(ScaleBy(f));
  }

  lemma AdditiveMeans(scale: real -> real)
    requires scale(0.0) == 0.0 && forall a, b :: scale(a + b) == scale(a) + scale(b)
    ensures Additive(scale)
  {
  }

  lemma Distribute(a: real, b: real, f: real)
    ensures ScaleBy(f)(a + b) == ScaleBy(f)(a) + ScaleBy(f)(b)
  {
    assert (a + b) * f == a * f + b * f;
  }

  lemma ShareIsScaled(prices: PriceList, p: Present, i: Instance)
    requires Month(p) && WholeCentPrices(prices)
    ensures Prorated(prices(i.size), p, DaysRunning(i, p)) <= ScaleBy(Fraction(p))(prices(i.size))
  {
    DaysAreBounded(i, p);
    ItemBounds(prices(i.size), p, DaysRunning(i, p));
  }

  lemma ExactIsBelowFraction(prices: PriceList, p: Present, instances: seq<Instance>)
    requires Month(p) && WholeCentPrices(prices)
    ensures ExactSum(prices, p, instances) <= ScaleBy(Fraction(p))(SumMonthly(Items(prices, p, instances)))
  {
    ScalingIsAdditive(Fraction(p));
    forall i: Instance
      ensures Prorated(prices(i.size), p, DaysRunning(i, p)) <= ScaleBy(Fraction(p))(prices(i.size))
    {
      ShareIsScaled(prices, p, i);
    }
    ExactIsScaled(prices, p, instances, ScaleBy(Fraction(p)));
  }

  lemma AtLeastScaled(x: real, d: real)
    requires 0.0 < d <= 1.0 && 0.0 <= x
    ensures x <= x / d
  {
    QuotientTimes(x, d);
    ProductOrder(x / d, d, 1.0);
  }

  /** From an accumulated amount near its exact value to the projected amount. */
  lemma AtMostScaled(x: real, whole: real, scaled: real, error: real, f: real)
    requires 0.0 < f && scaled == whole * f && x <= scaled + error
    ensures x / f <= whole + error / f
  {
    QuotientOrder(x, scaled + error, f);
    SplitQuotient(scaled, error, f);
    TimesQuotient(whole, f);
  }

  lemma SplitQuotient(a: real, b: real, d: real)
    requires d > 0.0
    ensures (a + b) / d == a / d + b / d
  {
  }

  /** The rounding error a list may gather: half a cent per instance. */
  ghost function HalfCents(n: nat): real { 0.005 * n as real }

  lemma RoundedProjection(accumulated: real, monthly: real, error: real, f: real)
    requires 0.0 < f <= 1.0 && 0.0 <= accumulated && accumulated <= ScaleBy(f)(monthly) + error
    requires accumulated == ToCents(accumulated)
    ensures accumulated <= ToCents(accumulated / f) <= monthly + 0.005 + error / f
  {
    AtMostScaled(accumulated, monthly, monthly * f, error, f);
    AtLeastScaled(accumulated, f);
    CentsAreNear(accumulated / f);
    CentsStayAbove(accumulated / f, accumulated);
  }

  lemma CentsStayAbove(x: real, y: real)
    requires y <= x && y == ToCents(y)
    ensures y <= ToCents(x)
  {
    RoundIsMonotone(y * 100.0, x * 100.0);
  }

  /**
    * Whole-cent prices keep the accumulated amount within its promise: it needs no rounding of its own, never passes
    * the monthly price and is within half a cent per instance of the exact share.
    */
  lemma AccumulatedIsBounded(prices: PriceList, instances: seq<Instance>, p: Present)
    requires Month(p) && WholeCentPrices(prices)
    ensures var r := GenerateCostReport(prices, instances, p);
      && r.accumulated == SumAccumulated(r.breakdown)
      && 0.0 <= r.accumulated <= r.monthly
      && Near(r.accumulated, ExactSum(prices, p, instances), HalfCents(|instances|))
  {
    SumsAreWholeCents(prices, p, instances);
    AccumulatedIsBelowMonthly(prices, p, instances);
    ErrorIsBounded(prices, p, instances);
  }

  /**
    * The projected amount lies between the accumulated one and the monthly one, give or take half a cent and the
    * rounding error of the list scaled up to the whole month.
    */
  lemma ProjectedIsBounded(prices: PriceList, instances: seq<Instance>, p: Present)
    requires Month(p) && WholeCentPrices(prices)
    ensures Fraction(p) > 0.0
    ensures var r := GenerateCostReport(prices, instances, p);
      && r.accumulated <= r.projected <= r.monthly + 0.005 + HalfCents(|instances|) / Fraction(p)
      && Near(r.projected, r.accumulated / Fraction(p), 0.005)
  {
    var r := GenerateCostReport(prices, instances, p);
    FractionRange(p);
    AccumulatedIsBounded(prices, instances, p);
    SumsAreWholeCents(prices, p, instances);
    ExactIsBelowFraction(prices, p, instances);
    RoundedProjection(r.accumulated, r.monthly, HalfCents(|instances|), Fraction(p));
    CentsAreNear(r.accumulated / Fraction(p));
  }

}
