/**
 * Period earnings (`calculateMockPeriodEarnings`): a week, a month and a year
 * window, each shifted into the past by its own offset, and the earnings, profit
 * and number of units sold within each window, bounds included.
 */
module Periods {
  import opened Wrappers
  import opened Calendar
  import opened Inventory

  /** A closed interval of instants. */
  datatype Window = Window(start: int, end: int)

  predicate InWindow(w: Window, t: int) { w.start <= t <= w.end }

  datatype PeriodStats = PeriodStats(earned: int, profit: int, sales: int, startDate: int, endDate: int)

  datatype PeriodEarnings = PeriodEarnings(week: PeriodStats, month: PeriodStats, year: PeriodStats)

  /**
   * `getWeekRange`: a copy of `now` moved to the Monday of its week (`getDay()`
   * counts Sunday as 0, so from a Sunday this is the next day) plus `offset`
   * weeks, keeping now's time of day; the end is six days later.
   */
  function WeekWindow(now: int, offset: int): (w: Window)
    ensures TimeOfDay(w.start) == TimeOfDay(now)
    ensures DayOf(w.start) == DayOf(now) - Weekday(DayOf(now)) + 1 + 7 * offset
    ensures w.end == w.start + 6 * MsPerDay
  {
    var day := DayOf(now) - Weekday(DayOf(now)) + 1 + 7 * offset;
    DayOfMidnight(day, TimeOfDay(now));
    var start := Midnight(day) + TimeOfDay(now);
    Window(start, start + 6 * MsPerDay)
  }

  /**
   * `getMonthRange`: local midnight of day 1 of the month `offset` months from
   * now's, to local midnight of day 0 of the month after it.
   */
  function MonthWindow(now: int, offset: int): (w: Window)
    ensures TimeOfDay(w.start) == 0 && TimeOfDay(w.end) == 0
    ensures w.end - w.start == (DaysInMonth(ShiftedYear(now, offset), ShiftedMonth(now, offset)) - 1) * MsPerDay
  {
    MonthSpan(FullYear(now), Month0(now) + offset)
  }

  /**
   * `new Date(y, k, 1)` to `new Date(y, k + 1, 0)`, both at local midnight: the
   * window spans the days of the month that index `k` falls in, carried into the year.
   */
  function MonthSpan(y: int, k: int): (w: Window)
    ensures TimeOfDay(w.start) == 0 && TimeOfDay(w.end) == 0
    ensures w.end - w.start == (DaysInMonth(y + k / 12, k % 12 + 1) - 1) * MsPerDay
  {
    MonthEndDay(y, k);
    MidnightsApart(MakeDay(y, k, 1), MakeDay(y, k + 1, 0));
    Window(Midnight(MakeDay(y, k, 1)), Midnight(MakeDay(y, k + 1, 0)))
  }

  /**
   * `getYearRange`: local midnight of January 1st to local midnight of December
   * 31st: the window is one day shorter than the year.
   */
  function YearWindow(now: int, offset: int): (w: Window)
    ensures TimeOfDay(w.start) == 0 && TimeOfDay(w.end) == 0
    ensures w.end - w.start == (DaysInYear(FullYear(now) + offset) - 1) * MsPerDay
  {
    var year := FullYear(now) + offset;
    var first, last := MakeDay(year, 0, 1), MakeDay(year, 11, 31);
    DaysBeforeMonthStep(year, 12);
    assert first == YearStart(year) && last == YearStart(year) + DaysInYear(year) - 1;
    MidnightsApart(first, last);
    Window(Midnight(first), Midnight(last))
  }

  /** The week window starts on a Monday, at every offset. */
  lemma WeekStartsOnMonday(now: int, offset: int)
    ensures Weekday(DayOf(WeekWindow(now, offset).start)) == 1
  {
  }

  /** The current week's window holds `now` exactly on Monday to Saturday. */
  lemma WeekWindowHoldsNow(now: int)
    ensures InWindow(WeekWindow(now, 0), now) <==> Weekday(DayOf(now)) != 0
  {
    if Weekday(DayOf(now)) == 0 {
      WeekWindowOnSunday(now);
    } else {
      var w := WeekWindow(now, 0);
      var d := DayOf(now);
      assert now == Midnight(d) + TimeOfDay(now);
      assert w.start == Midnight(DayOf(w.start)) + TimeOfDay(now);
    }
  }

  /** On a Sunday the "current" week's window starts the next day, after `now`. */
  lemma WeekWindowOnSunday(now: int)
    requires Weekday(DayOf(now)) == 0
    ensures DayOf(WeekWindow(now, 0).start) == DayOf(now) + 1
    ensures !InWindow(WeekWindow(now, 0), now)
  {
    var w := WeekWindow(now, 0);
    assert now == Midnight(DayOf(now)) + TimeOfDay(now);
    assert w.start == Midnight(DayOf(now) + 1) + TimeOfDay(now);
  }

  /** `new Date(y, k + 1, 0)` is the last day of the month `new Date(y, k, 1)` starts. */
  lemma MonthEndDay(y: int, k: int)
    ensures MakeDay(y, k + 1, 0) == MakeDay(y, k, 1) + DaysInMonth(y + k / 12, k % 12 + 1) - 1
  {
    var year := y + k / 12;
    DaysBeforeMonthStep(year, k % 12 + 1);
    if k % 12 == 11 {
      assert (k + 1) / 12 == k / 12 + 1 && (k + 1) % 12 == 0;
      YearStartStep(year);
    } else {
      assert (k + 1) / 12 == k / 12 && (k + 1) % 12 == k % 12 + 1;
    }
  }

  /** The year of the month `offset` months from now's, with carries. */
  function ShiftedYear(now: int, offset: int): int { FullYear(now) + (Month0(now) + offset) / 12 }

  /** The month (1..12) `offset` months from now's. */
  function ShiftedMonth(now: int, offset: int): (m: int)
    ensures 1 <= m <= 12
  {
    (Month0(now) + offset) % 12 + 1
  }

  /**
   * The month window runs from midnight of the first day to midnight of the last
   * day of the month `offset` months from now's, with years carried.
   */
  lemma MonthWindowShape(now: int, offset: int)
    ensures DayOf(MonthWindow(now, offset).start)
         == YearStart(ShiftedYear(now, offset)) + DaysBeforeMonth(ShiftedYear(now, offset), ShiftedMonth(now, offset))
    ensures DayOf(MonthWindow(now, offset).end)
         == DayOf(MonthWindow(now, offset).start) + DaysInMonth(ShiftedYear(now, offset), ShiftedMonth(now, offset)) - 1
    ensures TimeOfDay(MonthWindow(now, offset).start) == 0 && TimeOfDay(MonthWindow(now, offset).end) == 0
  {
    var y, k := FullYear(now), Month0(now) + offset;
    var sy, sm := ShiftedYear(now, offset), ShiftedMonth(now, offset);
    var w := MonthWindow(now, offset);
    assert w == MonthSpan(y, k);
    MonthSpanShape(y, k, sy, sm);
    assert DayOf(w.start) == YearStart(sy) + DaysBeforeMonth(sy, sm);
    assert DayOf(w.end) == DayOf(w.start) + DaysInMonth(sy, sm) - 1;
  }

  /**
   * The span of month index `k` from year `y` starts and ends at midnight, on the
   * first and the last day of month `sm` of year `sy`, the index carried into the year.
   */
  lemma MonthSpanShape(y: int, k: int, sy: int, sm: int)
    requires sy == y + k / 12 && sm == k % 12 + 1
    ensures 1 <= sm <= 12
    ensures var w := MonthSpan(y, k);
            DayOf(w.start) == YearStart(sy) + DaysBeforeMonth(sy, sm)
            && DayOf(w.end) == DayOf(w.start) + DaysInMonth(sy, sm) - 1
            && TimeOfDay(w.start) == 0 && TimeOfDay(w.end) == 0
  {
    var first, last := MakeDay(y, k, 1), MakeDay(y, k + 1, 0);
    MonthEndDay(y, k);
    DayOfMidnight(first, 0);
    DayOfMidnight(last, 0);
  }

  /** The current month's window begins on or before today and ends on or after it. */
  lemma MonthWindowHoldsToday(now: int)
    ensures DayOf(MonthWindow(now, 0).start) <= DayOf(now) <= DayOf(MonthWindow(now, 0).end)
  {
    var y, m := FullYear(now), Month0(now) + 1;
    CurrentMonth(now);
    MonthWindowShape(now, 0);
    DaysBeforeMonthStep(y, m);
    var first := YearStart(y) + DaysBeforeMonth(y, m);
    assert DayOf(MonthWindow(now, 0).start) == first;
    assert DayOf(MonthWindow(now, 0).end) == first + DaysInMonth(y, m) - 1;
  }

  /** With no offset the shifted month is now's own month. */
  lemma CurrentMonth(now: int)
    ensures ShiftedYear(now, 0) == FullYear(now)
    ensures ShiftedMonth(now, 0) == Month0(now) + 1
    ensures DaysBeforeMonth(FullYear(now), Month0(now) + 1) <= DayOf(now) - YearStart(FullYear(now))
    ensures DayOf(now) - YearStart(FullYear(now)) < DaysBeforeMonth(FullYear(now), Month0(now) + 2)
  {
    var m0 := Month0(now);
    assert m0 / 12 == 0 && m0 % 12 == m0;
  }

  /**
   * The window ends at midnight, so on the last day of a month any moment after
   * midnight falls outside the current month's window.
   */
  lemma MonthWindowMissesLastDay(now: int)
    requires DayOf(now) == DayOf(MonthWindow(now, 0).end)
    requires TimeOfDay(now) > 0
    ensures !InWindow(MonthWindow(now, 0), now)
  {
    MonthWindowShape(now, 0);
    assert now == Midnight(DayOf(now)) + TimeOfDay(now);
  }

  /** The year window runs from midnight of January 1st to midnight of December 31st. */
  lemma YearWindowShape(now: int, offset: int)
    ensures var w := YearWindow(now, offset);
            && DayOf(w.start) == YearStart(FullYear(now) + offset)
            && DayOf(w.end) == YearStart(FullYear(now) + offset + 1) - 1
            && TimeOfDay(w.start) == 0 && TimeOfDay(w.end) == 0
  {
    var year := FullYear(now) + offset;
    YearStartStep(year);
    DaysBeforeMonthStep(year, 12);
    DayOfMidnight(MakeDay(year, 0, 1), 0);
    DayOfMidnight(MakeDay(year, 11, 31), 0);
  }

  /** An instant at midnight is the midnight of its own day. */
  lemma AtMidnight(t: int)
    requires TimeOfDay(t) == 0
    ensures t == Midnight(DayOf(t))
  {
  }

  /** This month's first and last days lie within this year's. */
  lemma MonthDaysWithinYear(now: int)
    ensures DayOf(YearWindow(now, 0).start) <= DayOf(MonthWindow(now, 0).start)
    ensures DayOf(MonthWindow(now, 0).end) <= DayOf(YearWindow(now, 0).end)
  {
    var y, m := FullYear(now), Month0(now) + 1;
    CurrentMonth(now);
    MonthWindowShape(now, 0);
    YearWindowShape(now, 0);
    YearStartStep(y);
    DaysBeforeMonthStep(y, m);
    DaysBeforeMonthMonotone(y, m + 1, 13);
  }

  /** This month's window lies inside this year's window. */
  lemma MonthWithinYear(now: int)
    ensures YearWindow(now, 0).start <= MonthWindow(now, 0).start
    ensures MonthWindow(now, 0).end <= YearWindow(now, 0).end
  {
    MonthDaysWithinYear(now);
    MonthWindowShape(now, 0);
    YearWindowShape(now, 0);
    var mw, yw := MonthWindow(now, 0), YearWindow(now, 0);
    AtMidnight(mw.start);
    AtMidnight(mw.end);
    AtMidnight(yw.start);
    AtMidnight(yw.end);
    assert Midnight(DayOf(yw.start)) <= Midnight(DayOf(mw.start));
    assert Midnight(DayOf(mw.end)) <= Midnight(DayOf(yw.end));
  }

  /** `MOCK_PRODUCTS.find(...)`: the first product, deleted or not, that has the size. */
  function FindOwner(products: seq<Product>, sizeId: string): (r: Option<Product>)
    ensures r.Some? ==> exists i :: 0 <= i < |products| && products[i] == r.value
                                    && HasSize(r.value, sizeId)
                                    && forall k :: 0 <= k < i ==> !HasSize(products[k], sizeId)
    ensures r.None? <==> forall i :: 0 <= i < |products| ==> !HasSize(products[i], sizeId)
  {
    if |products| == 0 then None
    else if HasSize(products[0], sizeId) then Some(products[0])
    else
      assert forall i :: 1 <= i < |products| ==> products[i] == products[1..][i - 1];
      FindOwner(products[1..], sizeId)
  }

  /** Revenue of the sales inside the window. */
  function WindowEarned(sales: seq<Sale>, w: Window): int {
    if |sales| == 0 then 0
    else
      var s := sales[|sales| - 1];
      WindowEarned(sales[..|sales| - 1], w) + (if InWindow(w, s.soldAt) then s.salePrice * s.quantity else 0)
  }

  /** Units (not sale records) sold inside the window. */
  function WindowUnits(sales: seq<Sale>, w: Window): int {
    if |sales| == 0 then 0
    else
      var s := sales[|sales| - 1];
      WindowUnits(sales[..|sales| - 1], w) + (if InWindow(w, s.soldAt) then s.quantity else 0)
  }

  /** The margin a sale made over its product's purchase price; nothing when no product owns its size. */
  function SaleProfit(products: seq<Product>, s: Sale): int {
    match FindOwner(products, s.sizeId)
    case Some(p) => (s.salePrice - p.purchasePrice) * s.quantity
    case None => 0
  }

  /** Profit of the sales inside the window. */
  function WindowProfit(sales: seq<Sale>, products: seq<Product>, w: Window): int {
    if |sales| == 0 then 0
    else
      var s := sales[|sales| - 1];
      WindowProfit(sales[..|sales| - 1], products, w) + (if InWindow(w, s.soldAt) then SaleProfit(products, s) else 0)
  }

  /** `calculatePeriodStats`: one pass over the sales, accumulating those inside the window. */
  method CalculatePeriodStats(sales: seq<Sale>, products: seq<Product>, w: Window) returns (earned: int, profit: int, units: int)
    ensures earned == WindowEarned(sales, w)
    ensures profit == WindowProfit(sales, products, w)
    ensures units == WindowUnits(sales, w)
  {
    earned, profit, units := 0, 0, 0;
    var i := 0;
    while i < |sales|
      invariant 0 <= i <= |sales|
      invariant earned == WindowEarned(sales[..i], w)
      invariant profit == WindowProfit(sales[..i], products, w)
      invariant units == WindowUnits(sales[..i], w)
    {
      var sale := sales[i];
      assert sales[..i + 1][..i] == sales[..i];
      if w.start <= sale.soldAt && sale.soldAt <= w.end {
        earned := earned + sale.salePrice * sale.quantity;
        units := units + sale.quantity;
        var product := FindOwner(products, sale.sizeId);
        if product.Some? {
          profit := profit + (sale.salePrice - product.value.purchasePrice) * sale.quantity;
        }
      }
      i := i + 1;
    }
    assert sales[..i] == sales;
  }

  /** `calculateMockPeriodEarnings`: the three windows and their figures; dates are days. */
  method CalculatePeriodEarnings(products: seq<Product>, sales: seq<Sale>, now: int,
                                 weekOffset: int, monthOffset: int, yearOffset: int)
    returns (r: PeriodEarnings)
    ensures r == EarningsAt(products, sales, now, weekOffset, monthOffset, yearOffset)
  {
    var weekRange := WeekWindow(now, weekOffset);
    var monthRange := MonthWindow(now, monthOffset);
    var yearRange := YearWindow(now, yearOffset);
    var we, wp, wu := CalculatePeriodStats(sales, products, weekRange);
    var me, mp, mu := CalculatePeriodStats(sales, products, monthRange);
    var ye, yp, yu := CalculatePeriodStats(sales, products, yearRange);
    r := PeriodEarnings(
      PeriodStats(we, wp, wu, DayOf(weekRange.start), DayOf(weekRange.end)),
      PeriodStats(me, mp, mu, DayOf(monthRange.start), DayOf(monthRange.end)),
      PeriodStats(ye, yp, yu, DayOf(yearRange.start), DayOf(yearRange.end)));
  }

  /** The figures of the week, month and year the offsets select. */
  function EarningsAt(products: seq<Product>, sales: seq<Sale>, now: int,
                      weekOffset: int, monthOffset: int, yearOffset: int): PeriodEarnings
  {
    PeriodEarnings(Summary(sales, products, WeekWindow(now, weekOffset)),
                   Summary(sales, products, MonthWindow(now, monthOffset)),
                   Summary(sales, products, YearWindow(now, yearOffset)))
  }

  /** The figures of one window, with its bounds as the days they fall on. */
  function Summary(sales: seq<Sale>, products: seq<Product>, w: Window): PeriodStats {
    PeriodStats(WindowEarned(sales, w), WindowProfit(sales, products, w), WindowUnits(sales, w),
                DayOf(w.start), DayOf(w.end))
  }

  /** A window inside another counts no more units, when no sale has a negative quantity. */
  lemma {:induction false} UnitsMonotone(sales: seq<Sale>, inner: Window, outer: Window)
    requires outer.start <= inner.start && inner.end <= outer.end
    requires forall i :: 0 <= i < |sales| ==> sales[i].quantity >= 0
    ensures WindowUnits(sales, inner) <= WindowUnits(sales, outer)
  {
    if |sales| > 0 {
      UnitsMonotone(sales[..|sales| - 1], inner, outer);
    }
  }

  /**
   * With non-negative prices and quantities the profit never exceeds the revenue:
   * an owned sale gives up its purchase cost, an unowned one adds revenue only.
   */
  lemma {:induction false} ProfitAtMostEarned(sales: seq<Sale>, products: seq<Product>, w: Window)
    requires forall i :: 0 <= i < |sales| ==> sales[i].quantity >= 0 && sales[i].salePrice >= 0
    requires forall i :: 0 <= i < |products| ==> products[i].purchasePrice >= 0
    ensures WindowProfit(sales, products, w) <= WindowEarned(sales, w)
  {
    if |sales| > 0 {
      var s := sales[|sales| - 1];
      ProfitAtMostEarned(sales[..|sales| - 1], products, w);
      match FindOwner(products, s.sizeId)
      case Some(p) =>
        assert (s.salePrice - p.purchasePrice) * s.quantity <= s.salePrice * s.quantity by {
          assert (s.salePrice - p.purchasePrice) * s.quantity == s.salePrice * s.quantity - p.purchasePrice * s.quantity;
          assert p.purchasePrice * s.quantity >= 0;
        }
      case None =>
        assert s.salePrice * s.quantity >= 0;
    }
  }

  /** A sale outside every product's sizes adds to the revenue but not to the profit. */
  lemma UnownedSaleProfit(sales: seq<Sale>, products: seq<Product>, w: Window, s: Sale)
    requires InWindow(w, s.soldAt)
    requires forall i :: 0 <= i < |products| ==> !HasSize(products[i], s.sizeId)
    ensures WindowEarned(sales + [s], w) == WindowEarned(sales, w) + s.salePrice * s.quantity
    ensures WindowProfit(sales + [s], products, w) == WindowProfit(sales, products, w)
  {
    assert (sales + [s])[..|sales|] == sales;
  }
}
