/**
 * The statistics page: ISO week numbers and the labels of the period cards, the
 * return-on-investment and sell-through ratios, the forward buttons of the
 * period navigation and the starting-budget editor.
 */
module StatsPage {
  import opened Wrappers
  import opened Text
  import opened Calendar
  import opened Inventory
  import Accounting
  import Periods
  import Store

  // ---------------------------------------------------------------- week numbers

  /** The Thursday of the Monday-to-Sunday week that holds `day`. */
  function IsoThursday(day: int): int {
    var dayNum := if Weekday(day) == 0 then 7 else Weekday(day);
    day + 4 - dayNum
  }

  /**
   * `getWeekNumber`: the ISO 8601 week of `day`. A week belongs to the year its
   * Thursday falls in and is counted from the week holding that year's first Thursday.
   */
  function GetWeekNumber(day: int): (w: int)
    ensures 1 <= w <= 53
  {
    var d := IsoThursday(day);
    var yearStart := YearStart(YearOf(d));
    YearStartStep(YearOf(d));
    (d - yearStart + 1 + 6) / 7
  }

  /** Monday to Sunday of one week share their week number. */
  lemma SameWeek(monday: int, k: int)
    requires Weekday(monday) == 1 && 0 <= k < 7
    ensures GetWeekNumber(monday + k) == GetWeekNumber(monday)
  {
    MondayThursday(monday, k);
    MondayThursday(monday, 0);
  }

  /** Every day of the week that starts on `monday` has that week's Thursday. */
  lemma MondayThursday(monday: int, k: int)
    requires Weekday(monday) == 1 && 0 <= k < 7
    ensures IsoThursday(monday + k) == monday + 3
  {
    var q := (monday + 4) / 7;
    assert monday + 4 == 7 * q + 1;
    assert monday + k + 4 == 7 * q + (k + 1);
    if k == 6 {
      assert Weekday(monday + k) == 0;
    } else {
      assert Weekday(monday + k) == k + 1;
    }
  }

  /** January 4th always lies in week 1. */
  lemma FourthOfJanuaryInWeekOne(y: int)
    ensures GetWeekNumber(YearStart(y) + 3) == 1
  {
    var d := IsoThursday(YearStart(y) + 3);
    YearStartStep(y);
    YearOfUnique(d, y);
  }

  /** Within one ISO year, the next week has the next number. */
  lemma NextWeek(day: int)
    requires YearOf(IsoThursday(day + 7)) == YearOf(IsoThursday(day))
    ensures GetWeekNumber(day + 7) == GetWeekNumber(day) + 1
  {
    assert Weekday(day + 7) == Weekday(day);
    assert IsoThursday(day + 7) == IsoThursday(day) + 7;
  }

  // ---------------------------------------------------------------- labels

  /** A period label: fixed text, or a month and year that the page spells out in Dutch. */
  datatype Label = Text(text: string) | MonthOfYear(year: int, month: int)

  /** The label of the current period of a kind. */
  function CurrentLabel(t: Store.PeriodType): string {
    match t
    case Week => "Deze Week"
    case Month => "Deze Maand"
    case Year => "Dit Jaar"
  }

  /**
   * `formatPeriodLabel`: without a start date only the current period has a name.
   * Weeks show their ISO number ("Deze Week (n)", "Vorige Week (n)", "Week n"),
   * earlier months their month and year, earlier years the year.
   */
  function FormatPeriodLabel(t: Store.PeriodType, startDay: Option<int>, offset: int): (l: Label)
    ensures startDay.None? ==> l == Text(if offset == 0 then CurrentLabel(t) else "")
    ensures startDay.Some? && offset == 0 && t != Store.Week ==> l == Text(CurrentLabel(t))
    ensures startDay.Some? && t == Store.Week && offset == 0 ==>
              l == Text("Deze Week (" + IntToString(GetWeekNumber(startDay.value)) + ")")
    ensures startDay.Some? && t == Store.Week && offset == -1 ==>
              l == Text("Vorige Week (" + IntToString(GetWeekNumber(startDay.value)) + ")")
    ensures startDay.Some? && t == Store.Week && offset != 0 && offset != -1 ==>
              l == Text("Week " + IntToString(GetWeekNumber(startDay.value)))
    ensures startDay.Some? && offset != 0 && t == Store.Month ==>
              l == MonthOfYear(YearOf(startDay.value), MonthOf(YearOf(startDay.value), startDay.value))
    ensures startDay.Some? && offset != 0 && t == Store.Year ==> l == Text(IntToString(YearOf(startDay.value)))
  {
    if startDay.None? then
      Text(if offset == 0 then CurrentLabel(t) else "")
    else
      var day := startDay.value;
      match t
      case Week =>
        var weekNum := IntToString(GetWeekNumber(day));
        if offset == 0 then Text("Deze Week (" + weekNum + ")")
        else if offset == -1 then Text("Vorige Week (" + weekNum + ")")
        else Text("Week " + weekNum)
      case Month =>
        if offset == 0 then Text("Deze Maand")
        else MonthOfYear(YearOf(day), MonthOf(YearOf(day), day))
      case Year =>
        if offset == 0 then Text("Dit Jaar")
        else Text(IntToString(YearOf(day)))
  }

  /**
   * The current week's card shows today's ISO week number; on a Sunday it shows
   * the next day's, since the window has already moved on to the coming week.
   */
  lemma CurrentWeekLabel(now: int)
    ensures Weekday(DayOf(now)) != 0 ==>
              FormatPeriodLabel(Store.Week, Some(DayOf(Periods.WeekWindow(now, 0).start)), 0)
              == Text("Deze Week (" + IntToString(GetWeekNumber(DayOf(now))) + ")")
    ensures Weekday(DayOf(now)) == 0 ==>
              FormatPeriodLabel(Store.Week, Some(DayOf(Periods.WeekWindow(now, 0).start)), 0)
              == Text("Deze Week (" + IntToString(GetWeekNumber(DayOf(now) + 1)) + ")")
  {
    var monday := DayOf(Periods.WeekWindow(now, 0).start);
    if Weekday(DayOf(now)) == 0 {
      Periods.WeekWindowOnSunday(now);
    } else {
      Periods.WeekStartsOnMonday(now, 0);
      SameWeek(monday, Weekday(DayOf(now)) - 1);
    }
  }

  /** An earlier year's card shows that year, `offset` years from now's. */
  lemma PastYearLabel(now: int, offset: int)
    requires offset != 0
    ensures FormatPeriodLabel(Store.Year, Some(DayOf(Periods.YearWindow(now, offset).start)), offset)
         == Text(IntToString(FullYear(now) + offset))
  {
    Periods.YearWindowShape(now, offset);
    YearOfYearStart(FullYear(now) + offset);
  }

  /** An earlier month's card shows the month `offset` months from now's, years carried. */
  lemma PastMonthLabel(now: int, offset: int)
    requires offset != 0
    ensures FormatPeriodLabel(Store.Month, Some(DayOf(Periods.MonthWindow(now, offset).start)), offset)
         == MonthOfYear(Periods.ShiftedYear(now, offset), Periods.ShiftedMonth(now, offset))
  {
    var y, m := Periods.ShiftedYear(now, offset), Periods.ShiftedMonth(now, offset);
    var day := DayOf(Periods.MonthWindow(now, offset).start);
    Periods.MonthWindowShape(now, offset);
    YearStartStep(y);
    DaysBeforeMonthStep(y, m);
    DaysBeforeMonthStep(y, 12);
    DaysBeforeMonthMonotone(y, m + 1, 13);
    YearOfUnique(day, y);
    MonthOfUnique(y, day, m);
  }

  // ---------------------------------------------------------------- ratios

  /** Net profit as a percentage of what was invested; 0 when nothing was invested. */
  function ProfitPercentage(stats: Accounting.Stats): (r: real)
    ensures stats.totalInvested <= 0 ==> r == 0.0
    ensures stats.totalInvested > 0 ==> (r > 0.0 <==> stats.netProfit > 0) && (r < 0.0 <==> stats.netProfit < 0)
    ensures stats.totalInvested > 0 ==> r * stats.totalInvested as real == stats.netProfit as real * 100.0
  {
    if stats.totalInvested > 0 then (stats.netProfit as real / stats.totalInvested as real) * 100.0 else 0.0
  }

  /** Units sold as a percentage of all units; 0 when there are none. */
  function SellThroughRate(stats: Accounting.Stats): (r: real)
    ensures stats.totalItemsSold + stats.totalItemsAvailable <= 0 ==> r == 0.0
    ensures stats.totalItemsSold >= 0 && stats.totalItemsAvailable >= 0 ==> 0.0 <= r <= 100.0
    ensures stats.totalItemsSold > 0 && stats.totalItemsAvailable == 0 ==> r == 100.0
    ensures stats.totalItemsSold == 0 ==> r == 0.0
  {
    var units := stats.totalItemsSold + stats.totalItemsAvailable;
    if units > 0 then (stats.totalItemsSold as real / units as real) * 100.0 else 0.0
  }

  /** On the statistics of valid stock the sell-through rate is the sold share of every unit stocked. */
  lemma SellThroughOfStock(products: seq<Product>, sales: seq<Sale>, budget: int)
    requires StockValid(products)
    ensures var r := SellThroughRate(Accounting.Figures(products, sales, budget));
            0.0 <= r <= 100.0
            && (Accounting.ActiveFigure(Accounting.Units, products) > 0 ==>
                  r * Accounting.ActiveFigure(Accounting.Units, products) as real
                  == Accounting.ActiveFigure(Accounting.ItemsSold, products) as real * 100.0)
  {
    var stats := Accounting.Figures(products, sales, budget);
    Accounting.CountBounds(products);
    assert stats.totalItemsSold == Accounting.ActiveFigure(Accounting.ItemsSold, products);
    assert stats.totalItemsAvailable >= 0;
    SoldShare(stats.totalItemsSold, stats.totalItemsSold + stats.totalItemsAvailable);
  }

  /** The percentage a share of a positive whole makes, and its bounds. */
  lemma SoldShare(sold: int, units: int)
    requires 0 <= sold <= units
    ensures units > 0 ==> 0.0 <= (sold as real / units as real) * 100.0 <= 100.0
    ensures units > 0 ==> (sold as real / units as real) * 100.0 * units as real == sold as real * 100.0
  {
    if units > 0 {
      var q := sold as real / units as real;
      assert q * units as real == sold as real;
      assert 0.0 <= q <= 1.0;
    }
  }

  // ---------------------------------------------------------------- navigation

  /** The forward button: disabled while loading and in the current period. */
  function ForwardDisabled(periodLoading: bool, offset: int): (disabled: bool)
    ensures offset >= 0 ==> disabled
    ensures periodLoading ==> disabled
    ensures !periodLoading && offset < 0 ==> !disabled
    ensures !disabled ==> Store.Navigated(offset, 1) == offset + 1
  {
    periodLoading || offset >= 0
  }

  /**
   * Whenever the forward button can be pressed it moves exactly one period on,
   * and it can be pressed (when not loading) exactly in a past period.
   */
  lemma ForwardMovesOne(offset: int)
    requires offset <= 0
    ensures !ForwardDisabled(false, offset) <==> offset < 0
    ensures !ForwardDisabled(false, offset) ==> Store.Navigated(offset, 1) == offset + 1
  {
  }

  // ---------------------------------------------------------------- budget

  const InvalidBudget: string := "Voer een geldig bedrag in (minimaal €0.00)"

  /** A typed amount in whole cents, fractions of a cent dropped. */
  function Cents(amount: real): int { (amount * 100.0).Floor }

  /** The amount the editor opens with reads back as the budget itself, and is accepted. */
  lemma PrefilledBudget(budget: int)
    requires budget >= 0
    ensures ParseFloat(FormatCents(budget)).Some?
    ensures ParseFloat(FormatCents(budget)).value >= 0.0
    ensures Cents(ParseFloat(FormatCents(budget)).value) == budget
  {
    ParseFormatCents(budget);
  }

  /** The budget editor's state on the statistics page. */
  class BudgetEditor {
    var isEditing: bool
    var budgetValue: string
    var budgetError: string
    var budgetSuccess: bool

    constructor()
      ensures !isEditing && budgetValue == "" && budgetError == "" && !budgetSuccess
    {
      isEditing, budgetValue, budgetError, budgetSuccess := false, "", "", false;
    }

    /** `handleEditBudget`: open the editor on the current budget with two decimals. */
    method EditBudget(stats: Accounting.Stats)
      modifies this
      ensures isEditing && budgetValue == FormatCents(stats.startingBudget)
      ensures budgetError == "" && !budgetSuccess
    {
      budgetValue := FormatCents(stats.startingBudget);
      isEditing := true;
      budgetError := "";
      budgetSuccess := false;
    }

    /** The input's `onChange`. */
    method SetBudgetValue(text: string)
      modifies this
      ensures budgetValue == text
      ensures isEditing == old(isEditing) && budgetError == old(budgetError) && budgetSuccess == old(budgetSuccess)
    {
      budgetValue := text;
    }

    /** `handleCancelEdit`: close the editor and forget the typed value. */
    method CancelEdit()
      modifies this
      ensures !isEditing && budgetValue == "" && budgetError == "" && !budgetSuccess
    {
      isEditing := false;
      budgetValue := "";
      budgetError := "";
      budgetSuccess := false;
    }

    /**
     * `handleSaveBudget`: an amount that is not a number or is negative is refused
     * with a message and the editor stays open; otherwise it becomes the starting
     * budget and the editor closes with a success notice.
     */
    method SaveBudget(store: Store.StatsStore)
      requires store.Valid()
      modifies this, store
      ensures store.Valid()
      ensures var amount := ParseFloat(old(budgetValue));
              (amount.None? || amount.value < 0.0) <==> budgetError == InvalidBudget
      ensures budgetError == InvalidBudget ==>
                !budgetSuccess && isEditing == old(isEditing)
                && store.startingBudget == old(store.startingBudget) && store.stats == old(store.stats)
      ensures budgetError != InvalidBudget ==>
                budgetError == "" && budgetSuccess && !isEditing
                && store.startingBudget == Cents(ParseFloat(old(budgetValue)).value)
      ensures budgetValue == old(budgetValue)
      ensures store.offsets == old(store.offsets) && store.periodEarnings == old(store.periodEarnings)
    {
      budgetError := "";
      budgetSuccess := false;
      var amount := ParseFloat(budgetValue);
      if amount.None? || amount.value < 0.0 {
        budgetError := InvalidBudget;
        return;
      }
      store.UpdateStartingBudget(Cents(amount.value));
      isEditing := false;
      budgetSuccess := true;
    }
  }
}
