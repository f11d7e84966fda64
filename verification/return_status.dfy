/**
 * The 30-day return window of a purchase (`getReturnStatus`, `hasReturnWarning`).
 * Both the purchase date and today are taken at local midnight, so the age of a
 * purchase is a whole number of days: today's day number less the purchase day's.
 */
module ReturnStatus {
  import opened Wrappers
  import opened Text
  import opened Calendar

  /** Days after the purchase within which it can be returned. */
  const ReturnWindow: int := 30

  /** The warning starts this many days before the deadline. */
  const WarningDays: int := 7

  const ExpiredMessage: string := "Retour deadline verstreken"

  datatype Status = Normal | Warning | Expired

  datatype ReturnInfo = ReturnInfo(status: Status, daysLeft: Option<int>, message: Option<string>)

  /** Whole days from the purchase day to the day of `now`. */
  function DaysSince(purchaseDay: int, now: int): int { DayOf(now) - purchaseDay }

  /** "Nog n dag(en) om te retourneren": the number after "Nog " reads back as the days left. */
  function WarningMessage(daysLeft: int): (m: string)
    ensures |m| > 4 + |IntToString(daysLeft)| && m[..4] == "Nog "
    ensures m[4..4 + |IntToString(daysLeft)|] == IntToString(daysLeft)
    ensures ParseInt(m[4..4 + |IntToString(daysLeft)|]) == daysLeft
  {
    var n := IntToString(daysLeft);
    var m := "Nog " + n + " " + (if daysLeft == 1 then "dag" else "dagen") + " om te retourneren";
    assert m[4..4 + |n|] == n;
    ParseIntToString(daysLeft);
    m
  }

  /**
   * `getReturnStatus`: no purchase date means nothing to warn about; more than 30
   * days means the deadline has passed; within the last 7 days before it (the
   * deadline day itself included) a warning counts down; before that, all is normal.
   */
  function GetReturnStatus(purchaseDay: Option<int>, now: int): (r: ReturnInfo)
    ensures purchaseDay.None? ==> r == ReturnInfo(Normal, None, None)
    ensures purchaseDay.Some? ==> r.daysLeft.Some? && r.daysLeft.value >= 0
    ensures purchaseDay.Some? ==>
              (r.status == Expired <==> DaysSince(purchaseDay.value, now) > ReturnWindow)
    ensures purchaseDay.Some? ==>
              (r.status == Warning <==> ReturnWindow - WarningDays <= DaysSince(purchaseDay.value, now) <= ReturnWindow)
    ensures r.status == Expired ==> r.daysLeft == Some(0) && r.message == Some(ExpiredMessage)
    ensures r.status == Warning ==>
              r.daysLeft == Some(ReturnWindow - DaysSince(purchaseDay.value, now))
              && 0 <= r.daysLeft.value <= WarningDays
              && r.message == Some(WarningMessage(r.daysLeft.value))
    ensures purchaseDay.Some? && r.status == Normal ==>
              r.daysLeft == Some(ReturnWindow - DaysSince(purchaseDay.value, now))
              && r.daysLeft.value > WarningDays && r.message.None?
  {
    if purchaseDay.None? then ReturnInfo(Normal, None, None)
    else
      var daysSincePurchase := DaysSince(purchaseDay.value, now);
      var daysUntilDeadline := ReturnWindow - daysSincePurchase;
      if daysSincePurchase > ReturnWindow then ReturnInfo(Expired, Some(0), Some(ExpiredMessage))
      else if daysUntilDeadline <= WarningDays then
        ReturnInfo(Warning, Some(daysUntilDeadline), Some(WarningMessage(daysUntilDeadline)))
      else ReturnInfo(Normal, Some(daysUntilDeadline), None)
  }

  /** `hasReturnWarning`: the status is a warning or the deadline has passed. */
  function HasReturnWarning(purchaseDay: Option<int>, now: int): (b: bool)
    ensures b <==> purchaseDay.Some? && DaysSince(purchaseDay.value, now) >= ReturnWindow - WarningDays
  {
    var status := GetReturnStatus(purchaseDay, now).status;
    status == Warning || status == Expired
  }

  /** The warning says "dag" for exactly one day left and "dagen" otherwise. */
  lemma SingularDay(daysLeft: int)
    ensures WarningMessage(daysLeft) == "Nog " + IntToString(daysLeft) + " dag om te retourneren" <==> daysLeft == 1
  {
    if daysLeft != 1 {
      assert |WarningMessage(daysLeft)| == |"Nog " + IntToString(daysLeft) + " dag om te retourneren"| + 2;
    }
  }

  function Rank(s: Status): int {
    match s
    case Normal => 0
    case Warning => 1
    case Expired => 2
  }

  /** As time passes the status of a purchase only moves from normal to warning to expired. */
  lemma StatusAdvances(purchaseDay: int, earlier: int, later: int)
    requires earlier <= later
    ensures Rank(GetReturnStatus(Some(purchaseDay), earlier).status)
         <= Rank(GetReturnStatus(Some(purchaseDay), later).status)
  {
    assert DayOf(earlier) <= DayOf(later);
  }

  /** Until the deadline has passed, one day later there is one day less left. */
  lemma CountsDown(purchaseDay: int, now: int)
    requires DaysSince(purchaseDay, now) < ReturnWindow
    ensures GetReturnStatus(Some(purchaseDay), now + MsPerDay).daysLeft.value
         == GetReturnStatus(Some(purchaseDay), now).daysLeft.value - 1
  {
    assert DayOf(now + MsPerDay) == DayOf(now) + 1;
  }
}
