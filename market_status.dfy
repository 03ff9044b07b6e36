/**
 * US market hours (frontend/src/lib/marketStatus.ts). The Eastern-time
 * reading of the clock is a parameter: the weekday (`getDay`, 0 = Sunday),
 * the hour and the minute.
 */
module MarketStatus {

  const MarketOpen := 9 * 60 + 30
  const MarketClose := 16 * 60

  /** `isMarketOpen`: a weekday, from 9:30 up to but not including 16:00. */
  function IsMarketOpen(day: int, hour: int, minute: int): (r: bool)
    ensures (day == 0 || day == 6) ==> !r
    ensures 0 <= minute < 60 && day != 0 && day != 6 ==>
      (r <==> (hour == 9 && minute >= 30) || 10 <= hour <= 15)
  {
    var timeInMinutes := hour * 60 + minute;
    if day == 0 || day == 6 then false
    else timeInMinutes >= MarketOpen && timeInMinutes < MarketClose
  }

  /** `getMarketStatus`. */
  function GetMarketStatus(day: int, hour: int, minute: int): (r: string)
    ensures r == "Open" || r == "Closed"
    ensures r == "Open" <==> IsMarketOpen(day, hour, minute)
  {
    if IsMarketOpen(day, hour, minute) then "Open" else "Closed"
  }

  /** `getMarketStatusSubtitle`. */
  function GetMarketStatusSubtitle(day: int, hour: int, minute: int): (r: string)
    ensures r == "Trading active" || r == "Market closed"
    ensures r == "Trading active" <==> IsMarketOpen(day, hour, minute)
  {
    if IsMarketOpen(day, hour, minute) then "Trading active" else "Market closed"
  }

  // ---------------------------------------------------------------------------
  // Properties

  /** Saturday and Sunday are closed at every hour. */
  lemma WeekendClosed(day: int, hour: int, minute: int)
    requires day == 0 || day == 6
    ensures !IsMarketOpen(day, hour, minute)
    ensures GetMarketStatus(day, hour, minute) == "Closed"
    ensures GetMarketStatusSubtitle(day, hour, minute) == "Market closed"
  {
  }

  /**
   * On a clock reading (minute 0..59) of a weekday, the market is open
   * exactly from 9:30 through 15:59: at 9 o'clock from minute 30, and every
   * minute of the hours 10 to 15.
   */
  lemma OpenByClock(day: int, hour: int, minute: int)
    requires 0 <= minute < 60
    ensures IsMarketOpen(day, hour, minute) <==>
      day != 0 && day != 6 && ((hour == 9 && minute >= 30) || (10 <= hour <= 15))
  {
  }

  /** The bell times: open at 9:30 exactly, closed at 9:29 and at 16:00 exactly, open at 15:59. */
  lemma Boundaries(day: int)
    requires 1 <= day <= 5
    ensures IsMarketOpen(day, 9, 30) && IsMarketOpen(day, 15, 59)
    ensures !IsMarketOpen(day, 9, 29) && !IsMarketOpen(day, 16, 0)
  {
  }
}
