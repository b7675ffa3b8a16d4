/** The campus-schedule context the route scorers derive from a clock reading.
    The thresholds are product heuristics, kept exactly as the scorers use them. */
module CampusTime {

  /** A wall-clock reading as `Date.getHours()` (0..23) and `Date.getMinutes()` (0..59) report it. */
  datatype Clock = Clock(hour: int, minute: int)

  /** Students move between classes around :50-:05 and :20-:30. */
  predicate IsClassChangeTime(minute: int)
  {
    (minute >= 50 || minute <= 5) || (minute >= 20 && minute <= 30)
  }

  /** 8 AM to 5 PM inclusive. */
  predicate IsPeakHours(hour: int)
  {
    hour >= 8 && hour <= 17
  }

  /** The path-quality scorer's notion of darkness: from 6 PM to 6 AM. */
  predicate IsDarkForPaths(hour: int)
  {
    hour >= 18 || hour <= 6
  }

  /** The path-quality scorer's shade window: 11 AM to 3 PM inclusive. */
  predicate IsMidday(hour: int)
  {
    hour >= 11 && hour <= 15
  }

  /** The weight table's notion of night: from 8 PM to 6 AM. */
  predicate IsNightForWeights(hour: int)
  {
    hour >= 20 || hour <= 6
  }

  /** The two night windows disagree exactly at 6 PM and 7 PM: there the path-quality
      scorer already applies its night rules while the weights are still the daytime ones. */
  lemma NightWindowsDiffer(hour: int)
    ensures (IsDarkForPaths(hour) && !IsNightForWeights(hour)) <==> (hour == 18 || hour == 19)
    ensures IsNightForWeights(hour) ==> IsDarkForPaths(hour)
  {
  }

  /** Within a valid hour, the class-change window covers minutes 0-5, 20-30 and 50-59. */
  lemma ClassChangeMinutes(minute: int)
    requires 0 <= minute < 60
    ensures IsClassChangeTime(minute) <==>
            (0 <= minute <= 5 || 20 <= minute <= 30 || 50 <= minute <= 59)
  {
  }
}
