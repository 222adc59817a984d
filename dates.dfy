/**
 * Calendar dates as day ordinals, as Python's date.toordinal() numbers them
 * (0001-01-01 is day 1), so that `date + timedelta(days=n)` is `d + n` and
 * `(a - b).days` is `a - b`. Parsing "YYYY-MM-DD" is a parameter of the model.
 */
module Dates {
  import opened Wrappers

  /** date(9999, 12, 31).toordinal(): the last date Python's date type can hold. */
  const MaxOrdinal: int := 3652059

  predicate InCalendar(d: int) {
    1 <= d <= MaxOrdinal
  }

  /** parse_date succeeds only with a date the date type can represent. */
  ghost predicate ParsesCalendarDates(parse: string -> Option<int>) {
    forall s :: parse(s).Some? ==> InCalendar(parse(s).value)
  }

  /**
   * days_until: the signed number of days from today to the expiry date, and
   * 0 when the expiry does not parse.
   */
  function DaysUntil(parse: string -> Option<int>, expiry: string, today: int): (r: int)
    ensures parse(expiry).Some? ==> today + r == parse(expiry).value
    ensures parse(expiry).None? ==> r == 0
  {
    match parse(expiry)
    case Some(d) => d - today
    case None => 0
  }

  /** A negative result means the batch has already expired; an unparsable date never reads as expired. */
  lemma DaysUntilNegativeIffExpired(parse: string -> Option<int>, expiry: string, today: int)
    ensures DaysUntil(parse, expiry, today) < 0 <==> parse(expiry).Some? && parse(expiry).value < today
  {
  }

  /** The colour a view gives to a batch with `daysLeft` days to go. */
  datatype Level = Danger | Warning | Ok

  function LevelOf(daysLeft: int): (r: Level)
    ensures r == Danger <==> daysLeft <= 7
    ensures r == Warning <==> 7 < daysLeft <= 30
    ensures r == Ok <==> 30 < daysLeft
  {
    if daysLeft <= 7 then Danger
    else if daysLeft <= 30 then Warning
    else Ok
  }

  function Urgency(l: Level): nat {
    match l
    case Ok => 0
    case Warning => 1
    case Danger => 2
  }

  /** Fewer days left never makes a batch look less urgent. */
  lemma LevelMonotone(a: int, b: int)
    requires a <= b
    ensures Urgency(LevelOf(a)) >= Urgency(LevelOf(b))
  {
  }
}
