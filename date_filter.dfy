/**
  The event date filter: `filter_events_date` (SiouxParser.py:287-298)
  builds the five flags, `__validate_day` (SiouxParser.py:177-220) decides
  whether an event's dates pass them. `today` stands for
  `datetime.now().date()`.
*/
module DateFiltering {
  import opened Base
  import opened Dates

  /** The dict with keys one_day, multiple_days, today, future and past. */
  datatype DateFilter = DateFilter(oneDay: bool, multipleDays: bool, today: bool, future: bool, past: bool)

  /** `filter_events_date(one_day, mul_day, today, future, past)`. */
  function FilterEventsDate(oneDay: bool, mulDay: bool, today: bool, future: bool, past: bool): (f: DateFilter)
    ensures f.oneDay == oneDay && f.multipleDays == mulDay
    ensures f.today == today && f.future == future && f.past == past
  {
    DateFilter(oneDay, mulDay, today, future, past)
  }

  /** `len(days) > 1 and days[0] != days[1]`: the only test of "several days". */
  predicate IsMultiDay(days: seq<Date>) {
    |days| > 1 && days[0] != days[1]
  }

  function Last(days: seq<Date>): Date
    requires |days| > 0
  {
    days[|days| - 1]
  }

  /** `days[0] <= today <= days[-1]`. */
  predicate Spans(days: seq<Date>, today: Date)
    requires |days| > 0
  {
    NotAfter(days[0], today) && NotAfter(today, Last(days))
  }

  /**
    None of the four hard exclusions of SiouxParser.py:196-206 applies: the
    arity is wanted, and the past, the future and today are each either
    wanted or not what the dates are.
  */
  predicate NoExclusion(days: seq<Date>, f: DateFilter, today: Date)
    requires |days| > 0
  {
    && (if IsMultiDay(days) then f.multipleDays else f.oneDay)
    && (f.past || !Before(Last(days), today))
    && (f.future || !Before(today, Last(days)))
    && (f.today || !Spans(days, today))
  }

  /**
    `__validate_day`, step by step: four exclusions, four inclusions, then
    deny. Its contract states the outcome: a missing date list raises, and
    on a non-empty list the result is exactly "no exclusion applies". Once
    the arity exclusion has not fired the arity inclusion always does, so
    the today/future/past inclusions and the final deny are never reached.
    An empty list, which the date parser never produces, raises IndexError
    unless the one-day flag rejects it first or the past, future and today
    flags are all set.
  */
  function ValidateDay(days: Option<seq<Date>>, f: DateFilter, today: Date): (r: Result<bool>)
    ensures days.None? ==> r == Err(EventHasNoDate)
    ensures days.Some? && |days.value| > 0 ==> r == Ok(NoExclusion(days.value, f, today))
    ensures days == Some([]) ==>
      r == if !f.oneDay then Ok(false) else if f.past && f.future && f.today then Ok(true) else Err(IndexOutOfRange)
  {
    match days
    case None => Err(EventHasNoDate)
    case Some(ds) =>
      var multipleDays := if |ds| == 1 then false else |ds| > 1 && ds[0] != ds[1];
      var oneDay := !multipleDays;
      // days[0] and days[-1]; each use below is guarded as the subscript in the source would be
      var first := if |ds| == 0 then today else ds[0];
      var last := if |ds| == 0 then today else ds[|ds| - 1];
      if (!f.oneDay && oneDay) || (!f.multipleDays && multipleDays) then Ok(false)
      else if !f.past && |ds| == 0 then Err(IndexOutOfRange)
      else if !f.past && Before(last, today) then Ok(false)
      else if !f.future && |ds| == 0 then Err(IndexOutOfRange)
      else if !f.future && Before(today, last) then Ok(false)
      else if !f.today && |ds| == 0 then Err(IndexOutOfRange)
      else if !f.today && NotAfter(first, today) && NotAfter(today, last) then Ok(false)
      else if (f.oneDay && oneDay) || (f.multipleDays && multipleDays) then Ok(true)
      else if f.today && NotAfter(first, today) && NotAfter(today, last) then Ok(true)
      else if f.future && Before(today, last) then Ok(true)
      else if f.past && Before(last, today) then Ok(true)
      else Ok(false)
  }

  /** With every flag set, every non-empty date list passes. */
  lemma AllFlagsAccept(days: seq<Date>, today: Date)
    requires |days| > 0
    ensures ValidateDay(Some(days), FilterEventsDate(true, true, true, true, true), today) == Ok(true)
  {
  }

  /** With no flag set, every date list (even an empty one) is rejected by the arity exclusion. */
  lemma NoFlagsReject(days: seq<Date>, today: Date)
    ensures ValidateDay(Some(days), FilterEventsDate(false, false, false, false, false), today) == Ok(false)
  {
  }

  /** Hard exclusions win: without the today flag, dates spanning today fail whatever the arity flags say. */
  lemma TodayExclusionWins(days: seq<Date>, f: DateFilter, today: Date)
    requires |days| > 0 && !f.today && Spans(days, today)
    ensures ValidateDay(Some(days), f, today) == Ok(false)
  {
  }

  /** A two-date list with equal dates is treated exactly as the one-date list. */
  lemma EqualPairIsOneDay(d: Date, f: DateFilter, today: Date)
    ensures !IsMultiDay([d, d])
    ensures ValidateDay(Some([d, d]), f, today) == ValidateDay(Some([d]), f, today)
  {
  }

  /**
    A multi-day event from 1 to 3 May 2024 seen on 2 May, with only the
    multi-day flag set, is rejected: the today exclusion comes before the
    arity inclusion.
  */
  lemma SpanningTodayExample()
    ensures ValidateDay(Some([Date(2024, 5, 1), Date(2024, 5, 3)]),
                        FilterEventsDate(false, true, false, false, false), Date(2024, 5, 2)) == Ok(false)
  {
  }

  /** A one-day event on 10 May 2024 seen on 1 May, with the one-day and future flags, passes. */
  lemma FutureOneDayExample()
    ensures ValidateDay(Some([Date(2024, 5, 10)]),
                        FilterEventsDate(true, false, false, true, false), Date(2024, 5, 1)) == Ok(true)
  {
  }
}
