/**
 * ReportPeriodConverter: between a ReportPeriodType and the label the bot
 * shows for it. The labels are resource strings whose text is not part of this
 * model, so they are a parameter; the round trip needs them pairwise distinct.
 */
module ReportPeriodConverter {
  import opened Wrappers
  import opened DotNetText
  import opened ReportTypes

  /** Resources.Strings.TimePeriodOptionAllTime, TimePeriodOptionLast7Days and TimePeriodOptionLastDay. */
  datatype PeriodLabels = PeriodLabels(allTime: string, last7Days: string, lastDay: string)

  /** No two periods share a label. */
  predicate Distinct(labels: PeriodLabels) {
    labels.allTime != labels.last7Days && labels.allTime != labels.lastDay && labels.last7Days != labels.lastDay
  }

  /** The ReportPeriodType members. */
  predicate IsPeriod(period: ReportPeriodType) {
    period == AllTime || period == Last7Days || period == LastDay
  }

  /** GetReportPeriod: the label of a member, null for any other value. */
  function GetReportPeriod(labels: PeriodLabels, period: ReportPeriodType): (r: Option<string>)
    ensures r.Some? <==> IsPeriod(period)
    ensures r.Some? ==> r.value in {labels.allTime, labels.last7Days, labels.lastDay}
  {
    if period == AllTime then Some(labels.allTime)
    else if period == Last7Days then Some(labels.last7Days)
    else if period == LastDay then Some(labels.lastDay)
    else None
  }

  /** TryParse's return value and its out parameter. */
  datatype Parsed = Parsed(parsed: bool, period: ReportPeriodType)

  /**
   * TryParse: null reads as ""; the labels are compared ordinally in the order
   * AllTime, Last7Days, LastDay and the first equal one wins; no match is
   * false, with LastDay in the out parameter.
   */
  function TryParse(labels: PeriodLabels, str: Option<string>): (r: Parsed)
    ensures r.parsed ==> GetReportPeriod(labels, r.period) == Some(Str(str))
    ensures r.parsed <==> Str(str) in {labels.allTime, labels.last7Days, labels.lastDay}
    ensures !r.parsed ==> r.period == LastDay
  {
    var s := Str(str);
    if s == labels.allTime then Parsed(true, AllTime)
    else if s == labels.last7Days then Parsed(true, Last7Days)
    else if s == labels.lastDay then Parsed(true, LastDay)
    else Parsed(false, LastDay)
  }

  /** With distinct labels, parsing the label of a period gives that period back. */
  lemma LabelRoundTrip(labels: PeriodLabels, period: ReportPeriodType)
    requires Distinct(labels) && IsPeriod(period)
    ensures TryParse(labels, GetReportPeriod(labels, period)) == Parsed(true, period)
  {
  }

  /** A parsed string is the label of the period it gives, and so prints back unchanged. */
  lemma ParseRoundTrip(labels: PeriodLabels, str: string)
    requires TryParse(labels, Some(str)).parsed
    ensures GetReportPeriod(labels, TryParse(labels, Some(str)).period) == Some(str)
  {
  }

  /** When two labels coincide, the earlier period in the comparison order wins. */
  lemma FirstLabelWins(labels: PeriodLabels, str: Option<string>)
    ensures Str(str) == labels.allTime ==> TryParse(labels, str).period == AllTime
    ensures TryParse(labels, str).period == LastDay && TryParse(labels, str).parsed ==>
      Str(str) == labels.lastDay && Str(str) !in {labels.allTime, labels.last7Days}
  {
  }

  /** null parses as the empty string does. */
  lemma NullIsEmpty(labels: PeriodLabels)
    ensures TryParse(labels, None) == TryParse(labels, Some(""))
  {
  }
}
