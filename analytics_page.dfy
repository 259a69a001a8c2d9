/**
 * The analytics page of management-frontend/src/pages/Analytics.jsx: the
 * figures it shows before and after the analytics endpoint answers, and
 * how the average reply time, a whole number of seconds, is written in
 * seconds, minutes or hours.
 */
module AnalyticsPage {
  import opened Wrappers
  import opened Text
  import AnalyticsService

  datatype Unit = Secs | Mins | Hrs

  function UnitSeconds(u: Unit): nat {
    match u
    case Secs => 1
    case Mins => 60
    case Hrs => 3600
  }

  function UnitName(u: Unit): string {
    match u
    case Secs => " secs"
    case Mins => " mins"
    case Hrs => " hrs"
  }

  /** An amount of a unit, as `formatReplyTime` writes it. */
  datatype Reading = Reading(amount: int, unit: Unit)

  /** The seconds a reading stands for. */
  function Value(r: Reading): int {
    r.amount * UnitSeconds(r.unit)
  }

  /** `formatReplyTime(seconds)` before printing: under a minute in
      seconds (zero included), under an hour in minutes, otherwise in
      hours, each rounded to the nearest whole unit. A reading is never
      more than half a unit away from the time it shows. */
  function ReadingOf(seconds: int): (r: Reading)
    ensures seconds < 60 ==> r == Reading(seconds, Secs)
    ensures 60 <= seconds < 3600 ==> r.unit == Mins && 1 <= r.amount <= 60
    ensures seconds >= 3600 ==> r.unit == Hrs && r.amount >= 1
    ensures 2 * (Value(r) - seconds) <= UnitSeconds(r.unit) && 2 * (seconds - Value(r)) < UnitSeconds(r.unit)
  {
    if seconds < 60 then Reading(seconds, Secs)
    else if seconds < 3600 then
      var m := RoundDiv(seconds, 60);
      assert m <= 60 by {
        if m > 60 { MulMonotone(61, m, 120); }
      }
      Reading(m, Mins)
    else
      var h := RoundDiv(seconds, 3600);
      Reading(h, Hrs)
  }

  /** `formatReplyTime(seconds)`. */
  function ReplyTimeText(seconds: int): string {
    var r := ReadingOf(seconds);
    IntToString(r.amount) + UnitName(r.unit)
  }

  /** A longer average never reads as a shorter time, across the switch
      from seconds to minutes and from minutes to hours too. */
  lemma ReadingMonotone(a: int, b: int)
    requires a <= b
    ensures Value(ReadingOf(a)) <= Value(ReadingOf(b))
  {
    var ra, rb := ReadingOf(a), ReadingOf(b);
    if ra.unit == rb.unit && ra.unit != Secs {
      RoundDivMonotone(a, b, UnitSeconds(ra.unit));
      MulMonotone(ra.amount, rb.amount, UnitSeconds(ra.unit));
    } else if ra.unit == Mins && rb.unit == Hrs {
      assert ra.amount <= 60;
      MulMonotone(ra.amount, 60, 60);
      MulMonotone(1, rb.amount, 3600);
    }
  }

  /** Just under an hour reads as sixty minutes, an hour as one hour. */
  lemma HourBoundary()
    ensures ReplyTimeText(3570) == "60 mins"
    ensures ReplyTimeText(3600) == "1 hrs"
    ensures ReplyTimeText(0) == "0 secs"
  {
    assert RoundDiv(3570, 60) == 60;
    assert RoundDiv(3600, 3600) == 1;
    assert NatToString(60) == "60";
  }

  /** The figures the page shows. */
  datatype Figures = Figures(
    missedChats: seq<AnalyticsService.WeekPoint>,
    replyTime: string,
    resolvedPercentage: int,
    totalChats: int)

  /** The `data` of a successful reply; absent fields are `None`. */
  datatype Reply = Reply(
    avgReplyTime: Option<int>,
    missedChats: Option<seq<AnalyticsService.WeekPoint>>,
    resolvedPercentage: Option<int>,
    totalChats: Option<int>)

  /** The figures before the endpoint answers. */
  const Initial := Figures([], "0 secs", 0, 0)

  /** The figures a reply sets: each absent value is filled in as the
      initial figures have it. */
  function FiguresOf(r: Reply): (f: Figures)
    ensures f.replyTime == ReplyTimeText(r.avgReplyTime.GetOr(0))
    ensures r == Reply(None, None, None, None) ==> f == Initial
    ensures r.missedChats.Some? ==> f.missedChats == r.missedChats.value
    ensures r.totalChats.Some? ==> f.totalChats == r.totalChats.value
    ensures r.resolvedPercentage.Some? ==> f.resolvedPercentage == r.resolvedPercentage.value
  {
    HourBoundary();
    Figures(r.missedChats.GetOr([]), ReplyTimeText(r.avgReplyTime.GetOr(0)),
            r.resolvedPercentage.GetOr(0), r.totalChats.GetOr(0))
  }

  /** The page's state: the figures and whether it is still loading. */
  class Page {
    var figures: Figures
    var loading: bool

    constructor ()
      ensures figures == Initial && loading
    {
      figures := Initial;
      loading := true;
    }

    /** `fetchAnalytics` with the reply (`None` when the request fails or
        the reply is not a success): loading ends either way, and only a
        successful reply changes the figures. */
    method Load(reply: Option<Reply>)
      modifies this
      ensures !loading
      ensures reply.None? ==> figures == old(figures)
      ensures reply.Some? ==> figures == FiguresOf(reply.value)
    {
      if reply.Some? {
        figures := FiguresOf(reply.value);
      }
      loading := false;
    }
  }

  /** The average the server computes is never negative, so the page
      never shows a negative time. */
  lemma ServerAverageReadsNonNegative(r: AnalyticsService.ReplyTime)
    requires r.averageReplyTimeSeconds >= 0
    ensures ReadingOf(r.averageReplyTimeSeconds).amount >= 0
    ensures ReplyTimeText(r.averageReplyTimeSeconds)[0] != '-'
  {
  }
}
