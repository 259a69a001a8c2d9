/**
 * The four analytics services of backend/src/services/analyticsService.js
 * over the store: the missed-chat sweep, the average time between a
 * ticket's first two messages, the weekly missed-chat series and the
 * resolved and total counts. Instants are milliseconds; calendar days are
 * UTC day numbers.
 */
module AnalyticsService {
  import opened Wrappers
  import opened Text
  import opened Domain
  import opened Sequences
  import opened Store
  import opened Calendar
  import ChatbotSettingsModel
  import opened MissedChat

  // updateMissedChats

  /** The tickets after the sweep: every ticket `marks` picks is flagged,
      every other ticket is left as it is. */
  function Swept(ts: seq<Ticket>, marks: Ticket -> bool): (r: seq<Ticket>)
    ensures |r| == |ts|
    ensures forall i :: 0 <= i < |ts| ==> r[i] == if marks(ts[i]) then ts[i].(isMissed := true) else ts[i]
  {
    seq(|ts|, i requires 0 <= i < |ts| => if marks(ts[i]) then ts[i].(isMissed := true) else ts[i])
  }

  /** The sweep's verdict on each ticket, with the store's messages, the
      clock and the timer fixed. */
  function MarkedBy(rule: ReplyRule, msgs: seq<Message>, now: int, timerMs: int): Ticket -> bool {
    (t: Ticket) => SweepMarks(rule, t, msgs, now, timerMs)
  }

  /** The `for` loop over the candidate tickets, setting `isMissed` on
      each one the verdict picks. */
  method SweepPass(start: seq<Ticket>, marks: Ticket -> bool) returns (ts: seq<Ticket>)
    ensures ts == Swept(start, marks)
  {
    ts := start;
    var i := 0;
    while i < |ts|
      invariant |ts| == |start| && 0 <= i <= |start|
      invariant forall k :: 0 <= k < i ==> ts[k] == if marks(start[k]) then start[k].(isMissed := true) else start[k]
      invariant forall k :: i <= k < |start| ==> ts[k] == start[k]
    {
      if marks(ts[i]) {
        ts := ts[i := ts[i].(isMissed := true)];
      }
      i := i + 1;
    }
  }

  /** `updateMissedChats`: the timer of the stored settings (with the
      sweep's own defaults), then the sweep over every ticket. */
  method UpdateMissedChats(db: Db, rule: ReplyRule, now: int)
    requires db.Valid()
    modifies db
    ensures db.Valid()
    ensures db.tickets == Swept(old(db.tickets), MarkedBy(rule, db.messages, now, SweepTimerMs(StoredSettings(db.settings))))
    ensures db.messages == old(db.messages) && db.users == old(db.users)
    ensures db.settings == old(db.settings) && db.nextId == old(db.nextId)
  {
    var timerMs := SweepTimerMs(StoredSettings(db.settings));
    var ts := SweepPass(db.tickets, MarkedBy(rule, db.messages, now, timerMs));
    assert OnlyFlagsDiffer(db.tickets, ts);
    FlagsKeepConsistent(db.tickets, ts, db.messages, db.users, db.settings, db.nextId);
    db.tickets := ts;
  }

  /** The sweep only ever raises flags: a flagged ticket stays flagged,
      nothing but the flag changes, and a ticket is flagged afterwards
      exactly when it was before or the verdict picked it. */
  lemma SweepNeverClears(ts: seq<Ticket>, marks: Ticket -> bool)
    ensures var r := Swept(ts, marks);
            && OnlyFlagsDiffer(ts, r)
            && (forall i :: 0 <= i < |ts| ==> (r[i].isMissed <==> ts[i].isMissed || marks(ts[i])))
            && Count(r, IsFlagged()) == Count(ts, IsFlagged()) + Count(ts, Both(Not(IsFlagged()), marks))
  {
    SweptCount(ts, marks);
  }

  function IsFlagged(): Ticket -> bool {
    (t: Ticket) => t.isMissed
  }

  lemma {:induction false} SweptCount(ts: seq<Ticket>, marks: Ticket -> bool)
    ensures Count(Swept(ts, marks), IsFlagged()) == Count(ts, IsFlagged()) + Count(ts, Both(Not(IsFlagged()), marks))
  {
    if ts != [] {
      SweptCount(ts[1..], marks);
      assert Swept(ts, marks)[1..] == Swept(ts[1..], marks);
    }
  }

  /** Right after a sweep, a second sweep at the same instant finds
      nothing to flag: every ticket it flagged is no longer a candidate. */
  lemma SweepLeavesNothingToMark(ts: seq<Ticket>, rule: ReplyRule, msgs: seq<Message>, now: int, timerMs: int)
    ensures var m := MarkedBy(rule, msgs, now, timerMs);
            Count(Swept(ts, m), m) == 0
  {
    var m := MarkedBy(rule, msgs, now, timerMs);
    var r := Swept(ts, m);
    forall x | x in r ensures !m(x) {
      var i :| 0 <= i < |r| && r[i] == x;
    }
    CountZero(r, m);
  }

  // getAverageReplyTime

  datatype ReplyTime = ReplyTime(averageReplyTimeSeconds: int, replyCount: nat)

  /** `Ticket.find({ assignedTo: userId })`, as the set of their ids. */
  function AssignedIds(ts: seq<Ticket>, user: Id): set<Id> {
    set t | t in ts && t.assignedTo == user :: t.id
  }

  /** The `$match` stage: a member's query is restricted to the messages
      of the tickets assigned to them; anyone else's is not restricted. */
  function ReplyScope(ts: seq<Ticket>, caller: Caller): Message -> bool {
    (m: Message) => caller.role == Admin || m.ticketId in AssignedIds(ts, caller.id)
  }

  /** The `$group` stage's keys: each ticket id among the messages, once. */
  function GroupIds(ms: seq<Message>): (gs: seq<Id>)
    ensures NoDuplicates(gs)
    ensures forall g :: g in gs <==> exists m :: m in ms && m.ticketId == g
  {
    if ms == [] then []
    else
      var rest := GroupIds(ms[1..]);
      assert forall m :: m in ms <==> m == ms[0] || m in ms[1..];
      if ms[0].ticketId in rest then rest else [ms[0].ticketId] + rest
  }

  /** The time between a ticket's first two messages, whoever sent them;
      `None` for a ticket with fewer than two. */
  function FirstGap(ms: seq<Message>, g: Id): Option<int> {
    var c := Conversation(ms, g);
    if |c| > 1 then Some(c[1].timestamp - c[0].timestamp) else None
  }

  /** Each group's gap, as the `forEach` reads it. */
  function GapOf(ms: seq<Message>): Id -> Option<int> {
    (g: Id) => FirstGap(ms, g)
  }

  function HasGap(gap: Id -> Option<int>): Id -> bool {
    (g: Id) => gap(g).Some?
  }

  /** The sum of the groups' gaps. */
  function TotalGap(gs: seq<Id>, gap: Id -> Option<int>): int {
    if gs == [] then 0
    else TotalGap(gs[..|gs| - 1], gap) + gap(gs[|gs| - 1]).GetOr(0)
  }

  function ScopedMessages(db: Db, caller: Caller): seq<Message>
    reads db
  {
    Filter(db.messages, ReplyScope(db.tickets, caller))
  }

  /** The `forEach` over the groups: adds up the gaps of the groups that
      have one and counts them. */
  method SumGaps(gs: seq<Id>, gap: Id -> Option<int>) returns (totalReplyTime: int, replyCount: nat)
    ensures totalReplyTime == TotalGap(gs, gap)
    ensures replyCount == Count(gs, HasGap(gap))
  {
    totalReplyTime := 0;
    replyCount := 0;
    var i := 0;
    while i < |gs|
      invariant 0 <= i <= |gs|
      invariant totalReplyTime == TotalGap(gs[..i], gap)
      invariant replyCount == Count(gs[..i], HasGap(gap))
    {
      CountPrefixStep(gs, HasGap(gap), i);
      assert gs[..i + 1][..i] == gs[..i];
      var firstReply := gap(gs[i]);
      if firstReply.Some? {
        totalReplyTime := totalReplyTime + firstReply.value;
        replyCount := replyCount + 1;
      }
      i := i + 1;
    }
    assert gs[..i] == gs;
  }

  /** `getAverageReplyTime`: the gaps of the groups with more than one
      message are added up and counted; the average in milliseconds is
      rounded to whole seconds, 0 without any gap. */
  method GetAverageReplyTime(db: Db, caller: Caller) returns (r: ReplyTime)
    ensures var ms := ScopedMessages(db, caller);
            var gs := GroupIds(ms);
            && r.replyCount == Count(gs, HasGap(GapOf(ms)))
            && r.averageReplyTimeSeconds ==
                 if r.replyCount > 0 then RoundDiv(TotalGap(gs, GapOf(ms)), r.replyCount * 1000) else 0
  {
    var ms := Filter(db.messages, ReplyScope(db.tickets, caller));
    var gs := GroupIds(ms);
    var totalReplyTime, replyCount := SumGaps(gs, GapOf(ms));
    var seconds := if replyCount > 0 then RoundDiv(totalReplyTime, replyCount * 1000) else 0;
    r := ReplyTime(seconds, replyCount);
  }

  /** A gap is never negative: the conversation is sorted by time. */
  lemma FirstGapNonNegative(ms: seq<Message>, g: Id)
    ensures FirstGap(ms, g).GetOr(0) >= 0
  {
    ConversationFacts(ms, g);
  }

  /** With every gap between `lo` and `hi`, the total lies between `n`
      times each, `n` being the number of gaps. */
  lemma {:induction false} TotalGapBounds(gs: seq<Id>, gap: Id -> Option<int>, lo: int, hi: int)
    requires forall g :: g in gs && gap(g).Some? ==> lo <= gap(g).value <= hi
    ensures var n := Count(gs, HasGap(gap));
            n * lo <= TotalGap(gs, gap) <= n * hi
  {
    if gs != [] {
      var init, last := gs[..|gs| - 1], gs[|gs| - 1];
      TotalGapBounds(init, gap, lo, hi);
      assert gs == init + [last];
      CountAppend(init, [last], HasGap(gap));
      var m := Count(init, HasGap(gap));
      if gap(last).Some? {
        assert Count(gs, HasGap(gap)) == m + 1;
        MulSucc(m, lo);
        MulSucc(m, hi);
      } else {
        assert Count(gs, HasGap(gap)) == m;
      }
    }
  }

  /** The one product step of TotalGapBounds, kept apart so that the
      solver meets the nonlinear term with nothing else in scope. */
  lemma MulSucc(m: int, x: int)
    ensures (m + 1) * x == m * x + x
  {
  }

  lemma {:induction false} TotalGapNonNegative(gs: seq<Id>, gap: Id -> Option<int>)
    requires forall g :: g in gs && gap(g).Some? ==> 0 <= gap(g).value
    ensures TotalGap(gs, gap) >= 0
  {
    if gs != [] {
      TotalGapNonNegative(gs[..|gs| - 1], gap);
    }
  }

  /** The reported average is rounded from a value between the smallest
      and the largest gap: with every gap between `lo` and `hi`
      milliseconds, it lies between their roundings to seconds; and it is
      never negative. */
  lemma AverageWithinGaps(gs: seq<Id>, gap: Id -> Option<int>, r: ReplyTime, lo: int, hi: int)
    requires r.replyCount == Count(gs, HasGap(gap))
    requires r.averageReplyTimeSeconds == if r.replyCount > 0 then RoundDiv(TotalGap(gs, gap), r.replyCount * 1000) else 0
    requires 0 <= lo
    requires forall g :: gap(g).Some? ==> lo <= gap(g).value <= hi
    ensures r.replyCount > 0 ==> RoundDiv(lo, 1000) <= r.averageReplyTimeSeconds <= RoundDiv(hi, 1000)
    ensures r.averageReplyTimeSeconds >= 0
  {
    var n := r.replyCount;
    var total := TotalGap(gs, gap);
    TotalGapBounds(gs, gap, lo, hi);
    if n > 0 {
      RoundDivMonotone(n * lo, total, n * 1000);
      RoundDivMonotone(total, n * hi, n * 1000);
      RoundDivScale(lo, 1000, n);
      RoundDivScale(hi, 1000, n);
      RoundDivMonotone(0, lo, 1000);
      assert RoundDiv(0, 1000) == 0;
    }
  }

  /** The store's gaps are all non-negative, so the average reply time of
      any caller is never negative. */
  lemma AverageNeverNegative(db: Db, caller: Caller, r: ReplyTime)
    requires var ms := ScopedMessages(db, caller);
             var gs := GroupIds(ms);
             && r.replyCount == Count(gs, HasGap(GapOf(ms)))
             && r.averageReplyTimeSeconds ==
                  if r.replyCount > 0 then RoundDiv(TotalGap(gs, GapOf(ms)), r.replyCount * 1000) else 0
    ensures r.averageReplyTimeSeconds >= 0
  {
    var ms := ScopedMessages(db, caller);
    var gs := GroupIds(ms);
    var gap := GapOf(ms);
    forall g | g in gs && gap(g).Some? ensures 0 <= gap(g).value {
      FirstGapNonNegative(ms, g);
    }
    TotalGapNonNegative(gs, gap);
    if r.replyCount > 0 {
      RoundDivMonotone(0, TotalGap(gs, gap), r.replyCount * 1000);
      RoundDivUnique(0, r.replyCount * 1000, 0);
    }
  }

  /** The gap measures the first two messages whoever wrote them: a
      customer who writes twice before any staff answer contributes the
      time between their own two messages. */
  lemma CustomerFollowUpCounts(customer1: Message, customer2: Message, g: Id)
    requires customer1.ticketId == g && customer2.ticketId == g
    requires IsCustomer(customer1) && IsCustomer(customer2)
    requires customer1.timestamp < customer2.timestamp
    ensures FirstGap([customer1, customer2], g) == Some(customer2.timestamp - customer1.timestamp)
  {
    var ms := [customer1, customer2];
    assert Sorted(ms, NotLater);
    ConversationOfOrdered(ms, g);
    assert FirstGap(ms, g) == Some(ms[1].timestamp - ms[0].timestamp);
  }

  // getMissedChatsOverTime

  /** A point of the line chart. */
  datatype WeekPoint = WeekPoint(week: string, chats: nat)

  function WeekLabel(n: nat): string {
    "Week " + NatToString(n)
  }

  /** The `$match` stage: flagged tickets created at `start` or later, and
      for a member only those assigned to them. */
  function MissedSince(caller: Caller, start: int): Ticket -> bool {
    (t: Ticket) => t.isMissed && t.createdAt >= start && InScope(caller, t)
  }

  /** The ISO week key `$isoWeekYear`/`$isoWeek` give a creation instant. */
  function KeyOf(t: Ticket): WeekKey {
    IsoKey(DayOf(t.createdAt))
  }

  function InWeek(sel: Ticket -> bool, k: WeekKey): Ticket -> bool {
    (t: Ticket) => sel(t) && KeyOf(t) == k
  }

  /** The `$group` stage as the `missedChatsMap` it fills: the number of
      selected tickets per week key. */
  function Buckets(ts: seq<Ticket>, sel: Ticket -> bool): map<WeekKey, nat> {
    if ts == [] then map[]
    else
      var b := Buckets(ts[1..], sel);
      if sel(ts[0]) then b[KeyOf(ts[0]) := Lookup(b, KeyOf(ts[0])) + 1] else b
  }

  /** `missedChatsMap[key] || 0`. */
  function Lookup(b: map<WeekKey, nat>, k: WeekKey): nat {
    if k in b then b[k] else 0
  }

  /** A bucket holds the number of selected tickets of its week. */
  lemma {:induction false} BucketsCount(ts: seq<Ticket>, sel: Ticket -> bool, k: WeekKey)
    ensures Lookup(Buckets(ts, sel), k) == Count(ts, InWeek(sel, k))
  {
    if ts != [] {
      BucketsCount(ts[1..], sel, k);
    }
  }

  /** The day the point `j` (oldest first) of a `weeks`-point series
      reads: `7 * (weeks - 1 - j)` days before `today`. */
  function WeekDate(today: int, weeks: int, j: int): int {
    today - 7 * (weeks - 1 - j)
  }

  /** The point `j` of the series: labelled "Week `j + 1`", reading the
      bucket of the week its day lies in. */
  function SeriesPoint(buckets: map<WeekKey, nat>, weeks: int, today: int, j: nat): WeekPoint {
    WeekPoint(WeekLabel(j + 1), Lookup(buckets, IsoKey(WeekDate(today, weeks, j))))
  }

  /** The countdown loop: one point per week, oldest first, labelled
      "Week 1" to "Week `weeks`", each reading the bucket of the day
      `7 * i` days before `today`. */
  method FormatSeries(buckets: map<WeekKey, nat>, weeks: int, today: int) returns (series: seq<WeekPoint>)
    ensures |series| == if weeks > 0 then weeks else 0
    ensures forall j :: 0 <= j < |series| ==> series[j] == SeriesPoint(buckets, weeks, today, j)
  {
    series := [];
    var i := weeks - 1;
    while i >= 0
      invariant i <= weeks - 1 && (weeks > 0 ==> -1 <= i) && (weeks <= 0 ==> i == weeks - 1)
      invariant |series| == weeks - 1 - i
      invariant forall j :: 0 <= j < |series| ==> series[j] == SeriesPoint(buckets, weeks, today, j)
    {
      var weekDate := today - i * 7;
      assert weekDate == WeekDate(today, weeks, |series|);
      var key := IsoKey(weekDate);
      var point := WeekPoint(WeekLabel(weeks - i), Lookup(buckets, key));
      assert point == SeriesPoint(buckets, weeks, today, |series|);
      series := series + [point];
      i := i - 1;
    }
  }

  /** The points name different weeks, so no ticket is counted twice. */
  lemma SeriesWeeksDistinct(weeks: int, today: int, j: int, j': int)
    requires 0 <= j < j' < weeks
    ensures IsoKey(WeekDate(today, weeks, j)) != IsoKey(WeekDate(today, weeks, j'))
  {
    WeeksApartDiffer(WeekDate(today, weeks, j), WeekDate(today, weeks, j'), j - j');
  }

  /** `getMissedChatsOverTime`: the unscoped sweep first, then the
      weekly counts of the caller's flagged tickets created in the last
      `weeks` weeks. */
  method GetMissedChatsOverTime(db: Db, caller: Caller, weeks: int, rule: ReplyRule, now: int)
    returns (series: seq<WeekPoint>)
    requires db.Valid()
    modifies db
    ensures db.Valid()
    ensures db.tickets == Swept(old(db.tickets), MarkedBy(rule, db.messages, now, SweepTimerMs(StoredSettings(db.settings))))
    ensures db.messages == old(db.messages) && db.users == old(db.users)
    ensures db.settings == old(db.settings) && db.nextId == old(db.nextId)
    ensures |series| == if weeks > 0 then weeks else 0
    ensures forall j :: 0 <= j < |series| ==>
              && series[j].week == WeekLabel(j + 1)
              && series[j].chats == Count(db.tickets, InWeek(MissedSince(caller, now - weeks * 7 * MsPerDay),
                                                             IsoKey(WeekDate(DayOf(now), weeks, j))))
  {
    UpdateMissedChats(db, rule, now);
    series := MissedSeries(db.tickets, caller, weeks, now);
  }

  /** The aggregation and formatting that follow the sweep: one point per
      week, each counting the caller's flagged tickets of that week created
      in the last `weeks` weeks. */
  method MissedSeries(ts: seq<Ticket>, caller: Caller, weeks: int, now: int) returns (series: seq<WeekPoint>)
    ensures |series| == if weeks > 0 then weeks else 0
    ensures forall j :: 0 <= j < |series| ==>
              && series[j].week == WeekLabel(j + 1)
              && series[j].chats == Count(ts, InWeek(MissedSince(caller, now - weeks * 7 * MsPerDay),
                                                     IsoKey(WeekDate(DayOf(now), weeks, j))))
  {
    var startDate := now - weeks * 7 * MsPerDay;
    var sel := MissedSince(caller, startDate);
    var buckets := Buckets(ts, sel);
    series := FormatSeries(buckets, weeks, DayOf(now));
    SeriesCounts(ts, sel, weeks, DayOf(now), series);
  }

  /** Each point of the formatted series counts the selected tickets of
      its week. */
  lemma SeriesCounts(ts: seq<Ticket>, sel: Ticket -> bool, weeks: int, today: int, series: seq<WeekPoint>)
    requires forall j :: 0 <= j < |series| ==> series[j] == SeriesPoint(Buckets(ts, sel), weeks, today, j)
    ensures forall j :: 0 <= j < |series| ==>
              && series[j].week == WeekLabel(j + 1)
              && series[j].chats == Count(ts, InWeek(sel, IsoKey(WeekDate(today, weeks, j))))
  {
    forall j | 0 <= j < |series|
      ensures series[j].chats == Count(ts, InWeek(sel, IsoKey(WeekDate(today, weeks, j))))
    {
      BucketsCount(ts, sel, IsoKey(WeekDate(today, weeks, j)));
    }
  }

  // getResolvedTicketsData

  datatype ResolvedData = ResolvedData(resolved: nat, unresolved: nat, percentage: int)

  function IsResolved(): Ticket -> bool {
    (t: Ticket) => t.status == Resolved
  }

  /** `getResolvedTicketsData`: the two counts in the caller's scope and
      the share of resolved tickets in percent, rounded, 0 without
      tickets. */
  function GetResolvedTicketsData(ts: seq<Ticket>, caller: Caller): (r: ResolvedData)
    ensures r.resolved == Count(ts, Both(InScopeOf(caller), IsResolved()))
    ensures r.unresolved == Count(ts, Both(InScopeOf(caller), Not(IsResolved())))
    ensures r.resolved + r.unresolved == Count(ts, InScopeOf(caller))
    ensures 0 <= r.percentage <= 100
    ensures var total := r.resolved + r.unresolved;
            if total == 0 then r.percentage == 0
            else 200 * r.resolved - total < 2 * r.percentage * total <= 200 * r.resolved + total
  {
    var resolved := Count(ts, Both(InScopeOf(caller), IsResolved()));
    var unresolved := Count(ts, Both(InScopeOf(caller), Not(IsResolved())));
    CountSplit(ts, IsResolved(), InScopeOf(caller));
    var total := resolved + unresolved;
    var percentage := if total > 0 then PercentageBounds(resolved, total); RoundDiv(resolved * 100, total) else 0;
    ResolvedData(resolved, unresolved, percentage)
  }

  /** Counted one ticket at a time: no tickets give nothing, and one more
      ticket adds one to `resolved` exactly when it is in scope and
      resolved, and one to `unresolved` exactly when it is in scope and
      not resolved. */
  lemma ResolvedDataStep(ts: seq<Ticket>, t: Ticket, caller: Caller)
    ensures GetResolvedTicketsData([], caller) == ResolvedData(0, 0, 0)
    ensures var d := GetResolvedTicketsData(ts, caller);
            var d' := GetResolvedTicketsData(ts + [t], caller);
            && d'.resolved == d.resolved + (if InScope(caller, t) && t.status == Resolved then 1 else 0)
            && d'.unresolved == d.unresolved + (if InScope(caller, t) && t.status != Resolved then 1 else 0)
  {
    CountAppend(ts, [t], Both(InScopeOf(caller), IsResolved()));
    CountAppend(ts, [t], Both(InScopeOf(caller), Not(IsResolved())));
    assert [t][1..] == [];
  }

  lemma PercentageBounds(part: nat, total: nat)
    requires 0 < total && part <= total
    ensures 0 <= RoundDiv(part * 100, total) <= 100
  {
    var a := part * 100;
    MulMonotone(part, total, 100);
    RoundDivMonotone(0, a, total);
    RoundDivMonotone(a, total * 100, total);
    RoundDivScale(100, 1, total);
    assert total * 1 == total;
    RoundDivUnique(0, total, 0);
    RoundDivUnique(100, 1, 100);
  }

  // getTotalChats

  function CreatedBetween(start: int, end: int): Ticket -> bool {
    (t: Ticket) => start <= t.createdAt <= end
  }

  /** `getTotalChats`: the tickets in the caller's scope, restricted to
      the inclusive creation range only when both ends are given. */
  function GetTotalChats(ts: seq<Ticket>, caller: Caller, startDate: Option<int>, endDate: Option<int>): (n: nat)
    ensures n <= Count(ts, InScopeOf(caller))
    ensures startDate.None? || endDate.None? ==> n == Count(ts, InScopeOf(caller))
    ensures startDate.Some? && endDate.Some? ==>
              n == Count(ts, Both(InScopeOf(caller), CreatedBetween(startDate.value, endDate.value)))
  {
    if startDate.Some? && endDate.Some? then
      CountSplit(ts, CreatedBetween(startDate.value, endDate.value), InScopeOf(caller));
      Count(ts, Both(InScopeOf(caller), CreatedBetween(startDate.value, endDate.value)))
    else Count(ts, InScopeOf(caller))
  }

  /** Counted one ticket at a time: no tickets give 0, and with a range
      one more ticket adds one exactly when it is in scope and created
      between the two ends, both included. */
  lemma TotalChatsStep(ts: seq<Ticket>, t: Ticket, caller: Caller, start: int, end: int)
    ensures GetTotalChats([], caller, Some(start), Some(end)) == 0
    ensures GetTotalChats(ts + [t], caller, Some(start), Some(end)) ==
            GetTotalChats(ts, caller, Some(start), Some(end)) +
            (if InScope(caller, t) && start <= t.createdAt && t.createdAt <= end then 1 else 0)
  {
    CountAppend(ts, [t], Both(InScopeOf(caller), CreatedBetween(start, end)));
    assert [t][1..] == [];
  }

  /** Without a full range the total agrees with the resolved and
      unresolved counts. */
  lemma TotalMatchesResolvedData(ts: seq<Ticket>, caller: Caller, startDate: Option<int>)
    ensures var d := GetResolvedTicketsData(ts, caller);
            GetTotalChats(ts, caller, startDate, None) == d.resolved + d.unresolved
  {
  }

  /** A range keeps exactly the tickets created inside it: widening it
      never lowers the total. */
  lemma {:induction false} WiderRangeCountsMore(ts: seq<Ticket>, caller: Caller, s: int, e: int, s': int, e': int)
    requires s' <= s && e <= e'
    ensures GetTotalChats(ts, caller, Some(s), Some(e)) <= GetTotalChats(ts, caller, Some(s'), Some(e'))
  {
    if ts != [] {
      WiderRangeCountsMore(ts[1..], caller, s, e, s', e');
    }
  }
}
