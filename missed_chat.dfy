/**
 * The three rules that decide whether a chat is "missed":
 *  - the per-read evaluator `checkIfTicketIsMissed` of
 *    backend/src/controllers/ticketController.js, anchored on the first
 *    customer message;
 *  - the sweep `updateMissedChats` of backend/src/services/analyticsService.js,
 *    anchored on the ticket's creation;
 *  - the bulk rule `checkMissedChats` of
 *    management-frontend/src/services/ticketService.js, anchored on the
 *    ticket's last activity.
 * Instants are milliseconds; messages come sorted by timestamp.
 */
module MissedChat {
  import opened Wrappers
  import opened Domain
  import opened ChatbotSettingsModel
  import opened Sequences

  /** A store read inside the evaluator: it fails, or it yields a value. */
  datatype Fetch<T> = Failed | Fetched(value: T)

  /** The timer the per-read evaluator uses: each part taken as stored
      (`x || 0` is `x` on numbers), scaled to milliseconds. */
  function ReadTimerMs(t: Timer): int {
    t.hours * 3600000 + t.minutes * 60000 + t.seconds * 1000
  }

  /** `messages.find(m => !m.senderId)`: the position of the first customer
      message. */
  function FirstCustomer(msgs: seq<Message>): (r: Option<nat>)
    ensures r.Some? ==> r.value < |msgs| && IsCustomer(msgs[r.value])
    ensures r.Some? ==> forall k :: 0 <= k < r.value ==> !IsCustomer(msgs[k])
    ensures r.None? ==> forall k :: 0 <= k < |msgs| ==> !IsCustomer(msgs[k])
  {
    if msgs == [] then None
    else if IsCustomer(msgs[0]) then Some(0)
    else
      match FirstCustomer(msgs[1..])
      case None => None
      case Some(i) => Some(i + 1)
  }

  /** Some staff message is strictly later than instant `t`. */
  function StaffRepliedAfter(msgs: seq<Message>, t: int): (b: bool)
    ensures b <==> exists k :: 0 <= k < |msgs| && !IsCustomer(msgs[k]) && msgs[k].timestamp > t
  {
    if msgs == [] then false
    else
      var rest := StaffRepliedAfter(msgs[1..], t);
      assert forall k :: 1 <= k < |msgs| ==> msgs[k] == msgs[1..][k - 1];
      (!IsCustomer(msgs[0]) && msgs[0].timestamp > t) || rest
  }

  /** `checkIfTicketIsMissed`: a failed read of the settings or of the
      messages answers "not missed", as does a missing settings record, a
      zero timer, an empty conversation, a conversation without a customer
      message, and a staff reply strictly after the first customer message;
      otherwise the chat is missed once strictly more than the timer has
      elapsed since the first customer message. */
  function MissedAtRead(settings: Fetch<Option<Settings>>, messages: Fetch<seq<Message>>, now: int): bool {
    match settings
    case Failed => false
    case Fetched(None) => false
    case Fetched(Some(s)) =>
      var ms := ReadTimerMs(s.missedChatTimer);
      if ms == 0 then false
      else
        match messages
        case Failed => false
        case Fetched(msgs) =>
          if |msgs| == 0 then false
          else
            match FirstCustomer(msgs)
            case None => false
            case Some(i) =>
              !StaffRepliedAfter(msgs, msgs[i].timestamp) && now - msgs[i].timestamp > ms
  }

  /** The same rule stated without search: some customer message `i` comes
      before every other customer message, no staff message is later than
      it, and the timer has run out since it. */
  ghost predicate MissedSpec(settings: Fetch<Option<Settings>>, messages: Fetch<seq<Message>>, now: int) {
    && settings.Fetched? && settings.value.Some?
    && ReadTimerMs(settings.value.value.missedChatTimer) != 0
    && messages.Fetched?
    && var msgs := messages.value;
       var ms := ReadTimerMs(settings.value.value.missedChatTimer);
       exists i :: 0 <= i < |msgs| && IsCustomer(msgs[i])
         && (forall k :: 0 <= k < i ==> !IsCustomer(msgs[k]))
         && (forall k :: 0 <= k < |msgs| && !IsCustomer(msgs[k]) ==> msgs[k].timestamp <= msgs[i].timestamp)
         && now - msgs[i].timestamp > ms
  }

  lemma MissedAtReadIff(settings: Fetch<Option<Settings>>, messages: Fetch<seq<Message>>, now: int)
    ensures MissedAtRead(settings, messages, now) <==> MissedSpec(settings, messages, now)
  {
    if settings.Fetched? && settings.value.Some? && messages.Fetched? {
      var msgs := messages.value;
      var fc := FirstCustomer(msgs);
      if fc.Some? && MissedSpec(settings, messages, now) {
        var i := fc.value;
        var j :| 0 <= j < |msgs| && IsCustomer(msgs[j])
          && (forall k :: 0 <= k < j ==> !IsCustomer(msgs[k]))
          && (forall k :: 0 <= k < |msgs| && !IsCustomer(msgs[k]) ==> msgs[k].timestamp <= msgs[j].timestamp)
          && now - msgs[j].timestamp > ReadTimerMs(settings.value.value.missedChatTimer);
        FirstCustomerUnique(msgs, i, j);
      }
    }
  }

  /** Only one customer message comes before every other one. */
  lemma FirstCustomerUnique(msgs: seq<Message>, i: nat, j: nat)
    requires i < |msgs| && IsCustomer(msgs[i]) && forall k :: 0 <= k < i ==> !IsCustomer(msgs[k])
    requires j < |msgs| && IsCustomer(msgs[j]) && forall k :: 0 <= k < j ==> !IsCustomer(msgs[k])
    ensures i == j
  {
    assert !(i < j) && !(j < i);
  }

  /** No settings record, or a timer of zero, never makes a chat missed. */
  lemma NoTimerNeverMissed(settings: Fetch<Option<Settings>>, messages: Fetch<seq<Message>>, now: int)
    requires settings == Fetched(None)
      || (settings.Fetched? && settings.value.Some? && ReadTimerMs(settings.value.value.missedChatTimer) == 0)
    ensures !MissedAtRead(settings, messages, now)
  {
  }

  /** A conversation with no customer message (in particular an empty one)
      is never missed. */
  lemma NoCustomerNeverMissed(settings: Fetch<Option<Settings>>, msgs: seq<Message>, now: int)
    requires forall k :: 0 <= k < |msgs| ==> !IsCustomer(msgs[k])
    ensures !MissedAtRead(settings, Fetched(msgs), now)
  {
  }

  /** A staff message later than the first customer message rules "missed"
      out however long ago that was. */
  lemma StaffReplyAfterNeverMissed(settings: Fetch<Option<Settings>>, msgs: seq<Message>, now: int, i: nat, k: nat)
    requires i < |msgs| && IsCustomer(msgs[i]) && forall j :: 0 <= j < i ==> !IsCustomer(msgs[j])
    requires k < |msgs| && !IsCustomer(msgs[k]) && msgs[k].timestamp > msgs[i].timestamp
    ensures !MissedAtRead(settings, Fetched(msgs), now)
  {
    var fc := FirstCustomer(msgs);
    if fc.Some? {
      assert !(fc.value < i) && !(i < fc.value);
    }
  }

  /** Once a timer is set and no staff message follows the first customer
      message, the chat is missed exactly when strictly more than the timer
      has elapsed. */
  lemma MissedIffElapsed(s: Settings, msgs: seq<Message>, now: int, i: nat)
    requires ReadTimerMs(s.missedChatTimer) != 0
    requires i < |msgs| && IsCustomer(msgs[i]) && forall j :: 0 <= j < i ==> !IsCustomer(msgs[j])
    requires forall k :: 0 <= k < |msgs| && !IsCustomer(msgs[k]) ==> msgs[k].timestamp <= msgs[i].timestamp
    ensures MissedAtRead(Fetched(Some(s)), Fetched(msgs), now)
            <==> now - msgs[i].timestamp > ReadTimerMs(s.missedChatTimer)
  {
    var fc := FirstCustomer(msgs);
    assert fc.Some? && !(fc.value < i) && !(i < fc.value);
  }

  /** On messages sorted by timestamp the first customer message is also
      the earliest one. */
  lemma FirstCustomerIsEarliest(msgs: seq<Message>)
    requires Sorted(msgs, NotLater)
    requires FirstCustomer(msgs).Some?
    ensures forall k :: 0 <= k < |msgs| && IsCustomer(msgs[k]) ==>
              msgs[FirstCustomer(msgs).value].timestamp <= msgs[k].timestamp
  {
  }

  /** The ten-minute scenario: a customer writes at `t0` and nobody
      answers; nine minutes later the chat is not missed, eleven minutes
      later it is, and at exactly ten minutes it is not yet. If staff had
      answered five minutes in, it is not missed at eleven minutes. */
  lemma TenMinuteScenario(s: Settings, t0: int, customer: Message, staff: Message)
    requires s.missedChatTimer == Timer(0, 10, 0)
    requires customer.senderId.None? && customer.timestamp == t0
    requires staff.senderId.Some? && staff.timestamp == t0 + 5 * 60000
    ensures !MissedAtRead(Fetched(Some(s)), Fetched([customer]), t0 + 9 * 60000)
    ensures !MissedAtRead(Fetched(Some(s)), Fetched([customer]), t0 + 10 * 60000)
    ensures MissedAtRead(Fetched(Some(s)), Fetched([customer]), t0 + 11 * 60000)
    ensures !MissedAtRead(Fetched(Some(s)), Fetched([customer, staff]), t0 + 11 * 60000)
  {
    assert StaffRepliedAfter([customer, staff], t0) by {
      assert [customer, staff][1] == staff;
    }
  }

  /** A staff message at the very instant of the first customer message is
      not a reply. */
  lemma SameInstantIsNoReply(s: Settings, t0: int, customer: Message, staff: Message)
    requires ReadTimerMs(s.missedChatTimer) == 600000
    requires customer.senderId.None? && customer.timestamp == t0
    requires staff.senderId.Some? && staff.timestamp == t0
    ensures MissedAtRead(Fetched(Some(s)), Fetched([staff, customer]), t0 + 11 * 60000)
  {
    var msgs := [staff, customer];
    assert FirstCustomer(msgs) == Some(1) by {
      assert msgs[1..] == [customer];
    }
    assert !StaffRepliedAfter(msgs, t0) by {
      assert forall k :: 0 <= k < 2 ==> msgs[k].timestamp <= t0;
    }
  }

  // The sweep of analyticsService.updateMissedChats.

  /** The sweep's timer: `hours || 0`, `minutes || 10`, `seconds || 0`, so a
      stored minute count of zero, or no record at all, means ten minutes. */
  function SweepTimerMs(settings: Option<Settings>): (ms: int)
    ensures settings.None? ==> ms == 600000
  {
    var h := if settings.Some? then settings.value.missedChatTimer.hours else 0;
    var m := if settings.Some? && settings.value.missedChatTimer.minutes != 0
             then settings.value.missedChatTimer.minutes else 10;
    var s := if settings.Some? then settings.value.missedChatTimer.seconds else 0;
    h * 3600000 + m * 60000 + s * 1000
  }

  /** The two timers agree except when the stored minutes are zero, where
      the sweep waits ten minutes longer than the per-read evaluator. */
  lemma SweepTimerVersusReadTimer(s: Settings)
    ensures SweepTimerMs(Some(s)) == ReadTimerMs(s.missedChatTimer)
              + (if s.missedChatTimer.minutes == 0 then 600000 else 0)
  {
  }

  /** So a timer of 0h 0m 0s, which turns the per-read rule off, makes the
      sweep wait ten minutes. */
  lemma ZeroTimerSweepsAtTenMinutes(s: Settings)
    requires s.missedChatTimer == Timer(0, 0, 0)
    ensures ReadTimerMs(s.missedChatTimer) == 0 && SweepTimerMs(Some(s)) == 600000
  {
    var stored: Option<Settings> := Some(s);
    assert stored.Some? && stored.value.missedChatTimer == Timer(0, 0, 0);
    assert SweepTimerMs(stored) == 600000;
    assert ReadTimerMs(Timer(0, 0, 0)) == 0;
  }

  /** The tickets the sweep looks at: open or in progress, not yet flagged. */
  predicate SweepCandidate(t: Ticket) {
    (t.status == Open || t.status == InProgress) && !t.isMissed
  }

  /** How a sweep decides that a ticket has been answered. */
  datatype ReplyRule =
    | SenderTypeFilter(strictQuery: bool)  // the query as written
    | SenderIdPresent                      // a message with a sender

  /** `Message.findOne({ ticketId, senderType: { $in: [...] } })` found a
      message. Messages have no `senderType` field: with `strictQuery` on,
      Mongoose drops the unknown filter and any message of the ticket
      matches; with it off, no message matches. */
  function AdminReplyAsWritten(strictQuery: bool, msgs: seq<Message>, ticket: Id): bool {
    strictQuery && exists k :: 0 <= k < |msgs| && msgs[k].ticketId == ticket
  }

  /** A staff member has written in the ticket's conversation. */
  predicate HasStaffReply(msgs: seq<Message>, ticket: Id) {
    exists k :: 0 <= k < |msgs| && msgs[k].ticketId == ticket && msgs[k].senderId.Some?
  }

  predicate Replied(rule: ReplyRule, msgs: seq<Message>, ticket: Id) {
    match rule
    case SenderTypeFilter(strict) => AdminReplyAsWritten(strict, msgs, ticket)
    case SenderIdPresent => HasStaffReply(msgs, ticket)
  }

  /** The sweep's verdict on one ticket: a candidate without a reply whose
      age strictly exceeds the timer is flagged. */
  predicate SweepMarks(rule: ReplyRule, t: Ticket, msgs: seq<Message>, now: int, timerMs: int) {
    SweepCandidate(t) && !Replied(rule, msgs, t.id) && now - t.createdAt > timerMs
  }

  /** The ticket after the sweep has looked at it. */
  function SweepTicket(rule: ReplyRule, t: Ticket, msgs: seq<Message>, now: int, timerMs: int): (r: Ticket)
    ensures r.isMissed == (t.isMissed || SweepMarks(rule, t, msgs, now, timerMs))
    ensures r == t.(isMissed := r.isMissed)
  {
    if SweepMarks(rule, t, msgs, now, timerMs) then t.(isMissed := true) else t
  }

  /** Finding, the query as written: without `strictQuery` a ticket whose
      customer was answered by staff is still flagged once it is old
      enough; with `strictQuery` a ticket whose only message is the
      customer's is never flagged. The rule the code evidently intends,
      `SenderIdPresent`, gets both right. */
  lemma SenderTypeFilterMisjudges(t: Ticket, customer: Message, staff: Message, now: int, timerMs: int)
    requires SweepCandidate(t) && now - t.createdAt > timerMs
    requires customer.ticketId == t.id && customer.senderId.None?
    requires staff.ticketId == t.id && staff.senderId.Some?
    ensures SweepMarks(SenderTypeFilter(false), t, [customer, staff], now, timerMs)
    ensures !SweepMarks(SenderIdPresent, t, [customer, staff], now, timerMs)
    ensures !SweepMarks(SenderTypeFilter(true), t, [customer], now, timerMs)
    ensures SweepMarks(SenderIdPresent, t, [customer], now, timerMs)
  {
    assert [customer, staff][1] == staff;
    assert [customer][0] == customer;
  }

  /** With the intended rule, a flag is set exactly on the unresolved,
      unflagged, old enough tickets that no staff member has answered. */
  lemma SenderIdRuleMarksUnanswered(t: Ticket, msgs: seq<Message>, now: int, timerMs: int)
    ensures SweepMarks(SenderIdPresent, t, msgs, now, timerMs) <==>
      (&& t.status != Resolved && !t.isMissed && now - t.createdAt > timerMs
       && forall k :: 0 <= k < |msgs| && msgs[k].ticketId == t.id ==> IsCustomer(msgs[k]))
  {
  }

  // The bulk rule of management-frontend/src/services/ticketService.js.

  /** `checkMissedChats`'s filter: not resolved, last activity strictly
      before `now` minus the timer, not yet flagged. The timer is given in
      seconds (60 times the minutes the caller passes). */
  predicate StaleUnflagged(t: Ticket, now: int, timerSeconds: int) {
    t.status != Resolved && t.lastMessageAt < now - timerSeconds * 1000 && !t.isMissed
  }
}
