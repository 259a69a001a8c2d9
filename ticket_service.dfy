/**
 * The ticket service of management-frontend/src/services/ticketService.js
 * over the store: moving a removed member's tickets to the admin, the bulk
 * missed-chat rule on last activity, and the ticket statistics.
 */
module TicketService {
  import opened Wrappers
  import opened Domain
  import opened Sequences
  import opened Store
  import opened MissedChat
  import AnalyticsService

  // reassignTicketsToAdmin

  function AssignedTo(user: Id): Ticket -> bool {
    (t: Ticket) => t.assignedTo == user
  }

  /** `Ticket.updateMany({ assignedTo: from }, { assignedTo: to })`: every
      ticket of `from` now belongs to `to`; every other ticket is as it was. */
  function Reassigned(ts: seq<Ticket>, from: Id, to: Id): (r: seq<Ticket>)
    ensures |r| == |ts|
    ensures forall i :: 0 <= i < |ts| ==> r[i] == if ts[i].assignedTo == from then ts[i].(assignedTo := to) else ts[i]
  {
    seq(|ts|, i requires 0 <= i < |ts| => if ts[i].assignedTo == from then ts[i].(assignedTo := to) else ts[i])
  }

  /** The tickets `updateMany` reports as modified: matched, and given a
      value different from the one they had. */
  function Moves(from: Id, to: Id): Ticket -> bool {
    (t: Ticket) => t.assignedTo == from && from != to
  }

  /** The bulk update one ticket at a time, counting the tickets it
      modifies. */
  method ReassignPass(start: seq<Ticket>, from: Id, to: Id) returns (ts: seq<Ticket>, modified: nat)
    ensures ts == Reassigned(start, from, to)
    ensures modified == Count(start, Moves(from, to))
  {
    ts := start;
    modified := 0;
    var i := 0;
    while i < |ts|
      invariant |ts| == |start| && 0 <= i <= |start|
      invariant forall k :: 0 <= k < i ==> ts[k] == if start[k].assignedTo == from then start[k].(assignedTo := to) else start[k]
      invariant forall k :: i <= k < |start| ==> ts[k] == start[k]
      invariant modified == Count(start[..i], Moves(from, to))
    {
      CountPrefixStep(start, Moves(from, to), i);
      if ts[i].assignedTo == from {
        ts := ts[i := ts[i].(assignedTo := to)];
        if from != to {
          modified := modified + 1;
        }
      }
      i := i + 1;
    }
    assert start[..|start|] == start;
  }

  /** After moving the tickets of `from` to another user, `from` has none
      left, `to` has its own and all of those of `from`, and the reported
      count is the number of tickets `from` had. */
  lemma {:induction false} ReassignedCounts(ts: seq<Ticket>, from: Id, to: Id)
    requires from != to
    ensures Count(Reassigned(ts, from, to), AssignedTo(from)) == 0
    ensures Count(Reassigned(ts, from, to), AssignedTo(to)) == Count(ts, AssignedTo(to)) + Count(ts, AssignedTo(from))
    ensures Count(ts, Moves(from, to)) == Count(ts, AssignedTo(from))
  {
    if ts != [] {
      ReassignedCounts(ts[1..], from, to);
      assert Reassigned(ts, from, to)[1..] == Reassigned(ts[1..], from, to);
    }
  }

  const NoAdminError := "No admin found to reassign tickets"

  /** `reassignTicketsToAdmin(deletedUserId)`: throws when there is no
      admin (the error handler answers it with 500 and its message);
      otherwise every ticket of the user is moved to the first admin and
      the number of modified tickets is returned. */
  method ReassignTicketsToAdmin(db: Db, deletedUserId: Id) returns (r: Response<nat>)
    requires db.Valid()
    modifies db
    ensures db.Valid()
    ensures db.messages == old(db.messages) && db.users == old(db.users)
    ensures db.settings == old(db.settings) && db.nextId == old(db.nextId)
    ensures FindAdmin(old(db.users)).None? ==> r == Fail(500, NoAdminError) && db.tickets == old(db.tickets)
    ensures FindAdmin(old(db.users)).Some? ==>
              var admin := old(db.users)[FindAdmin(old(db.users)).value].id;
              && db.tickets == Reassigned(old(db.tickets), deletedUserId, admin)
              && r == Ok(Count(old(db.tickets), Moves(deletedUserId, admin)))
  {
    var found := FindAdmin(db.users);
    if found.None? {
      return Fail(500, NoAdminError);
    }
    var admin := db.users[found.value].id;
    var ts, modified := ReassignPass(db.tickets, deletedUserId, admin);
    assert HasUser(db.users, admin);
    KeysKeptConsistent(db.tickets, ts, db.messages, db.users, db.settings, db.nextId);
    db.tickets := ts;
    r := Ok(modified);
  }

  // checkMissedChats

  /** `checkMissedChats`'s filter with the clock and the timer fixed. */
  function StaleBy(now: int, timerSeconds: int): Ticket -> bool {
    (t: Ticket) => StaleUnflagged(t, now, timerSeconds)
  }

  /** `checkMissedChats(timerInMinutes)`, with the timer given in seconds
      (sixty times the minutes): every unresolved, unflagged ticket whose
      last activity is strictly older than the timer is flagged, and the
      number of flagged tickets is returned. */
  method CheckMissedChats(db: Db, timerSeconds: int, now: int) returns (marked: nat)
    requires db.Valid()
    modifies db
    ensures db.Valid()
    ensures db.messages == old(db.messages) && db.users == old(db.users)
    ensures db.settings == old(db.settings) && db.nextId == old(db.nextId)
    ensures db.tickets == AnalyticsService.Swept(old(db.tickets), StaleBy(now, timerSeconds))
    ensures marked == Count(old(db.tickets), StaleBy(now, timerSeconds))
  {
    var ts := AnalyticsService.SweepPass(db.tickets, StaleBy(now, timerSeconds));
    marked := Count(db.tickets, StaleBy(now, timerSeconds));
    assert OnlyFlagsDiffer(db.tickets, ts);
    FlagsKeepConsistent(db.tickets, ts, db.messages, db.users, db.settings, db.nextId);
    db.tickets := ts;
  }

  /** The bulk rule marks exactly the stale unflagged tickets, never
      clears a flag, and the count it reports is the number of flags it
      raised. */
  lemma CheckMissedChatsMarksNewly(ts: seq<Ticket>, now: int, timerSeconds: int)
    ensures var r := AnalyticsService.Swept(ts, StaleBy(now, timerSeconds));
            && OnlyFlagsDiffer(ts, r)
            && (forall i :: 0 <= i < |ts| ==>
                  (r[i].isMissed <==>
                     (ts[i].isMissed || (ts[i].status != Resolved && ts[i].lastMessageAt < now - timerSeconds * 1000))))
            && Count(r, AnalyticsService.IsFlagged())
               == Count(ts, AnalyticsService.IsFlagged()) + Count(ts, StaleBy(now, timerSeconds))
  {
    var stale := StaleBy(now, timerSeconds);
    AnalyticsService.SweepNeverClears(ts, stale);
    CountCongruent(ts, Both(Not(AnalyticsService.IsFlagged()), stale), stale);
  }

  // getTicketStatistics

  datatype Statistics = Statistics(
    totalTickets: nat,
    resolvedTickets: nat,
    openTickets: nat,
    inProgressTickets: nat,
    missedChats: nat,
    unresolvedTickets: int)

  /** The base query: a member's tickets when the role is `member`,
      every ticket otherwise (an admin, or no role given). */
  function StatisticsScope(userId: Option<Id>, role: Option<Role>): Ticket -> bool {
    (t: Ticket) => role != Some(Member) || Some(t.assignedTo) == userId
  }

  function HasStatus(s: Status): Ticket -> bool {
    (t: Ticket) => t.status == s
  }

  /** `getTicketStatistics(userId, role)`: five counts over the scope and
      the unresolved count derived from two of them. */
  function GetTicketStatistics(ts: seq<Ticket>, userId: Option<Id>, role: Option<Role>): Statistics {
    var scope := StatisticsScope(userId, role);
    var total := Count(ts, scope);
    var resolved := Count(ts, Both(scope, HasStatus(Resolved)));
    Statistics(total, resolved,
               Count(ts, Both(scope, HasStatus(Open))),
               Count(ts, Both(scope, HasStatus(InProgress))),
               Count(ts, Both(scope, AnalyticsService.IsFlagged())),
               total - resolved)
  }

  /** The counts add up: with only three statuses, open, in progress and
      resolved tickets make up the total; the unresolved count is never
      negative and is the open and in-progress tickets; the missed count
      does not exceed the total. */
  lemma StatisticsAddUp(ts: seq<Ticket>, userId: Option<Id>, role: Option<Role>)
    ensures var r := GetTicketStatistics(ts, userId, role);
            && r.openTickets + r.inProgressTickets + r.resolvedTickets == r.totalTickets
            && r.unresolvedTickets == r.openTickets + r.inProgressTickets
            && 0 <= r.unresolvedTickets <= r.totalTickets
            && r.missedChats <= r.totalTickets
  {
    var scope := StatisticsScope(userId, role);
    var unresolved := Both(scope, Not(HasStatus(Resolved)));
    CountSplit(ts, HasStatus(Resolved), scope);
    CountSplit(ts, HasStatus(Open), unresolved);
    CountCongruent(ts, Both(unresolved, HasStatus(Open)), Both(scope, HasStatus(Open)));
    CountCongruent(ts, Both(unresolved, Not(HasStatus(Open))), Both(scope, HasStatus(InProgress)));
    CountSplit(ts, AnalyticsService.IsFlagged(), scope);
  }

  /** A member's statistics count only the tickets assigned to them; an
      admin's, or a call without a role, count every ticket. */
  lemma StatisticsScoped(ts: seq<Ticket>, userId: Option<Id>, role: Option<Role>)
    ensures role == Some(Member) && userId.Some? ==>
              GetTicketStatistics(ts, userId, role).totalTickets == Count(ts, AssignedTo(userId.value))
    ensures role != Some(Member) ==> GetTicketStatistics(ts, userId, role).totalTickets == |ts|
  {
    if role == Some(Member) && userId.Some? {
      CountCongruent(ts, StatisticsScope(userId, role), AssignedTo(userId.value));
    }
    if role != Some(Member) {
      CountAll(ts, StatisticsScope(userId, role));
    }
  }

  lemma {:induction false} CountAll<T>(s: seq<T>, p: T -> bool)
    requires forall x :: x in s ==> p(x)
    ensures Count(s, p) == |s|
  {
    if s != [] {
      CountAll(s[1..], p);
    }
  }
}
