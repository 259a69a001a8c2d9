/**
 * The ticket dashboard of management-frontend/src/pages/Dashboard.jsx:
 * the query each tab sends to the ticket list endpoint, the tickets each
 * tab shows, the list and cursor kept across a first fetch and the
 * infinite-scroll fetches after it, and the initials of a customer's
 * name.
 */
module DashboardPage {
  import opened Wrappers
  import opened Text
  import opened Domain
  import opened Sequences
  import opened TicketList

  datatype Tab = All | ResolvedTab | Unresolved

  /** The query string of `fetchTickets`: the "resolved" tab asks for
      resolved tickets, the "unresolved" tab for open ones, a search term
      when one is typed, and the cursor on a fetch that continues the
      list. No limit is sent. */
  function TabQuery(tab: Tab, search: string, lastId: Option<Id>, reset: bool): ListQuery {
    ListQuery(
      None,
      if !reset && lastId.Some? then lastId else None,
      match tab
      case All => None
      case ResolvedTab => Some("resolved")
      case Unresolved => Some("open"),
      if search != "" then Some(search) else None)
  }

  /** The "unresolved" tab is sent only open tickets: a ticket in
      progress is never listed there, although the tab's own filter would
      show it. The "resolved" tab is sent only resolved tickets. */
  lemma UnresolvedTabFetchesOnlyOpen(ts: seq<Ticket>, caller: Caller, matches: (string, string) -> bool,
                                     search: string, lastId: Option<Id>, reset: bool)
    ensures forall t :: t in Page(ts, TabQuery(Unresolved, search, lastId, reset), caller, matches) ==> t.status == Open
    ensures forall t :: t in Page(ts, TabQuery(ResolvedTab, search, lastId, reset), caller, matches) ==> t.status == Resolved
    ensures forall t :: t in ts && t.status == InProgress ==>
              t !in Page(ts, TabQuery(Unresolved, search, lastId, reset), caller, matches)
  {
    var open := TabQuery(Unresolved, search, lastId, reset);
    var resolved := TabQuery(ResolvedTab, search, lastId, reset);
    assert open.status == Some("open") && resolved.status == Some("resolved");
    assert ParseStatus(open.status) == Some(Open);
    assert ParseStatus(resolved.status) == Some(Resolved);
    PageHasStatus(ts, open, caller, matches, Open);
    PageHasStatus(ts, resolved, caller, matches, Resolved);
  }

  lemma PageHasStatus(ts: seq<Ticket>, q: ListQuery, caller: Caller, matches: (string, string) -> bool, s: Status)
    requires ParseStatus(q.status) == Some(s)
    ensures forall t :: t in Page(ts, q, caller, matches) ==> t.status == s
  {
    PageFacts(ts, q, caller, matches);
  }

  /** Which tickets a tab shows of those it holds. */
  predicate Shows(tab: Tab, t: Ticket) {
    match tab
    case All => true
    case ResolvedTab => t.status == Resolved
    case Unresolved => t.status != Resolved
  }

  function ShownBy(tab: Tab): Ticket -> bool {
    (t: Ticket) => Shows(tab, t)
  }

  /** `displayedTickets`. */
  function Displayed(tab: Tab, ts: seq<Ticket>): seq<Ticket> {
    match tab
    case All => ts
    case ResolvedTab => Filter(ts, (t: Ticket) => t.status == Resolved)
    case Unresolved => Filter(ts, (t: Ticket) => t.status != Resolved)
  }

  /** A tab shows, in the order held, exactly the held tickets of its
      kind. */
  lemma DisplayedFacts(tab: Tab, ts: seq<Ticket>)
    ensures Displayed(tab, ts) == Filter(ts, ShownBy(tab))
    ensures forall t :: t in Displayed(tab, ts) <==> t in ts && Shows(tab, t)
  {
    match tab
    case All => FilterAll(ts, ShownBy(All));
    case ResolvedTab => FilterCongruent(ts, (t: Ticket) => t.status == Resolved, ShownBy(tab));
    case Unresolved => FilterCongruent(ts, (t: Ticket) => t.status != Resolved, ShownBy(tab));
  }

  /** The resolved and the unresolved tab split the held tickets between
      them. */
  lemma TabsSplitHeld(ts: seq<Ticket>)
    ensures |Displayed(ResolvedTab, ts)| + |Displayed(Unresolved, ts)| == |ts|
  {
    var res := (t: Ticket) => t.status == Resolved;
    var open := (t: Ticket) => t.status != Resolved;
    var any := (t: Ticket) => true;
    CountIsFilterLength(ts, res);
    CountIsFilterLength(ts, open);
    CountSplit(ts, res, any);
    CountCongruent(ts, Both(any, res), res);
    CountCongruent(ts, Both(any, Not(res)), open);
    CountAll(ts, any);
  }

  /** What the "unresolved" tab fetched it shows in full. */
  lemma UnresolvedTabShowsWhatItFetched(ts: seq<Ticket>, caller: Caller, matches: (string, string) -> bool,
                                        search: string, lastId: Option<Id>, reset: bool)
    ensures var page := Page(ts, TabQuery(Unresolved, search, lastId, reset), caller, matches);
            Displayed(Unresolved, page) == page
  {
    var page := Page(ts, TabQuery(Unresolved, search, lastId, reset), caller, matches);
    UnresolvedTabFetchesOnlyOpen(ts, caller, matches, search, lastId, reset);
    FilterAll(page, (t: Ticket) => t.status != Resolved);
  }

  lemma {:induction false} CountAll<T>(s: seq<T>, p: T -> bool)
    requires forall x :: x in s ==> p(x)
    ensures Count(s, p) == |s|
  {
    if s != [] {
      CountAll(s[1..], p);
    }
  }

  const LoadFailed := "Failed to load tickets"

  /** The dashboard's list state: the tickets held, the cursor for the
      next page, the two empty-result notices and the error line. */
  class Dashboard {
    var tickets: seq<Ticket>
    var lastId: Option<Id>
    var notFound: bool
    var noTickets: bool
    var error: string

    /** The two notices never show together, and the cursor is the id of
        the last ticket held. */
    ghost predicate Valid()
      reads this
    {
      && !(notFound && noTickets)
      && (lastId.Some? ==> tickets != [] && lastId.value == tickets[|tickets| - 1].id)
    }

    constructor ()
      ensures Valid()
      ensures tickets == [] && lastId == None && !notFound && !noTickets && error == ""
    {
      tickets := [];
      lastId := None;
      notFound := false;
      noTickets := false;
      error := "";
    }

    /** `fetchTickets(reset)` with the reply `reply` (`None` when the
        request fails, with the server's message, if any, in `failure`). A
        first fetch clears the cursor, the notices and the error, and
        replaces the list; a later fetch appends to it. A non-empty reply
        moves the cursor to its last ticket. */
    method Fetch(reset: bool, search: string, reply: Option<seq<Ticket>>, failure: Option<string>)
      requires Valid()
      modifies this
      ensures Valid()
      ensures reply.None? ==>
                && tickets == old(tickets)
                && error == (if failure.Some? && failure.value != "" then failure.value else LoadFailed)
                && (reset ==> lastId == None && !notFound && !noTickets)
                && (!reset ==> lastId == old(lastId) && notFound == old(notFound) && noTickets == old(noTickets))
      ensures reply.Some? && reset ==>
                && tickets == reply.value
                && notFound == (reply.value == [] && search != "")
                && noTickets == (reply.value == [] && search == "")
                && error == ""
      ensures reply.Some? && !reset ==>
                && tickets == old(tickets) + reply.value
                && notFound == old(notFound) && noTickets == old(noTickets) && error == old(error)
      ensures reply.Some? && reply.value != [] ==> lastId == Some(reply.value[|reply.value| - 1].id)
      ensures reply.Some? && reply.value == [] ==> lastId == (if reset then None else old(lastId))
    {
      if reset {
        lastId := None;
        noTickets := false;
        notFound := false;
        error := "";
      }
      if reply.None? {
        error := if failure.Some? && failure.value != "" then failure.value else LoadFailed;
        return;
      }
      var fetched := reply.value;
      if reset {
        tickets := fetched;
        var none := |fetched| == 0;
        notFound := none && search != "";
        noTickets := none && search == "";
      } else {
        tickets := tickets + fetched;
      }
      if |fetched| > 0 {
        lastId := Some(fetched[|fetched| - 1].id);
      } else if reset {
        lastId := None;
      }
    }

    /** The query an infinite-scroll fetch sends: the cursor is the id of
        the last ticket the dashboard holds. */
    function MoreQuery(tab: Tab, search: string): (q: ListQuery)
      reads this
      requires Valid()
      ensures q.lastId == lastId
      ensures q.lastId.Some? ==> q.lastId.value == tickets[|tickets| - 1].id
    {
      TabQuery(tab, search, lastId, false)
    }
  }

  /** `getInitials(fullName)`: the upper-cased first letters of the first
      two space-separated words of the trimmed name, or "?" when there are
      none. */
  function Initials(fullName: string): (r: string)
    ensures 1 <= |r| <= 2
    ensures Trim(fullName) == "" ==> r == "?"
    ensures Trim(fullName) != "" ==> r[0] == UpperChar(Trim(fullName)[0])
  {
    var name := Trim(fullName);
    var parts := Split(name, ' ');
    var first := if parts[0] != "" then [parts[0][0]] else "";
    var last := if |parts| > 1 && parts[1] != "" then [parts[1][0]] else "";
    var r := ToUpper(first + last);
    InitialsLead(fullName);
    if r == "" then "?" else r
  }

  /** A non-blank name's first word starts with the name's first
      character. */
  lemma InitialsLead(fullName: string)
    ensures var name := Trim(fullName);
            name != "" ==> Split(name, ' ')[0] != "" && Split(name, ' ')[0][0] == name[0]
  {
    var name := Trim(fullName);
    var _, _ := TrimIsInfix(fullName);
    if name != "" {
      SplitHead(name, ' ');
    }
  }
}
