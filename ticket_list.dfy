/**
 * The ticket list query of `getAllTickets`
 * (backend/src/controllers/ticketController.js): the filter built from
 * the request (status, search, cursor, member scope), the order newest
 * activity first, and the page limit.
 */
module TicketList {
  import opened Wrappers
  import opened Domain
  import opened Sequences
  import opened Store

  /** `sort({ lastMessageAt: -1, _id: -1 })`: `a` may come before `b`. */
  predicate NewerFirst(a: Ticket, b: Ticket) {
    a.lastMessageAt > b.lastMessageAt || (a.lastMessageAt == b.lastMessageAt && a.id >= b.id)
  }

  lemma NewerFirstTotal()
    ensures TotalPreorder(NewerFirst)
  {
  }

  /** With unique ids the order tells the tickets of the store apart. */
  lemma NewerFirstTellsApart(ts: seq<Ticket>, bound: nat)
    requires TicketIdsIncreasing(ts, bound)
    ensures AntisymmetricOn(ts, NewerFirst)
  {
    forall x, y | x in ts && y in ts && NewerFirst(x, y) && NewerFirst(y, x)
      ensures x == y
    {
      var i :| 0 <= i < |ts| && ts[i] == x;
      var j :| 0 <= j < |ts| && ts[j] == y;
      TicketPositionUnique(ts, bound, i, j);
    }
  }

  /** The query string: `limit` (20 when absent), `lastId`, `status` and
      `search`. */
  datatype ListQuery = ListQuery(limit: Option<nat>, lastId: Option<Id>, status: Option<string>, search: Option<string>)

  function Limit(q: ListQuery): nat {
    q.limit.GetOr(20)
  }

  /** The filter `getAllTickets` builds: a status only when it names one
      of the three, the search pattern (a `$regex`, left to `matches`)
      against the ticket number, the `_id < lastId` cursor, and a
      member's scope. */
  predicate Selected(q: ListQuery, caller: Caller, matches: (string, string) -> bool, t: Ticket) {
    && (ParseStatus(q.status).Some? ==> t.status == ParseStatus(q.status).value)
    && (q.search.Some? && q.search.value != [] ==> matches(q.search.value, t.ticketId))
    && (q.lastId.Some? ==> t.id < q.lastId.value)
    && (caller.role == Member ==> t.assignedTo == caller.id)
  }

  function SelectedBy(q: ListQuery, caller: Caller, matches: (string, string) -> bool): Ticket -> bool {
    t => Selected(q, caller, matches, t)
  }

  /** All selected tickets, newest activity first. */
  function Selection(ts: seq<Ticket>, q: ListQuery, caller: Caller, matches: (string, string) -> bool): seq<Ticket> {
    Sort(Filter(ts, SelectedBy(q, caller, matches)), NewerFirst)
  }

  /** The page: the selection cut to `limit` (`limit(0)` does not cut). */
  function Page(ts: seq<Ticket>, q: ListQuery, caller: Caller, matches: (string, string) -> bool): seq<Ticket> {
    var sel := Selection(ts, q, caller, matches);
    if Limit(q) == 0 then sel else Take(sel, Limit(q))
  }

  /** `hasMore`: the page is exactly `limit` long. */
  predicate HasMore(page: seq<Ticket>, q: ListQuery) {
    |page| == Limit(q)
  }

  /** The cursor handed back: the last ticket's id. */
  function NextCursor(page: seq<Ticket>): Option<Id> {
    if page == [] then None else Some(page[|page| - 1].id)
  }

  /** The page holds stored tickets that pass the filter (so a member only
      sees tickets assigned to them, and with a cursor only smaller ids),
      newest activity first, at most `limit` of them. */
  lemma PageFacts(ts: seq<Ticket>, q: ListQuery, caller: Caller, matches: (string, string) -> bool)
    ensures var page := Page(ts, q, caller, matches);
            && (forall t :: t in page ==> t in ts && Selected(q, caller, matches, t))
            && (forall t :: t in page ==> InScope(caller, t))
            && (q.lastId.Some? ==> forall t :: t in page ==> t.id < q.lastId.value)
            && (Limit(q) > 0 ==> |page| <= Limit(q))
            && Sorted(page, NewerFirst)
  {
    var sel := Selection(ts, q, caller, matches);
    var page := Page(ts, q, caller, matches);
    SelectionFacts(ts, q, caller, matches);
    assert page <= sel;
    PrefixKeeps(sel, page);
    forall t | t in page ensures InScope(caller, t) && (q.lastId.Some? ==> t.id < q.lastId.value) {
      assert Selected(q, caller, matches, t);
    }
  }

  /** The selection holds stored tickets that pass the filter, newest
      activity first. */
  lemma SelectionFacts(ts: seq<Ticket>, q: ListQuery, caller: Caller, matches: (string, string) -> bool)
    ensures var sel := Selection(ts, q, caller, matches);
            && (forall t :: t in sel ==> t in ts && Selected(q, caller, matches, t))
            && Sorted(sel, NewerFirst)
  {
    var p := SelectedBy(q, caller, matches);
    var sel := Selection(ts, q, caller, matches);
    NewerFirstTotal();
    SortSorted(Filter(ts, p), NewerFirst);
    forall t | t in sel ensures t in ts && Selected(q, caller, matches, t) {
      assert t in multiset(sel);
    }
  }

  /** A prefix of a list keeps its order and holds only its tickets. */
  lemma PrefixKeeps(sel: seq<Ticket>, page: seq<Ticket>)
    requires Sorted(sel, NewerFirst) && page <= sel
    ensures Sorted(page, NewerFirst)
    ensures forall t :: t in page ==> t in sel
  {
  }

  /** A page shorter than the limit is the whole selection; with
      `limit(0)`, `hasMore` holds only for an empty page. */
  lemma HasMoreMeaning(ts: seq<Ticket>, q: ListQuery, caller: Caller, matches: (string, string) -> bool)
    ensures var page := Page(ts, q, caller, matches);
            && (Limit(q) > 0 && !HasMore(page, q) ==> page == Selection(ts, q, caller, matches))
            && (Limit(q) == 0 ==> (HasMore(page, q) <==> page == []))
  {
  }

  /** A status that is not one of the three is ignored: the page is the
      one without a status filter. */
  lemma UnknownStatusIgnored(ts: seq<Ticket>, q: ListQuery, caller: Caller, matches: (string, string) -> bool)
    requires ParseStatus(q.status).None?
    ensures Page(ts, q, caller, matches) == Page(ts, q.(status := None), caller, matches)
  {
    var p := SelectedBy(q, caller, matches);
    var p0 := SelectedBy(q.(status := None), caller, matches);
    assert forall t :: p(t) == p0(t);
    FilterCongruent(ts, p, p0);
  }

  /** Finding: the cursor is an id while the order is by last activity.
      Ticket 1 has the latest activity, so a one-ticket page shows it and
      hands back cursor 1; the next page asks for ids below 1 and is
      empty, and tickets 2 and 3 are never listed. */
  lemma IdCursorSkipsTickets(caller: Caller, matches: (string, string) -> bool, a: Ticket, b: Ticket, c: Ticket)
    requires caller.role == Admin
    requires a.id == 1 && b.id == 2 && c.id == 3
    requires a.lastMessageAt == 300 && b.lastMessageAt == 200 && c.lastMessageAt == 100
    ensures var q := ListQuery(Some(1), None, None, None);
            var first := Page([a, b, c], q, caller, matches);
            && first == [a]
            && NextCursor(first) == Some(1)
            && Page([a, b, c], q.(lastId := Some(1)), caller, matches) == []
  {
    var q := ListQuery(Some(1), None, None, None);
    FirstPageOfThree(caller, matches, a, b, c, q);
    NothingBelowIdOne(caller, matches, a, b, c, q.(lastId := Some(1)));
  }

  lemma FirstPageOfThree(caller: Caller, matches: (string, string) -> bool, a: Ticket, b: Ticket, c: Ticket, q: ListQuery)
    requires caller.role == Admin && q == ListQuery(Some(1), None, None, None)
    requires a.id == 1 && b.id == 2 && c.id == 3
    requires a.lastMessageAt == 300 && b.lastMessageAt == 200 && c.lastMessageAt == 100
    ensures Page([a, b, c], q, caller, matches) == [a]
  {
    var all := [a, b, c];
    AdminSelectsAll(caller, matches, all, q);
    NewestFirstAlready(a, b, c);
    assert Take(all, 1) == [a];
  }

  lemma NewestFirstAlready(a: Ticket, b: Ticket, c: Ticket)
    requires a.lastMessageAt > b.lastMessageAt > c.lastMessageAt
    ensures Sort([a, b, c], NewerFirst) == [a, b, c]
  {
    assert Sorted([a, b, c], NewerFirst);
    SortOfSorted([a, b, c], NewerFirst);
  }

  /** With no status, search or cursor, an admin's filter keeps every
      ticket. */
  lemma AdminSelectsAll(caller: Caller, matches: (string, string) -> bool, ts: seq<Ticket>, q: ListQuery)
    requires caller.role == Admin && q.status.None? && q.search.None? && q.lastId.None?
    ensures Filter(ts, SelectedBy(q, caller, matches)) == ts
  {
    FilterSplitsAt(ts, SelectedBy(q, caller, matches), 0);
    assert ts[0..] == ts;
  }

  lemma NothingBelowIdOne(caller: Caller, matches: (string, string) -> bool, a: Ticket, b: Ticket, c: Ticket, q: ListQuery)
    requires q.lastId == Some(1)
    requires a.id == 1 && b.id == 2 && c.id == 3
    ensures Page([a, b, c], q, caller, matches) == []
  {
    FilterSplitsAt([a, b, c], SelectedBy(q, caller, matches), 3);
  }

  // The cursor the code evidently intends: the (lastMessageAt, _id) key of
  // the last ticket shown, continuing strictly after it in the list order.

  /** `t` comes strictly after the ticket `c` in the list order. */
  predicate After(c: Ticket, t: Ticket) {
    NewerFirst(c, t) && t.id != c.id
  }

  function AfterBy(c: Ticket): Ticket -> bool {
    t => After(c, t)
  }

  /** The filter without its cursor. */
  function BaseBy(q: ListQuery, caller: Caller, matches: (string, string) -> bool): Ticket -> bool {
    SelectedBy(q.(lastId := None), caller, matches)
  }

  /** The filter with a key cursor after `c`. */
  function KeysetBy(q: ListQuery, caller: Caller, matches: (string, string) -> bool, c: Ticket): Ticket -> bool {
    t => Selected(q.(lastId := None), caller, matches, t) && After(c, t)
  }

  /** The selection with a key cursor after `c`. */
  function KeysetSelection(ts: seq<Ticket>, q: ListQuery, caller: Caller, matches: (string, string) -> bool, c: Ticket): seq<Ticket> {
    Sort(Filter(ts, KeysetBy(q, caller, matches, c)), NewerFirst)
  }

  /** The full selection without a cursor. */
  function All(ts: seq<Ticket>, q: ListQuery, caller: Caller, matches: (string, string) -> bool): seq<Ticket> {
    Sort(Filter(ts, BaseBy(q, caller, matches)), NewerFirst)
  }

  /** The key-cursor selection is the full selection with the tickets up
      to and including `c` removed. */
  lemma KeysetSelectionFilters(ts: seq<Ticket>, bound: nat, q: ListQuery, caller: Caller,
                               matches: (string, string) -> bool, c: Ticket)
    requires TicketIdsIncreasing(ts, bound)
    ensures KeysetSelection(ts, q, caller, matches, c)
         == Filter(All(ts, q, caller, matches), AfterBy(c))
  {
    var base := BaseBy(q, caller, matches);
    var after := AfterBy(c);
    assert Sort(Filter(ts, Both(base, after)), NewerFirst) == Filter(Sort(Filter(ts, base), NewerFirst), after) by {
      NewerFirstTellsApart(ts, bound);
      NewerFirstTotal();
      SortTwoFilters(ts, base, after, NewerFirst);
    }
    assert Filter(ts, Both(base, after)) == Filter(ts, KeysetBy(q, caller, matches, c)) by {
      FilterCongruent(ts, Both(base, after), KeysetBy(q, caller, matches, c));
    }
  }

  /** In the full selection, the tickets after its `k`-th are exactly the
      ones from position `k` on. */
  lemma AfterIsSuffix(ts: seq<Ticket>, bound: nat, q: ListQuery, caller: Caller,
                      matches: (string, string) -> bool, k: nat)
    requires TicketIdsIncreasing(ts, bound)
    requires var all := All(ts, q, caller, matches);
             0 < k <= |all|
    ensures var all := All(ts, q, caller, matches);
            Filter(all, AfterBy(all[k - 1])) == all[k..]
  {
    var base := BaseBy(q, caller, matches);
    var fb := Filter(ts, base);
    var all := Sort(fb, NewerFirst);
    var c := all[k - 1];
    NewerFirstTotal();
    SortSorted(fb, NewerFirst);
    TicketsDistinct(ts, bound);
    NoDuplicatesKept(ts, base, NewerFirst);
    NewerFirstTellsApart(ts, bound);
    assert forall x :: x in all ==> x in ts by {
      assert forall x :: x in all ==> x in multiset(fb);
    }
    forall x | x in all ensures AfterBy(c)(x) <==> NewerFirst(c, x) && x != c {
      SameIdSameTicket(ts, bound, x, c);
    }
    SuffixAfter(all, NewerFirst, k, AfterBy(c));
  }

  /** With a key cursor taken from the last ticket of a page, the next
      selection is exactly the rest of the full selection: paging this way
      lists every selected ticket once, in order. */
  lemma KeysetCursorContinues(ts: seq<Ticket>, bound: nat, q: ListQuery, caller: Caller,
                              matches: (string, string) -> bool, k: nat)
    requires TicketIdsIncreasing(ts, bound)
    requires var all := All(ts, q, caller, matches);
             0 < k <= |all|
    ensures var all := All(ts, q, caller, matches);
            KeysetSelection(ts, q, caller, matches, all[k - 1]) == all[k..]
  {
    var all := All(ts, q, caller, matches);
    KeysetSelectionFilters(ts, bound, q, caller, matches, all[k - 1]);
    AfterIsSuffix(ts, bound, q, caller, matches, k);
  }
}
