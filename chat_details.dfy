/**
 * The details column of management-frontend/src/components/contactCenter/ChatDetails.jsx:
 * the avatar initials, the status the dropdown shows, and the
 * confirmation steps before a ticket is reassigned or closed. The calls
 * the column makes to the page's `onAssign` and `onStatusChange` are
 * recorded in order.
 */
module ChatDetails {
  import opened Wrappers
  import opened Text
  import opened Domain
  import opened ContactCenter
  import TicketController

  /** `getInitials(firstName, lastName)`: the upper-cased first characters
      of the two names, "?" when both are missing or empty. */
  function InitialsOf(first: Option<string>, last: Option<string>): (r: string)
    ensures 1 <= |r| <= 2
    ensures (first.None? || first.value == "") && (last.None? || last.value == "") ==> r == "?"
    ensures first.Some? && first.value != "" ==> r[0] == UpperChar(first.value[0])
    ensures first.Some? && first.value != "" ==>
              (last.Some? && last.value != "" <==> |r| == 2) &&
              (|r| == 2 ==> r[1] == UpperChar(last.value[0]))
    ensures first.None? || first.value == "" ==> last.Some? && last.value != "" ==> r == [UpperChar(last.value[0])]
  {
    var f := if first.Some? && first.value != "" then [first.value[0]] else "";
    var l := if last.Some? && last.value != "" then [last.value[0]] else "";
    var r := ToUpper(f + l);
    if r == "" then "?" else r
  }

  /** The header avatar: the initials of the customer name's first two
      space-separated parts, untrimmed. */
  function HeaderInitials(userName: string): (r: string)
    ensures 1 <= |r| <= 2
    ensures userName != "" && userName[0] != ' ' ==> r[0] == UpperChar(userName[0])
  {
    var parts := Split(userName, ' ');
    FirstPartLeads(userName);
    InitialsOf(Some(parts[0]), if |parts| > 1 then Some(parts[1]) else None)
  }

  lemma FirstPartLeads(s: string)
    ensures s != "" && s[0] != ' ' ==> Split(s, ' ')[0] != "" && Split(s, ' ')[0][0] == s[0]
  {
    if s != "" && s[0] != ' ' {
      SplitHead(s, ' ');
    }
  }

  /** The status dropdown's value: "resolved" for a resolved ticket and
      "unresolved" for an open or in-progress one. */
  function StatusChoice(c: Chat): (r: string)
    ensures r == "resolved" <==> c.status == Resolved
    ensures r == "resolved" || r == "unresolved"
  {
    if c.status == Resolved then "resolved" else "unresolved"
  }

  /** The dropdown's "unresolved" names no status, so the server leaves the
      ticket as it is: choosing it never reopens a resolved ticket, nor
      changes an open or in-progress one. Choosing "resolved" closes it. */
  lemma ServerReadsChoices(t: Ticket)
    ensures TicketController.StatusUpdated(t, Some("unresolved")) == t
    ensures TicketController.StatusUpdated(t, Some("resolved")) == t.(status := Resolved)
  {
    assert StatusName(Resolved) == "resolved";
  }

  /** The teammate dropdown is enabled only for an admin. */
  predicate TeammatesEnabled(viewer: Viewer) {
    viewer.role == Admin
  }

  datatype Call = AssignCall(ticketId: Id, memberId: Option<Id>) | StatusCall(ticketId: Id, status: Option<string>)

  class Panel {
    const ticket: Chat
    const viewer: Viewer
    var showAssignModal: bool
    var showStatusModal: bool
    var pendingAssign: Option<Id>
    var pendingStatus: Option<string>
    var calls: seq<Call>

    /** An open confirmation always has something to confirm: a member
        to assign to, or the "resolved" status. */
    ghost predicate Valid()
      reads this
    {
      && (showAssignModal ==> pendingAssign.Some?)
      && (showStatusModal ==> pendingStatus == Some("resolved"))
    }

    constructor (ticket: Chat, viewer: Viewer)
      ensures Valid()
      ensures this.ticket == ticket && this.viewer == viewer
      ensures !showAssignModal && !showStatusModal && pendingAssign == None && pendingStatus == None && calls == []
    {
      this.ticket := ticket;
      this.viewer := viewer;
      showAssignModal := false;
      showStatusModal := false;
      pendingAssign := None;
      pendingStatus := None;
      calls := [];
    }

    /** `handleAssignChange(memberId)`: choosing someone other than the
        current assignee asks for confirmation; choosing the current
        assignee does nothing. Only an admin can open the dropdown. */
    method AssignChange(memberId: Id)
      requires Valid() && TeammatesEnabled(viewer)
      modifies this
      ensures Valid()
      ensures calls == old(calls) && showStatusModal == old(showStatusModal) && pendingStatus == old(pendingStatus)
      ensures Some(memberId) != AssigneeId(ticket) ==> showAssignModal && pendingAssign == Some(memberId)
      ensures Some(memberId) == AssigneeId(ticket) ==>
                showAssignModal == old(showAssignModal) && pendingAssign == old(pendingAssign)
    {
      if Some(memberId) != AssigneeId(ticket) {
        pendingAssign := Some(memberId);
        showAssignModal := true;
      }
    }

    /** `confirmAssign`: one call to `onAssign` with the member chosen, and
        the confirmation is closed and cleared. */
    method ConfirmAssign()
      requires Valid() && showAssignModal
      modifies this
      ensures Valid()
      ensures calls == old(calls) + [AssignCall(ticket.id, old(pendingAssign))]
      ensures !showAssignModal && pendingAssign == None
      ensures showStatusModal == old(showStatusModal) && pendingStatus == old(pendingStatus)
    {
      calls := calls + [AssignCall(ticket.id, pendingAssign)];
      showAssignModal := false;
      pendingAssign := None;
    }

    /** The assignment dialog's cancel: the dialog closes, nothing is
        called, and the choice stays pending until the next one. */
    method CancelAssign()
      requires Valid()
      modifies this
      ensures Valid()
      ensures !showAssignModal && pendingAssign == old(pendingAssign) && calls == old(calls)
      ensures showStatusModal == old(showStatusModal) && pendingStatus == old(pendingStatus)
    {
      showAssignModal := false;
    }

    /** `handleStatusChange(status)`: closing a ticket that is not yet
        resolved asks for confirmation; any other choice is passed on at
        once. */
    method StatusChange(status: string)
      requires Valid()
      modifies this
      ensures Valid()
      ensures showAssignModal == old(showAssignModal) && pendingAssign == old(pendingAssign)
      ensures status == "resolved" && ticket.status != Resolved ==>
                showStatusModal && pendingStatus == Some("resolved") && calls == old(calls)
      ensures !(status == "resolved" && ticket.status != Resolved) ==>
                && calls == old(calls) + [StatusCall(ticket.id, Some(status))]
                && showStatusModal == old(showStatusModal) && pendingStatus == old(pendingStatus)
    {
      if status == "resolved" && ticket.status != Resolved {
        pendingStatus := Some(status);
        showStatusModal := true;
      } else {
        calls := calls + [StatusCall(ticket.id, Some(status))];
      }
    }

    /** `confirmStatusChange`: one call to `onStatusChange` with
        "resolved", and the confirmation is closed and cleared. */
    method ConfirmStatus()
      requires Valid() && showStatusModal
      modifies this
      ensures Valid()
      ensures calls == old(calls) + [StatusCall(ticket.id, Some("resolved"))]
      ensures !showStatusModal && pendingStatus == None
      ensures showAssignModal == old(showAssignModal) && pendingAssign == old(pendingAssign)
    {
      calls := calls + [StatusCall(ticket.id, pendingStatus)];
      showStatusModal := false;
      pendingStatus := None;
    }

    /** The closing dialog's cancel. */
    method CancelStatus()
      requires Valid()
      modifies this
      ensures Valid()
      ensures !showStatusModal && pendingStatus == old(pendingStatus) && calls == old(calls)
      ensures showAssignModal == old(showAssignModal) && pendingAssign == old(pendingAssign)
    {
      showStatusModal := false;
    }
  }

  /** Choosing "unresolved" on a resolved ticket sends it at once, and the
      server keeps the ticket resolved. */
  method ReopenIsIgnored(t: Ticket, chat: Chat, viewer: Viewer) returns (sent: Call, after: Ticket)
    requires chat.id == t.id && chat.status == Resolved && t.status == Resolved
    ensures sent == StatusCall(t.id, Some("unresolved"))
    ensures after == t && after.status == Resolved
  {
    var panel := new Panel(chat, viewer);
    panel.StatusChange("unresolved");
    sent := panel.calls[0];
    ServerReadsChoices(t);
    after := TicketController.StatusUpdated(t, sent.status);
  }

  /** Closing an open ticket takes two steps, choosing "resolved" and
      confirming, and then sends exactly one "resolved", which the server
      applies. */
  method CloseTakesConfirmation(t: Ticket, chat: Chat, viewer: Viewer) returns (beforeConfirm: seq<Call>, sent: seq<Call>, after: Ticket)
    requires chat.id == t.id && chat.status != Resolved
    ensures beforeConfirm == []
    ensures sent == [StatusCall(t.id, Some("resolved"))]
    ensures after.status == Resolved && after == t.(status := Resolved)
  {
    var panel := new Panel(chat, viewer);
    panel.StatusChange("resolved");
    beforeConfirm := panel.calls;
    panel.ConfirmStatus();
    sent := panel.calls;
    ServerReadsChoices(t);
    after := TicketController.StatusUpdated(t, sent[0].status);
  }
}
