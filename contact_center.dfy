/**
 * The Contact Center page of management-frontend/src/pages/ContactCenter.jsx:
 * the ticket list, the selected ticket and its conversation as the page
 * holds them, and how each event handler rewrites them once the server
 * has answered. The server's replies are parameters (`None` when the
 * request fails); the clock is the parameter `now`.
 */
module ContactCenter {
  import opened Wrappers
  import opened Domain

  /** A populated `assignedTo`. */
  datatype Assignee = Assignee(id: Id, firstName: string, lastName: string)

  /** A ticket as the page holds it: `assignee` is `None` when the
      populated reference is `null`, `lastMessage` when the list endpoint
      sent no text. */
  datatype Chat = Chat(
    id: Id,
    ticketId: string,
    userName: string,
    assignee: Option<Assignee>,
    status: Status,
    isMissed: bool,
    lastMessageAt: int,
    lastMessage: Option<string>)

  /** `(chat.assignedTo?._id || chat.assignedTo)`. */
  function AssigneeId(c: Chat): Option<Id> {
    if c.assignee.Some? then Some(c.assignee.value.id) else None
  }

  /** A message as the page holds it: `sender` is `None` for the customer
      and the populated staff member otherwise. */
  datatype ChatMessage = ChatMessage(id: Id, sender: Option<Assignee>, text: string, timestamp: int)

  /** The signed-in user of the auth context. */
  datatype Viewer = Viewer(id: Id, role: Role, firstName: string, lastName: string)

  /** The reply of `GET /tickets/:id`: the latest ticket and, when sent,
      its conversation. */
  datatype Detail = Detail(ticket: Chat, messages: Option<seq<ChatMessage>>)

  /** `prev.map(t => t._id === id ? f(t) : t)`: the tickets with id `id`
      become `f` of themselves, every other ticket stays as it was. */
  function MapById(ts: seq<Chat>, id: Id, f: Chat -> Chat): (r: seq<Chat>)
    ensures |r| == |ts|
    ensures forall i :: 0 <= i < |ts| && ts[i].id != id ==> r[i] == ts[i]
    ensures forall i :: 0 <= i < |ts| && ts[i].id == id ==> r[i] == f(ts[i])
  {
    seq(|ts|, i requires 0 <= i < |ts| => if ts[i].id == id then f(ts[i]) else ts[i])
  }

  function SetMissed(flag: bool): Chat -> Chat {
    (t: Chat) => t.(isMissed := flag)
  }

  function SetLastMessageAt(now: int): Chat -> Chat {
    (t: Chat) => t.(lastMessageAt := now)
  }

  function Becomes(u: Chat): Chat -> Chat {
    (t: Chat) => u
  }

  /** A per-id update that keeps each ticket's id keeps the list's ids in
      place, so a later update by id finds the same tickets. */
  lemma MapByIdKeepsIds(ts: seq<Chat>, id: Id, f: Chat -> Chat)
    requires forall t :: f(t).id == t.id
    ensures forall i :: 0 <= i < |ts| ==> MapById(ts, id, f)[i].id == ts[i].id
  {
  }

  /** Two updates of the same ticket's `isMissed` leave only the second
      one visible, and an update by an id the list does not hold changes
      nothing. */
  lemma MissedUpdatesCollapse(ts: seq<Chat>, id: Id, a: bool, b: bool)
    ensures MapById(MapById(ts, id, SetMissed(a)), id, SetMissed(b)) == MapById(ts, id, SetMissed(b))
    ensures (forall i :: 0 <= i < |ts| ==> ts[i].id != id) ==> MapById(ts, id, SetMissed(a)) == ts
  {
    var once := MapById(ts, id, SetMissed(a));
    MapByIdKeepsIds(ts, id, SetMissed(a));
    assert forall i :: 0 <= i < |ts| ==> MapById(once, id, SetMissed(b))[i] == MapById(ts, id, SetMissed(b))[i];
  }

  /** A staff message the server sent without a populated sender is
      shown as the viewer's own. */
  function WithSender(m: ChatMessage, viewer: Viewer): (r: ChatMessage)
    ensures r.sender.Some?
    ensures m.sender.Some? ==> r == m
    ensures m.sender.None? ==> r == m.(sender := Some(Assignee(viewer.id, viewer.firstName, viewer.lastName)))
  {
    if m.sender.Some? then m else m.(sender := Some(Assignee(viewer.id, viewer.firstName, viewer.lastName)))
  }

  class Page {
    const viewer: Viewer
    var tickets: seq<Chat>
    var selected: Option<Chat>
    var messages: seq<ChatMessage>

    constructor (viewer: Viewer, fetched: Option<seq<Chat>>)
      ensures this.viewer == viewer
      ensures tickets == (if fetched.Some? then fetched.value else [])
      ensures selected == None && messages == []
    {
      this.viewer := viewer;
      tickets := if fetched.Some? then fetched.value else [];
      selected := None;
      messages := [];
    }

    /** `canInteractWithTicket`: a ticket is selected and it is assigned
        to the viewer, whatever the viewer's role. */
    predicate CanInteractWithTicket()
      reads this
    {
      selected.Some? && AssigneeId(selected.value) == Some(viewer.id)
    }

    /** `handleSelectChat(ticket)`: with the server's latest ticket, that
        ticket is selected, its `isMissed` is copied into the list, and its
        conversation, when sent, replaces the messages. When the request
        fails, the ticket clicked is selected and the messages are those
        `fetchMessages` got (none when that fails too). */
    method SelectChat(ticket: Chat, reply: Option<Detail>, fallback: Option<seq<ChatMessage>>)
      modifies this
      ensures reply.Some? ==>
                && selected == Some(reply.value.ticket)
                && tickets == MapById(old(tickets), reply.value.ticket.id, SetMissed(reply.value.ticket.isMissed))
                && messages == (if reply.value.messages.Some? then reply.value.messages.value else old(messages))
      ensures reply.None? ==>
                && selected == Some(ticket)
                && tickets == old(tickets)
                && messages == (if fallback.Some? then fallback.value else [])
    {
      if reply.Some? {
        var latest := reply.value.ticket;
        selected := Some(latest);
        tickets := MapById(tickets, latest.id, SetMissed(latest.isMissed));
        if reply.value.messages.Some? {
          messages := reply.value.messages.value;
        }
      } else {
        selected := Some(ticket);
        messages := if fallback.Some? then fallback.value else [];
      }
    }

    /** `refreshSelectedTicket(id)`: the latest ticket becomes the
        selection and its `isMissed` is copied into the list. */
    method RefreshSelected(id: Id, latest: Option<Chat>)
      modifies this
      ensures messages == old(messages)
      ensures latest.None? ==> selected == old(selected) && tickets == old(tickets)
      ensures latest.Some? ==>
                selected == latest && tickets == MapById(old(tickets), id, SetMissed(latest.value.isMissed))
    {
      if latest.Some? {
        selected := latest;
        tickets := MapById(tickets, id, SetMissed(latest.value.isMissed));
      }
    }

    /** `handleSendMessage(text)`: nothing without a selection or when the
        request fails; otherwise the server's message is appended (shown as
        the viewer's when it comes back without a sender), only the
        selected ticket's `lastMessageAt` moves to now, and the selection
        is refreshed. The text itself reaches the server as the request
        body and is not kept here. */
    method SendMessage(reply: Option<ChatMessage>, now: int, latest: Option<Chat>)
      modifies this
      ensures old(selected).None? || reply.None? ==>
                selected == old(selected) && tickets == old(tickets) && messages == old(messages)
      ensures old(selected).Some? && reply.Some? ==>
                var id := old(selected).value.id;
                var touched := MapById(old(tickets), id, SetLastMessageAt(now));
                && messages == old(messages) + [WithSender(reply.value, viewer)]
                && (latest.None? ==> selected == old(selected) && tickets == touched)
                && (latest.Some? ==> selected == latest && tickets == MapById(touched, id, SetMissed(latest.value.isMissed)))
    {
      if selected.None? || reply.None? {
        return;
      }
      var id := selected.value.id;
      messages := messages + [WithSender(reply.value, viewer)];
      tickets := MapById(tickets, id, SetLastMessageAt(now));
      RefreshSelected(id, latest);
    }

    /** `handleAssign(ticketId, memberId)`: with the server's updated
        ticket, it replaces the listed ticket of that id and the selection
        when that is the ticket, and the ticket is then refreshed; nothing
        changes when the request fails. */
    method Assign(ticketId: Id, reply: Option<Chat>, latest: Option<Chat>)
      modifies this
      ensures messages == old(messages)
      ensures reply.None? ==> selected == old(selected) && tickets == old(tickets)
      ensures reply.Some? ==>
                var replaced := MapById(old(tickets), ticketId, Becomes(reply.value));
                var shown := if old(selected).Some? && old(selected).value.id == ticketId then reply else old(selected);
                && (latest.None? ==> selected == shown && tickets == replaced)
                && (latest.Some? ==> selected == latest && tickets == MapById(replaced, ticketId, SetMissed(latest.value.isMissed)))
    {
      if reply.None? {
        return;
      }
      tickets := MapById(tickets, ticketId, Becomes(reply.value));
      if selected.Some? && selected.value.id == ticketId {
        selected := reply;
      }
      RefreshSelected(ticketId, latest);
    }

    /** `handleStatusChange(ticketId, status)`: with the server's updated
        ticket, it replaces the listed ticket of that id and the selection
        when that is the ticket; nothing changes when the request fails. */
    method StatusChange(ticketId: Id, reply: Option<Chat>)
      modifies this
      ensures messages == old(messages)
      ensures reply.None? ==> selected == old(selected) && tickets == old(tickets)
      ensures reply.Some? ==>
                && tickets == MapById(old(tickets), ticketId, Becomes(reply.value))
                && selected == (if old(selected).Some? && old(selected).value.id == ticketId then reply else old(selected))
    {
      if reply.None? {
        return;
      }
      tickets := MapById(tickets, ticketId, Becomes(reply.value));
      if selected.Some? && selected.value.id == ticketId {
        selected := reply;
      }
    }
  }
}
