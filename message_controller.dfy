/**
 * The conversation endpoints of backend/src/controllers/messageController.js
 * over the store: reading a ticket's messages oldest first, and a staff
 * member posting a reply.
 */
module MessageController {
  import opened Wrappers
  import opened Text
  import opened Domain
  import opened Sequences
  import opened Store

  const TicketNotFound := "Ticket not found"
  const NotAuthorizedToView := "Not authorized to view messages for this ticket"
  const TextRequired := "Message text is required"
  const NotAuthorizedToSend := "Not authorized to send message to this ticket"

  /** `getMessagesByTicket`: 404 for a missing ticket, 403 for a member on
      a ticket not assigned to them, otherwise the ticket's conversation. */
  function GetMessagesByTicket(ts: seq<Ticket>, ms: seq<Message>, caller: Caller, id: Id): (r: Response<seq<Message>>)
    ensures r == Fail(404, TicketNotFound) <==> !HasTicket(ts, id)
    ensures r == Fail(403, NotAuthorizedToView) <==>
              HasTicket(ts, id) && caller.role == Member && ts[FindTicket(ts, id).value].assignedTo != caller.id
    ensures r.Ok? ==> HasTicket(ts, id) && InScope(caller, ts[FindTicket(ts, id).value])
  {
    var found := FindTicket(ts, id);
    if found.None? then Fail(404, TicketNotFound)
    else if caller.role == Member && ts[found.value].assignedTo != caller.id then Fail(403, NotAuthorizedToView)
    else Ok(Conversation(ms, id))
  }

  /** What a reader gets back: every stored message of the ticket, each
      once per copy stored, oldest first, and nothing else. */
  lemma ReadMessagesFacts(ts: seq<Ticket>, ms: seq<Message>, caller: Caller, id: Id)
    requires GetMessagesByTicket(ts, ms, caller, id).Ok?
    ensures var got := GetMessagesByTicket(ts, ms, caller, id).value;
            && (forall k :: 0 <= k < |got| - 1 ==> got[k].timestamp <= got[k + 1].timestamp)
            && multiset(got) == multiset(Filter(ms, MessageOf(id)))
            && (forall m :: m in got <==> m in ms && m.ticketId == id)
  {
    ConversationFacts(ms, id);
  }

  /** An admin may read every ticket there is. */
  lemma AdminReadsEveryTicket(ts: seq<Ticket>, ms: seq<Message>, caller: Caller, id: Id)
    requires caller.role == Admin && HasTicket(ts, id)
    ensures GetMessagesByTicket(ts, ms, caller, id).Ok?
  {
  }

  /** `!text || !text.trim()`. */
  predicate BlankText(text: Option<string>) {
    text.None? || Trim(text.value) == ""
  }

  /** `sendMessage`: blank text answers 400 before the ticket is looked up;
      then 404 for a missing ticket and 403 for a member on a ticket not
      assigned to them; otherwise one message from the caller, with the
      trimmed text and stamped `now`, is stored last, and the ticket's
      last activity becomes `now`. Nothing else changes. */
  method SendMessage(db: Db, caller: Caller, ticketId: Id, text: Option<string>, now: int) returns (r: Response<Message>)
    requires db.Valid()
    modifies db
    ensures db.Valid()
    ensures db.users == old(db.users) && db.settings == old(db.settings)
    ensures BlankText(text) ==> r == Fail(400, TextRequired) && unchanged(db)
    ensures !BlankText(text) && !HasTicket(old(db.tickets), ticketId) ==>
              r == Fail(404, TicketNotFound) && unchanged(db)
    ensures !BlankText(text) && HasTicket(old(db.tickets), ticketId) ==>
              var i := FindTicket(old(db.tickets), ticketId).value;
              if !InScope(caller, old(db.tickets)[i]) then
                r == Fail(403, NotAuthorizedToSend) && unchanged(db)
              else
                var m := Message(old(db.nextId), ticketId, Some(caller.id), Trim(text.value), now);
                && r == Ok(m)
                && db.messages == old(db.messages) + [m]
                && db.tickets == old(db.tickets)[i := old(db.tickets)[i].(lastMessageAt := now)]
                && db.nextId == old(db.nextId) + 1
  {
    if text.None? || Trim(text.value) == "" {
      return Fail(400, TextRequired);
    }
    var found := FindTicket(db.tickets, ticketId);
    if found.None? {
      return Fail(404, TicketNotFound);
    }
    var i := found.value;
    var t := db.tickets[i];
    if caller.role == Member && t.assignedTo != caller.id {
      return Fail(403, NotAuthorizedToSend);
    }
    var m := Message(db.nextId, ticketId, Some(caller.id), Trim(text.value), now);
    StoreReply(db, i, m);
    r := Ok(m);
  }

  /** `Message.create` then the ticket's `lastMessageAt` update: the
      message under the next id, and the `i`-th ticket's last activity set
      to the message's time. */
  method StoreReply(db: Db, i: nat, m: Message)
    requires db.Valid() && i < |db.tickets|
    requires m.id == db.nextId && m.ticketId == db.tickets[i].id
    modifies db
    ensures db.Valid()
    ensures db.messages == old(db.messages) + [m]
    ensures db.tickets == old(db.tickets)[i := old(db.tickets)[i].(lastMessageAt := m.timestamp)]
    ensures db.nextId == old(db.nextId) + 1
    ensures db.users == old(db.users) && db.settings == old(db.settings)
  {
    ReplyKeepsConsistent(db.tickets, db.messages, db.users, db.settings, db.nextId, i, m);
    var _ := db.NewId();
    db.messages := db.messages + [m];
    db.tickets := db.tickets[i := db.tickets[i].(lastMessageAt := m.timestamp)];
  }

  lemma ReplyKeepsConsistent(tickets: seq<Ticket>, messages: seq<Message>, users: seq<User>,
                             settings: seq<ChatbotSettingsModel.Settings>, nextId: nat, i: nat, m: Message)
    requires Consistent(tickets, messages, users, settings, nextId)
    requires i < |tickets| && m.id == nextId && m.ticketId == tickets[i].id
    ensures Consistent(tickets[i := tickets[i].(lastMessageAt := m.timestamp)], messages + [m], users, settings, nextId + 1)
  {
    AddMessageKeepsConsistent(tickets, messages, users, settings, nextId, m);
    var ts := tickets[i := tickets[i].(lastMessageAt := m.timestamp)];
    assert HasUser(users, tickets[i].assignedTo);
    KeysKeptConsistent(tickets, ts, messages + [m], users, settings, nextId + 1);
  }

  /** When a ticket's stored messages are in time order, a reply stamped
      no earlier than any of them is read back last, after the
      conversation as it was. */
  lemma ReplyComesLast(ms: seq<Message>, m: Message)
    requires Sorted(Filter(ms, MessageOf(m.ticketId)), NotLater)
    requires forall x :: x in ms && x.ticketId == m.ticketId ==> x.timestamp <= m.timestamp
    ensures Conversation(ms + [m], m.ticketId) == Conversation(ms, m.ticketId) + [m]
  {
    var f := Filter(ms, MessageOf(m.ticketId));
    FilterAppend(ms, [m], MessageOf(m.ticketId));
    assert Filter([m], MessageOf(m.ticketId)) == [m];
    forall k | 0 <= k < |f| ensures NotLater(f[k], m) {
      assert f[k] in f;
    }
    SortOfSorted(f, NotLater);
    SortOfSorted(f + [m], NotLater);
  }
}
