/**
 * The database behind the backend: the Ticket, Message, User and
 * ChatbotSettings collections, each kept in creation order (document ids
 * grow with creation time, as ObjectIds do), and a counter that hands out
 * fresh ids.
 */
module Store {
  import opened Wrappers
  import opened Domain
  import ChatbotSettingsModel
  import Sequences

  predicate TicketIdsIncreasing(ts: seq<Ticket>, bound: nat) {
    && (forall i, j :: 0 <= i < j < |ts| ==> ts[i].id < ts[j].id)
    && (forall i :: 0 <= i < |ts| ==> ts[i].id < bound)
  }

  predicate MessageIdsIncreasing(ms: seq<Message>, bound: nat) {
    && (forall i, j :: 0 <= i < j < |ms| ==> ms[i].id < ms[j].id)
    && (forall i :: 0 <= i < |ms| ==> ms[i].id < bound)
  }

  predicate UserIdsIncreasing(us: seq<User>, bound: nat) {
    && (forall i, j :: 0 <= i < j < |us| ==> us[i].id < us[j].id)
    && (forall i :: 0 <= i < |us| ==> us[i].id < bound)
  }

  predicate HasTicket(ts: seq<Ticket>, id: Id) {
    exists i :: 0 <= i < |ts| && ts[i].id == id
  }

  predicate HasUser(us: seq<User>, id: Id) {
    exists i :: 0 <= i < |us| && us[i].id == id
  }

  /** `Ticket.findById(id)`: the position of the ticket with that id. */
  function FindTicket(ts: seq<Ticket>, id: Id): (r: Option<nat>)
    ensures r.Some? ==> r.value < |ts| && ts[r.value].id == id
    ensures r.None? <==> !HasTicket(ts, id)
  {
    if ts == [] then None
    else if ts[0].id == id then Some(0)
    else
      match FindTicket(ts[1..], id)
      case None =>
        assert forall i :: 1 <= i < |ts| ==> ts[i] == ts[1..][i - 1];
        None
      case Some(i) => Some(i + 1)
  }

  /** `User.findById(id)`. */
  function FindUser(us: seq<User>, id: Id): (r: Option<nat>)
    ensures r.Some? ==> r.value < |us| && us[r.value].id == id
    ensures r.None? <==> !HasUser(us, id)
  {
    if us == [] then None
    else if us[0].id == id then Some(0)
    else
      match FindUser(us[1..], id)
      case None =>
        assert forall i :: 1 <= i < |us| ==> us[i] == us[1..][i - 1];
        None
      case Some(i) => Some(i + 1)
  }

  /** `User.findOne({ role: 'admin' })`: the first admin in storage order. */
  function FindAdmin(us: seq<User>): (r: Option<nat>)
    ensures r.Some? ==> r.value < |us| && us[r.value].role == Admin
    ensures r.Some? ==> forall k :: 0 <= k < r.value ==> us[k].role != Admin
    ensures r.None? <==> forall k :: 0 <= k < |us| ==> us[k].role != Admin
  {
    if us == [] then None
    else if us[0].role == Admin then Some(0)
    else
      match FindAdmin(us[1..])
      case None => None
      case Some(i) => Some(i + 1)
  }

  /** With increasing ids, the position of an id is unique. */
  lemma TicketPositionUnique(ts: seq<Ticket>, bound: nat, i: nat, j: nat)
    requires TicketIdsIncreasing(ts, bound)
    requires i < |ts| && j < |ts| && ts[i].id == ts[j].id
    ensures i == j
  {
  }

  /** With increasing ids a stored ticket is determined by its id. */
  lemma SameIdSameTicket(ts: seq<Ticket>, bound: nat, x: Ticket, y: Ticket)
    requires TicketIdsIncreasing(ts, bound)
    requires x in ts && y in ts
    ensures x.id == y.id ==> x == y
  {
    var i :| 0 <= i < |ts| && ts[i] == x;
    var j :| 0 <= j < |ts| && ts[j] == y;
    if x.id == y.id {
      TicketPositionUnique(ts, bound, i, j);
    }
  }

  /** Increasing ids mean no ticket is stored twice. */
  lemma TicketsDistinct(ts: seq<Ticket>, bound: nat)
    requires TicketIdsIncreasing(ts, bound)
    ensures Sequences.NoDuplicates(ts)
  {
  }

  /** The unique index on `ticketId`. */
  predicate TicketNumbersDistinct(ts: seq<Ticket>) {
    forall i, j :: 0 <= i < j < |ts| ==> ts[i].ticketId != ts[j].ticketId
  }

  /** The unique index on a user's `email`. */
  predicate EmailsDistinct(us: seq<User>) {
    forall i, j :: 0 <= i < j < |us| ==> us[i].email != us[j].email
  }

  /** What every store state satisfies: ids are unique and below
      `nextId`, ticket numbers and user emails are unique, every ticket is
      assigned to an existing user, every message belongs to an existing
      ticket, and there is at most one settings record, which the schema's
      validators accept. */
  ghost predicate Consistent(tickets: seq<Ticket>, messages: seq<Message>, users: seq<User>,
                             settings: seq<ChatbotSettingsModel.Settings>, nextId: nat) {
    && TicketIdsIncreasing(tickets, nextId)
    && MessageIdsIncreasing(messages, nextId)
    && UserIdsIncreasing(users, nextId)
    && TicketNumbersDistinct(tickets)
    && EmailsDistinct(users)
    && (forall i :: 0 <= i < |tickets| ==> HasUser(users, tickets[i].assignedTo))
    && (forall i :: 0 <= i < |messages| ==> HasTicket(tickets, messages[i].ticketId))
    && |settings| <= 1
    && (forall k :: 0 <= k < |settings| ==> ChatbotSettingsModel.Valid(settings[k]))
  }

  /** `after` is `before` with only `isMissed` flags rewritten. */
  predicate OnlyFlagsDiffer(before: seq<Ticket>, after: seq<Ticket>) {
    && |after| == |before|
    && forall i :: 0 <= i < |before| ==> after[i] == before[i].(isMissed := after[i].isMissed)
  }

  /** Rewriting `isMissed` flags keeps the store consistent. */
  lemma FlagsKeepConsistent(tickets: seq<Ticket>, tickets': seq<Ticket>, messages: seq<Message>, users: seq<User>,
                            settings: seq<ChatbotSettingsModel.Settings>, nextId: nat)
    requires Consistent(tickets, messages, users, settings, nextId)
    requires OnlyFlagsDiffer(tickets, tickets')
    ensures Consistent(tickets', messages, users, settings, nextId)
  {
    forall i | 0 <= i < |messages| ensures HasTicket(tickets', messages[i].ticketId) {
      assert HasTicket(tickets, messages[i].ticketId);
      var k :| 0 <= k < |tickets| && tickets[k].id == messages[i].ticketId;
      assert tickets'[k].id == tickets[k].id;
    }
  }

  /** Storing a new ticket under the next id, assigned to an existing
      user and with an unused number, keeps the store consistent. */
  lemma AddTicketKeepsConsistent(tickets: seq<Ticket>, messages: seq<Message>, users: seq<User>,
                                 settings: seq<ChatbotSettingsModel.Settings>, nextId: nat, t: Ticket)
    requires Consistent(tickets, messages, users, settings, nextId)
    requires t.id == nextId && HasUser(users, t.assignedTo)
    requires forall k :: 0 <= k < |tickets| ==> tickets[k].ticketId != t.ticketId
    ensures Consistent(tickets + [t], messages, users, settings, nextId + 1)
  {
    var ts := tickets + [t];
    forall i | 0 <= i < |messages| ensures HasTicket(ts, messages[i].ticketId) {
      assert HasTicket(tickets, messages[i].ticketId);
      var k :| 0 <= k < |tickets| && tickets[k].id == messages[i].ticketId;
      assert ts[k] == tickets[k];
    }
  }

  /** Storing a new message under the next id, in an existing ticket,
      keeps the store consistent. */
  lemma AddMessageKeepsConsistent(tickets: seq<Ticket>, messages: seq<Message>, users: seq<User>,
                                  settings: seq<ChatbotSettingsModel.Settings>, nextId: nat, m: Message)
    requires Consistent(tickets, messages, users, settings, nextId)
    requires m.id == nextId && HasTicket(tickets, m.ticketId)
    ensures Consistent(tickets, messages + [m], users, settings, nextId + 1)
  {
  }

  /** Rewriting tickets in place, keeping each one's id and number and
      assigning each to an existing user, keeps the store consistent. */
  lemma KeysKeptConsistent(tickets: seq<Ticket>, tickets': seq<Ticket>, messages: seq<Message>, users: seq<User>,
                           settings: seq<ChatbotSettingsModel.Settings>, nextId: nat)
    requires Consistent(tickets, messages, users, settings, nextId)
    requires |tickets'| == |tickets|
    requires forall i :: 0 <= i < |tickets| ==>
               tickets'[i].id == tickets[i].id && tickets'[i].ticketId == tickets[i].ticketId
    requires forall i :: 0 <= i < |tickets'| ==> HasUser(users, tickets'[i].assignedTo)
    ensures Consistent(tickets', messages, users, settings, nextId)
  {
    forall i | 0 <= i < |messages| ensures HasTicket(tickets', messages[i].ticketId) {
      assert HasTicket(tickets, messages[i].ticketId);
      var k :| 0 <= k < |tickets| && tickets[k].id == messages[i].ticketId;
      assert tickets'[k].id == tickets[k].id;
    }
  }

  predicate EmailTaken(us: seq<User>, email: string) {
    exists i :: 0 <= i < |us| && us[i].email == email
  }

  /** Storing a new user under the next id, with an unused email, keeps
      the store consistent. */
  lemma AddUserKeepsConsistent(tickets: seq<Ticket>, messages: seq<Message>, users: seq<User>,
                               settings: seq<ChatbotSettingsModel.Settings>, nextId: nat, u: User)
    requires Consistent(tickets, messages, users, settings, nextId)
    requires u.id == nextId && !EmailTaken(users, u.email)
    ensures Consistent(tickets, messages, users + [u], settings, nextId + 1)
  {
    var us := users + [u];
    forall i | 0 <= i < |tickets| ensures HasUser(us, tickets[i].assignedTo) {
      var k :| 0 <= k < |users| && users[k].id == tickets[i].assignedTo;
      assert us[k] == users[k];
    }
  }

  /** Rewriting a stored user's fields other than the id and the email
      keeps the store consistent. */
  lemma ReplaceUserKeepsConsistent(tickets: seq<Ticket>, messages: seq<Message>, users: seq<User>,
                                   settings: seq<ChatbotSettingsModel.Settings>, nextId: nat, i: nat, u: User)
    requires Consistent(tickets, messages, users, settings, nextId)
    requires i < |users| && u.id == users[i].id && u.email == users[i].email
    ensures Consistent(tickets, messages, users[i := u], settings, nextId)
  {
    var us := users[i := u];
    forall j | 0 <= j < |tickets| ensures HasUser(us, tickets[j].assignedTo) {
      var k :| 0 <= k < |users| && users[k].id == tickets[j].assignedTo;
      assert us[k].id == users[k].id;
    }
  }

  function NotUser(id: Id): User -> bool {
    (u: User) => u.id != id
  }

  /** Removing a user no ticket is assigned to keeps the store consistent,
      and removes no other user. */
  lemma RemoveUserKeepsConsistent(tickets: seq<Ticket>, messages: seq<Message>, users: seq<User>,
                                  settings: seq<ChatbotSettingsModel.Settings>, nextId: nat, id: Id)
    requires Consistent(tickets, messages, users, settings, nextId)
    requires forall i :: 0 <= i < |tickets| ==> tickets[i].assignedTo != id
    ensures Consistent(tickets, messages, Sequences.Filter(users, NotUser(id)), settings, nextId)
    ensures forall u :: u in users ==> (u in Sequences.Filter(users, NotUser(id)) <==> u.id != id)
  {
    var us := Sequences.Filter(users, NotUser(id));
    FilterKeepsUserIds(users, NotUser(id), nextId);
    FilterKeepsEmailsDistinct(users, NotUser(id));
    forall i | 0 <= i < |tickets| ensures HasUser(us, tickets[i].assignedTo) {
      var k :| 0 <= k < |users| && users[k].id == tickets[i].assignedTo;
      assert users[k] in us;
    }
  }

  lemma {:induction false} FilterKeepsUserIds(us: seq<User>, p: User -> bool, bound: nat)
    requires UserIdsIncreasing(us, bound)
    ensures UserIdsIncreasing(Sequences.Filter(us, p), bound)
  {
    if us != [] {
      FilterKeepsUserIds(us[1..], p, bound);
      var rest := Sequences.Filter(us[1..], p);
      forall k | 0 <= k < |rest| ensures us[0].id < rest[k].id {
        assert rest[k] in us[1..];
      }
    }
  }

  lemma {:induction false} FilterKeepsEmailsDistinct(us: seq<User>, p: User -> bool)
    requires EmailsDistinct(us)
    ensures EmailsDistinct(Sequences.Filter(us, p))
  {
    if us != [] {
      FilterKeepsEmailsDistinct(us[1..], p);
      var rest := Sequences.Filter(us[1..], p);
      forall k | 0 <= k < |rest| ensures us[0].email != rest[k].email {
        assert rest[k] in us[1..];
      }
    }
  }

  function MessageOf(id: Id): Message -> bool {
    (m: Message) => m.ticketId == id
  }

  /** `Message.find({ ticketId: id }).sort({ timestamp: 1 })`. */
  function Conversation(msgs: seq<Message>, id: Id): seq<Message> {
    Sequences.Sort(Sequences.Filter(msgs, MessageOf(id)), NotLater)
  }

  lemma NotLaterTotal()
    ensures Sequences.TotalPreorder(NotLater)
  {
  }

  /** The conversation holds exactly the ticket's stored messages, each as
      often as it is stored, oldest first. */
  lemma ConversationFacts(msgs: seq<Message>, id: Id)
    ensures var c := Conversation(msgs, id);
            && Sequences.Sorted(c, NotLater)
            && multiset(c) == multiset(Sequences.Filter(msgs, MessageOf(id)))
            && (forall m :: m in c <==> m in msgs && m.ticketId == id)
  {
    var f := Sequences.Filter(msgs, MessageOf(id));
    NotLaterTotal();
    Sequences.SortSorted(f, NotLater);
    var c := Conversation(msgs, id);
    forall m ensures m in c <==> m in msgs && m.ticketId == id {
      assert m in c <==> m in multiset(c);
      assert m in f <==> m in multiset(f);
    }
  }

  /** Messages of one ticket, stored oldest first, are that ticket's
      conversation as they stand. */
  lemma ConversationOfOrdered(msgs: seq<Message>, id: Id)
    requires forall m :: m in msgs ==> m.ticketId == id
    requires Sequences.Sorted(msgs, NotLater)
    ensures Conversation(msgs, id) == msgs
  {
    Sequences.FilterAll(msgs, MessageOf(id));
    Sequences.SortOfSorted(msgs, NotLater);
  }

  /** `ChatbotSettings.findOne()`: the first stored record, if any. */
  function StoredSettings(settings: seq<ChatbotSettingsModel.Settings>): Option<ChatbotSettingsModel.Settings> {
    if settings == [] then None else Some(settings[0])
  }

  class Db {
    var tickets: seq<Ticket>
    var messages: seq<Message>
    var users: seq<User>
    var settings: seq<ChatbotSettingsModel.Settings>
    var nextId: nat

    ghost predicate Valid()
      reads this
    {
      Consistent(tickets, messages, users, settings, nextId)
    }

    constructor ()
      ensures Valid()
      ensures tickets == [] && messages == [] && users == [] && settings == []
    {
      tickets, messages, users, settings := [], [], [], [];
      nextId := 0;
    }

    /** A new document id, larger than every id handed out before. */
    method NewId() returns (id: Id)
      modifies this`nextId
      ensures id == old(nextId) && nextId == id + 1
    {
      id := nextId;
      nextId := nextId + 1;
    }
  }
}
