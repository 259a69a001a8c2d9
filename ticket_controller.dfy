/**
 * The ticket endpoints of backend/src/controllers/ticketController.js over
 * the store: listing, reading, creating, updating, assigning, deleting
 * tickets and counting them. Reading a ticket re-evaluates its `isMissed`
 * flag with the per-read rule and writes it back when it changed.
 */
module TicketController {
  import opened Wrappers
  import opened Text
  import opened Domain
  import opened Sequences
  import opened Store
  import ChatbotSettingsModel
  import opened MissedChat
  import opened TicketList
  import TicketId
  import ErrorHandler

  // Reading a conversation.

  /** The text of `Message.findOne({ ticketId }).sort({ timestamp: -1 })`,
      or "" when the ticket has no message. */
  function LastMessageText(msgs: seq<Message>, id: Id): string {
    var c := Conversation(msgs, id);
    if c == [] then "" else c[|c| - 1].text
  }

  /** `m` is one of the ticket's stored messages, and none of them is
      later. */
  ghost predicate Latest(msgs: seq<Message>, id: Id, m: Message) {
    && m in msgs && m.ticketId == id
    && forall m' :: m' in msgs && m'.ticketId == id ==> m'.timestamp <= m.timestamp
  }

  /** A ticket with no stored message shows no last message. */
  lemma NoMessageNoText(msgs: seq<Message>, id: Id)
    requires forall m :: m in msgs ==> m.ticketId != id
    ensures LastMessageText(msgs, id) == ""
  {
    ConversationFacts(msgs, id);
  }

  /** The last message shown for a ticket with messages is one of them,
      and none of them is later. */
  lemma LastMessageIsLatest(msgs: seq<Message>, id: Id, some: Message)
    requires some in msgs && some.ticketId == id
    ensures exists m :: Latest(msgs, id, m) && m.text == LastMessageText(msgs, id)
  {
    ConversationHolds(msgs, id, some);
    ConversationEndsLatest(msgs, id);
    LastMessageTextOf(msgs, id);
    var c := Conversation(msgs, id);
    assert Latest(msgs, id, c[|c| - 1]);
  }

  lemma ConversationHolds(msgs: seq<Message>, id: Id, m: Message)
    requires m in msgs && m.ticketId == id
    ensures m in Conversation(msgs, id)
  {
    ConversationFacts(msgs, id);
  }

  lemma LastMessageTextOf(msgs: seq<Message>, id: Id)
    requires Conversation(msgs, id) != []
    ensures LastMessageText(msgs, id) == Conversation(msgs, id)[|Conversation(msgs, id)| - 1].text
  {
  }

  lemma ConversationEndsLatest(msgs: seq<Message>, id: Id)
    requires Conversation(msgs, id) != []
    ensures Latest(msgs, id, Conversation(msgs, id)[|Conversation(msgs, id)| - 1])
  {
    ConversationFacts(msgs, id);
    var c := Conversation(msgs, id);
    forall m' | m' in msgs && m'.ticketId == id ensures m'.timestamp <= c[|c| - 1].timestamp {
      NoneAfterLast(c, m');
    }
  }

  lemma NoneAfterLast(c: seq<Message>, m: Message)
    requires Sequences.Sorted(c, NotLater) && m in c
    ensures m.timestamp <= c[|c| - 1].timestamp
  {
    var k :| 0 <= k < |c| && c[k] == m;
    if k < |c| - 1 {
      assert NotLater(c[k], c[|c| - 1]);
    }
  }

  // The per-read flag.

  /** `checkIfTicketIsMissed(t)` with every read succeeding. */
  function FreshMissed(settings: seq<ChatbotSettingsModel.Settings>, msgs: seq<Message>, t: Ticket, now: int): bool {
    MissedAtRead(Fetched(StoredSettings(settings)), Fetched(Conversation(msgs, t.id)), now)
  }

  /** A fresh flag is raised only for a ticket with a stored timer and a
      customer message, older than the timer, that no staff message
      of the ticket follows. */
  lemma FreshMissedMeaning(settings: seq<ChatbotSettingsModel.Settings>, msgs: seq<Message>, t: Ticket, now: int)
    ensures FreshMissed(settings, msgs, t, now) ==>
              && settings != []
              && exists m :: m in msgs && m.ticketId == t.id && IsCustomer(m)
                   && now - m.timestamp > ReadTimerMs(settings[0].missedChatTimer)
                   && forall m' :: m' in msgs && m'.ticketId == t.id && !IsCustomer(m') ==> m'.timestamp <= m.timestamp
  {
    var c := Conversation(msgs, t.id);
    if FreshMissed(settings, msgs, t, now) {
      ConversationFacts(msgs, t.id);
      var i := FirstCustomer(c).value;
      var m := c[i];
      assert m in c;
      assert !StaffRepliedAfter(c, m.timestamp);
      forall m' | m' in msgs && m'.ticketId == t.id && !IsCustomer(m') ensures m'.timestamp <= m.timestamp {
        assert m' in c;
        var k :| 0 <= k < |c| && c[k] == m';
      }
    }
  }

  /** The tickets a rewrite pass looks at. */
  function InIds(ids: set<Id>): Ticket -> bool {
    (t: Ticket) => t.id in ids
  }

  /** The fresh verdict of every ticket. */
  function FreshVerdict(settings: seq<ChatbotSettingsModel.Settings>, msgs: seq<Message>, now: int): Ticket -> bool {
    (t: Ticket) => FreshMissed(settings, msgs, t, now)
  }

  function RefreshOne(t: Ticket, pick: Ticket -> bool, verdict: Ticket -> bool): Ticket {
    if pick(t) then t.(isMissed := verdict(t)) else t
  }

  /** The tickets after every picked one has had its flag re-evaluated. */
  function Refreshed(ts: seq<Ticket>, pick: Ticket -> bool, verdict: Ticket -> bool): (r: seq<Ticket>)
    ensures |r| == |ts|
    ensures forall i :: 0 <= i < |ts| ==> r[i] == RefreshOne(ts[i], pick, verdict)
  {
    seq(|ts|, i requires 0 <= i < |ts| => RefreshOne(ts[i], pick, verdict))
  }

  /** A picked ticket whose stored flag differs from the fresh one: the
      ones `findByIdAndUpdate` writes. */
  function Stale(pick: Ticket -> bool, verdict: Ticket -> bool): Ticket -> bool {
    (t: Ticket) => pick(t) && t.isMissed != verdict(t)
  }

  /** A rewrite pass changes only flags, only on picked tickets, and sets
      each picked flag to the fresh verdict. */
  lemma RefreshedChangesOnlyPickedFlags(ts: seq<Ticket>, pick: Ticket -> bool, verdict: Ticket -> bool)
    ensures var r := Refreshed(ts, pick, verdict);
            && OnlyFlagsDiffer(ts, r)
            && (forall i :: 0 <= i < |ts| && !pick(ts[i]) ==> r[i] == ts[i])
            && (forall i :: 0 <= i < |ts| && pick(ts[i]) ==> r[i].isMissed == verdict(ts[i]))
            && (forall i :: 0 <= i < |ts| && !Stale(pick, verdict)(ts[i]) ==> r[i] == ts[i])
  {
  }

  /** The fresh verdict does not look at the stored flag. */
  lemma FreshVerdictIgnoresFlag(settings: seq<ChatbotSettingsModel.Settings>, msgs: seq<Message>, now: int)
    ensures forall t: Ticket, b: bool :: FreshVerdict(settings, msgs, now)(t.(isMissed := b)) == FreshVerdict(settings, msgs, now)(t)
  {
  }

  /** A second pass right after the first changes nothing, as long as
      neither which tickets are picked nor the verdict depends on their
      flag. */
  lemma RefreshedIdempotent(ts: seq<Ticket>, pick: Ticket -> bool, verdict: Ticket -> bool)
    requires forall t: Ticket, b: bool :: pick(t.(isMissed := b)) == pick(t)
    requires forall t: Ticket, b: bool :: verdict(t.(isMissed := b)) == verdict(t)
    ensures var r := Refreshed(ts, pick, verdict);
            Refreshed(r, pick, verdict) == r
  {
    var r := Refreshed(ts, pick, verdict);
    forall i | 0 <= i < |ts| ensures RefreshOne(r[i], pick, verdict) == r[i] {
      assert pick(r[i]) == pick(ts[i]);
      assert verdict(r[i]) == verdict(ts[i]);
    }
  }

  /** The pass over a set of tickets, rewriting each flag that differs
      from the fresh verdict (the `Promise.all` of `getAllTickets` and
      `getTicketStats`, run one ticket after another). Returns the
      rewritten tickets and the number of writes. */
  method RefreshPass(start: seq<Ticket>, pick: Ticket -> bool, verdict: Ticket -> bool) returns (ts: seq<Ticket>, writes: nat)
    ensures ts == Refreshed(start, pick, verdict)
    ensures writes == Count(start, Stale(pick, verdict))
  {
    var stale := Stale(pick, verdict);
    ts := start;
    writes := 0;
    var i := 0;
    while i < |ts|
      invariant |ts| == |start| && 0 <= i <= |start|
      invariant forall k :: 0 <= k < i ==> ts[k] == RefreshOne(start[k], pick, verdict)
      invariant forall k :: i <= k < |start| ==> ts[k] == start[k]
      invariant writes == Count(start[..i], stale)
    {
      var t := ts[i];
      CountPrefixStep(start, stale, i);
      if pick(t) {
        var isMissed := verdict(t);
        if t.isMissed != isMissed {
          ts := ts[i := t.(isMissed := isMissed)];
          writes := writes + 1;
        }
      }
      i := i + 1;
    }
    assert start[..i] == start;
  }

  /** The pass applied to the stored tickets. */
  method RefreshFlags(db: Db, pick: Ticket -> bool, now: int) returns (writes: nat)
    requires db.Valid()
    modifies db
    ensures db.Valid()
    ensures db.tickets == Refreshed(old(db.tickets), pick, FreshVerdict(db.settings, db.messages, now))
    ensures db.messages == old(db.messages) && db.users == old(db.users)
    ensures db.settings == old(db.settings) && db.nextId == old(db.nextId)
    ensures writes == Count(old(db.tickets), Stale(pick, FreshVerdict(db.settings, db.messages, now)))
  {
    var ts;
    ts, writes := RefreshPass(db.tickets, pick, FreshVerdict(db.settings, db.messages, now));
    assert OnlyFlagsDiffer(db.tickets, ts);
    FlagsKeepConsistent(db.tickets, ts, db.messages, db.users, db.settings, db.nextId);
    db.tickets := ts;
  }

  // GET /tickets

  /** A listed ticket: the stored record with the fresh flag, and the text
      of its latest message. */
  datatype TicketView = TicketView(ticket: Ticket, lastMessage: string)

  datatype ListReply = ListReply(tickets: seq<TicketView>, hasMore: bool, lastId: Option<Id>)

  function Views(page: seq<Ticket>, settings: seq<ChatbotSettingsModel.Settings>, msgs: seq<Message>, now: int): (vs: seq<TicketView>)
    ensures |vs| == |page|
    ensures forall i :: 0 <= i < |page| ==>
              vs[i] == TicketView(page[i].(isMissed := FreshMissed(settings, msgs, page[i], now)), LastMessageText(msgs, page[i].id))
  {
    seq(|page|, i requires 0 <= i < |page| =>
      TicketView(page[i].(isMissed := FreshMissed(settings, msgs, page[i], now)), LastMessageText(msgs, page[i].id)))
  }

  function IdsOf(ts: seq<Ticket>): set<Id> {
    set t | t in ts :: t.id
  }

  /** `getAllTickets`: the page of the list query, each ticket shown with
      its fresh flag and latest message text; the stored flags of the
      page's tickets are rewritten where they differ. */
  method GetAllTickets(db: Db, caller: Caller, q: ListQuery, matches: (string, string) -> bool, now: int)
    returns (r: ListReply)
    requires db.Valid()
    modifies db
    ensures db.Valid()
    ensures var page := Page(old(db.tickets), q, caller, matches);
            && r == ListReply(Views(page, db.settings, db.messages, now), HasMore(page, q), NextCursor(page))
            && db.tickets == Refreshed(old(db.tickets), InIds(IdsOf(page)), FreshVerdict(db.settings, db.messages, now))
    ensures db.messages == old(db.messages) && db.users == old(db.users)
    ensures db.settings == old(db.settings) && db.nextId == old(db.nextId)
  {
    var page := Page(db.tickets, q, caller, matches);
    var views := Views(page, db.settings, db.messages, now);
    var _ := RefreshFlags(db, InIds(IdsOf(page)), now);
    r := ListReply(views, HasMore(page, q), NextCursor(page));
  }

  /** The list a caller gets holds only tickets in their scope, passing
      the filter, newest activity first, each with its fresh flag. */
  lemma ListedTicketsInScope(ts: seq<Ticket>, q: ListQuery, caller: Caller, matches: (string, string) -> bool,
                             settings: seq<ChatbotSettingsModel.Settings>, msgs: seq<Message>, now: int)
    ensures var page := Page(ts, q, caller, matches);
            var vs := Views(page, settings, msgs, now);
            && (forall i :: 0 <= i < |vs| ==> InScope(caller, vs[i].ticket) && Selected(q, caller, matches, vs[i].ticket))
            && (forall i :: 0 <= i < |vs| ==> vs[i].ticket.isMissed == FreshMissed(settings, msgs, page[i], now))
            && (Limit(q) > 0 ==> |vs| <= Limit(q))
  {
    PageFacts(ts, q, caller, matches);
    var page := Page(ts, q, caller, matches);
    var vs := Views(page, settings, msgs, now);
    forall i | 0 <= i < |vs| ensures InScope(caller, vs[i].ticket) && Selected(q, caller, matches, vs[i].ticket) {
      assert page[i] in page;
      FlagIgnored(q, caller, matches, page[i], FreshMissed(settings, msgs, page[i], now));
    }
  }

  /** The scope and the filter do not look at the missed flag. */
  lemma FlagIgnored(q: ListQuery, caller: Caller, matches: (string, string) -> bool, t: Ticket, missed: bool)
    requires InScope(caller, t) && Selected(q, caller, matches, t)
    ensures InScope(caller, t.(isMissed := missed)) && Selected(q, caller, matches, t.(isMissed := missed))
  {
  }

  // GET /tickets/:id

  datatype TicketDetail = TicketDetail(ticket: Ticket, messages: seq<Message>)

  /** `getTicketById`: 404 before any role check, 403 for a member on a
      ticket not assigned to them (nothing changes in either case);
      otherwise the ticket with its fresh flag, written back when it
      differs, and its conversation. */
  method GetTicketById(db: Db, caller: Caller, id: Id, now: int) returns (r: Response<TicketDetail>)
    requires db.Valid()
    modifies db
    ensures db.Valid()
    ensures db.messages == old(db.messages) && db.users == old(db.users)
    ensures db.settings == old(db.settings) && db.nextId == old(db.nextId)
    ensures !HasTicket(old(db.tickets), id) ==>
              r == Fail(404, "Ticket not found") && db.tickets == old(db.tickets)
    ensures HasTicket(old(db.tickets), id) ==>
              var t := old(db.tickets)[FindTicket(old(db.tickets), id).value];
              if !InScope(caller, t) then
                r == Fail(403, "Not authorized to access this ticket") && db.tickets == old(db.tickets)
              else
                && r == Ok(TicketDetail(t.(isMissed := FreshMissed(db.settings, db.messages, t, now)), Conversation(db.messages, id)))
                && db.tickets == Refreshed(old(db.tickets), InIds({id}), FreshVerdict(db.settings, db.messages, now))
  {
    var found := FindTicket(db.tickets, id);
    if found.None? {
      return Fail(404, "Ticket not found");
    }
    var t := db.tickets[found.value];
    if caller.role == Member && t.assignedTo != caller.id {
      return Fail(403, "Not authorized to access this ticket");
    }
    var conversation := Conversation(db.messages, id);
    var isMissed := FreshMissed(db.settings, db.messages, t, now);
    var _ := RefreshFlags(db, InIds({id}), now);
    r := Ok(TicketDetail(t.(isMissed := isMissed), conversation));
  }

  // POST /tickets

  /** The request body of `createTicket`; an absent field is `None`. */
  datatype NewTicket = NewTicket(userName: Option<string>, userEmail: Option<string>, userPhone: Option<string>, initialMessage: Option<string>)

  datatype Created = Created(id: Id, ticketId: string, userName: string, userEmail: string)

  /** The Ticket schema's setters: names and phone trimmed, the email
      lower-cased then trimmed. */
  function CleanName(body: NewTicket): string { Trim(body.userName.GetOr("")) }
  function CleanEmail(body: NewTicket): string { Trim(ToLower(body.userEmail.GetOr(""))) }
  function CleanPhone(body: NewTicket): string { Trim(body.userPhone.GetOr("")) }

  /** The schema's validation messages, in field order: each of the three
      fields is required (blank after trimming counts as missing), and a
      present email must match the email pattern (left to `validEmail`). */
  function TicketValidation(body: NewTicket, validEmail: string -> bool): (msgs: seq<string>)
    ensures msgs == [] <==> CleanName(body) != [] && CleanEmail(body) != [] && validEmail(CleanEmail(body)) && CleanPhone(body) != []
  {
    (if CleanName(body) == [] then ["User name is required"] else [])
    + (if CleanEmail(body) == [] then ["User email is required"]
       else if !validEmail(CleanEmail(body)) then ["Please enter a valid email"] else [])
    + (if CleanPhone(body) == [] then ["User phone is required"] else [])
  }

  /** `findOne().sort({ createdAt: -1 })`: a ticket created last (among
      equal creation times, the one stored last). */
  function LatestCreated(ts: seq<Ticket>): (r: Option<nat>)
    ensures r.None? <==> ts == []
    ensures r.Some? ==> r.value < |ts| && forall k :: 0 <= k < |ts| ==> ts[k].createdAt <= ts[r.value].createdAt
    ensures r.Some? ==> forall k :: r.value < k < |ts| ==> ts[k].createdAt < ts[r.value].createdAt
  {
    if ts == [] then None
    else
      var init := LatestCreated(ts[..|ts| - 1]);
      if init.None? || ts[init.value].createdAt <= ts[|ts| - 1].createdAt then Some(|ts| - 1)
      else init
  }

  /** The ticket number the pre-save hook would give the next ticket. */
  function NextTicketId(ts: seq<Ticket>, year: nat): string {
    var latest := LatestCreated(ts);
    TicketId.AssignTicketId([], year, if latest.None? then None else Some(ts[latest.value].ticketId))
  }

  predicate NumberTaken(ts: seq<Ticket>, ticketId: string) {
    exists k :: 0 <= k < |ts| && ts[k].ticketId == ticketId
  }

  /** The customer's opening message stored with a new ticket: the
      trimmed `initialMessage`, under the id after the ticket's, unless
      it is missing or blank. */
  function InitialMessage(body: NewTicket, ticket: Id, now: int): seq<Message> {
    var text := Trim(body.initialMessage.GetOr(""));
    if text == [] then [] else [Message(ticket + 1, ticket, None, text, now)]
  }

  const NoAdminMessage := "No admin user found. Please create an admin account first."

  /** The error `Ticket.create` throws when validation fails, as the error
      handler answers it. */
  function ValidationFailure(msgs: seq<string>): Response<Created> {
    var reply := ErrorHandler.Handle(ErrorHandler.ServerError(None, "ValidationError", None, msgs, None, "Ticket validation failed"));
    if reply.Some? then Fail(reply.value.status, reply.value.message) else Fail(500, "Server Error")
  }

  /** The duplicate-key error of the unique `ticketId` index, as the error
      handler answers it. */
  function DuplicateNumber(): Response<Created> {
    var reply := ErrorHandler.Handle(ErrorHandler.ServerError(Some(ErrorHandler.DuplicateCode), "MongoServerError", Some(["ticketId"]), [], None, "E11000 duplicate key error"));
    if reply.Some? then Fail(reply.value.status, reply.value.message) else Fail(500, "Server Error")
  }

  /** `createTicket` (public): no admin answers 500; a body failing the
      schema answers 400; a ticket number already in use answers 400;
      otherwise a new open, unflagged ticket assigned to the first admin,
      created and last active `now`, numbered by the pre-save hook, and
      the trimmed initial message stored as the customer's when it is not
      blank. */
  method CreateTicket(db: Db, body: NewTicket, year: nat, now: int, validEmail: string -> bool) returns (r: Response<Created>)
    requires db.Valid()
    modifies db
    ensures db.Valid()
    ensures db.users == old(db.users) && db.settings == old(db.settings)
    ensures FindAdmin(old(db.users)).None? ==>
              r == Fail(500, NoAdminMessage) && unchanged(db)
    ensures FindAdmin(old(db.users)).Some? && TicketValidation(body, validEmail) != [] ==>
              r == ValidationFailure(TicketValidation(body, validEmail)) && unchanged(db)
    ensures FindAdmin(old(db.users)).Some? && TicketValidation(body, validEmail) == []
            && NumberTaken(old(db.tickets), NextTicketId(old(db.tickets), year)) ==>
              r == DuplicateNumber() && unchanged(db)
    ensures FindAdmin(old(db.users)).Some? && TicketValidation(body, validEmail) == []
            && !NumberTaken(old(db.tickets), NextTicketId(old(db.tickets), year)) ==>
              var t := Ticket(old(db.nextId), NextTicketId(old(db.tickets), year), CleanName(body), CleanEmail(body),
                              CleanPhone(body), old(db.users)[FindAdmin(old(db.users)).value].id, Open, now, false, now);
              && r == Ok(Created(t.id, t.ticketId, t.userName, t.userEmail))
              && db.tickets == old(db.tickets) + [t]
              && db.messages == old(db.messages) + InitialMessage(body, t.id, now)
  {
    var admin := FindAdmin(db.users);
    if admin.None? {
      return Fail(500, NoAdminMessage);
    }
    var adminId := db.users[admin.value].id;
    var problems := TicketValidation(body, validEmail);
    if problems != [] {
      return ValidationFailure(problems);
    }
    var number := NextTicketId(db.tickets, year);
    if NumberTaken(db.tickets, number) {
      return DuplicateNumber();
    }
    var t := Ticket(db.nextId, number, CleanName(body), CleanEmail(body), CleanPhone(body), adminId, Open, now, false, now);
    StoreTicket(db, t, body, now);
    r := Ok(Created(t.id, t.ticketId, t.userName, t.userEmail));
  }

  /** `Ticket.create` then `Message.create`: the ticket under the next id,
      then its opening message, if any, under the id after it. */
  method StoreTicket(db: Db, t: Ticket, body: NewTicket, now: int)
    requires db.Valid()
    requires t.id == db.nextId && HasUser(db.users, t.assignedTo)
    requires !NumberTaken(db.tickets, t.ticketId)
    modifies db
    ensures db.Valid()
    ensures db.tickets == old(db.tickets) + [t]
    ensures db.messages == old(db.messages) + InitialMessage(body, t.id, now)
    ensures db.users == old(db.users) && db.settings == old(db.settings)
  {
    var id := db.NewId();
    AddTicketKeepsConsistent(db.tickets, db.messages, db.users, db.settings, id, t);
    db.tickets := db.tickets + [t];
    var initial := InitialMessage(body, id, now);
    if initial != [] {
      var mid := db.NewId();
      assert db.tickets[|db.tickets| - 1].id == id;
      AddMessageKeepsConsistent(db.tickets, db.messages, db.users, db.settings, mid, initial[0]);
      db.messages := db.messages + initial;
    }
  }

  // PUT /tickets/:id

  /** The ticket after `updateTicket`'s assignment: only the status may
      change, and only to a status the request names; a request naming
      one of the three statuses gets it. */
  function StatusUpdated(t: Ticket, status: Option<string>): (r: Ticket)
    ensures r == t.(status := r.status)
    ensures r.status != t.status ==> status == Some(StatusName(r.status))
    ensures forall s :: status == Some(StatusName(s)) ==> r.status == s
  {
    match ParseStatus(status)
    case Some(s) => t.(status := s)
    case None => t
  }

  /** `updateTicket`: 404, then 403 for a member on a ticket not assigned
      to them; otherwise the status is set when the request names one of
      the three statuses, and left as it is otherwise. Nothing else
      changes. */
  method UpdateTicket(db: Db, caller: Caller, id: Id, status: Option<string>) returns (r: Response<Ticket>)
    requires db.Valid()
    modifies db
    ensures db.Valid()
    ensures db.messages == old(db.messages) && db.users == old(db.users)
    ensures db.settings == old(db.settings) && db.nextId == old(db.nextId)
    ensures !HasTicket(old(db.tickets), id) ==>
              r == Fail(404, "Ticket not found") && db.tickets == old(db.tickets)
    ensures HasTicket(old(db.tickets), id) ==>
              var i := FindTicket(old(db.tickets), id).value;
              var t := old(db.tickets)[i];
              if !InScope(caller, t) then
                r == Fail(403, "Not authorized to update this ticket") && db.tickets == old(db.tickets)
              else
                r == Ok(StatusUpdated(t, status)) && db.tickets == old(db.tickets)[i := StatusUpdated(t, status)]
  {
    var found := FindTicket(db.tickets, id);
    if found.None? {
      return Fail(404, "Ticket not found");
    }
    var t := db.tickets[found.value];
    if caller.role == Member && t.assignedTo != caller.id {
      return Fail(403, "Not authorized to update this ticket");
    }
    var parsed := ParseStatus(status);
    if parsed.Some? {
      t := t.(status := parsed.value);
    }
    assert t == StatusUpdated(db.tickets[found.value], status);
    db.tickets := db.tickets[found.value := t];
    r := Ok(t);
    assert OnlyStatusDiffers(old(db.tickets), db.tickets);
    StatusKeepsConsistent(old(db.tickets), db.tickets, db.messages, db.users, db.settings, db.nextId);
  }

  /** `after` is `before` with only statuses or assignees rewritten. */
  predicate OnlyStatusDiffers(before: seq<Ticket>, after: seq<Ticket>) {
    && |after| == |before|
    && forall i :: 0 <= i < |before| ==> after[i] == before[i].(status := after[i].status)
  }

  lemma StatusKeepsConsistent(tickets: seq<Ticket>, tickets': seq<Ticket>, messages: seq<Message>, users: seq<User>,
                              settings: seq<ChatbotSettingsModel.Settings>, nextId: nat)
    requires Consistent(tickets, messages, users, settings, nextId)
    requires OnlyStatusDiffers(tickets, tickets')
    ensures Consistent(tickets', messages, users, settings, nextId)
  {
    forall i | 0 <= i < |messages| ensures HasTicket(tickets', messages[i].ticketId) {
      var k :| 0 <= k < |tickets| && tickets[k].id == messages[i].ticketId;
      assert tickets'[k].id == tickets[k].id;
    }
  }

  // PATCH /tickets/:id/assign (admin only)

  /** `assignTicket`: no assignee given answers 400, then a missing ticket
      404, then a missing user 404; otherwise only the ticket's assignee
      changes. The assignee may be any user, admin or member. */
  method AssignTicket(db: Db, caller: Caller, id: Id, assignedTo: Option<Id>, userId: Option<Id>) returns (r: Response<Ticket>)
    requires db.Valid()
    requires caller.role == Admin
    modifies db
    ensures db.Valid()
    ensures db.messages == old(db.messages) && db.users == old(db.users)
    ensures db.settings == old(db.settings) && db.nextId == old(db.nextId)
    ensures assignedTo.None? && userId.None? ==>
              r == Fail(400, "User ID is required") && db.tickets == old(db.tickets)
    ensures (assignedTo.Some? || userId.Some?) && !HasTicket(old(db.tickets), id) ==>
              r == Fail(404, "Ticket not found") && db.tickets == old(db.tickets)
    ensures (assignedTo.Some? || userId.Some?) && HasTicket(old(db.tickets), id) ==>
              var member := if assignedTo.Some? then assignedTo.value else userId.value;
              var i := FindTicket(old(db.tickets), id).value;
              if !HasUser(db.users, member) then
                r == Fail(404, "User not found") && db.tickets == old(db.tickets)
              else
                r == Ok(old(db.tickets)[i].(assignedTo := member))
                && db.tickets == old(db.tickets)[i := old(db.tickets)[i].(assignedTo := member)]
  {
    if assignedTo.None? && userId.None? {
      return Fail(400, "User ID is required");
    }
    var member := if assignedTo.Some? then assignedTo.value else userId.value;
    var found := FindTicket(db.tickets, id);
    if found.None? {
      return Fail(404, "Ticket not found");
    }
    if FindUser(db.users, member).None? {
      return Fail(404, "User not found");
    }
    var tickets := db.tickets;
    var t := tickets[found.value].(assignedTo := member);
    AssigneeChangeKeepsConsistent(tickets, db.messages, db.users, db.settings, db.nextId, found.value, member);
    db.tickets := tickets[found.value := t];
    r := Ok(t);
  }

  lemma AssigneeChangeKeepsConsistent(tickets: seq<Ticket>, messages: seq<Message>, users: seq<User>,
                                      settings: seq<ChatbotSettingsModel.Settings>, nextId: nat, i: nat, member: Id)
    requires Consistent(tickets, messages, users, settings, nextId)
    requires i < |tickets| && HasUser(users, member)
    ensures Consistent(tickets[i := tickets[i].(assignedTo := member)], messages, users, settings, nextId)
  {
    KeysKeptConsistent(tickets, tickets[i := tickets[i].(assignedTo := member)], messages, users, settings, nextId);
  }

  // DELETE /tickets/:id (admin only)

  function NotOfTicket(id: Id): Message -> bool {
    (m: Message) => m.ticketId != id
  }

  function NotTicket(id: Id): Ticket -> bool {
    (t: Ticket) => t.id != id
  }

  /** `deleteTicket`: 404 when missing; otherwise every message of the
      ticket is removed, then the ticket; everything else stays. */
  method DeleteTicket(db: Db, caller: Caller, id: Id) returns (r: Response<()>)
    requires db.Valid()
    requires caller.role == Admin
    modifies db
    ensures db.Valid()
    ensures db.users == old(db.users) && db.settings == old(db.settings) && db.nextId == old(db.nextId)
    ensures !HasTicket(old(db.tickets), id) ==>
              r == Fail(404, "Ticket not found") && db.tickets == old(db.tickets) && db.messages == old(db.messages)
    ensures HasTicket(old(db.tickets), id) ==>
              && r == Ok(())
              && db.messages == Filter(old(db.messages), NotOfTicket(id))
              && db.tickets == Filter(old(db.tickets), NotTicket(id))
  {
    if FindTicket(db.tickets, id).None? {
      return Fail(404, "Ticket not found");
    }
    db.messages := Filter(db.messages, NotOfTicket(id));
    db.tickets := Filter(db.tickets, NotTicket(id));
    r := Ok(());
    DeleteKeepsConsistent(old(db.tickets), old(db.messages), db.users, db.settings, db.nextId, id);
  }

  /** Removing a ticket together with its messages keeps the store
      consistent, and removes no other ticket or message. */
  lemma DeleteKeepsConsistent(tickets: seq<Ticket>, messages: seq<Message>, users: seq<User>,
                              settings: seq<ChatbotSettingsModel.Settings>, nextId: nat, id: Id)
    requires Consistent(tickets, messages, users, settings, nextId)
    ensures Consistent(Filter(tickets, NotTicket(id)), Filter(messages, NotOfTicket(id)), users, settings, nextId)
    ensures forall t :: t in tickets ==> (t in Filter(tickets, NotTicket(id)) <==> t.id != id)
    ensures forall m :: m in messages ==> (m in Filter(messages, NotOfTicket(id)) <==> m.ticketId != id)
  {
    var ts := Filter(tickets, NotTicket(id));
    var ms := Filter(messages, NotOfTicket(id));
    FilterKeepsIncreasing(tickets, NotTicket(id), nextId);
    FilterKeepsMessageIds(messages, NotOfTicket(id), nextId);
    FilterKeepsNumbersDistinct(tickets, NotTicket(id));
    forall i | 0 <= i < |ts| ensures HasUser(users, ts[i].assignedTo) {
      assert ts[i] in tickets;
    }
    forall i | 0 <= i < |ms| ensures HasTicket(ts, ms[i].ticketId) {
      assert ms[i] in messages;
      var j :| 0 <= j < |messages| && messages[j] == ms[i];
      var k :| 0 <= k < |tickets| && tickets[k].id == ms[i].ticketId;
      assert tickets[k] in ts;
    }
  }

  lemma {:induction false} FilterKeepsIncreasing(ts: seq<Ticket>, p: Ticket -> bool, bound: nat)
    requires TicketIdsIncreasing(ts, bound)
    ensures TicketIdsIncreasing(Filter(ts, p), bound)
  {
    if ts != [] {
      FilterKeepsIncreasing(ts[1..], p, bound);
      var rest := Filter(ts[1..], p);
      forall k | 0 <= k < |rest| ensures ts[0].id < rest[k].id {
        assert rest[k] in ts[1..];
      }
    }
  }

  lemma {:induction false} FilterKeepsMessageIds(ms: seq<Message>, p: Message -> bool, bound: nat)
    requires MessageIdsIncreasing(ms, bound)
    ensures MessageIdsIncreasing(Filter(ms, p), bound)
  {
    if ms != [] {
      FilterKeepsMessageIds(ms[1..], p, bound);
      var rest := Filter(ms[1..], p);
      forall k | 0 <= k < |rest| ensures ms[0].id < rest[k].id {
        assert rest[k] in ms[1..];
      }
    }
  }

  lemma {:induction false} FilterKeepsNumbersDistinct(ts: seq<Ticket>, p: Ticket -> bool)
    requires TicketNumbersDistinct(ts)
    ensures TicketNumbersDistinct(Filter(ts, p))
  {
    if ts != [] {
      FilterKeepsNumbersDistinct(ts[1..], p);
      var rest := Filter(ts[1..], p);
      forall k | 0 <= k < |rest| ensures ts[0].ticketId != rest[k].ticketId {
        assert rest[k] in ts[1..];
      }
    }
  }

  // GET /tickets/stats

  datatype Stats = Stats(allTickets: nat, resolvedTickets: nat, unresolvedTickets: nat, missedTickets: nat)

  function IsResolved(): Ticket -> bool {
    (t: Ticket) => t.status == Resolved
  }

  function IsMissed(): Ticket -> bool {
    (t: Ticket) => t.isMissed
  }

  /** The four `countDocuments` of `getTicketStats` over a scope. */
  function StatsOf(ts: seq<Ticket>, caller: Caller): Stats {
    var scope := InScopeOf(caller);
    Stats(Count(ts, scope),
          Count(ts, Both(scope, IsResolved())),
          Count(ts, Both(scope, Not(IsResolved()))),
          Count(ts, Both(scope, IsMissed())))
  }

  /** Every ticket in scope is resolved or not, so the two counts add up
      to the total, and neither exceeds it. */
  lemma StatsAddUp(ts: seq<Ticket>, caller: Caller)
    ensures var s := StatsOf(ts, caller);
            && s.allTickets == s.resolvedTickets + s.unresolvedTickets
            && s.missedTickets <= s.allTickets
  {
    CountSplit(ts, IsResolved(), InScopeOf(caller));
    CountSplit(ts, IsMissed(), InScopeOf(caller));
  }

  /** `getTicketStats`: the flags in the caller's scope are re-evaluated
      first, then counted. */
  method GetTicketStats(db: Db, caller: Caller, now: int) returns (r: Stats)
    requires db.Valid()
    modifies db
    ensures db.Valid()
    ensures db.tickets == Refreshed(old(db.tickets), InScopeOf(caller), FreshVerdict(db.settings, db.messages, now))
    ensures db.messages == old(db.messages) && db.users == old(db.users)
    ensures db.settings == old(db.settings) && db.nextId == old(db.nextId)
    ensures r == StatsOf(db.tickets, caller)
  {
    var _ := RefreshFlags(db, InScopeOf(caller), now);
    r := StatsOf(db.tickets, caller);
  }

  /** After the re-evaluation the missed count is the number of tickets in
      scope whose fresh verdict is "missed". */
  lemma {:induction false} MissedCountIsFresh(ts: seq<Ticket>, caller: Caller, settings: seq<ChatbotSettingsModel.Settings>, msgs: seq<Message>, now: int)
    ensures StatsOf(Refreshed(ts, InScopeOf(caller), FreshVerdict(settings, msgs, now)), caller).missedTickets
         == Count(ts, FreshlyMissedIn(caller, settings, msgs, now))
  {
    if ts != [] {
      var r := Refreshed(ts, InScopeOf(caller), FreshVerdict(settings, msgs, now));
      MissedCountIsFresh(ts[1..], caller, settings, msgs, now);
      assert r[1..] == Refreshed(ts[1..], InScopeOf(caller), FreshVerdict(settings, msgs, now));
      assert Both(InScopeOf(caller), IsMissed())(r[0]) == FreshlyMissedIn(caller, settings, msgs, now)(ts[0]);
    }
  }

  function FreshlyMissedIn(caller: Caller, settings: seq<ChatbotSettingsModel.Settings>, msgs: seq<Message>, now: int): Ticket -> bool {
    t => InScope(caller, t) && FreshMissed(settings, msgs, t, now)
  }
}
