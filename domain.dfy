/**
 * The helpdesk's records: the ticket status and user role enumerations of
 * backend/src/config/constants.js, and the Ticket, Message and User
 * documents of the store (ids stand for ObjectIds, which grow with
 * creation time; instants are milliseconds since the epoch).
 */
module Domain {
  import opened Wrappers

  type Id = nat

  datatype Status = Open | InProgress | Resolved

  /** The value a status has in the store and on the wire. */
  function StatusName(s: Status): string {
    match s
    case Open => "open"
    case InProgress => "in_progress"
    case Resolved => "resolved"
  }

  /** `status && Object.values(TICKET_STATUS).includes(status)`: a
      request's status field is taken only when it names one of the three
      statuses; anything else, or no field, is ignored. */
  function ParseStatus(raw: Option<string>): (r: Option<Status>)
    ensures r.Some? ==> raw == Some(StatusName(r.value))
    ensures forall s :: raw == Some(StatusName(s)) ==> r == Some(s)
  {
    match raw
    case None => None
    case Some(name) =>
      if name == "open" then Some(Open)
      else if name == "in_progress" then Some(InProgress)
      else if name == "resolved" then Some(Resolved)
      else None
  }

  datatype Role = Admin | Member

  /** A message of a ticket's conversation; `senderId` is `None` for the
      customer and the staff member's id otherwise. */
  datatype Message = Message(id: Id, ticketId: Id, senderId: Option<Id>, text: string, timestamp: int)

  /** `sort({ timestamp: 1 })`: `a` may come before `b`. */
  predicate NotLater(a: Message, b: Message) {
    a.timestamp <= b.timestamp
  }

  /** A message counts as the customer's exactly when it has no sender. */
  predicate IsCustomer(m: Message) {
    m.senderId.None?
  }

  datatype Ticket = Ticket(
    id: Id,
    ticketId: string,
    userName: string,
    userEmail: string,
    userPhone: string,
    assignedTo: Id,
    status: Status,
    lastMessageAt: int,
    isMissed: bool,
    createdAt: int)

  datatype User = User(
    id: Id,
    firstName: string,
    lastName: string,
    email: string,
    phone: string,
    password: string,
    role: Role)

  /** The authenticated caller that the `protect` middleware puts on
      `req.user`. */
  datatype Caller = Caller(id: Id, role: Role)

  /** The visibility rule shared by the ticket, message and analytics
      endpoints: an admin sees every ticket, a member only the tickets
      assigned to them. */
  predicate InScope(caller: Caller, t: Ticket) {
    caller.role == Admin || t.assignedTo == caller.id
  }

  function InScopeOf(caller: Caller): Ticket -> bool {
    (t: Ticket) => InScope(caller, t)
  }

  /** An HTTP reply: a value, or an error status with its message. */
  datatype Response<T> = Ok(value: T) | Fail(code: int, message: string)
}
