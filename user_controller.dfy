/**
 * The team endpoints of backend/src/controllers/userController.js over the
 * store: an admin creates members, anyone edits themselves and the admin
 * edits anyone, and deleting a member hands their tickets to the admin.
 * Replies leave the password out.
 */
module UserController {
  import opened Wrappers
  import opened Text
  import opened Domain
  import opened Sequences
  import opened Store
  import TicketService
  import ChatbotSettingsModel

  /** A user as the endpoints send it back: everything but the password. */
  datatype Profile = Profile(id: Id, firstName: string, lastName: string, email: string, phone: string, role: Role)

  function ProfileOf(u: User): Profile {
    Profile(u.id, u.firstName, u.lastName, u.email, u.phone, u.role)
  }

  /** A request string that JavaScript treats as true: present and not
      empty. */
  predicate Given(x: Option<string>) {
    x.Some? && x.value != ""
  }

  /** `x || fallback`. */
  function OrElse(x: Option<string>, fallback: string): string {
    if Given(x) then x.value else fallback
  }

  function IsAdmin(): User -> bool {
    (u: User) => u.role == Admin
  }

  /** `User.countDocuments({ role: 'admin' })`. */
  function AdminCount(us: seq<User>): nat {
    Count(us, IsAdmin())
  }

  // POST /users (admin only)

  /** The body of a create request; `role` is absent or empty when `None`. */
  datatype NewMember = NewMember(
    firstName: string,
    lastName: string,
    email: Option<string>,
    phone: Option<string>,
    password: Option<string>,
    role: Option<Role>)

  const DefaultPassword := "password123"
  const CreateFailed := "Failed to create user"
  const EmailExists := "Email already exists"
  const AdminExists := "Admin account already exists"

  /** The user `createUser` stores: the email lowercased, the phone `''`,
      the password `'password123'` and the role `member` when not given. */
  function NewUser(body: NewMember, id: Id): User
    requires body.email.Some?
  {
    User(id, body.firstName, body.lastName, ToLower(body.email.value),
         OrElse(body.phone, ""), OrElse(body.password, DefaultPassword), body.role.GetOr(Member))
  }

  /** `createUser`: no email throws inside the handler (500); an email
      whose lowercase form is stored answers 400; asking for an admin while
      one exists answers 400; otherwise the new user is stored last. */
  method CreateUser(db: Db, caller: Caller, body: NewMember) returns (r: Response<Profile>)
    requires db.Valid()
    requires caller.role == Admin
    modifies db
    ensures db.Valid()
    ensures db.tickets == old(db.tickets) && db.messages == old(db.messages) && db.settings == old(db.settings)
    ensures body.email.None? ==> r == Fail(500, CreateFailed) && unchanged(db)
    ensures body.email.Some? && EmailTaken(old(db.users), ToLower(body.email.value)) ==>
              r == Fail(400, EmailExists) && unchanged(db)
    ensures body.email.Some? && !EmailTaken(old(db.users), ToLower(body.email.value))
            && body.role == Some(Admin) && FindAdmin(old(db.users)).Some? ==>
              r == Fail(400, AdminExists) && unchanged(db)
    ensures body.email.Some? && !EmailTaken(old(db.users), ToLower(body.email.value))
            && !(body.role == Some(Admin) && FindAdmin(old(db.users)).Some?) ==>
              && r == Ok(ProfileOf(NewUser(body, old(db.nextId))))
              && db.users == old(db.users) + [NewUser(body, old(db.nextId))]
              && db.nextId == old(db.nextId) + 1
    ensures AdminCount(old(db.users)) <= 1 ==> AdminCount(db.users) <= 1
  {
    if body.email.None? {
      return Fail(500, CreateFailed);
    }
    if EmailTaken(db.users, ToLower(body.email.value)) {
      return Fail(400, EmailExists);
    }
    if body.role == Some(Admin) && FindAdmin(db.users).Some? {
      return Fail(400, AdminExists);
    }
    var id := db.NewId();
    var u := NewUser(body, id);
    AddUserKeepsConsistent(db.tickets, db.messages, db.users, db.settings, id, u);
    AddingKeepsSingleAdmin(db.users, u);
    db.users := db.users + [u];
    r := Ok(ProfileOf(u));
  }

  /** A user added while no admin exists, or added as a member, keeps the
      number of admins at one or fewer. */
  lemma AddingKeepsSingleAdmin(us: seq<User>, u: User)
    requires u.role == Admin ==> FindAdmin(us).None?
    ensures AdminCount(us) <= 1 ==> AdminCount(us + [u]) <= 1
    ensures AdminCount(us + [u]) == AdminCount(us) + (if u.role == Admin then 1 else 0)
  {
    CountAppend(us, [u], IsAdmin());
    if u.role == Admin {
      CountZero(us, IsAdmin());
    }
  }

  /** A created user's email is stored in lowercase, and the defaults fill
      what the request left out. */
  lemma NewUserDefaults(body: NewMember, id: Id)
    requires body.email.Some?
    ensures ToLower(NewUser(body, id).email) == NewUser(body, id).email
    ensures !Given(body.phone) ==> NewUser(body, id).phone == ""
    ensures !Given(body.password) ==> NewUser(body, id).password == DefaultPassword
    ensures body.role.None? ==> NewUser(body, id).role == Member
  {
    ToLowerIdempotent(body.email.value);
  }

  // PUT /users/:id

  /** The body of an edit request: absent fields are `None`. */
  datatype MemberEdit = MemberEdit(firstName: Option<string>, lastName: Option<string>, phone: Option<string>, role: Option<Role>)

  /** The user after `updateUser`'s assignments: names when given, the
      phone whenever present (even empty), the role only for an admin. */
  function Edited(u: User, e: MemberEdit, byAdmin: bool): User {
    u.(firstName := OrElse(e.firstName, u.firstName),
       lastName := OrElse(e.lastName, u.lastName),
       phone := e.phone.GetOr(u.phone),
       role := if e.role.Some? && byAdmin then e.role.value else u.role)
  }

  /** An edit keeps the user's id, email and password, and only an admin's
      edit can change a role. */
  lemma EditKeepsIdentity(u: User, e: MemberEdit, byAdmin: bool)
    ensures Edited(u, e, byAdmin).id == u.id
    ensures Edited(u, e, byAdmin).email == u.email
    ensures Edited(u, e, byAdmin).password == u.password
    ensures !byAdmin ==> Edited(u, e, byAdmin).role == u.role
    ensures e == MemberEdit(None, None, None, None) ==> Edited(u, e, byAdmin) == u
  {
  }

  const UserNotFound := "User not found"
  const NotAuthorizedToUpdate := "Not authorized to update this user"
  const NotAuthorizedToChangeRole := "Not authorized to change role"
  const LastAdmin := "Cannot change role. At least one admin must exist."

  /** `updateUser`: 404 for a missing user; 403 for a member editing
      someone else, and for a member naming a role for themselves; 400 for
      demoting an admin while at most one admin exists; otherwise the
      edit is stored. Every failure leaves the store as it was, and an
      admin always remains once there is one. */
  method UpdateUser(db: Db, caller: Caller, id: Id, e: MemberEdit) returns (r: Response<Profile>)
    requires db.Valid()
    modifies db
    ensures db.Valid()
    ensures db.tickets == old(db.tickets) && db.messages == old(db.messages)
    ensures db.settings == old(db.settings) && db.nextId == old(db.nextId)
    ensures !HasUser(old(db.users), id) ==> r == Fail(404, UserNotFound) && db.users == old(db.users)
    ensures HasUser(old(db.users), id) ==>
              var i := FindUser(old(db.users), id).value;
              var u := old(db.users)[i];
              if caller.role != Admin && caller.id != id then
                r == Fail(403, NotAuthorizedToUpdate) && db.users == old(db.users)
              else if caller.role != Admin && e.role.Some? then
                r == Fail(403, NotAuthorizedToChangeRole) && db.users == old(db.users)
              else if u.role == Admin && e.role.Some? && e.role.value != Admin && AdminCount(old(db.users)) <= 1 then
                r == Fail(400, LastAdmin) && db.users == old(db.users)
              else
                r == Ok(ProfileOf(Edited(u, e, caller.role == Admin)))
                && db.users == old(db.users)[i := Edited(u, e, caller.role == Admin)]
    ensures AdminCount(old(db.users)) >= 1 ==> AdminCount(db.users) >= 1
  {
    var found := FindUser(db.users, id);
    if found.None? {
      return Fail(404, UserNotFound);
    }
    var i := found.value;
    var u := db.users[i];
    var isAdmin := caller.role == Admin;
    var isSelf := caller.id == id;
    if !isAdmin && !isSelf {
      return Fail(403, NotAuthorizedToUpdate);
    }
    if !isAdmin && isSelf && e.role.Some? {
      return Fail(403, NotAuthorizedToChangeRole);
    }
    if u.role == Admin && e.role.Some? && e.role.value != Admin && AdminCount(db.users) <= 1 {
      return Fail(400, LastAdmin);
    }
    var u' := Edited(u, e, isAdmin);
    ReplaceUserKeepsConsistent(db.tickets, db.messages, db.users, db.settings, db.nextId, i, u');
    CountUpdate(db.users, i, u', IsAdmin());
    db.users := db.users[i := u'];
    r := Ok(ProfileOf(u'));
  }

  /** The single-admin rule is checked when users are created, not when
      roles change: an admin may promote a member, and then two admins
      exist. */
  lemma PromotionMakesSecondAdmin(admin: User, member: User)
    requires admin.role == Admin && member.role == Member
    ensures var us := [admin, member][1 := Edited(member, MemberEdit(None, None, None, Some(Admin)), true)];
            AdminCount(us) == 2
  {
    var us := [admin, member][1 := Edited(member, MemberEdit(None, None, None, Some(Admin)), true)];
    assert us[1..][1..] == [];
    assert Count(us[1..], IsAdmin()) == 1;
  }

  // DELETE /users/:id (admin only)

  const CannotDeleteAdmin := "Cannot delete admin account"
  const CannotDeleteSelf := "Cannot delete your own account"
  const NoAdminToReassign := "Cannot delete user: No admin account found to reassign tickets"

  datatype Deleted = Deleted(message: string, ticketsReassigned: nat)

  function DeletedMessage(n: nat): string {
    if n > 0 then "User deleted successfully. " + NatToString(n) + " ticket(s) reassigned to admin."
    else "User deleted successfully."
  }

  /** `deleteUser`: 404 for a missing user, 400 for an admin, 400 for the
      caller themselves, 500 when there is no admin to take the tickets;
      each leaves the store unchanged. Otherwise the user's tickets go to
      the first admin, the user is removed, and the reply reports how many
      tickets they had. Every admin stays. */
  method DeleteUser(db: Db, caller: Caller, id: Id) returns (r: Response<Deleted>)
    requires db.Valid()
    requires caller.role == Admin
    modifies db
    ensures db.Valid()
    ensures db.messages == old(db.messages) && db.settings == old(db.settings) && db.nextId == old(db.nextId)
    ensures !HasUser(old(db.users), id) ==> r == Fail(404, UserNotFound) && unchanged(db)
    ensures HasUser(old(db.users), id) ==>
              var u := old(db.users)[FindUser(old(db.users), id).value];
              if u.role == Admin then r == Fail(400, CannotDeleteAdmin) && unchanged(db)
              else if caller.id == id then r == Fail(400, CannotDeleteSelf) && unchanged(db)
              else if FindAdmin(old(db.users)).None? then r == Fail(500, NoAdminToReassign) && unchanged(db)
              else
                var admin := old(db.users)[FindAdmin(old(db.users)).value].id;
                var n := Count(old(db.tickets), TicketService.AssignedTo(id));
                && r == Ok(Deleted(DeletedMessage(n), n))
                && db.tickets == TicketService.Reassigned(old(db.tickets), id, admin)
                && db.users == Filter(old(db.users), NotUser(id))
    ensures forall v :: v in old(db.users) && v.role == Admin ==> v in db.users
  {
    var found := FindUser(db.users, id);
    if found.None? {
      return Fail(404, UserNotFound);
    }
    var u := db.users[found.value];
    if u.role == Admin {
      return Fail(400, CannotDeleteAdmin);
    }
    if caller.id == id {
      return Fail(400, CannotDeleteSelf);
    }
    var a := FindAdmin(db.users);
    if a.None? {
      return Fail(500, NoAdminToReassign);
    }
    var n := Count(db.tickets, TicketService.AssignedTo(id));
    RemoveMember(db, found.value, a.value);
    r := Ok(Deleted(DeletedMessage(n), n));
  }

  /** `reassignTicketsToAdmin` then `User.findByIdAndDelete`: the `f`-th
      user's tickets go to the `a`-th user, an admin, and the `f`-th user
      is removed. */
  method RemoveMember(db: Db, f: nat, a: nat)
    requires db.Valid() && f < |db.users| && a < |db.users|
    requires db.users[f].role != Admin && db.users[a].role == Admin
    modifies db
    ensures db.Valid()
    ensures db.messages == old(db.messages) && db.settings == old(db.settings) && db.nextId == old(db.nextId)
    ensures db.tickets == TicketService.Reassigned(old(db.tickets), old(db.users)[f].id, old(db.users)[a].id)
    ensures db.users == Filter(old(db.users), NotUser(old(db.users)[f].id))
    ensures forall v :: v in old(db.users) && v.role == Admin ==> v in db.users
  {
    var users := db.users;
    var id := users[f].id;
    DeletionKeepsConsistent(db.tickets, db.messages, users, db.settings, db.nextId, f, a);
    var ts, _ := TicketService.ReassignPass(db.tickets, id, users[a].id);
    var us := Filter(users, NotUser(id));
    db.tickets, db.users := ts, us;
  }

  /** Handing a member's tickets to an admin and then removing the member
      keeps the store consistent and removes no admin. */
  lemma DeletionKeepsConsistent(tickets: seq<Ticket>, messages: seq<Message>, users: seq<User>,
                                settings: seq<ChatbotSettingsModel.Settings>, nextId: nat, f: nat, a: nat)
    requires Consistent(tickets, messages, users, settings, nextId)
    requires f < |users| && a < |users| && users[f].role != Admin && users[a].role == Admin
    ensures users[a].id != users[f].id
    ensures var ts := TicketService.Reassigned(tickets, users[f].id, users[a].id);
            Consistent(ts, messages, Filter(users, NotUser(users[f].id)), settings, nextId)
    ensures forall v :: v in users && v.role == Admin ==> v in Filter(users, NotUser(users[f].id))
  {
    var id := users[f].id;
    var ts := TicketService.Reassigned(tickets, id, users[a].id);
    assert HasUser(users, users[a].id);
    ReassignedKeepsKeys(tickets, users, id, users[a].id);
    KeysKeptConsistent(tickets, ts, messages, users, settings, nextId);
    RemoveUserKeepsConsistent(ts, messages, users, settings, nextId, id);
    forall v | v in users && v.role == Admin ensures v.id != id {
      var k :| 0 <= k < |users| && users[k] == v;
      assert k != f;
    }
  }

  /** Handing tickets to a stored user other than `from` keeps every
      ticket's keys, leaves every ticket with a stored assignee, and
      leaves none with `from`. */
  lemma ReassignedKeepsKeys(tickets: seq<Ticket>, users: seq<User>, from: Id, to: Id)
    requires forall i :: 0 <= i < |tickets| ==> HasUser(users, tickets[i].assignedTo)
    requires HasUser(users, to) && to != from
    ensures var ts := TicketService.Reassigned(tickets, from, to);
            && (forall i :: 0 <= i < |tickets| ==> ts[i].id == tickets[i].id && ts[i].ticketId == tickets[i].ticketId)
            && (forall i :: 0 <= i < |ts| ==> HasUser(users, ts[i].assignedTo) && ts[i].assignedTo != from)
  {
  }
}
