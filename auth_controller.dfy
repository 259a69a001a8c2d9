/**
 * The account endpoints of backend/src/controllers/authController.js over
 * the store: the one-time admin signup and the check the sign-up page
 * makes first, login, and a signed-in user editing their own profile or
 * password. Issuing the token and checking a password against its hash
 * belong to libraries outside this model: the token is left out of the
 * replies and the password check is a parameter.
 */
module AuthController {
  import opened Wrappers
  import opened Text
  import opened Domain
  import opened Sequences
  import opened Store
  import opened UserController

  /** The `user` object of the auth replies. */
  datatype Account = Account(id: Id, firstName: string, lastName: string, email: string, role: Role)

  function AccountOf(u: User): Account {
    Account(u.id, u.firstName, u.lastName, u.email, u.role)
  }

  // POST /auth/signup

  const AdminAlreadyExists := "Admin account already exists. New accounts must be created by the admin."

  datatype SignupBody = SignupBody(firstName: string, lastName: string, email: string, password: string)

  /** The account `signup` creates: an admin, the email lowercased by the
      schema, no phone. */
  function AdminAccount(body: SignupBody, id: Id): User {
    User(id, body.firstName, body.lastName, ToLower(body.email), "", body.password, Admin)
  }

  /** `signup`: 403 while an admin exists; otherwise an admin account is
      stored, unless the email is already in use, which the unique index
      refuses and the error handler answers with 400. */
  method Signup(db: Db, body: SignupBody) returns (r: Response<Account>)
    requires db.Valid()
    modifies db
    ensures db.Valid()
    ensures db.tickets == old(db.tickets) && db.messages == old(db.messages) && db.settings == old(db.settings)
    ensures FindAdmin(old(db.users)).Some? ==> r == Fail(403, AdminAlreadyExists) && unchanged(db)
    ensures FindAdmin(old(db.users)).None? && EmailTaken(old(db.users), ToLower(body.email)) ==>
              r == Fail(400, EmailExists) && unchanged(db)
    ensures FindAdmin(old(db.users)).None? && !EmailTaken(old(db.users), ToLower(body.email)) ==>
              && r == Ok(AccountOf(AdminAccount(body, old(db.nextId))))
              && db.users == old(db.users) + [AdminAccount(body, old(db.nextId))]
              && db.nextId == old(db.nextId) + 1
    ensures r.Ok? ==> AdminCount(db.users) == 1
  {
    var existing := FindAdmin(db.users);
    if existing.Some? {
      return Fail(403, AdminAlreadyExists);
    }
    if EmailTaken(db.users, ToLower(body.email)) {
      return Fail(400, EmailExists);
    }
    var id := db.NewId();
    var u := AdminAccount(body, id);
    AddUserKeepsConsistent(db.tickets, db.messages, db.users, db.settings, id, u);
    FirstAdmin(db.users, u);
    db.users := db.users + [u];
    r := Ok(AccountOf(u));
  }

  /** An admin added where there is none is the only admin. */
  lemma FirstAdmin(us: seq<User>, u: User)
    requires FindAdmin(us).None? && u.role == Admin
    ensures AdminCount(us + [u]) == 1
  {
    AddingKeepsSingleAdmin(us, u);
    CountZero(us, IsAdmin());
  }

  // GET /auth/signup-available

  /** `checkSignupAvailable`: `available` is `!existingAdmin`. */
  function CheckSignupAvailable(us: seq<User>): bool {
    FindAdmin(us).None?
  }

  /** The page's check agrees with the signup gate: sign-up is available
      exactly when no user is an admin, which is exactly when signup does
      not answer 403. */
  lemma SignupAvailableIffNoAdmin(us: seq<User>)
    ensures CheckSignupAvailable(us) <==> AdminCount(us) == 0
  {
    CountZero(us, IsAdmin());
    if !CheckSignupAvailable(us) {
      assert IsAdmin()(us[FindAdmin(us).value]);
    }
  }

  // POST /auth/login

  const MissingCredentials := "Please provide email and password"
  const InvalidCredentials := "Invalid credentials"

  /** The first user holding exactly `email`: the query `User.findOne`
      runs once the schema has lower-cased the email it is given. */
  function FindByEmail(us: seq<User>, email: string): (r: Option<nat>)
    ensures r.Some? ==> r.value < |us| && us[r.value].email == email
    ensures r.None? <==> !EmailTaken(us, email)
  {
    if us == [] then None
    else if us[0].email == email then Some(0)
    else
      match FindByEmail(us[1..], email)
      case None =>
        assert forall i :: 1 <= i < |us| ==> us[i] == us[1..][i - 1];
        None
      case Some(i) => Some(i + 1)
  }

  /** `login`: 400 unless both the email and the password are given; 401
      for an unknown email and for a wrong password alike; otherwise the
      account. The email path of the User schema lower-cases, and Mongoose
      applies that to the filter of `findOne({ email })`, so the lookup is
      by the lower-cased email. `matches(u, p)` is `u.comparePassword(p)`. */
  function Login(us: seq<User>, email: Option<string>, password: Option<string>,
                 matches: (User, string) -> bool): (r: Response<Account>)
    ensures r == Fail(400, MissingCredentials) <==> !Given(email) || !Given(password)
    ensures r.Ok? <==>
              && Given(email) && Given(password) && EmailTaken(us, ToLower(email.value))
              && matches(us[FindByEmail(us, ToLower(email.value)).value], password.value)
    ensures r.Ok? ==> exists i :: 0 <= i < |us| && us[i].email == ToLower(email.value) && r.value == AccountOf(us[i])
    ensures r.Fail? && r.code != 400 ==> r == Fail(401, InvalidCredentials)
  {
    if !Given(email) || !Given(password) then Fail(400, MissingCredentials)
    else
      match FindByEmail(us, ToLower(email.value))
      case None => Fail(401, InvalidCredentials)
      case Some(i) =>
        if !matches(us[i], password.value) then Fail(401, InvalidCredentials)
        else Ok(AccountOf(us[i]))
  }

  /** An unknown email and a wrong password for a known one get the same
      reply, so a caller cannot tell which accounts exist. */
  lemma LoginHidesUnknownEmail(us: seq<User>, email: string, password: string, matches: (User, string) -> bool, v: User)
    requires email != "" && password != ""
    requires v in us && v.email == ToLower(email) && EmailsDistinct(us) && !matches(v, password)
    ensures Login(us, Some(email), Some(password), matches) == Login([], Some(email), Some(password), matches)
  {
    var i := FindByEmail(us, ToLower(email)).value;
    var k :| 0 <= k < |us| && us[k] == v;
    assert i == k;
  }

  /** The admin `signup` has just stored logs in with the email as it was
      typed at sign-up, whatever its case, and gets that account back. */
  lemma AdminLogsInAsTyped(us: seq<User>, body: SignupBody, id: Id, matches: (User, string) -> bool)
    requires !EmailTaken(us, ToLower(body.email))
    requires body.email != "" && body.password != ""
    requires forall u: User :: matches(u, u.password)
    ensures var a := AdminAccount(body, id);
            Login(us + [a], Some(body.email), Some(body.password), matches) == Ok(AccountOf(a))
  {
    var vs := us + [AdminAccount(body, id)];
    assert vs[|us|].email == ToLower(body.email);
    var k := FindByEmail(vs, ToLower(body.email)).value;
    assert forall j :: 0 <= j < |us| ==> vs[j] == us[j];
  }

  // GET /auth/profile

  /** `getProfile`: the caller's own stored account; `protect` has just
      loaded that user. */
  function GetProfile(us: seq<User>, caller: Caller): (r: Account)
    requires HasUser(us, caller.id)
    ensures exists i :: 0 <= i < |us| && us[i].id == caller.id && r == AccountOf(us[i])
  {
    AccountOf(us[FindUser(us, caller.id).value])
  }

  // PUT /auth/profile

  const EmailUnchangeable := "Email cannot be changed"

  datatype ProfileEdit = ProfileEdit(firstName: Option<string>, lastName: Option<string>, email: Option<string>)

  /** The user after `updateProfile`'s assignments: each name only when
      it is given and not empty. */
  function ProfileEdited(u: User, e: ProfileEdit): User {
    u.(firstName := OrElse(e.firstName, u.firstName), lastName := OrElse(e.lastName, u.lastName))
  }

  /** `updateProfile`: 400 when the body carries an email other than the
      caller's own; otherwise the names are edited and the account sent
      back. The email, the role, the phone and the password never change. */
  method UpdateProfile(db: Db, caller: Caller, e: ProfileEdit) returns (r: Response<Account>)
    requires db.Valid() && HasUser(db.users, caller.id)
    modifies db
    ensures db.Valid()
    ensures db.tickets == old(db.tickets) && db.messages == old(db.messages)
    ensures db.settings == old(db.settings) && db.nextId == old(db.nextId)
    ensures var i := FindUser(old(db.users), caller.id).value;
            var u := old(db.users)[i];
            if Given(e.email) && e.email.value != u.email then
              r == Fail(400, EmailUnchangeable) && db.users == old(db.users)
            else
              && db.users == old(db.users)[i := ProfileEdited(u, e)]
              && r == Ok(AccountOf(ProfileEdited(u, e)))
  {
    var i := FindUser(db.users, caller.id).value;
    var u := db.users[i];
    if Given(e.email) && e.email.value != u.email {
      return Fail(400, EmailUnchangeable);
    }
    var edited := ProfileEdited(u, e);
    ReplaceUserKeepsConsistent(db.tickets, db.messages, db.users, db.settings, db.nextId, i, edited);
    db.users := db.users[i := edited];
    r := Ok(AccountOf(edited));
  }

  /** A profile edit keeps the id, the email, the phone, the password and
      the role, and keeps a name the body leaves empty or out. */
  lemma ProfileEditKeepsAccount(u: User, e: ProfileEdit)
    ensures var v := ProfileEdited(u, e);
            && v.id == u.id && v.email == u.email && v.phone == u.phone
            && v.password == u.password && v.role == u.role
            && v.firstName == (if Given(e.firstName) then e.firstName.value else u.firstName)
            && v.lastName == (if Given(e.lastName) then e.lastName.value else u.lastName)
  {
  }

  // PUT /auth/change-password

  const NewPasswordRequired := "Please provide new password"

  /** `changePassword`: 400 without a new password; otherwise the password
      is replaced and the reply asks the client to log out (`forceLogout`). */
  method ChangePassword(db: Db, caller: Caller, newPassword: Option<string>) returns (r: Response<bool>)
    requires db.Valid() && HasUser(db.users, caller.id)
    modifies db
    ensures db.Valid()
    ensures db.tickets == old(db.tickets) && db.messages == old(db.messages)
    ensures db.settings == old(db.settings) && db.nextId == old(db.nextId)
    ensures !Given(newPassword) ==> r == Fail(400, NewPasswordRequired) && db.users == old(db.users)
    ensures Given(newPassword) ==>
              var i := FindUser(old(db.users), caller.id).value;
              && r == Ok(true)
              && db.users == old(db.users)[i := old(db.users)[i].(password := newPassword.value)]
  {
    if !Given(newPassword) {
      return Fail(400, NewPasswordRequired);
    }
    var i := FindUser(db.users, caller.id).value;
    var u := db.users[i].(password := newPassword.value);
    ReplaceUserKeepsConsistent(db.tickets, db.messages, db.users, db.settings, db.nextId, i, u);
    db.users := db.users[i := u];
    r := Ok(true);
  }

  /** After a password change, logging in with the new password and the
      stored email, typed in any case, succeeds when the password check
      accepts the stored password, and the account is the caller's. */
  lemma NewPasswordLogsIn(us: seq<User>, i: nat, typed: string, pw: string, matches: (User, string) -> bool)
    requires i < |us| && EmailsDistinct(us) && typed != "" && ToLower(typed) == us[i].email && pw != ""
    requires forall u: User :: matches(u, u.password)
    ensures var vs := us[i := us[i].(password := pw)];
            Login(vs, Some(typed), Some(pw), matches) == Ok(AccountOf(us[i]))
  {
    var vs := us[i := us[i].(password := pw)];
    assert vs[i].email == us[i].email;
    var k := FindByEmail(vs, ToLower(typed)).value;
    assert k == i;
  }
}
