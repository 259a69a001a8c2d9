/**
 * The add and edit dialog of management-frontend/src/components/team/AddMemberModal.jsx
 * and the save it triggers on the Team page: the form's fields, how it is
 * prefilled or cleared when opened, how a full name is split into first
 * and last name, and the request body handed to the team endpoints.
 */
module AddMemberModal {
  import opened Wrappers
  import opened Text
  import opened Domain
  import opened Store
  import opened UserController
  import TeamTable

  const RequiredFields := "Please fill in required fields"

  /** `{ firstName, lastName, email, phone, role, _id }` as handed to
      `onSave`; `role` is `None` where the body has no role, `id` is the
      `_id` of the member being edited. */
  datatype Payload = Payload(
    firstName: string,
    lastName: string,
    email: string,
    phone: string,
    role: Option<Role>,
    id: Option<Id>)

  /** `userName.trim().split(' ')`: the first word, and the remaining
      words joined by single spaces (`""` when there are none). The two
      put back together with a space are the trimmed name. */
  function SplitName(userName: string): (r: (string, string))
    ensures ' ' !in r.0
    ensures r.1 == "" ==> r.0 == Trim(userName)
    ensures r.1 != "" ==> r.0 + " " + r.1 == Trim(userName)
  {
    var parts := Split(Trim(userName), ' ');
    SplitNameJoins(userName);
    (parts[0], if |parts| > 1 then Join(parts[1..], ' ') else "")
  }

  lemma SplitNameJoins(userName: string)
    ensures var parts := Split(Trim(userName), ' ');
            && (|parts| == 1 ==> parts[0] == Trim(userName))
            && (|parts| > 1 ==> Join(parts[1..], ' ') != "" && parts[0] + " " + Join(parts[1..], ' ') == Trim(userName))
  {
    var t := Trim(userName);
    var parts := Split(t, ' ');
    JoinSplit(t, ' ');
    var _, _ := TrimIsInfix(userName);
  }

  /** The name a member is prefilled with, `${firstName} ${lastName}`,
      splits back into the same first and last name when the first name is
      one word and neither name starts or ends the full name with
      whitespace. */
  lemma SplitPrefilledName(first: string, last: string)
    requires first != "" && ' ' !in first && !IsSpace(first[0]) && !IsSpace(first[|first| - 1])
    requires last != "" ==> !IsSpace(last[|last| - 1])
    ensures SplitName(first + " " + last) == (first, last)
  {
    var s := first + " " + last;
    if last != "" {
      TrimOfTrimmed(s);
      assert s == first + [' '] + last;
      SplitPrefix(first, ' ', last);
      JoinSplit(last, ' ');
      assert Split(s, ' ')[1..] == Split(last, ' ');
    } else {
      assert s == first + [' '];
      assert LeadingSpaces(s) == 0;
      assert s[0..] == s;
      assert s[..|s| - 1] == first;
      assert TrailingSpaces(first) == 0;
      assert TrailingSpaces(s) == 1;
      assert Trim(s) == first;
      SplitNoSep(first, ' ');
    }
  }

  /** A change made through the form: `handleChange` for one input or the
      role select. */
  datatype Edit = UserName(value: string) | Email(value: string) | Phone(value: string) | RoleChoice(role: Role)

  class Form {
    /** `currentUserRole`. */
    const viewerRole: Role
    /** `editMember`, set when the dialog is opened. */
    var editing: Option<Profile>
    var userName: string
    var email: string
    var phone: string
    var role: Role
    var error: string

    constructor (viewerRole: Role)
      ensures this.viewerRole == viewerRole && editing == None
      ensures userName == "" && email == "" && phone == "" && role == Member && error == ""
    {
      this.viewerRole := viewerRole;
      editing := None;
      userName, email, phone, role, error := "", "", "", Member, "";
    }

    /** The effect run when the dialog opens: editing prefills the member's
      full name, email, phone and role; adding clears the form to a new
      member. Either way the error is cleared. */
    method Open(editMember: Option<Profile>)
      modifies this
      ensures editing == editMember && error == ""
      ensures editMember.Some? ==>
                var m := editMember.value;
                userName == m.firstName + " " + m.lastName && email == m.email && phone == m.phone && role == m.role
      ensures editMember.None? ==> userName == "" && email == "" && phone == "" && role == Member
    {
      editing := editMember;
      if editMember.Some? {
        var m := editMember.value;
        userName, email, phone, role := m.firstName + " " + m.lastName, m.email, m.phone, m.role;
      } else {
        userName, email, phone, role := "", "", "", Member;
      }
      error := "";
    }

    /** `handleChange`: the one field changes and the error clears. The
      email input is disabled while editing, and the role select is shown
      only to an admin. */
    method Change(e: Edit)
      requires e.Email? ==> editing.None?
      requires e.RoleChoice? ==> viewerRole == Admin
      modifies this
      ensures error == "" && editing == old(editing)
      ensures userName == (if e.UserName? then e.value else old(userName))
      ensures email == (if e.Email? then e.value else old(email))
      ensures phone == (if e.Phone? then e.value else old(phone))
      ensures role == (if e.RoleChoice? then e.role else old(role))
    {
      error := "";
      match e
      case UserName(v) => userName := v;
      case Email(v) => email := v;
      case Phone(v) => phone := v;
      case RoleChoice(r) => role := r;
    }

    /** `handleSubmit` as written: without a user name or email the error
      is shown and nothing is saved; otherwise the body always carries the
      form's role, and the member's id when editing. */
    method Submit() returns (saved: Option<Payload>)
      modifies this`error
      ensures userName == "" || email == "" ==> saved == None && error == RequiredFields
      ensures userName != "" && email != "" ==>
                && error == old(error)
                && saved == Some(Payload(SplitName(userName).0, SplitName(userName).1, email, phone, Some(role),
                                         if editing.Some? then Some(editing.value.id) else None))
    {
      if userName == "" || email == "" {
        error := RequiredFields;
        return None;
      }
      var (first, last) := SplitName(userName);
      saved := Some(Payload(first, last, email, phone, Some(role), if editing.Some? then Some(editing.value.id) else None));
    }

    /** The submission evidently intended: the role goes into the body
      only where the role select is shown, for an admin. */
    method SubmitFixed() returns (saved: Option<Payload>)
      modifies this`error
      ensures userName == "" || email == "" ==> saved == None && error == RequiredFields
      ensures userName != "" && email != "" ==>
                && error == old(error)
                && saved == Some(Payload(SplitName(userName).0, SplitName(userName).1, email, phone,
                                         if viewerRole == Admin then Some(role) else None,
                                         if editing.Some? then Some(editing.value.id) else None))
    {
      if userName == "" || email == "" {
        error := RequiredFields;
        return None;
      }
      var (first, last) := SplitName(userName);
      saved := Some(Payload(first, last, email, phone, if viewerRole == Admin then Some(role) else None,
                            if editing.Some? then Some(editing.value.id) else None));
    }
  }

  /** The body `PUT /users/:id` reads from a payload: every field is
      present, the role only when the payload has one. */
  function EditOf(p: Payload): (e: MemberEdit)
    ensures e.firstName == Some(p.firstName) && e.lastName == Some(p.lastName) && e.phone == Some(p.phone)
    ensures e.role == p.role
  {
    MemberEdit(Some(p.firstName), Some(p.lastName), Some(p.phone), p.role)
  }

  /** The body `POST /users` reads from a payload: no password, so a
      member added through the dialog signs in with the default one. */
  function NewMemberOf(p: Payload): (b: NewMember)
    ensures b.email == Some(p.email) && b.password.None?
  {
    NewMember(p.firstName, p.lastName, Some(p.email), Some(p.phone), None, p.role)
  }

  /** A member the admin adds is stored with the split name, the email
      lower-cased, the default password and the role chosen. */
  lemma AddedMemberStored(p: Payload, id: Id)
    requires p.role.Some?
    ensures var u := NewUser(NewMemberOf(p), id);
            && u.firstName == p.firstName && u.lastName == p.lastName
            && u.email == ToLower(p.email) && u.password == DefaultPassword && u.role == p.role.value
  {
    NewUserDefaults(NewMemberOf(p), id);
  }

  /** A member who opens their own row, types a new phone number and
      saves is refused: the body carries the role they already have, and
      the server refuses any role from a member. */
  method SaveOwnRowRefused(db: Db, viewer: Caller, m: Profile, phone: string) returns (r: Response<Profile>)
    requires db.Valid() && TeamTable.SignedIn(db, viewer) && TeamTable.Listed(db, m)
    requires viewer.role == Member && TeamTable.CanModify(viewer.id, viewer.role, m).canEdit
    requires m.email != ""
    modifies db
    ensures r == Fail(403, NotAuthorizedToChangeRole) && db.users == old(db.users)
  {
    var form := new Form(viewer.role);
    form.Open(Some(m));
    form.Change(Phone(phone));
    var saved := form.Submit();
    TeamTable.ListedIsFound(db, m);
    r := UpdateUser(db, viewer, m.id, EditOf(saved.value));
  }

  /** With the corrected submission the same save goes through and
      stores the member's phone, keeping their role. */
  method SaveOwnRowAccepted(db: Db, viewer: Caller, m: Profile, phone: string) returns (r: Response<Profile>)
    requires db.Valid() && TeamTable.SignedIn(db, viewer) && TeamTable.Listed(db, m)
    requires viewer.role == Member && TeamTable.CanModify(viewer.id, viewer.role, m).canEdit
    requires m.email != ""
    modifies db
    ensures r.Ok? && r.value.id == m.id && r.value.role == m.role && r.value.phone == phone
  {
    var form := new Form(viewer.role);
    form.Open(Some(m));
    form.Change(Phone(phone));
    var saved := form.SubmitFixed();
    TeamTable.ListedIsFound(db, m);
    r := UpdateUser(db, viewer, m.id, EditOf(saved.value));
  }
}
