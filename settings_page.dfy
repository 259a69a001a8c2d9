/**
 * The settings page of management-frontend/src/pages/Settings.jsx: the
 * profile form and its checks, the requests a save sends and in which
 * order, what the page does with the answers, and the path-wise update of
 * the chatbot settings object the page keeps.
 */
module SettingsPage {
  import opened Wrappers
  import opened Text
  import opened Domain
  import opened Store
  import AuthController

  const NamesRequired := "First name and last name are required"
  const NewPasswordMissing := "Please provide new password"
  const NewPasswordTooShort := "New password must be at least 6 characters"
  const NewPasswordsDiffer := "New passwords do not match"
  const ProfileUpdateFailed := "Failed to update profile"

  datatype ProfileFields = ProfileFields(firstName: string, lastName: string, email: string, password: string, confirmPassword: string)

  /** `isChangingPassword`: either password field holds something. */
  predicate ChangingPassword(f: ProfileFields) {
    f.password != "" || f.confirmPassword != ""
  }

  /** `handleProfileSave`'s checks in order: blank names, then, only when
      a password is being changed, a missing new password, a short one and
      a confirmation that differs. `None` lets the save through. */
  function CheckProfile(f: ProfileFields): (r: Option<string>)
    ensures r.None? <==>
              && Trim(f.firstName) != "" && Trim(f.lastName) != ""
              && (ChangingPassword(f) ==> |f.password| >= 6 && f.password == f.confirmPassword)
    ensures r == Some(NamesRequired) <==> Trim(f.firstName) == "" || Trim(f.lastName) == ""
    ensures !ChangingPassword(f) ==> r.None? || r == Some(NamesRequired)
    ensures r == Some(NewPasswordMissing) ==> f.password == "" && f.confirmPassword != ""
    ensures r == Some(NewPasswordsDiffer) ==> |f.password| >= 6 && f.password != f.confirmPassword
  {
    if Trim(f.firstName) == "" || Trim(f.lastName) == "" then Some(NamesRequired)
    else if !ChangingPassword(f) then None
    else if f.password == "" then Some(NewPasswordMissing)
    else if |f.password| < 6 then Some(NewPasswordTooShort)
    else if f.password != f.confirmPassword then Some(NewPasswordsDiffer)
    else None
  }

  /** A request the save sends. */
  datatype Call = ProfileCall(firstName: string, lastName: string) | PasswordCall(newPassword: string)

  /** The server's answer to one request: done, or refused with the
      server's message when it sent one. */
  datatype Answer = Done | Refused(message: Option<string>)

  function AnswerOf<T>(r: Response<T>): (a: Answer)
    ensures a.Done? <==> r.Ok?
  {
    if r.Ok? then Done else Refused(Some(r.message))
  }

  /** The chatbot settings object as the page keeps it: top-level fields,
      some of them objects of named fields. */
  datatype Value = Leaf(text: string) | Group(fields: map<string, Value>)

  /** `handleChatbotChange(field, value)`: a dotted path `parent.child`
      sets that one field inside `parent`, keeping the others there; any
      other path sets the one top-level field. Nothing else changes. */
  function ChatbotChange(prev: map<string, Value>, field: string, value: Value): (r: map<string, Value>)
    ensures '.' !in field ==> field in r && r[field] == value
    ensures '.' !in field ==> forall k :: k != field ==> (k in r <==> k in prev) && (k in r ==> r[k] == prev[k])
    ensures '.' in field ==>
              var parts := Split(field, '.');
              && |parts| >= 2
              && parts[0] in r && r[parts[0]].Group? && parts[1] in r[parts[0]].fields
              && r[parts[0]].fields[parts[1]] == value
              && (forall k :: k != parts[0] ==> (k in r <==> k in prev) && (k in r ==> r[k] == prev[k]))
              && (parts[0] in prev && prev[parts[0]].Group? ==>
                    forall c :: c != parts[1] ==>
                      (c in r[parts[0]].fields <==> c in prev[parts[0]].fields) &&
                      (c in prev[parts[0]].fields ==> r[parts[0]].fields[c] == prev[parts[0]].fields[c]))
  {
    if '.' in field then
      var parts := Split(field, '.');
      SplitAtSep(field, '.');
      var parent := parts[0];
      var child := parts[1];
      var siblings := if parent in prev && prev[parent].Group? then prev[parent].fields else map[];
      prev[parent := Group(siblings[child := value])]
    else
      prev[field := value]
  }

  /** Setting the same dotted path twice keeps only the second value. */
  lemma ChatbotChangeTwice(prev: map<string, Value>, field: string, v: Value, w: Value)
    ensures ChatbotChange(ChatbotChange(prev, field, v), field, w) == ChatbotChange(prev, field, w)
  {
    if '.' in field {
      var parts := Split(field, '.');
      SplitAtSep(field, '.');
      var once := ChatbotChange(prev, field, v);
      var siblings := if parts[0] in prev && prev[parts[0]].Group? then prev[parts[0]].fields else map[];
      assert once[parts[0]].fields == siblings[parts[1] := v];
      assert siblings[parts[1] := v][parts[1] := w] == siblings[parts[1] := w];
    }
  }

  class Page {
    var profile: ProfileFields
    var error: string
    var saving: bool
    var loggedOut: bool
    var chatbot: map<string, Value>

    constructor (chatbot: map<string, Value>)
      ensures profile == ProfileFields("", "", "", "", "") && error == "" && !saving && !loggedOut
      ensures this.chatbot == chatbot
    {
      profile := ProfileFields("", "", "", "", "");
      error, saving, loggedOut := "", false, false;
      this.chatbot := chatbot;
    }

    /** The effect run for the signed-in account: the names and email are
        filled in, missing ones as empty, and the password fields kept. */
    method Prefill(firstName: Option<string>, lastName: Option<string>, email: Option<string>)
      modifies this
      ensures profile == old(profile).(firstName := firstName.GetOr(""), lastName := lastName.GetOr(""), email := email.GetOr(""))
      ensures error == old(error) && saving == old(saving) && loggedOut == old(loggedOut) && chatbot == old(chatbot)
    {
      profile := profile.(firstName := firstName.GetOr(""), lastName := lastName.GetOr(""), email := email.GetOr(""));
    }

    /** `handleProfileChange`: the fields change and the error clears; the
        email input is disabled. */
    method ProfileChange(f: ProfileFields)
      requires f.email == profile.email
      modifies this
      ensures profile == f && error == ""
      ensures saving == old(saving) && loggedOut == old(loggedOut) && chatbot == old(chatbot)
    {
      profile := f;
      error := "";
    }

    /** `handleProfileSave` with the answers to the requests it sends. A
        form that fails a check shows that message and sends nothing.
        Otherwise the names go first; if that is refused its message shows
        and nothing else is sent. With a new password it goes next, and
        once that is done the user is logged out; without one the password
        fields are cleared. */
    method Save(profileAnswer: Answer, passwordAnswer: Answer) returns (sent: seq<Call>)
      requires !saving
      modifies this
      ensures chatbot == old(chatbot) && !saving
      ensures CheckProfile(old(profile)).Some? ==>
                sent == [] && error == CheckProfile(old(profile)).value && profile == old(profile) && loggedOut == old(loggedOut)
      ensures CheckProfile(old(profile)).None? ==>
                && |sent| >= 1 && sent[0] == ProfileCall(old(profile).firstName, old(profile).lastName)
                && (profileAnswer.Refused? ==>
                      sent == [sent[0]] && error == Failure(profileAnswer) && profile == old(profile) && loggedOut == old(loggedOut))
                && (profileAnswer.Done? && ChangingPassword(old(profile)) ==>
                      && sent == [sent[0], PasswordCall(old(profile).password)]
                      && profile == old(profile)
                      && (passwordAnswer.Done? ==> loggedOut && error == "")
                      && (passwordAnswer.Refused? ==> error == Failure(passwordAnswer) && loggedOut == old(loggedOut)))
                && (profileAnswer.Done? && !ChangingPassword(old(profile)) ==>
                      && sent == [sent[0]] && error == "" && loggedOut == old(loggedOut)
                      && profile == old(profile).(password := "", confirmPassword := ""))
    {
      error := "";
      var problem := CheckProfile(profile);
      if problem.Some? {
        error := problem.value;
        return [];
      }
      saving := true;
      sent := [ProfileCall(profile.firstName, profile.lastName)];
      if profileAnswer.Refused? {
        error := Failure(profileAnswer);
        saving := false;
        return;
      }
      if ChangingPassword(profile) {
        sent := sent + [PasswordCall(profile.password)];
        if passwordAnswer.Refused? {
          error := Failure(passwordAnswer);
        } else {
          loggedOut := true;
        }
        saving := false;
        return;
      }
      profile := profile.(password := "", confirmPassword := "");
      saving := false;
    }

    /** `handleChatbotChange`. */
    method ChangeChatbot(field: string, value: Value)
      modifies this
      ensures chatbot == ChatbotChange(old(chatbot), field, value)
      ensures profile == old(profile) && error == old(error) && saving == old(saving) && loggedOut == old(loggedOut)
    {
      chatbot := ChatbotChange(chatbot, field, value);
    }
  }

  /** The message a refused request shows. */
  function Failure(a: Answer): (m: string)
    ensures m != ""
  {
    if a.Refused? && a.message.Some? && a.message.value != "" then a.message.value else ProfileUpdateFailed
  }

  /** Saving a new password for the signed-in user: the names are stored,
      then the new password, and the page logs the user out. */
  method SaveNewPassword(db: Db, caller: Caller, f: ProfileFields) returns (page: Page, sent: seq<Call>)
    requires db.Valid() && HasUser(db.users, caller.id)
    requires CheckProfile(f).None? && ChangingPassword(f)
    modifies db
    ensures db.Valid() && page.loggedOut && page.error == ""
    ensures sent == [ProfileCall(f.firstName, f.lastName), PasswordCall(f.password)]
    ensures HasUser(db.users, caller.id)
    ensures var i := FindUser(db.users, caller.id).value;
            db.users[i].password == f.password && db.users[i].firstName == f.firstName && db.users[i].lastName == f.lastName
  {
    page := new Page(map[]);
    page.Prefill(Some(f.firstName), Some(f.lastName), Some(f.email));
    page.ProfileChange(f);
    var named, changed := StoreNamesAndPassword(db, caller, f.firstName, f.lastName, f.password);
    sent := page.Save(AnswerOf(named), AnswerOf(changed));
  }

  /** The two requests the save sends for a new password, as the server
      answers them: both succeed, and the caller's stored user has the new
      names and password. */
  method StoreNamesAndPassword(db: Db, caller: Caller, firstName: string, lastName: string, password: string)
    returns (named: Response<AuthController.Account>, changed: Response<bool>)
    requires db.Valid() && HasUser(db.users, caller.id)
    requires firstName != "" && lastName != "" && password != ""
    modifies db
    ensures db.Valid() && named.Ok? && changed.Ok?
    ensures HasUser(db.users, caller.id)
    ensures var i := FindUser(db.users, caller.id).value;
            db.users[i].password == password && db.users[i].firstName == firstName && db.users[i].lastName == lastName
  {
    ghost var i := FindUser(db.users, caller.id).value;
    named := AuthController.UpdateProfile(db, caller, AuthController.ProfileEdit(Some(firstName), Some(lastName), None));
    assert db.users[i].id == caller.id;
    changed := AuthController.ChangePassword(db, caller, Some(password));
    assert db.users[i].id == caller.id;
    SameUserFound(db.users, i, caller.id);
  }

  /** Ids are unique in a valid store, so the user found under an id is
      the one at any position holding it. */
  lemma SameUserFound(us: seq<User>, i: nat, id: Id)
    requires i < |us| && us[i].id == id
    requires forall a, b :: 0 <= a < b < |us| ==> us[a].id < us[b].id
    ensures FindUser(us, id) == Some(i)
  {
    var k := FindUser(us, id).value;
    assert !(k < i) && !(i < k);
  }
}
