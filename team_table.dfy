/**
 * The member table of management-frontend/src/components/team/TeamTable.jsx:
 * the avatar initials, the order of the rows (by first name, then last
 * name, ascending or descending) and the edit and delete buttons each row
 * offers. The buttons are checked against what the team endpoints of
 * UserController then answer.
 */
module TeamTable {
  import opened Wrappers
  import opened Text
  import opened Domain
  import opened Sequences
  import opened Store
  import opened UserController
  import ChatDetails

  /** `getInitials(firstName, lastName)`: the table's rule is the chat
      details column's. */
  function Initials(m: Profile): (r: string)
    ensures 1 <= |r| <= 2
    ensures m.firstName == "" && m.lastName == "" ==> r == "?"
    ensures m.firstName != "" ==> r[0] == UpperChar(m.firstName[0])
    ensures m.firstName == "" && m.lastName != "" ==> r == [UpperChar(m.lastName[0])]
  {
    ChatDetails.InitialsOf(Some(m.firstName), Some(m.lastName))
  }

  datatype SortOrder = Asc | Desc

  /** `toggleSort`. */
  function Toggle(order: SortOrder): (r: SortOrder)
    ensures r != order
  {
    if order == Asc then Desc else Asc
  }

  /** The sort key: the lower-cased first and last name. */
  function FirstKey(m: Profile): string {
    ToLower(m.firstName)
  }

  function LastKey(m: Profile): string {
    ToLower(m.lastName)
  }

  /** The comparator's `compare(a, b) <= 0`, with `localeCompare` read as
      code-unit order: first names decide unless they are equal, then last
      names; descending order compares the other way round. */
  predicate NameLe(order: SortOrder, a: Profile, b: Profile) {
    if FirstKey(a) != FirstKey(b) then
      (if order == Asc then LexLe(FirstKey(a), FirstKey(b)) else LexLe(FirstKey(b), FirstKey(a)))
    else
      (if order == Asc then LexLe(LastKey(a), LastKey(b)) else LexLe(LastKey(b), LastKey(a)))
  }

  function ByName(order: SortOrder): (Profile, Profile) -> bool {
    (a: Profile, b: Profile) => NameLe(order, a, b)
  }

  /** Either way, the comparator orders every pair of members and is
      transitive, so the sort is well defined. */
  lemma ByNameIsTotalPreorder(order: SortOrder)
    ensures TotalPreorder(ByName(order))
  {
    var le := ByName(order);
    forall a, b ensures le(a, b) || le(b, a) {
      LexLeTotal(FirstKey(a), FirstKey(b));
      LexLeTotal(LastKey(a), LastKey(b));
    }
    forall a, b, c | le(a, b) && le(b, c) ensures le(a, c) {
      NameLeTransitive(order, a, b, c);
    }
  }

  lemma NameLeTransitive(order: SortOrder, a: Profile, b: Profile, c: Profile)
    requires NameLe(order, a, b) && NameLe(order, b, c)
    ensures NameLe(order, a, c)
  {
    var fa, fb, fc := FirstKey(a), FirstKey(b), FirstKey(c);
    if order == Asc {
      if fa != fb && fb != fc {
        LexLeTransitive(fa, fb, fc);
        if fa == fc { LexLeAntisymmetric(fa, fb); }
      } else if fa == fb && fb == fc {
        LexLeTransitive(LastKey(a), LastKey(b), LastKey(c));
      }
    } else {
      if fa != fb && fb != fc {
        LexLeTransitive(fc, fb, fa);
        if fa == fc { LexLeAntisymmetric(fa, fb); }
      } else if fa == fb && fb == fc {
        LexLeTransitive(LastKey(c), LastKey(b), LastKey(a));
      }
    }
  }

  /** `sortedMembers`: a stable sort by name. */
  function SortedMembers(members: seq<Profile>, order: SortOrder): seq<Profile> {
    Sort(members, ByName(order))
  }

  /** The table shows every member exactly once, in name order. */
  lemma SortedMembersOrdered(members: seq<Profile>, order: SortOrder)
    ensures Sorted(SortedMembers(members, order), ByName(order))
    ensures multiset(SortedMembers(members, order)) == multiset(members)
  {
    ByNameIsTotalPreorder(order);
    SortSorted(members, ByName(order));
  }

  /** No two members share a lower-cased full name. */
  ghost predicate NamesDistinct(members: seq<Profile>) {
    forall a, b :: a in members && b in members && FirstKey(a) == FirstKey(b) && LastKey(a) == LastKey(b) ==> a == b
  }

  function Reverse<T>(s: seq<T>): (r: seq<T>)
    ensures |r| == |s|
    ensures forall i :: 0 <= i < |s| ==> r[i] == s[|s| - 1 - i]
  {
    if s == [] then [] else Reverse(s[1..]) + [s[0]]
  }

  lemma {:induction false} ReverseMultiset<T>(s: seq<T>)
    ensures multiset(Reverse(s)) == multiset(s)
  {
    if s != [] {
      ReverseMultiset(s[1..]);
      assert s == [s[0]] + s[1..];
    }
  }

  /** When no two members share a name, clicking the header reverses the
      table, whichever order it showed. */
  lemma ToggleReverses(members: seq<Profile>, order: SortOrder)
    requires NamesDistinct(members)
    ensures SortedMembers(members, Toggle(order)) == Reverse(SortedMembers(members, order))
  {
    var s := SortedMembers(members, order);
    SortedMembersOrdered(members, order);
    SortedMembersOrdered(members, Toggle(order));
    ReverseMultiset(s);
    ReverseSorted(s, order);
    DistinctAntisymmetric(members, Reverse(s), Toggle(order));
    SortedUnique(Reverse(s), SortedMembers(members, Toggle(order)), ByName(Toggle(order)));
  }

  lemma ReverseSorted(s: seq<Profile>, order: SortOrder)
    requires Sorted(s, ByName(order))
    ensures Sorted(Reverse(s), ByName(Toggle(order)))
  {
    var r := Reverse(s);
    forall i, j | 0 <= i < j < |r| ensures NameLe(Toggle(order), r[i], r[j]) {
      assert NameLe(order, s[|s| - 1 - j], s[|s| - 1 - i]);
    }
  }

  lemma DistinctAntisymmetric(members: seq<Profile>, r: seq<Profile>, order: SortOrder)
    requires NamesDistinct(members) && multiset(r) == multiset(members)
    ensures AntisymmetricOn(r, ByName(order))
  {
    forall x, y | x in r && y in r && NameLe(order, x, y) && NameLe(order, y, x) ensures x == y {
      assert x in multiset(r) && y in multiset(r);
      assert x in members && y in members;
      KeysEqual(order, x, y);
    }
  }

  /** Two members each sorted before the other share a lower-cased full
      name. */
  lemma KeysEqual(order: SortOrder, x: Profile, y: Profile)
    requires NameLe(order, x, y) && NameLe(order, y, x)
    ensures FirstKey(x) == FirstKey(y) && LastKey(x) == LastKey(y)
  {
    if FirstKey(x) != FirstKey(y) {
      LexLeAntisymmetric(FirstKey(x), FirstKey(y));
    } else {
      LexLeAntisymmetric(LastKey(x), LastKey(y));
    }
  }

  /** The buttons a row shows. */
  datatype Rights = Rights(canEdit: bool, canDelete: bool)

  /** `canModifyMember(member)` for the signed-in user (`viewerId`,
      `viewerRole`): an admin's row offers nothing to anyone, the admin may
      edit and delete every member, a member may edit only their own row
      and delete nothing. */
  function CanModify(viewerId: Id, viewerRole: Role, m: Profile): (r: Rights)
    ensures r.canDelete ==> r.canEdit
    ensures r.canDelete <==> viewerRole == Admin && m.role != Admin
    ensures r.canEdit <==> m.role != Admin && (viewerRole == Admin || m.id == viewerId)
  {
    if m.role == Admin then Rights(false, false)
    else if viewerRole == Admin then Rights(true, true)
    else if m.id == viewerId then Rights(true, false)
    else Rights(false, false)
  }

  /** A row listed from the store: the profile of a stored user. */
  ghost predicate Listed(db: Db, m: Profile)
    reads db
  {
    exists u :: u in db.users && ProfileOf(u) == m
  }

  /** The listed row is the user the server finds under its id. */
  lemma ListedIsFound(db: Db, m: Profile)
    requires db.Valid() && Listed(db, m)
    ensures HasUser(db.users, m.id)
    ensures ProfileOf(db.users[FindUser(db.users, m.id).value]) == m
  {
    var u :| u in db.users && ProfileOf(u) == m;
    var k :| 0 <= k < |db.users| && db.users[k] == u;
    assert HasUser(db.users, m.id);
  }

  /** The signed-in user is the stored user of that id, with that role. */
  ghost predicate SignedIn(db: Db, viewer: Caller)
    reads db
  {
    exists u :: u in db.users && u.id == viewer.id && u.role == viewer.role
  }

  /** Stored users are told apart by their ids. */
  lemma IdsIdentify(db: Db, u: User, v: User)
    requires db.Valid() && u in db.users && v in db.users && u.id == v.id
    ensures u == v
  {
    var i :| 0 <= i < |db.users| && db.users[i] == u;
    var j :| 0 <= j < |db.users| && db.users[j] == v;
    assert !(i < j) && !(j < i);
  }

  /** Deleting a row whose delete button shows is never refused as an
      admin's or the admin's own account. */
  method DeleteOffered(db: Db, viewer: Caller, m: Profile) returns (r: Response<Deleted>)
    requires db.Valid() && Listed(db, m)
    requires SignedIn(db, viewer) && CanModify(viewer.id, viewer.role, m).canDelete
    modifies db
    ensures db.Valid()
    ensures r != Fail(400, CannotDeleteAdmin) && r != Fail(400, CannotDeleteSelf) && r != Fail(404, UserNotFound)
  {
    ListedIsFound(db, m);
    var u :| u in db.users && ProfileOf(u) == m;
    var v :| v in db.users && v.id == viewer.id && v.role == viewer.role;
    if u.id == v.id {
      IdsIdentify(db, u, v);
    }
    r := DeleteUser(db, viewer, m.id);
  }
}
