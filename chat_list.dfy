/**
 * The chat column of management-frontend/src/components/contactCenter/ChatList.jsx:
 * which listed chats a viewer sees, which they may answer, the preview
 * line under each, and the avatar initials of a customer's name (the
 * same initials rule as ChatBox.jsx, which copies it).
 */
module ChatList {
  import opened Wrappers
  import opened Text
  import opened Domain
  import opened Sequences
  import opened ContactCenter
  import DashboardPage

  /** `canViewChat`: an admin sees every chat, anyone else only the chats
      assigned to them. */
  predicate CanView(viewer: Viewer, c: Chat) {
    viewer.role == Admin || AssigneeId(c) == Some(viewer.id)
  }

  /** `canInteractWithChat`: only the assignee may answer, admin or not. */
  predicate CanInteract(viewer: Viewer, c: Chat) {
    AssigneeId(c) == Some(viewer.id)
  }

  /** The list keeps only the chats the viewer may answer or, for an
      admin, every chat; an admin sees the chats assigned to others too,
      and for a member seeing and answering coincide. */
  lemma ViewAndInteract(viewer: Viewer, c: Chat)
    ensures CanInteract(viewer, c) ==> CanView(viewer, c)
    ensures viewer.role == Member ==> (CanView(viewer, c) <==> CanInteract(viewer, c))
    ensures viewer.role == Admin && AssigneeId(c) != Some(viewer.id) ==> CanView(viewer, c) && !CanInteract(viewer, c)
  {
  }

  /** The chat the page holds for a stored ticket, its assignee
      populated. */
  function ChatOf(t: Ticket, assignee: Assignee, lastMessage: Option<string>): Chat
    requires assignee.id == t.assignedTo
  {
    Chat(t.id, t.ticketId, t.userName, Some(assignee), t.status, t.isMissed, t.lastMessageAt, lastMessage)
  }

  /** The list's view rule is the server's scope rule: a viewer sees a
      listed chat exactly when the ticket list endpoint would send it to
      them, so the column never hides a chat the server sent. */
  lemma ViewMatchesServerScope(viewer: Viewer, t: Ticket, assignee: Assignee, lastMessage: Option<string>)
    requires assignee.id == t.assignedTo
    ensures CanView(viewer, ChatOf(t, assignee, lastMessage)) <==> InScope(Caller(viewer.id, viewer.role), t)
  {
  }

  /** The column's rule for the selected chat is the page's own
      `canInteractWithTicket`. */
  lemma InteractMatchesPage(p: Page)
    requires p.selected.Some?
    ensures CanInteract(p.viewer, p.selected.value) <==> p.CanInteractWithTicket()
  {
  }

  function Viewable(viewer: Viewer): Chat -> bool {
    (c: Chat) => CanView(viewer, c)
  }

  /** The chats rendered, in the order held. */
  function Visible(viewer: Viewer, chats: seq<Chat>): (r: seq<Chat>)
    ensures forall c :: c in r <==> c in chats && CanView(viewer, c)
  {
    Filter(chats, Viewable(viewer))
  }

  /** An admin is shown every held chat, in the order held. */
  lemma AdminSeesEveryChat(viewer: Viewer, chats: seq<Chat>)
    requires viewer.role == Admin
    ensures Visible(viewer, chats) == chats
  {
    FilterAll(chats, Viewable(viewer));
  }

  /** Rendering the held list twice shows the same chats: hiding is by
      chat, not by position. */
  lemma VisibleOfVisible(viewer: Viewer, chats: seq<Chat>)
    ensures Visible(viewer, Visible(viewer, chats)) == Visible(viewer, chats)
  {
    FilterAll(Visible(viewer, chats), Viewable(viewer));
  }

  /** `getLastMessage`. */
  function LastMessage(c: Chat): string {
    if c.lastMessage.Some? && c.lastMessage.value != "" then c.lastMessage.value else "No messages yet"
  }

  /** The preview line: an admin looking at a chat assigned to someone
      else reads whom it is assigned to, everyone else the chat's last
      message. */
  function Preview(viewer: Viewer, c: Chat): (r: string)
    ensures r != ""
    ensures viewer.role == Admin && !CanInteract(viewer, c) ==>
              r == "Assigned to " + (if c.assignee.Some? && c.assignee.value.firstName != "" then c.assignee.value.firstName else "team member")
    ensures CanInteract(viewer, c) || viewer.role == Member ==>
              r == LastMessage(c) && (c.lastMessage.Some? && c.lastMessage.value != "" ==> r == c.lastMessage.value)
  {
    if !CanInteract(viewer, c) && viewer.role == Admin then
      "Assigned to " + (if c.assignee.Some? && c.assignee.value.firstName != "" then c.assignee.value.firstName else "team member")
    else LastMessage(c)
  }

  /** The initials as written: "?" for a missing or empty name; otherwise
      the first characters of the first two space-separated parts of the
      trimmed name, upper-cased, where a missing character prints
      "undefined"; a name with one part and no character makes the render
      throw (`None`). */
  function InitialsAsWritten(name: Option<string>): (r: Option<string>)
    ensures name.None? || name.value == "" ==> r == Some("?")
    ensures r.None? <==> name.Some? && name.value != "" && Trim(name.value) == ""
  {
    if name.None? || name.value == "" then Some("?")
    else
      var parts := Split(Trim(name.value), ' ');
      if |parts| >= 2 then Some(ToUpper(FirstOrUndefined(parts[0]) + FirstOrUndefined(parts[1])))
      else if parts[0] == "" then
        None
      else Some(ToUpper([parts[0][0]]))
  }

  /** `` `${s[0]}` ``: the first character, or "undefined". */
  function FirstOrUndefined(s: string): string {
    if s == "" then "undefined" else [s[0]]
  }

  /** A name typed with two spaces between its words gets "JUNDEFINED"
      for initials instead of "JD" or "J". */
  lemma DoubleSpacedNameInitials()
    ensures InitialsAsWritten(Some("Jane  Doe")) == Some("JUNDEFINED")
  {
    TrimOfTrimmed("Jane  Doe");
    DoubleSpacedSplit();
    UpperUndefined();
  }

  /** The dashboard's rule gives the same name "J". */
  lemma DoubleSpacedNameCorrected()
    ensures Initials(Some("Jane  Doe")) == "J"
  {
    TrimOfTrimmed("Jane  Doe");
    DoubleSpacedSplit();
    assert ToUpper("J" + "") == "J";
  }

  lemma UpperUndefined()
    ensures ToUpper("J" + "undefined") == "JUNDEFINED"
  {
    var s := "J" + "undefined";
    var r := ToUpper(s);
    assert s == "Jundefined";
    assert r[0] == 'J' && r[1] == 'U' && r[2] == 'N' && r[3] == 'D' && r[4] == 'E';
    assert r[5] == 'F' && r[6] == 'I' && r[7] == 'N' && r[8] == 'E' && r[9] == 'D';
  }

  lemma DoubleSpacedSplit()
    ensures Split("Jane  Doe", ' ') == ["Jane", "", "Doe"]
  {
    assert "Jane  Doe" == "Jane" + [' '] + " Doe";
    SplitPrefix("Jane", ' ', " Doe");
    assert " Doe" == "" + [' '] + "Doe";
    SplitPrefix("", ' ', "Doe");
    SplitNoSep("Doe", ' ');
    SplitNoSep("Jane", ' ');
  }

  /** A name of spaces only passes the "no name" test and then throws. */
  lemma BlankNameThrows()
    ensures InitialsAsWritten(Some("  ")) == None
  {
  }

  /** The initials as the dashboard computes them, which the column
      evidently means: "?" when the trimmed name has no character, the
      upper-cased first character of the name, and at most one more. */
  function Initials(name: Option<string>): (r: string)
    ensures 1 <= |r| <= 2
    ensures name.None? || Trim(name.value) == "" ==> r == "?"
    ensures name.Some? && Trim(name.value) != "" ==> r[0] == UpperChar(Trim(name.value)[0])
  {
    if name.None? then "?" else DashboardPage.Initials(name.value)
  }

  /** Where the written rule neither throws nor prints "undefined" — the
      name's first two words are separated by a single space, or it has
      one word — it agrees with the corrected one. */
  lemma InitialsAgreeOnWellSpacedNames(name: string)
    requires Trim(name) != ""
    requires var parts := Split(Trim(name), ' '); |parts| >= 2 ==> parts[1] != ""
    ensures InitialsAsWritten(Some(name)) == Some(Initials(Some(name)))
  {
    DashboardPage.InitialsLead(name);
    var parts := Split(Trim(name), ' ');
    var first := [parts[0][0]];
    var last := if |parts| > 1 then [parts[1][0]] else "";
    assert DashboardPage.Initials(name) == ToUpper(first + last);
    if |parts| >= 2 {
      assert FirstOrUndefined(parts[0]) + FirstOrUndefined(parts[1]) == first + last;
    } else {
      assert first + last == first;
    }
  }
}
