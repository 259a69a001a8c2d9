/**
 * The conversation pane of management-frontend/src/components/contactCenter/ChatBox.jsx:
 * whose side each message sits on and whose name it shows, the messages
 * grouped under date separators, and which banners, notices and input
 * the pane shows. The locale date formatting is the parameter `dateOf`.
 */
module ChatBox {
  import opened Wrappers
  import opened Text
  import opened Domain
  import opened Sequences
  import opened ContactCenter

  /** `!msg.senderId`: a message without a sender is the customer's and
      sits on the left. */
  predicate IsCustomerMessage(m: ChatMessage) {
    m.sender.None?
  }

  /** The message the pane gets for a stored message whose sender, if
      any, the server populated. */
  function Populated(m: Message, sender: Option<Assignee>): ChatMessage
    requires sender.Some? <==> m.senderId.Some?
    requires sender.Some? ==> sender.value.id == m.senderId.value
  {
    ChatMessage(m.id, sender, m.text, m.timestamp)
  }

  /** The pane's split into customer and staff messages is the server's:
      a message is shown as the customer's exactly when it was stored
      without a sender. */
  lemma SidesMatchStore(m: Message, sender: Option<Assignee>)
    requires sender.Some? <==> m.senderId.Some?
    requires sender.Some? ==> sender.value.id == m.senderId.value
    ensures IsCustomerMessage(Populated(m, sender)) <==> IsCustomer(m)
  {
  }

  /** `` `${first || ""} ${last || ""}`.trim() || fallback ``. */
  function FullNameOr(first: string, last: string, fallback: string): (r: string)
    ensures r != "" || fallback == ""
    ensures Trim(first + " " + last) != "" ==> r == Trim(first + " " + last)
  {
    var full := Trim(first + " " + last);
    if full != "" then full else fallback
  }

  /** The name over a message: the ticket's customer name for a customer
      message, the viewer's own name (or "You") for theirs, and the
      sender's name (or "Staff") for another staff member's. */
  function SenderName(m: ChatMessage, customerName: string, viewer: Viewer): (r: string)
    ensures IsCustomerMessage(m) ==> r == customerName
    ensures !IsCustomerMessage(m) ==> r != ""
    ensures !IsCustomerMessage(m) && m.sender.value.id == viewer.id ==>
              r == FullNameOr(viewer.firstName, viewer.lastName, "You")
    ensures !IsCustomerMessage(m) && m.sender.value.id != viewer.id ==>
              r == FullNameOr(m.sender.value.firstName, m.sender.value.lastName, "Staff")
  {
    match m.sender
    case None => customerName
    case Some(s) =>
      if s.id == viewer.id then FullNameOr(viewer.firstName, viewer.lastName, "You")
      else FullNameOr(s.firstName, s.lastName, "Staff")
  }

  // groupMessagesByDate

  /** The dates of `msgs` in the order they first appear: the order of
      the groups' keys, which `Object.entries` keeps. */
  function Dates(msgs: seq<ChatMessage>, dateOf: ChatMessage -> string): (ds: seq<string>)
    ensures forall k :: k in ds <==> exists m :: m in msgs && dateOf(m) == k
    ensures forall a, b :: 0 <= a < b < |ds| ==> ds[a] != ds[b]
  {
    if msgs == [] then []
    else
      var init := msgs[..|msgs| - 1];
      var d := dateOf(msgs[|msgs| - 1]);
      var ds := Dates(init, dateOf);
      assert forall m :: m in msgs <==> m in init || m == msgs[|msgs| - 1];
      if d in ds then ds else ds + [d]
  }

  function OnDate(dateOf: ChatMessage -> string, date: string): ChatMessage -> bool {
    (m: ChatMessage) => dateOf(m) == date
  }

  /** The number of messages the groups of `keys` hold together. */
  function Total(keys: seq<string>, groups: map<string, seq<ChatMessage>>): nat
    requires forall k :: k in keys ==> k in groups
  {
    if keys == [] then 0 else |groups[keys[0]]| + Total(keys[1..], groups)
  }

  /** `keys` and `groups` are the grouping of `msgs`: the keys are the
      dates in order of first appearance, the group of a date holds, in
      their order, exactly the messages of that date, and the groups hold
      as many messages as there are. */
  ghost predicate GroupsOf(msgs: seq<ChatMessage>, dateOf: ChatMessage -> string,
                           keys: seq<string>, groups: map<string, seq<ChatMessage>>)
  {
    && keys == Dates(msgs, dateOf)
    && (forall k :: k in groups <==> k in keys)
    && (forall k :: k in groups ==> groups[k] == Filter(msgs, OnDate(dateOf, k)))
    && Total(keys, groups) == |msgs|
  }

  /** `groupMessagesByDate`: every message is pushed onto the group of its
      date, a group being opened at the first message of its date. */
  method GroupByDate(msgs: seq<ChatMessage>, dateOf: ChatMessage -> string)
    returns (keys: seq<string>, groups: map<string, seq<ChatMessage>>)
    ensures GroupsOf(msgs, dateOf, keys, groups)
  {
    keys := [];
    groups := map[];
    for i := 0 to |msgs|
      invariant GroupsOf(msgs[..i], dateOf, keys, groups)
    {
      var d := dateOf(msgs[i]);
      GroupStep(msgs[..i], msgs[i], dateOf, keys, groups);
      PrefixStep(msgs, i);
      var group := if d in groups then groups[d] else [];
      if d !in groups {
        keys := keys + [d];
      }
      groups := groups[d := group + [msgs[i]]];
    }
    PrefixAll(msgs);
  }

  /** One message more: pushing it onto its date's group, opened if need
      be, keeps the grouping. */
  lemma GroupStep(msgs: seq<ChatMessage>, m: ChatMessage, dateOf: ChatMessage -> string,
                  keys: seq<string>, groups: map<string, seq<ChatMessage>>)
    requires GroupsOf(msgs, dateOf, keys, groups)
    ensures var d := dateOf(m);
            var keys' := if d in groups then keys else keys + [d];
            var groups' := groups[d := (if d in groups then groups[d] else []) + [m]];
            GroupsOf(msgs + [m], dateOf, keys', groups')
  {
    DatesStep(msgs, m, dateOf);
    GroupTotalStep(msgs, m, dateOf, keys, groups);
    GroupFilterStep(msgs, m, dateOf, keys, groups);
  }

  lemma GroupTotalStep(msgs: seq<ChatMessage>, m: ChatMessage, dateOf: ChatMessage -> string,
                       keys: seq<string>, groups: map<string, seq<ChatMessage>>)
    requires keys == Dates(msgs, dateOf)
    requires forall k :: k in groups <==> k in keys
    requires Total(keys, groups) == |msgs|
    ensures var d := dateOf(m);
            var keys' := if d in groups then keys else keys + [d];
            var groups' := groups[d := (if d in groups then groups[d] else []) + [m]];
            Total(keys', groups') == |msgs| + 1
  {
    var d := dateOf(m);
    var groups' := groups[d := (if d in groups then groups[d] else []) + [m]];
    if d in groups {
      TotalGrows(keys, groups, groups', d);
    } else {
      TotalSame(keys, groups, groups');
      TotalAppend(keys, [d], groups');
    }
  }

  lemma GroupFilterStep(msgs: seq<ChatMessage>, m: ChatMessage, dateOf: ChatMessage -> string,
                        keys: seq<string>, groups: map<string, seq<ChatMessage>>)
    requires keys == Dates(msgs, dateOf)
    requires forall k :: k in groups <==> k in keys
    requires forall k :: k in groups ==> groups[k] == Filter(msgs, OnDate(dateOf, k))
    ensures var d := dateOf(m);
            var groups' := groups[d := (if d in groups then groups[d] else []) + [m]];
            forall k :: k in groups' ==> groups'[k] == Filter(msgs + [m], OnDate(dateOf, k))
  {
    var d := dateOf(m);
    var before := if d in groups then groups[d] else [];
    var groups' := groups[d := before + [m]];
    if d !in groups {
      FilterNone(msgs, OnDate(dateOf, d));
    }
    forall k | k in groups'
      ensures groups'[k] == Filter(msgs + [m], OnDate(dateOf, k))
    {
      FilterOneMore(msgs, m, dateOf, k);
      if k != d {
        assert groups'[k] == groups[k];
      }
    }
  }

  /** One message more adds it to its own date's messages and to no
      other date's. */
  lemma FilterOneMore(msgs: seq<ChatMessage>, m: ChatMessage, dateOf: ChatMessage -> string, k: string)
    ensures Filter(msgs + [m], OnDate(dateOf, k)) ==
            Filter(msgs, OnDate(dateOf, k)) + (if dateOf(m) == k then [m] else [])
  {
    var p := OnDate(dateOf, k);
    FilterAppend(msgs, [m], p);
    assert [m][1..] == [];
  }

  lemma DatesStep(msgs: seq<ChatMessage>, m: ChatMessage, dateOf: ChatMessage -> string)
    ensures var ds := Dates(msgs, dateOf);
            Dates(msgs + [m], dateOf) == if dateOf(m) in ds then ds else ds + [dateOf(m)]
  {
    assert (msgs + [m])[..|msgs|] == msgs;
  }

  lemma {:induction false} TotalAppend(a: seq<string>, b: seq<string>, groups: map<string, seq<ChatMessage>>)
    requires forall k :: k in a + b ==> k in groups
    ensures Total(a + b, groups) == Total(a, groups) + Total(b, groups)
  {
    if a != [] {
      assert (a + b)[1..] == a[1..] + b;
      TotalAppend(a[1..], b, groups);
    } else {
      assert a + b == b;
    }
  }

  /** Groups that agree on `keys` hold as many messages there. */
  lemma {:induction false} TotalSame(keys: seq<string>, g: map<string, seq<ChatMessage>>, h: map<string, seq<ChatMessage>>)
    requires forall k :: k in keys ==> k in g && k in h && g[k] == h[k]
    ensures Total(keys, g) == Total(keys, h)
  {
    if keys != [] {
      TotalSame(keys[1..], g, h);
    }
  }

  /** One message more in the group of a key that occurs once, and the
      others as they were, adds one to the total. */
  lemma {:induction false} TotalGrows(keys: seq<string>, g: map<string, seq<ChatMessage>>, h: map<string, seq<ChatMessage>>, d: string)
    requires forall k :: k in keys ==> k in g && k in h
    requires forall k :: k in keys && k != d ==> g[k] == h[k]
    requires forall a, b :: 0 <= a < b < |keys| ==> keys[a] != keys[b]
    requires d in keys && |h[d]| == |g[d]| + 1
    ensures Total(keys, h) == Total(keys, g) + 1
  {
    if keys[0] == d {
      assert d !in keys[1..];
      TotalSame(keys[1..], g, h);
    } else {
      TotalGrows(keys[1..], g, h, d);
    }
  }

  /** Every message sits in the group of its own date and in no other. */
  lemma GroupOfEachMessage(msgs: seq<ChatMessage>, dateOf: ChatMessage -> string, m: ChatMessage, k: string)
    requires m in msgs
    ensures m in Filter(msgs, OnDate(dateOf, k)) <==> k == dateOf(m)
    ensures dateOf(m) in Dates(msgs, dateOf)
  {
  }

  // What the pane shows

  datatype Pane = Pane(
    missedBanner: bool,
    resolvedBanner: bool,
    assignedNotice: bool,
    noAccessNotice: bool,
    input: bool)

  /** The banners, notices and input of the pane of a selected ticket:
      the missed banner on an unresolved missed ticket, the resolved
      banner on a resolved one, the "assigned to" notice for an admin who
      may not answer, the no-access notice for anyone else who may not,
      and the input only where the viewer may answer an unresolved
      ticket. */
  function PaneOf(isMissed: bool, isResolved: bool, isAccessible: bool, role: Role): (p: Pane)
    ensures p.missedBanner <==> isMissed && !isResolved
    ensures p.resolvedBanner <==> isResolved
    ensures p.input <==> isAccessible && !isResolved
    ensures p.assignedNotice <==> role == Admin && !isAccessible
    ensures p.noAccessNotice <==> !isAccessible && role != Admin
  {
    var adminView := role == Admin && !isAccessible;
    Pane(isMissed && !isResolved, isResolved, adminView, !isAccessible && !adminView, isAccessible && !isResolved)
  }

  /** At most one banner shows; a viewer who may not answer sees exactly
      one notice and no input; one who may answer sees no notice. */
  lemma PaneIsCoherent(isMissed: bool, isResolved: bool, isAccessible: bool, role: Role)
    ensures var p := PaneOf(isMissed, isResolved, isAccessible, role);
            && !(p.missedBanner && p.resolvedBanner)
            && (!isAccessible ==> (p.assignedNotice != p.noAccessNotice) && !p.input)
            && (isAccessible ==> !p.assignedNotice && !p.noAccessNotice)
            && (p.input ==> !p.resolvedBanner)
  {
  }

  /** On the Contact Center page the pane of the selected ticket offers
      the input exactly to its assignee while it is unresolved. */
  lemma InputOnlyForAssignee(page: Page)
    requires page.selected.Some?
    ensures var t := page.selected.value;
            var p := PaneOf(t.isMissed, t.status == Resolved, page.CanInteractWithTicket(), page.viewer.role);
            p.input <==> AssigneeId(t) == Some(page.viewer.id) && t.status != Resolved
  {
  }
}
