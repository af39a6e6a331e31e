/**
 * The group manager of routes/group_route.py: invite codes, the user's
 * group list, creating a group, joining one by code, the group chat and
 * deleting a group with everything that belongs to it.
 */
module GroupRoute {
  import opened Store
  import NotificationRoute

  // ---------------------------------------------------------------------
  // Invite codes
  // ---------------------------------------------------------------------

  /** `string.ascii_uppercase + string.digits`. */
  const CodeAlphabet: string := "ABCDEFGHIJKLMNOPQRSTUVWXYZ" + "0123456789"

  /**
   * `generate_group_code`: one alphabet character per draw of the random
   * source, where a draw is the index `random.choices` picked. The code is
   * as long as the number of draws (the route asks for `CodeLength`).
   */
  function GenerateGroupCode(draws: seq<nat>): (code: string)
    requires forall i :: 0 <= i < |draws| ==> draws[i] < |CodeAlphabet|
    ensures |code| == |draws|
    ensures forall i :: 0 <= i < |code| ==> IsCodeChar(code[i]) && code[i] == CodeAlphabet[draws[i]]
  {
    if draws == [] then []
    else [CodeAlphabet[draws[0]]] + GenerateGroupCode(draws[1..])
  }

  /** The draw that yields character `c` of the alphabet. */
  function CharDraw(c: char): (k: nat)
    requires IsCodeChar(c)
    ensures k < |CodeAlphabet| && CodeAlphabet[k] == c
  {
    if 'A' <= c <= 'Z' then c as int - 'A' as int else 26 + (c as int - '0' as int)
  }

  /** The draws that yield `code`: every code over the alphabet can be generated. */
  function CodeDraws(code: string): (draws: seq<nat>)
    requires forall i :: 0 <= i < |code| ==> IsCodeChar(code[i])
    ensures |draws| == |code|
    ensures forall i :: 0 <= i < |draws| ==> draws[i] < |CodeAlphabet|
  {
    if code == [] then [] else [CharDraw(code[0])] + CodeDraws(code[1..])
  }

  /** Generating from the draws of a code gives that code back. */
  lemma {:induction false} GenerateFromCodeDraws(code: string)
    requires forall i :: 0 <= i < |code| ==> IsCodeChar(code[i])
    ensures GenerateGroupCode(CodeDraws(code)) == code
  {
    if code != [] {
      GenerateFromCodeDraws(code[1..]);
    }
  }

  /** `str.upper` on ASCII letters. */
  function UpperChar(c: char): char {
    if 'a' <= c <= 'z' then (c as int - 32) as char else c
  }

  function Upper(s: string): (r: string)
    ensures |r| == |s|
    ensures forall i :: 0 <= i < |s| ==> r[i] == UpperChar(s[i])
  {
    if s == [] then [] else [UpperChar(s[0])] + Upper(s[1..])
  }

  /** Upper-casing leaves an invite code as it is, so a code matches itself after normalisation. */
  lemma {:induction false} UpperKeepsCode(code: string)
    requires forall i :: 0 <= i < |code| ==> IsCodeChar(code[i])
    ensures Upper(code) == code
  {
    if code != [] {
      UpperKeepsCode(code[1..]);
    }
  }

  /** Upper-casing twice is upper-casing once. */
  lemma {:induction false} UpperIdempotent(s: string)
    ensures Upper(Upper(s)) == Upper(s)
  {
    if s != [] {
      UpperIdempotent(s[1..]);
    }
  }

  /** The texts of the notifications the group routes send. */
  function GroupCreatedNotice(name: string): string {
    "You created a new group '" + name + "'"
  }

  function AddedToGroupNotice(name: string): string {
    "You were added to the group '" + name + "'"
  }

  function GroupDeletedNotice(name: string): string {
    "The group '" + name + "' was deleted."
  }

  /** Some group carries invite code `code`. */
  predicate HasCode(groups: map<int, Group>, code: string) {
    exists gid :: gid in groups && groups[gid].code == code
  }

  /** No two groups share an invite code; the routes never check this. */
  predicate CodesUnique(groups: map<int, Group>) {
    forall g, h :: g in groups && h in groups && groups[g].code == groups[h].code ==> g == h
  }

  // ---------------------------------------------------------------------
  // Memberships and the group list
  // ---------------------------------------------------------------------

  /** The users with a membership in group `gid`. */
  function GroupMembers(members: set<(int, int)>, gid: int): (r: set<int>)
    ensures forall u :: u in r <==> (gid, u) in members
  {
    set p | p in members && p.0 == gid :: p.1
  }

  /** The memberships that remain once group `gid`'s are deleted. */
  function WithoutGroupMembers(members: set<(int, int)>, gid: int): (r: set<(int, int)>)
    ensures forall p :: p in r <==> p in members && p.0 != gid
  {
    set p | p in members && p.0 != gid
  }

  /** The groups `u` has a membership in. */
  function GroupsOf(groups: map<int, Group>, members: set<(int, int)>, u: int): map<int, Group>
  {
    map gid | gid in groups && (gid, u) in members :: groups[gid]
  }

  /**
   * `groups_list`: exactly the groups in which the signed-in user holds a
   * membership, each as stored.
   */
  function GroupsList(db: Database, user: Option<int>): (r: Reply<map<int, Group>>)
    reads db
    ensures !SignedIn(user) <==> r == Redirect(LoginPage)
    ensures SignedIn(user) ==> r.Render?
    ensures SignedIn(user) ==> forall gid :: gid in r.data <==> gid in db.groups && (gid, user.value) in db.members
    ensures SignedIn(user) ==> forall gid :: gid in r.data ==> r.data[gid] == db.groups[gid]
  {
    if !SignedIn(user) then Redirect(LoginPage) else Render(GroupsOf(db.groups, db.members, user.value))
  }

  /**
   * Deleting group `gid` with its memberships takes it out of every
   * user's group list and leaves the rest of each list alone.
   */
  lemma GroupsOfAfterDelete(groups: map<int, Group>, members: set<(int, int)>, gid: int, u: int)
    ensures GroupsOf(groups - {gid}, WithoutGroupMembers(members, gid), u) == GroupsOf(groups, members, u) - {gid}
  {
    assert GroupsOf(groups - {gid}, WithoutGroupMembers(members, gid), u).Keys
        == GroupsOf(groups, members, u).Keys - {gid};
  }

  /** Deleting group `gid`'s memberships empties its member set and no other. */
  lemma MembersAfterDelete(members: set<(int, int)>, gid: int, h: int)
    ensures GroupMembers(WithoutGroupMembers(members, gid), h)
         == if h == gid then {} else GroupMembers(members, h)
  {
    if h != gid {
      forall u | u in GroupMembers(members, h)
        ensures u in GroupMembers(WithoutGroupMembers(members, gid), h)
      {
        assert (h, u) in WithoutGroupMembers(members, gid);
      }
    }
  }

  // ---------------------------------------------------------------------
  // Chat messages
  // ---------------------------------------------------------------------

  /**
   * The messages of group `gid` in stored order:
   * `WHERE group_id = gid ORDER BY created_at ASC` over a table kept in
   * insertion order.
   */
  function ChatMessages(ms: seq<Message>, gid: int): (r: seq<Message>)
    ensures |r| <= |ms|
    ensures forall i :: 0 <= i < |r| ==> r[i].groupId == gid && r[i] in ms
  {
    if ms == [] then []
    else
      var last := ms[|ms| - 1];
      var earlier := ChatMessages(ms[..|ms| - 1], gid);
      if last.groupId == gid then earlier + [last] else earlier
  }

  /** A chat holds exactly the stored messages of its group. */
  lemma {:induction false} ChatMessagesContents(ms: seq<Message>, gid: int)
    ensures forall m :: m in ChatMessages(ms, gid) <==> m in ms && m.groupId == gid
  {
    if ms != [] {
      var init := ms[..|ms| - 1];
      ChatMessagesContents(init, gid);
      assert ms == init + [ms[|ms| - 1]];
    }
  }

  /** Over a table stored oldest first, a chat is ordered oldest first. */
  lemma {:induction false} ChatMessagesOldestFirst(ms: seq<Message>, gid: int)
    requires OldestFirst(ms)
    ensures OldestFirst(ChatMessages(ms, gid))
  {
    if ms != [] {
      var init := ms[..|ms| - 1];
      var last := ms[|ms| - 1];
      ChatMessagesOldestFirst(init, gid);
      ChatMessagesContents(init, gid);
      var earlier := ChatMessages(init, gid);
      if last.groupId == gid {
        forall i | 0 <= i < |earlier|
          ensures earlier[i].createdAt < last.createdAt
        {
          assert earlier[i] in init;
        }
      }
    }
  }

  /** Posting to group `gid` adds the message at the end of its chat and changes no other chat. */
  lemma ChatAfterPost(ms: seq<Message>, m: Message, gid: int)
    ensures ChatMessages(ms + [m], gid) == if m.groupId == gid then ChatMessages(ms, gid) + [m] else ChatMessages(ms, gid)
  {
    assert (ms + [m])[..|ms|] == ms;
  }

  /** `DELETE FROM group_messages WHERE group_id = gid`, keeping the stored order. */
  function WithoutGroupMessages(ms: seq<Message>, gid: int): (r: seq<Message>)
    ensures |r| <= |ms|
    ensures forall i :: 0 <= i < |r| ==> r[i].groupId != gid && r[i] in ms
  {
    if ms == [] then []
    else
      var last := ms[|ms| - 1];
      var earlier := WithoutGroupMessages(ms[..|ms| - 1], gid);
      if last.groupId == gid then earlier else earlier + [last]
  }

  /** Deleting group `gid`'s messages empties its chat and leaves every other chat as it was. */
  lemma {:induction false} ChatAfterDelete(ms: seq<Message>, gid: int, h: int)
    ensures ChatMessages(WithoutGroupMessages(ms, gid), h) == if h == gid then [] else ChatMessages(ms, h)
  {
    if ms != [] {
      var init := ms[..|ms| - 1];
      var last := ms[|ms| - 1];
      ChatAfterDelete(init, gid, h);
      if last.groupId != gid {
        ChatAfterPost(WithoutGroupMessages(init, gid), last, h);
      }
    }
  }

  /** Deleting messages keeps the remaining ones in order and before the clock. */
  lemma {:induction false} WithoutGroupMessagesOrdered(ms: seq<Message>, gid: int, clock: nat)
    requires MessagesOrdered(ms, clock)
    ensures MessagesOrdered(WithoutGroupMessages(ms, gid), clock)
    ensures forall m :: m in WithoutGroupMessages(ms, gid) ==> m in ms
  {
    if ms != [] {
      var init := ms[..|ms| - 1];
      var last := ms[|ms| - 1];
      WithoutGroupMessagesOrdered(init, gid, clock);
      var earlier := WithoutGroupMessages(init, gid);
      if last.groupId != gid {
        forall i | 0 <= i < |earlier|
          ensures earlier[i].createdAt < last.createdAt
        {
          assert earlier[i] in init;
        }
      }
    }
  }

  /** The chat page's data: the group, its messages oldest first, and its members. */
  datatype ChatContent = ChatContent(group: Group, messages: seq<Message>, members: set<int>)

  /**
   * `group_chat` (read): 404 for an unknown group; otherwise the group, the
   * messages sent to it oldest first and the users who belong to it.
   * Membership is not required to read a chat.
   */
  function ViewChat(db: Database, user: Option<int>, gid: int): (r: Reply<ChatContent>)
    reads db
    requires db.Valid()
    ensures !SignedIn(user) <==> r == Redirect(LoginPage)
    ensures r == NotFound <==> SignedIn(user) && gid !in db.groups
    ensures r.Render? <==> SignedIn(user) && gid in db.groups
    ensures r.Render? ==>
      && r.data.group == db.groups[gid]
      && (forall m :: m in r.data.messages <==> m in db.messages && m.groupId == gid)
      && OldestFirst(r.data.messages)
      && (forall u :: u in r.data.members <==> (gid, u) in db.members)
  {
    if !SignedIn(user) then Redirect(LoginPage)
    else if gid !in db.groups then NotFound
    else
      ChatMessagesContents(db.messages, gid);
      ChatMessagesOldestFirst(db.messages, gid);
      Render(ChatContent(db.groups[gid], ChatMessages(db.messages, gid), GroupMembers(db.members, gid)))
  }

  // ---------------------------------------------------------------------
  // Handlers that change the database
  // ---------------------------------------------------------------------

  /**
   * `new_group` (POST): store a group created by the user under a freshly
   * generated code, make the user its first member and notify the user.
   * Some group carrying its code is found by that code right away.
   */
  method NewGroup(db: Database, user: Option<int>, name: Option<string>, draws: seq<nat>) returns (r: Outcome)
    requires db.Valid()
    requires |draws| == CodeLength && forall i :: 0 <= i < |draws| ==> draws[i] < |CodeAlphabet|
    modifies db
    ensures db.Valid()
    ensures !SignedIn(user) ==> r == Redirect(LoginPage) && unchanged(db)
    ensures SignedIn(user) && name.None? ==> r == BadRequest && unchanged(db)
    ensures SignedIn(user) && name.Some? ==>
      var u, gid, code := user.value, old(db.nextGroupId), GenerateGroupCode(draws);
      && r == Redirect(GroupsPage)
      && gid !in old(db.groups)
      && db.groups == old(db.groups)[gid := Group(gid, name.value, u, code)]
      && db.members == old(db.members) + {(gid, u)}
      && db.nextGroupId == gid + 1
      && db.notifications == old(db.notifications) + [Notification(
           old(db.nextNotificationId), u, GroupCreatedNotice(name.value), old(db.clock))]
      && db.nextNotificationId == old(db.nextNotificationId) + 1
      && db.clock == old(db.clock) + 1
      && gid in GroupsOf(db.groups, db.members, u)
      && Upper(code) == code && HasCode(db.groups, code)
      && unchanged(db`tasks, db`messages, db`nextTaskId, db`nextMessageId)
  {
    if !SignedIn(user) {
      return Redirect(LoginPage);
    }
    if name.None? {
      return BadRequest;
    }
    var u := user.value;
    var code := GenerateGroupCode(draws);
    UpperKeepsCode(code);
    var gid := db.nextGroupId;
    db.groups := db.groups[gid := Group(gid, name.value, u, code)];
    db.nextGroupId := gid + 1;
    db.members := db.members + {(gid, u)};
    NotificationRoute.CreateNotification(db, u, GroupCreatedNotice(name.value));
    r := Redirect(GroupsPage);
  }

  /**
   * `join_group_by_code` (POST): upper-case the code and look for some
   * group carrying it; 400 and no change when there is none. A user who is
   * already a member changes nothing; anyone else gets one membership and
   * one notification. Either way the user is then a member and is sent to
   * the group's chat.
   */
  method JoinGroupByCode(db: Database, user: Option<int>, code: Option<string>) returns (r: Outcome)
    requires db.Valid()
    modifies db
    ensures db.Valid()
    ensures !SignedIn(user) ==> r == Redirect(LoginPage) && unchanged(db)
    ensures SignedIn(user) && (code.None? || !HasCode(old(db.groups), Upper(code.value))) ==>
      r == BadRequest && unchanged(db)
    ensures SignedIn(user) && code.Some? && HasCode(old(db.groups), Upper(code.value)) ==>
      && r.Redirect? && r.to.ChatPage?
      && var gid, u := r.to.groupId, user.value;
      && gid in db.groups && db.groups[gid].code == Upper(code.value)
      && (gid, u) in db.members
      && db.members == old(db.members) + {(gid, u)}
      && db.notifications == old(db.notifications) + (
           if (gid, u) in old(db.members) then []
           else [Notification(old(db.nextNotificationId), u,
                   AddedToGroupNotice(db.groups[gid].name), old(db.clock))])
      && var sent := if (gid, u) in old(db.members) then 0 else 1;
      && db.nextNotificationId == old(db.nextNotificationId) + sent
      && db.clock == old(db.clock) + sent
      && ((gid, u) in old(db.members) ==> unchanged(db))
      && unchanged(db`tasks, db`groups, db`messages, db`nextTaskId, db`nextGroupId, db`nextMessageId)
  {
    if !SignedIn(user) {
      return Redirect(LoginPage);
    }
    if code.None? {
      return BadRequest;
    }
    var u, wanted := user.value, Upper(code.value);
    if !HasCode(db.groups, wanted) {
      return BadRequest;
    }
    var gid :| gid in db.groups && db.groups[gid].code == wanted;
    if (gid, u) !in db.members {
      db.members := db.members + {(gid, u)};
      NotificationRoute.CreateNotification(db, u, AddedToGroupNotice(db.groups[gid].name));
    }
    r := Redirect(ChatPage(gid));
  }

  /**
   * `group_chat`: a POST carrying a message appends exactly one message
   * from the user to group `gid` and changes nothing else; the group's
   * existence and the user's membership are not checked. Any other request
   * reads the chat.
   */
  method GroupChat(db: Database, user: Option<int>, gid: int, post: Option<string>) returns (r: Reply<ChatContent>)
    requires db.Valid()
    modifies db
    ensures db.Valid()
    ensures !SignedIn(user) ==> r == Redirect(LoginPage) && unchanged(db)
    ensures SignedIn(user) && post.Some? ==>
      && r == Redirect(ChatPage(gid))
      && db.messages == old(db.messages) + [Message(old(db.nextMessageId), gid, user.value, post.value, old(db.clock))]
      && db.nextMessageId == old(db.nextMessageId) + 1
      && db.clock == old(db.clock) + 1
      && unchanged(db`tasks, db`groups, db`members, db`notifications, db`nextTaskId,
                   db`nextGroupId, db`nextNotificationId)
    ensures SignedIn(user) && post.None? ==> r == ViewChat(db, user, gid) && unchanged(db)
  {
    if !SignedIn(user) {
      return Redirect(LoginPage);
    }
    if post.Some? {
      db.messages := db.messages + [Message(db.nextMessageId, gid, user.value, post.value, db.clock)];
      db.nextMessageId := db.nextMessageId + 1;
      db.clock := db.clock + 1;
      return Redirect(ChatPage(gid));
    }
    r := ViewChat(db, user, gid);
  }

  /**
   * `tail` holds one notification with text `message` for each user of
   * `recipients` and for no one else.
   */
  ghost predicate NotifiesEachOnce(tail: seq<Notification>, recipients: set<int>, message: string) {
    && (forall i :: 0 <= i < |tail| ==> tail[i].userId in recipients && tail[i].message == message)
    && (forall i, j :: 0 <= i < j < |tail| ==> tail[i].userId != tail[j].userId)
    && (forall u :: u in recipients ==> exists i :: 0 <= i < |tail| && tail[i].userId == u)
  }

  /**
   * The rows of `tail` carry consecutive ids from `firstId` and consecutive
   * timestamps from `firstTime`, as successive inserts give them.
   */
  ghost predicate NumberedFrom(tail: seq<Notification>, firstId: int, firstTime: int) {
    forall i :: 0 <= i < |tail| ==> tail[i].id == firstId + i && tail[i].createdAt == firstTime + i
  }

  /** The next insert continues the numbering. */
  lemma NumberedFromExtend(tail: seq<Notification>, firstId: int, firstTime: int, n: Notification)
    requires NumberedFrom(tail, firstId, firstTime)
    requires n.id == firstId + |tail| && n.createdAt == firstTime + |tail|
    ensures NumberedFrom(tail + [n], firstId, firstTime)
  {
  }

  /** One more notification, for someone not yet notified, extends the notified set by that user. */
  lemma NotifiesEachOnceExtend(tail: seq<Notification>, done: set<int>, message: string, n: Notification)
    requires NotifiesEachOnce(tail, done, message)
    requires n.userId !in done && n.message == message
    ensures NotifiesEachOnce(tail + [n], done + {n.userId}, message)
  {
    var longer := tail + [n];
    forall u | u in done + {n.userId}
      ensures exists i :: 0 <= i < |longer| && longer[i].userId == u
    {
      if u == n.userId {
        assert longer[|tail|].userId == u;
      } else {
        var i :| 0 <= i < |tail| && tail[i].userId == u;
        assert longer[i].userId == u;
      }
    }
  }

  /** Notifying each recipient once takes exactly as many notifications as there are recipients. */
  lemma {:induction false} NotifiesEachOnceCount(tail: seq<Notification>, recipients: set<int>, message: string)
    requires NotifiesEachOnce(tail, recipients, message)
    ensures |tail| == |recipients|
    decreases |tail|
  {
    if tail == [] {
      assert forall u :: u !in recipients;
    } else {
      var n := |tail| - 1;
      var last := tail[n];
      var init := tail[..n];
      var rest := recipients - {last.userId};
      forall u | u in rest
        ensures exists i :: 0 <= i < |init| && init[i].userId == u
      {
        var i :| 0 <= i < |tail| && tail[i].userId == u;
        assert i != n;
        assert init[i].userId == u;
      }
      NotifiesEachOnceCount(init, rest, message);
    }
  }

  /**
   * The notification loop of `delete_group`: one notification with the
   * given text goes to each recipient, appended after the existing ones;
   * no other table changes.
   */
  method NotifyMembers(db: Database, recipients: set<int>, notice: string)
    requires db.Valid()
    modifies db
    ensures db.Valid()
    ensures |old(db.notifications)| <= |db.notifications|
    ensures db.notifications[..|old(db.notifications)|] == old(db.notifications)
    ensures NotifiesEachOnce(db.notifications[|old(db.notifications)|..], recipients, notice)
    ensures NumberedFrom(db.notifications[|old(db.notifications)|..], old(db.nextNotificationId), old(db.clock))
    ensures |db.notifications| == |old(db.notifications)| + |recipients|
    ensures db.nextNotificationId == old(db.nextNotificationId) + |recipients|
    ensures db.clock == old(db.clock) + |recipients|
    ensures unchanged(db`tasks, db`groups, db`members, db`messages)
    ensures unchanged(db`nextTaskId, db`nextGroupId, db`nextMessageId)
  {
    var waiting := recipients;
    ghost var sent: seq<Notification> := [];
    while exists m :: m in waiting
      invariant db.Valid()
      invariant waiting <= recipients
      invariant db.notifications == old(db.notifications) + sent
      invariant NotifiesEachOnce(sent, recipients - waiting, notice)
      invariant NumberedFrom(sent, old(db.nextNotificationId), old(db.clock))
      invariant db.nextNotificationId == old(db.nextNotificationId) + |sent|
      invariant db.clock == old(db.clock) + |sent|
      invariant unchanged(db`tasks, db`groups, db`members, db`messages)
      invariant unchanged(db`nextTaskId, db`nextGroupId, db`nextMessageId)
      decreases waiting
    {
      var m :| m in waiting;
      ghost var n := Notification(db.nextNotificationId, m, notice, db.clock);
      NotificationRoute.CreateNotification(db, m, notice);
      NotifiesEachOnceExtend(sent, recipients - waiting, notice, n);
      NumberedFromExtend(sent, old(db.nextNotificationId), old(db.clock), n);
      assert recipients - (waiting - {m}) == (recipients - waiting) + {m};
      sent := sent + [n];
      waiting := waiting - {m};
    }
    assert waiting == {};
    assert recipients - waiting == recipients;
    NotifiesEachOnceCount(sent, recipients, notice);
    assert db.notifications[|old(db.notifications)|..] == sent;
  }

  /**
   * The three deletes of `delete_group`, in the source's order: the
   * group's messages, its memberships and then its row. Every other
   * group keeps its members and its chat.
   */
  method RemoveGroup(db: Database, gid: int)
    requires db.Valid()
    modifies db
    ensures db.Valid()
    ensures db.groups == old(db.groups) - {gid}
    ensures db.members == WithoutGroupMembers(old(db.members), gid)
    ensures db.messages == WithoutGroupMessages(old(db.messages), gid)
    ensures GroupMembers(db.members, gid) == {} && ChatMessages(db.messages, gid) == []
    ensures forall h :: h != gid ==> GroupMembers(db.members, h) == GroupMembers(old(db.members), h)
    ensures forall h :: h != gid ==> ChatMessages(db.messages, h) == ChatMessages(old(db.messages), h)
    ensures unchanged(db`tasks, db`notifications, db`clock)
    ensures unchanged(db`nextTaskId, db`nextGroupId, db`nextMessageId, db`nextNotificationId)
  {
    WithoutGroupMessagesOrdered(db.messages, gid, db.clock);
    forall h
      ensures GroupMembers(WithoutGroupMembers(db.members, gid), h) == if h == gid then {} else GroupMembers(db.members, h)
      ensures ChatMessages(WithoutGroupMessages(db.messages, gid), h) == if h == gid then [] else ChatMessages(db.messages, h)
    {
      MembersAfterDelete(db.members, gid, h);
      ChatAfterDelete(db.messages, gid, h);
    }
    db.messages := WithoutGroupMessages(db.messages, gid);
    db.members := WithoutGroupMembers(db.members, gid);
    db.groups := db.groups - {gid};
  }

  /**
   * `delete_group`: 404 for an unknown group and 403 for anyone but its
   * creator, both without change. Otherwise every member gets one
   * notification, and then the group's messages, its memberships and the
   * group itself are deleted; other groups, their members and messages,
   * and all tasks stay as they were.
   */
  method DeleteGroup(db: Database, user: Option<int>, gid: int) returns (r: Outcome)
    requires db.Valid()
    modifies db
    ensures db.Valid()
    ensures !SignedIn(user) ==> r == Redirect(LoginPage) && unchanged(db)
    ensures SignedIn(user) && gid !in old(db.groups) ==> r == NotFound && unchanged(db)
    ensures SignedIn(user) && gid in old(db.groups) && old(db.groups[gid].createdBy) != user.value ==>
      r == Forbidden && unchanged(db)
    ensures SignedIn(user) && gid in old(db.groups) && old(db.groups[gid].createdBy) == user.value ==>
      var before := old(db.notifications);
      && r == Redirect(GroupsPage)
      && db.groups == old(db.groups) - {gid}
      && db.members == WithoutGroupMembers(old(db.members), gid)
      && db.messages == WithoutGroupMessages(old(db.messages), gid)
      && |before| <= |db.notifications|
      && db.notifications[..|before|] == before
      && NotifiesEachOnce(db.notifications[|before|..], GroupMembers(old(db.members), gid),
                          GroupDeletedNotice(old(db.groups[gid].name)))
      && NumberedFrom(db.notifications[|before|..], old(db.nextNotificationId), old(db.clock))
      && |db.notifications| == |before| + |GroupMembers(old(db.members), gid)|
      && db.nextNotificationId == old(db.nextNotificationId) + |GroupMembers(old(db.members), gid)|
      && db.clock == old(db.clock) + |GroupMembers(old(db.members), gid)|
      && GroupMembers(db.members, gid) == {} && ChatMessages(db.messages, gid) == []
      && (forall h :: h != gid ==> GroupMembers(db.members, h) == GroupMembers(old(db.members), h))
      && (forall h :: h != gid ==> ChatMessages(db.messages, h) == ChatMessages(old(db.messages), h))
      && unchanged(db`tasks, db`nextTaskId, db`nextGroupId, db`nextMessageId)
  {
    if !SignedIn(user) {
      return Redirect(LoginPage);
    }
    if gid !in db.groups {
      return NotFound;
    }
    var group := db.groups[gid];
    if group.createdBy != user.value {
      return Forbidden;
    }
    var recipients := GroupMembers(db.members, gid);
    NotifyMembers(db, recipients, GroupDeletedNotice(group.name));
    RemoveGroup(db, gid);
    r := Redirect(GroupsPage);
  }
}
