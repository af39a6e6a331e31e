/**
 * Request sequences on a fresh database, each stating what the handlers'
 * contracts promise when they are combined.
 */
module Scenarios {
  import opened Store
  import opened GroupRoute
  import opened TaskRoute
  import NotificationRoute

  /**
   * User `a` creates the group "Sprint" and user `b` joins it with its
   * code: both are then members of the group, and `b` has exactly one
   * notification, the one saying `b` was added.
   */
  method CreateThenJoin(a: int, b: int, draws: seq<nat>) returns (members: set<int>, feedOfB: seq<Notification>)
    requires a != 0 && b != 0 && a != b
    requires |draws| == CodeLength && forall i :: 0 <= i < |draws| ==> draws[i] < |CodeAlphabet|
    ensures members == {a, b}
    ensures |feedOfB| == 1 && feedOfB[0].userId == b
    ensures feedOfB[0].message == AddedToGroupNotice("Sprint")
  {
    var db := new Database();
    var created := NewGroup(db, Some(a), Some("Sprint"), draws);
    var code := GenerateGroupCode(draws);
    var joined := JoinGroupByCode(db, Some(b), Some(code));
    assert joined.to.groupId == 1;
    var view := ViewChat(db, Some(a), 1);
    members := view.data.members;
    assert members == {a, b};
    var page := NotificationRoute.Notifications(db, Some(b));
    feedOfB := page.data;
    var ns := db.notifications;
    NotificationRoute.FeedAfterAppend(ns[..1], ns[1], b);
    NotificationRoute.FeedAfterAppend([], ns[0], b);
    assert ns == [] + [ns[0]] + [ns[1]];
  }

  /**
   * User `a` creates a group task "Write spec" assigned to user `b`: `b`
   * gets exactly one notification, about the assignment, and `a` none.
   */
  method AssignGroupTask(a: int, b: int, gid: int) returns (feedOfA: seq<Notification>, feedOfB: seq<Notification>)
    requires a != 0 && a != b
    ensures feedOfA == []
    ensures |feedOfB| == 1
    ensures feedOfB[0].message == AssignedNotice("Write spec")
  {
    var db := new Database();
    var form := TaskForm(Some("Write spec"), None, None, None, Some(b), Some(gid), None);
    var created := NewTaskGroup(db, Some(a), form);
    var pageOfA := NotificationRoute.Notifications(db, Some(a));
    var pageOfB := NotificationRoute.Notifications(db, Some(b));
    feedOfA, feedOfB := pageOfA.data, pageOfB.data;
    NotificationRoute.FeedAfterAppend([], db.notifications[0], a);
    NotificationRoute.FeedAfterAppend([], db.notifications[0], b);
    assert db.notifications == [] + [db.notifications[0]];
  }

  /**
   * User `a` creates a group task assigned to user `b` and then deletes
   * it: the task is gone from both users' task lists, and the deletion
   * sends no notification.
   */
  method DeleteAssignedTask(a: int, b: int, gid: int)
    returns (listOfA: map<int, Task>, listOfB: map<int, Task>, sentByDelete: int)
    requires a != 0 && b != 0 && a != b
    ensures listOfA == map[] && listOfB == map[]
    ensures sentByDelete == 0
  {
    var db := new Database();
    var form := TaskForm(Some("Write spec"), None, None, None, Some(b), Some(gid), None);
    var created := NewTaskGroup(db, Some(a), form);
    var before := |db.notifications|;
    var deleted := DeleteTask(db, Some(a), 1);
    sentByDelete := |db.notifications| - before;
    var pageOfA := TaskList(db, Some(a));
    var pageOfB := TaskList(db, Some(b));
    listOfA, listOfB := pageOfA.data, pageOfB.data;
    assert db.tasks == map[];
  }

  /**
   * Joining twice with the same code has the effect of joining once, as
   * long as no two groups share a code.
   */
  method JoinTwice(db: Database, user: Option<int>, code: Option<string>) returns (first: Outcome, second: Outcome)
    requires db.Valid() && CodesUnique(db.groups)
    modifies db
    ensures db.Valid()
    ensures second == first
    ensures first.Redirect? && first.to.ChatPage? ==>
      && SignedIn(user)
      && var gid, u := first.to.groupId, user.value;
      && gid in db.groups
      && db.members == old(db.members) + {(gid, u)}
      && db.notifications == old(db.notifications) + (
           if (gid, u) in old(db.members) then []
           else [Notification(old(db.nextNotificationId), u,
                   AddedToGroupNotice(db.groups[gid].name), old(db.clock))])
      && var sent := if (gid, u) in old(db.members) then 0 else 1;
      && db.nextNotificationId == old(db.nextNotificationId) + sent
      && db.clock == old(db.clock) + sent
      && unchanged(db`tasks, db`groups, db`messages)
      && unchanged(db`nextTaskId, db`nextGroupId, db`nextMessageId)
    ensures !(first.Redirect? && first.to.ChatPage?) ==> unchanged(db)
  {
    first := JoinGroupByCode(db, user, code);
    second := JoinGroupByCode(db, user, code);
  }
}
