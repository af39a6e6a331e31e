/**
 * The notification emitter (`create_notification`) and the notification
 * feed page (`notifications`) of routes/notification_route.py.
 */
module NotificationRoute {
  import opened Store

  /**
   * The rows of `ns` addressed to `u`, newest first: the query
   * `WHERE user_id = u ORDER BY created_at DESC` over a table kept in
   * insertion order. It scans from the most recent row backwards.
   */
  function Feed(ns: seq<Notification>, u: int): (r: seq<Notification>)
    ensures |r| <= |ns|
    ensures forall i :: 0 <= i < |r| ==> r[i].userId == u && r[i] in ns
  {
    if ns == [] then []
    else
      var last := ns[|ns| - 1];
      var earlier := Feed(ns[..|ns| - 1], u);
      if last.userId == u then [last] + earlier else earlier
  }

  /** A feed holds exactly the rows addressed to its user. */
  lemma {:induction false} FeedContents(ns: seq<Notification>, u: int)
    ensures forall n :: n in Feed(ns, u) <==> n in ns && n.userId == u
  {
    if ns != [] {
      var init := ns[..|ns| - 1];
      FeedContents(init, u);
      assert ns == init + [ns[|ns| - 1]];
    }
  }

  /** Over a table stored oldest first, a feed is ordered newest first. */
  lemma {:induction false} FeedNewestFirst(ns: seq<Notification>, u: int)
    requires forall i, j :: 0 <= i < j < |ns| ==> ns[i].createdAt < ns[j].createdAt
    ensures NewestFirst(Feed(ns, u))
  {
    if ns != [] {
      var init := ns[..|ns| - 1];
      var last := ns[|ns| - 1];
      FeedNewestFirst(init, u);
      FeedContents(init, u);
      var earlier := Feed(init, u);
      if last.userId == u {
        forall j | 0 <= j < |earlier|
          ensures last.createdAt > earlier[j].createdAt
        {
          assert earlier[j] in init;
        }
      }
    }
  }

  /**
   * One more row changes only its recipient's feed, where it comes first;
   * every other user's feed stays as it was.
   */
  lemma FeedAfterAppend(ns: seq<Notification>, n: Notification, u: int)
    ensures Feed(ns + [n], u) == if n.userId == u then [n] + Feed(ns, u) else Feed(ns, u)
  {
    assert (ns + [n])[..|ns|] == ns;
  }

  /**
   * `notifications`: without a user id in the session, redirect to the
   * login page; otherwise show that user's notifications, newest first.
   * Only a missing id redirects here: this route tests for the key, not
   * for a falsy value.
   */
  function Notifications(db: Database, user: Option<int>): (r: Reply<seq<Notification>>)
    reads db
    requires db.Valid()
    ensures user.None? <==> r == Redirect(LoginPage)
    ensures user.Some? ==> r.Render?
    ensures user.Some? ==> forall n :: n in r.data <==> n in db.notifications && n.userId == user.value
    ensures user.Some? ==> NewestFirst(r.data)
  {
    if user.None? then Redirect(LoginPage)
    else
      FeedContents(db.notifications, user.value);
      FeedNewestFirst(db.notifications, user.value);
      Render(Feed(db.notifications, user.value))
  }

  /**
   * `create_notification`: insert one row addressed to `userId`, stamped
   * with the current time; nothing else in the database changes.
   */
  method CreateNotification(db: Database, userId: int, message: string)
    requires db.Valid()
    modifies db
    ensures db.Valid()
    ensures db.notifications
         == old(db.notifications) + [Notification(old(db.nextNotificationId), userId, message, old(db.clock))]
    ensures db.nextNotificationId == old(db.nextNotificationId) + 1
    ensures db.clock == old(db.clock) + 1
    ensures db.tasks == old(db.tasks) && db.groups == old(db.groups) && db.members == old(db.members)
    ensures db.messages == old(db.messages)
    ensures db.nextTaskId == old(db.nextTaskId) && db.nextGroupId == old(db.nextGroupId)
    ensures db.nextMessageId == old(db.nextMessageId)
  {
    db.notifications := db.notifications + [Notification(db.nextNotificationId, userId, message, db.clock)];
    db.nextNotificationId := db.nextNotificationId + 1;
    db.clock := db.clock + 1;
  }
}
