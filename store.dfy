/**
 * The application's relational tables, held in memory, together with the
 * records they store and the answers a route handler can give.
 *
 * Each table is a field of `Database`: `tasks` and `groups` map a row id to
 * the row, `members` is the set of (group id, user id) pairs of
 * `group_members`, and `messages` and `notifications` are the rows of
 * `group_messages` and `notifications` in insertion order. AUTO_INCREMENT
 * ids are counters, and `created_at` is a clock that every timestamped
 * insert advances.
 */
module Store {

  datatype Option<T> = None | Some(value: T)

  /** The pages a handler redirects the browser to. */
  datatype Location =
    | LoginPage
    | TasksPage
    | TaskPage(taskId: int)
    | GroupsPage
    | ChatPage(groupId: int)

  /**
   * What a route handler answers: a rendered page carrying its data, a
   * redirect, or one of the error statuses 400, 403 and 404.
   */
  datatype Reply<T> =
    | Render(data: T)
    | Redirect(to: Location)
    | BadRequest
    | Forbidden
    | NotFound

  /** The answer of a handler that only ever redirects or fails. */
  type Outcome = Reply<()>

  const Pending := "pending"
  const Completed := "completed"

  /** A row of `tasks`. Optional columns are `None` where the row holds NULL. */
  datatype Task = Task(
    id: int,
    title: string,
    description: Option<string>,
    dueDate: Option<string>,
    priority: Option<string>,
    assignedTo: int,
    createdBy: int,
    groupId: Option<int>,
    status: string,
    isApproved: bool,
    workLink: Option<string>)

  /** A row of `groups`. */
  datatype Group = Group(id: int, name: string, createdBy: int, code: string)

  /** A row of `group_messages`. */
  datatype Message = Message(id: int, groupId: int, senderId: int, text: string, createdAt: nat)

  /** A row of `notifications`. */
  datatype Notification = Notification(id: int, userId: int, message: string, createdAt: nat)

  /**
   * The session check `if not user_id` of the task and group routes: a
   * missing user id and the falsy id 0 both count as signed out.
   */
  predicate SignedIn(user: Option<int>) {
    user.Some? && user.value != 0
  }

  /** Messages stored oldest first, each stamped before `clock`. */
  predicate MessagesOrdered(ms: seq<Message>, clock: nat) {
    && (forall i, j :: 0 <= i < j < |ms| ==> ms[i].createdAt < ms[j].createdAt)
    && (forall i :: 0 <= i < |ms| ==> ms[i].createdAt < clock)
  }

  /** Notifications stored oldest first, each stamped before `clock`. */
  predicate NotificationsOrdered(ns: seq<Notification>, clock: nat) {
    && (forall i, j :: 0 <= i < j < |ns| ==> ns[i].createdAt < ns[j].createdAt)
    && (forall i :: 0 <= i < |ns| ==> ns[i].createdAt < clock)
  }

  /** Rows stored newest first, as `ORDER BY created_at DESC` returns them. */
  predicate NewestFirst(ns: seq<Notification>) {
    forall i, j :: 0 <= i < j < |ns| ==> ns[i].createdAt > ns[j].createdAt
  }

  /** Rows stored oldest first, as `ORDER BY created_at ASC` returns them. */
  predicate OldestFirst(ms: seq<Message>) {
    forall i, j :: 0 <= i < j < |ms| ==> ms[i].createdAt < ms[j].createdAt
  }

  /** A fixed-length invite code over upper-case ASCII letters and digits. */
  const CodeLength := 6

  predicate IsCodeChar(c: char) {
    'A' <= c <= 'Z' || '0' <= c <= '9'
  }

  predicate IsGroupCode(code: string) {
    |code| == CodeLength && forall i :: 0 <= i < |code| ==> IsCodeChar(code[i])
  }

  class Database {
    var tasks: map<int, Task>
    var groups: map<int, Group>
    var members: set<(int, int)>
    var messages: seq<Message>
    var notifications: seq<Notification>
    var nextTaskId: int
    var nextGroupId: int
    var nextMessageId: int
    var nextNotificationId: int
    var clock: nat

    /**
     * Each row sits under its own id, below the next id to hand out; every
     * membership names an existing group; every group carries an invite
     * code; timestamped rows are stored oldest first.
     */
    ghost predicate Valid()
      reads this
    {
      && (forall id :: id in tasks ==> tasks[id].id == id && id < nextTaskId)
      && (forall id :: id in groups ==> groups[id].id == id && id < nextGroupId && IsGroupCode(groups[id].code))
      && (forall p :: p in members ==> p.0 in groups)
      && MessagesOrdered(messages, clock)
      && NotificationsOrdered(notifications, clock)
    }

    /** An empty database whose AUTO_INCREMENT counters start at 1. */
    constructor ()
      ensures Valid()
      ensures tasks == map[] && groups == map[] && members == {}
      ensures messages == [] && notifications == []
      ensures nextTaskId == 1 && nextGroupId == 1 && nextMessageId == 1 && nextNotificationId == 1
      ensures clock == 0
    {
      tasks, groups, members := map[], map[], {};
      messages, notifications := [], [];
      nextTaskId, nextGroupId, nextMessageId, nextNotificationId := 1, 1, 1, 1;
      clock := 0;
    }
  }
}
