/**
 * The task manager of routes/task_route.py: listing and viewing tasks,
 * creating personal and group tasks, toggling a task's status (assignee
 * only), approving it and deleting it (creator only).
 */
module TaskRoute {
  import opened Store
  import NotificationRoute

  /** The fields a task form posts; `None` is a field the form left out. */
  datatype TaskForm = TaskForm(
    title: Option<string>,
    description: Option<string>,
    dueDate: Option<string>,
    priority: Option<string>,
    assignedTo: Option<int>,
    groupId: Option<int>,
    workLink: Option<string>)

  /** `request.form.get("work_link") or None`: an absent or empty link is stored as NULL. */
  function StoredLink(link: Option<string>): (r: Option<string>)
    ensures r.None? <==> link.None? || link.value == ""
    ensures r.Some? ==> r == link
  {
    if link.Some? && link.value != "" then link else None
  }

  /** The texts of the notifications the task routes send. */
  function PersonalTaskNotice(title: string): string {
    "You created a new personal task '" + title + "'"
  }

  function AssignedNotice(title: string): string {
    "You have been assigned a new task '" + title + "' in a group."
  }

  function ApprovedNotice(title: string): string {
    "Your task '" + title + "' was approved by the creator."
  }

  /** A personal task is assigned to its creator and belongs to no group. */
  predicate IsPersonal(t: Task) {
    t.assignedTo == t.createdBy && t.groupId.None?
  }

  /** The tasks `u` takes part in: those assigned to `u` together with those `u` created. */
  function OwnTasks(tasks: map<int, Task>, u: int): map<int, Task>
  {
    map id | id in tasks && (tasks[id].assignedTo == u || tasks[id].createdBy == u) :: tasks[id]
  }

  /**
   * `task_list`: the tasks assigned to or created by the signed-in user,
   * a union of the two, each as stored; no other task appears.
   */
  function TaskList(db: Database, user: Option<int>): (r: Reply<map<int, Task>>)
    reads db
    ensures !SignedIn(user) <==> r == Redirect(LoginPage)
    ensures SignedIn(user) ==> r.Render?
    ensures SignedIn(user) ==> forall id :: id in r.data <==>
      id in db.tasks && (db.tasks[id].assignedTo == user.value || db.tasks[id].createdBy == user.value)
    ensures SignedIn(user) ==> forall id :: id in r.data ==> r.data[id] == db.tasks[id]
  {
    if !SignedIn(user) then Redirect(LoginPage) else Render(OwnTasks(db.tasks, user.value))
  }

  /**
   * `task_view`: 404 for an unknown id, otherwise the stored task. Whoever
   * is signed in sees it: the answer does not depend on the viewer.
   */
  function TaskView(db: Database, user: Option<int>, id: int): (r: Reply<Task>)
    reads db
    ensures !SignedIn(user) <==> r == Redirect(LoginPage)
    ensures r == NotFound <==> SignedIn(user) && id !in db.tasks
    ensures r.Render? <==> SignedIn(user) && id in db.tasks
    ensures r.Render? ==> r.data == db.tasks[id]
  {
    if !SignedIn(user) then Redirect(LoginPage)
    else if id !in db.tasks then NotFound
    else Render(db.tasks[id])
  }

  /**
   * The status `toggle_task` writes: a completed task becomes pending and
   * any other becomes completed, so the result is always one of the two.
   */
  function NextStatus(status: string): (r: string)
    ensures r == Pending || r == Completed
    ensures r == Completed <==> status != Completed
  {
    if status != Completed then Completed else Pending
  }

  /**
   * Two toggles restore a pending or completed status; a status outside
   * the two settles on pending after two toggles.
   */
  lemma ToggleTwice(status: string)
    ensures status == Pending || status == Completed ==> NextStatus(NextStatus(status)) == status
    ensures status != Pending && status != Completed ==> NextStatus(NextStatus(status)) == Pending
  {
  }

  /** Deleting a task removes it from every user's list and leaves the rest of each list alone. */
  lemma OwnTasksAfterDelete(tasks: map<int, Task>, id: int, u: int)
    ensures OwnTasks(tasks - {id}, u) == OwnTasks(tasks, u) - {id}
    ensures id !in OwnTasks(tasks - {id}, u)
  {
    assert OwnTasks(tasks - {id}, u).Keys == OwnTasks(tasks, u).Keys - {id};
  }

  /**
   * Storing `t` under its id adds it to the lists of its assignee and its
   * creator, and to no other; the rest of each list is unchanged.
   */
  lemma OwnTasksAfterStore(tasks: map<int, Task>, t: Task, u: int)
    ensures OwnTasks(tasks[t.id := t], u)
         == if t.assignedTo == u || t.createdBy == u
            then OwnTasks(tasks, u)[t.id := t]
            else OwnTasks(tasks, u) - {t.id}
  {
    var after := OwnTasks(tasks[t.id := t], u);
    if t.assignedTo == u || t.createdBy == u {
      assert after.Keys == OwnTasks(tasks, u).Keys + {t.id};
    } else {
      assert after.Keys == OwnTasks(tasks, u).Keys - {t.id};
    }
  }

  /**
   * `new_task_personal` (POST): store a pending, unapproved task with no
   * group, assigned to and created by the user, then notify the user.
   */
  method NewTaskPersonal(db: Database, user: Option<int>, form: TaskForm) returns (r: Outcome)
    requires db.Valid()
    modifies db
    ensures db.Valid()
    ensures !SignedIn(user) ==> r == Redirect(LoginPage) && unchanged(db)
    ensures SignedIn(user) && form.title.None? ==> r == BadRequest && unchanged(db)
    ensures SignedIn(user) && form.title.Some? ==>
      var u, id := user.value, old(db.nextTaskId);
      var t := Task(id, form.title.value, form.description, form.dueDate, form.priority,
                    u, u, None, Pending, false, StoredLink(form.workLink));
      && r == Redirect(TasksPage)
      && id !in old(db.tasks)
      && db.tasks == old(db.tasks)[id := t]
      && IsPersonal(t)
      && db.nextTaskId == id + 1
      && db.notifications == old(db.notifications) + [Notification(
           old(db.nextNotificationId), u,
           PersonalTaskNotice(form.title.value), old(db.clock))]
      && db.nextNotificationId == old(db.nextNotificationId) + 1
      && db.clock == old(db.clock) + 1
      && unchanged(db`groups, db`members, db`messages, db`nextGroupId, db`nextMessageId)
  {
    if !SignedIn(user) {
      return Redirect(LoginPage);
    }
    if form.title.None? {
      return BadRequest;
    }
    var u, title := user.value, form.title.value;
    var id := db.nextTaskId;
    db.tasks := db.tasks[id := Task(id, title, form.description, form.dueDate, form.priority,
                                    u, u, None, Pending, false, StoredLink(form.workLink))];
    db.nextTaskId := id + 1;
    NotificationRoute.CreateNotification(db, u, PersonalTaskNotice(title));
    r := Redirect(TasksPage);
  }

  /**
   * `new_task_group` (POST): store a pending task in the chosen group,
   * assigned to the chosen user or, when none was chosen, to its creator;
   * notify the assignee exactly when the assignee is not the creator.
   */
  method NewTaskGroup(db: Database, user: Option<int>, form: TaskForm) returns (r: Outcome)
    requires db.Valid()
    modifies db
    ensures db.Valid()
    ensures !SignedIn(user) ==> r == Redirect(LoginPage) && unchanged(db)
    ensures SignedIn(user) && form.title.None? ==> r == BadRequest && unchanged(db)
    ensures SignedIn(user) && form.title.Some? ==>
      var u, id := user.value, old(db.nextTaskId);
      var assignee := if form.assignedTo.Some? then form.assignedTo.value else u;
      var t := Task(id, form.title.value, form.description, form.dueDate, form.priority,
                    assignee, u, form.groupId, Pending, false, StoredLink(form.workLink));
      && r == Redirect(TasksPage)
      && id !in old(db.tasks)
      && db.tasks == old(db.tasks)[id := t]
      && db.nextTaskId == id + 1
      && db.notifications == old(db.notifications) + (
           if assignee != u
           then [Notification(old(db.nextNotificationId), assignee,
                   AssignedNotice(form.title.value), old(db.clock))]
           else [])
      && var sent := if assignee != u then 1 else 0;
      && db.nextNotificationId == old(db.nextNotificationId) + sent
      && db.clock == old(db.clock) + sent
      && unchanged(db`groups, db`members, db`messages, db`nextGroupId, db`nextMessageId)
  {
    if !SignedIn(user) {
      return Redirect(LoginPage);
    }
    if form.title.None? {
      return BadRequest;
    }
    var u, title := user.value, form.title.value;
    var assignee := if form.assignedTo.Some? then form.assignedTo.value else u;
    var id := db.nextTaskId;
    db.tasks := db.tasks[id := Task(id, title, form.description, form.dueDate, form.priority,
                                    assignee, u, form.groupId, Pending, false, StoredLink(form.workLink))];
    db.nextTaskId := id + 1;
    if assignee != u {
      NotificationRoute.CreateNotification(db, assignee, AssignedNotice(title));
    }
    r := Redirect(TasksPage);
  }

  /**
   * `toggle_task`: only the assignee may flip the status; a missing task
   * and any other user get 403 and nothing changes. Approval and
   * notifications are left alone.
   */
  method ToggleTask(db: Database, user: Option<int>, id: int) returns (r: Outcome)
    requires db.Valid()
    modifies db
    ensures db.Valid()
    ensures !SignedIn(user) ==> r == Redirect(LoginPage) && unchanged(db)
    ensures SignedIn(user) && (id !in old(db.tasks) || old(db.tasks[id].assignedTo) != user.value) ==>
      r == Forbidden && unchanged(db)
    ensures SignedIn(user) && id in old(db.tasks) && old(db.tasks[id].assignedTo) == user.value ==>
      var t := old(db.tasks[id]);
      && r == Redirect(TasksPage)
      && db.tasks == old(db.tasks)[id := t.(status := NextStatus(t.status))]
      && unchanged(db`groups, db`members, db`messages, db`notifications, db`nextTaskId,
                   db`nextGroupId, db`nextMessageId, db`nextNotificationId, db`clock)
  {
    if !SignedIn(user) {
      return Redirect(LoginPage);
    }
    if id !in db.tasks || db.tasks[id].assignedTo != user.value {
      return Forbidden;
    }
    var t := db.tasks[id];
    db.tasks := db.tasks[id := t.(status := NextStatus(t.status))];
    r := Redirect(TasksPage);
  }

  /**
   * `approve_task`: only the creator may approve; a missing task and any
   * other user get 403 and nothing changes. Approval sets the flag and
   * leaves the status alone, and every successful call notifies the
   * assignee when the assignee is not the creator.
   */
  method ApproveTask(db: Database, user: Option<int>, id: int) returns (r: Outcome)
    requires db.Valid()
    modifies db
    ensures db.Valid()
    ensures !SignedIn(user) ==> r == Redirect(LoginPage) && unchanged(db)
    ensures SignedIn(user) && (id !in old(db.tasks) || old(db.tasks[id].createdBy) != user.value) ==>
      r == Forbidden && unchanged(db)
    ensures SignedIn(user) && id in old(db.tasks) && old(db.tasks[id].createdBy) == user.value ==>
      var t := old(db.tasks[id]);
      && r == Redirect(TaskPage(id))
      && db.tasks == old(db.tasks)[id := t.(isApproved := true)]
      && db.notifications == old(db.notifications) + (
           if t.assignedTo != user.value
           then [Notification(old(db.nextNotificationId), t.assignedTo,
                   ApprovedNotice(t.title), old(db.clock))]
           else [])
      && var sent := if t.assignedTo != user.value then 1 else 0;
      && db.nextNotificationId == old(db.nextNotificationId) + sent
      && db.clock == old(db.clock) + sent
      && unchanged(db`groups, db`members, db`messages, db`nextTaskId, db`nextGroupId, db`nextMessageId)
  {
    if !SignedIn(user) {
      return Redirect(LoginPage);
    }
    if id !in db.tasks || db.tasks[id].createdBy != user.value {
      return Forbidden;
    }
    var t := db.tasks[id];
    db.tasks := db.tasks[id := t.(isApproved := true)];
    if t.assignedTo != user.value {
      NotificationRoute.CreateNotification(db, t.assignedTo, ApprovedNotice(t.title));
    }
    r := Redirect(TaskPage(id));
  }

  /**
   * `delete_task`: only the creator may delete; a missing task and any
   * other user get 403 and nothing changes. Deletion removes exactly that
   * row and sends no notification.
   */
  method DeleteTask(db: Database, user: Option<int>, id: int) returns (r: Outcome)
    requires db.Valid()
    modifies db
    ensures db.Valid()
    ensures !SignedIn(user) ==> r == Redirect(LoginPage) && unchanged(db)
    ensures SignedIn(user) && (id !in old(db.tasks) || old(db.tasks[id].createdBy) != user.value) ==>
      r == Forbidden && unchanged(db)
    ensures SignedIn(user) && id in old(db.tasks) && old(db.tasks[id].createdBy) == user.value ==>
      && r == Redirect(TasksPage)
      && db.tasks == old(db.tasks) - {id}
      && unchanged(db`groups, db`members, db`messages, db`notifications, db`nextTaskId,
                   db`nextGroupId, db`nextMessageId, db`nextNotificationId, db`clock)
  {
    if !SignedIn(user) {
      return Redirect(LoginPage);
    }
    if id !in db.tasks || db.tasks[id].createdBy != user.value {
      return Forbidden;
    }
    db.tasks := db.tasks - {id};
    r := Redirect(TasksPage);
  }
}
