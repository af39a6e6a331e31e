# Task and group rules of a small collaboration web application

This project models the core of a multi-user web application in Dafny. Users form groups through invite codes and chat inside them. They create personal tasks and group tasks, and they receive notifications about task and group events. The model covers the route handlers that carry the rules: who may change a task, how its status and approval change, how joining a group works, and how deleting a group cascades. It also covers which notifications each handler emits.

The SQL tables are fields of one `Database` object (`store.dfy`):

- `tasks` and `groups` map a row id to the row.
- `members` is the set of (group id, user id) pairs of `group_members`.
- `messages` and `notifications` are the rows of `group_messages` and `notifications`, in insertion order.
- The AUTO_INCREMENT ids are counters.
- `created_at` is a clock that every timestamped insert advances, so stored rows are strictly ordered by time.

`Database.Valid()` is the invariant that every handler keeps. Each row sits under its own id. Every membership names an existing group. Every group has a six-character invite code. Timestamped rows are stored oldest first.

Each route handler is a method. It takes the session's user id as an explicit `Option<int>` and returns a `Reply`:

- `Redirect(location)` is the source's redirect, including the redirect to the login page.
- `Render(data)` is a rendered page, together with the data it shows.
- `BadRequest`, `Forbidden` and `NotFound` are the statuses 400, 403 and 404.

Read-only queries are functions over the database. One module models each route file: `task_route.dfy`, `group_route.dfy` and `notification_route.dfy`. `scenarios.dfy` holds request sequences on a fresh database that combine the handlers' contracts.

Behaviour of the code worth knowing:

- The task and group routes treat the user as signed out when `not user_id` holds. That includes the id 0 (`SignedIn`). The notification page only checks whether the key is present, so the id 0 gets through there.
- A required form field that is missing (`request.form["title"]`, `["name"]`, `["code"]`) raises a key error, which the framework answers with 400. The model returns `BadRequest` and changes nothing.
- Toggling, approving or deleting a missing task answers 403, not 404, exactly as for an unauthorised user.
- Posting a chat message checks neither that the group exists nor that the sender is a member. Reading a chat needs no membership, and viewing a task needs no relation to it. All three routes still need a signed-in user.
- Approving notifies the assignee on every successful call, and not only on the first.
- Invite codes are not checked for uniqueness. Joining picks some group that carries the upper-cased code. `Scenarios.JoinTwice` shows that joining twice equals joining once when codes are unique.

## Model

| member | source | states |
|---|---|---|
| `TaskRoute.TaskList` | routes/task_route.py:12-28 | Signed out redirects to login. Otherwise the page holds exactly the tasks whose assignee or creator is the user, each as stored. It is the union of the two, and no other task appears. |
| `TaskRoute.OwnTasksAfterStore` | routes/task_route.py:80-83 | Storing a task adds it to the lists of its assignee and its creator only. No other entry of any user's list changes. |
| `TaskRoute.OwnTasksAfterDelete` | routes/task_route.py:221 | Deleting a task takes it out of every user's list and leaves the rest of each list as it was. |
| `TaskRoute.TaskView` | routes/task_route.py:38-60 | An unknown id answers 404. Otherwise the page shows the stored task. Any signed-in user gets the same answer. |
| `TaskRoute.StoredLink` | routes/task_route.py:76 | An absent or empty work link is stored as NULL. Any other link is stored as given. |
| `TaskRoute.NewTaskPersonal` | routes/task_route.py:66-90 | A missing title answers 400 with no change. Otherwise one new task is stored under a fresh id: pending, unapproved, no group, assigned to and created by the user. Exactly one notification goes to the creator. Groups, members and messages are untouched. The task id counter advances by one, the notification id counter and the clock advance by the number of notifications sent, and the group and message id counters stay as they were. |
| `TaskRoute.NewTaskGroup` | routes/task_route.py:119-142 | A missing title answers 400 with no change. Otherwise one pending task is stored in the chosen group. It is assigned to the chosen user, or to the creator when none was chosen. One notification goes to the assignee exactly when the assignee differs from the creator; otherwise there is none. The task id counter advances by one, the notification id counter and the clock advance by the number of notifications sent, and the group and message id counters stay as they were. |
| `TaskRoute.NextStatus` | routes/task_route.py:165 | A toggled status is always pending or completed. It is completed exactly when the old status was anything but completed. |
| `TaskRoute.ToggleTwice` | routes/task_route.py:165-166 | Two toggles restore a pending or completed status. Any other status ends up pending. |
| `TaskRoute.ToggleTask` | routes/task_route.py:150-172 | A missing task, or a user other than the assignee, gets 403 and nothing changes. The assignee flips that task's status and nothing else. Approval, notifications and all other tables stay as they were. |
| `TaskRoute.ApproveTask` | routes/task_route.py:179-203 | A missing task, or a user other than the creator, gets 403 and nothing changes. The creator sets the approval flag and leaves the status alone, so a repeat call leaves the task unchanged. Every successful call notifies the assignee when the assignee is not the creator. The notification id counter and the clock advance by the number of rows sent, and the other id counters stay as they were. |
| `TaskRoute.DeleteTask` | routes/task_route.py:206-225 | A missing task, or a user other than the creator, gets 403 and nothing changes. The creator removes exactly that task id. Other tasks and all notifications are unchanged. |
| `GroupRoute.GenerateGroupCode` | routes/group_route.py:9-10 | The code has one character per draw, and each character is an upper-case ASCII letter or a digit: the alphabet entry the draw picked. |
| `GroupRoute.CodeDraws` | routes/group_route.py:10 | Every code over the alphabet has draws of the same length, and each draw is an index into the alphabet. |
| `GroupRoute.GenerateFromCodeDraws` | routes/group_route.py:9-10 | Generating from a code's draws gives that code back, so the generator can produce every such code. |
| `GroupRoute.Upper` | routes/group_route.py:67 | Upper-casing keeps the length and maps each character on its own: ASCII lower-case letters become upper case and every other character stays. |
| `GroupRoute.UpperKeepsCode` | routes/group_route.py:67 | Upper-casing leaves an invite code unchanged. A group's own code therefore still matches after normalisation, so the lookup finds some group carrying that code. |
| `GroupRoute.UpperIdempotent` | routes/group_route.py:67 | Normalising an already normalised code changes nothing. |
| `GroupRoute.GroupsList` | routes/group_route.py:14-29 | Signed out redirects to login. Otherwise the page holds exactly the groups in which the user has a membership pair, each as stored. |
| `GroupRoute.GroupMembers` | routes/group_route.py:128-133 | A group's member set holds exactly the users that have a membership pair with it. The delete route reads the recipients the same way (routes/group_route.py:161-162). |
| `GroupRoute.WithoutGroupMembers` | routes/group_route.py:168 | The memberships left after deleting a group's are exactly those of other groups. |
| `GroupRoute.GroupsOfAfterDelete` | routes/group_route.py:168-169 | Deleting a group with its memberships takes it out of every user's group list and leaves the rest of each list alone. |
| `GroupRoute.MembersAfterDelete` | routes/group_route.py:168 | After the memberships are deleted, the deleted group has no members and every other group keeps its own. |
| `GroupRoute.ChatMessages` | routes/group_route.py:119-125 | A chat is no longer than the message table, and each of its entries is a stored message of that group. |
| `GroupRoute.ChatMessagesContents` | routes/group_route.py:119-126 | A chat holds exactly the stored messages addressed to its group. |
| `GroupRoute.ChatMessagesOldestFirst` | routes/group_route.py:124 | When the table is stored oldest first, a chat is ordered by ascending `created_at`. |
| `GroupRoute.ChatAfterPost` | routes/group_route.py:103-106 | A posted message appears at the end of its own group's chat, and no other chat changes. |
| `GroupRoute.WithoutGroupMessages` | routes/group_route.py:167 | What remains after the delete is no longer than the table before, and each remaining row was stored before and belongs to another group. |
| `GroupRoute.ChatAfterDelete` | routes/group_route.py:167 | Deleting a group's messages empties its chat and leaves every other group's chat as it was. |
| `GroupRoute.WithoutGroupMessagesOrdered` | routes/group_route.py:167 | The messages that remain after a deletion are still stored oldest first, and all of them were there before. |
| `GroupRoute.ViewChat` | routes/group_route.py:112-138 | A missing group answers 404. Otherwise the page shows that group, exactly its messages in ascending `created_at` order, and exactly its members. Membership is not required. |
| `GroupRoute.NewGroup` | routes/group_route.py:33-55 | A missing name answers 400 with no change. Otherwise one group is stored under a fresh id, created by the user and carrying the generated code. The pair (new id, user) is added to the members, so the group is in the creator's list right away. Its code survives normalisation, and some group carrying that code is then found by it. Exactly one notification goes to the creator. The group id counter advances by one; the notification id counter and the clock advance by one for the notification, and the task and message id counters stay as they were. |
| `GroupRoute.JoinGroupByCode` | routes/group_route.py:61-87 | The code is upper-cased before the lookup. A missing code, or one no group carries, answers 400 and nothing changes. Otherwise a user who is already a member changes nothing. Anyone else gets exactly one new pair and one notification. Either way the user is then a member of a group with that code and is sent to its chat. The notification id counter and the clock advance by the number of notifications sent, and the other id counters stay as they were. |
| `GroupRoute.GroupChat` | routes/group_route.py:93-110 | A post appends exactly one message, from the user to the given group, and changes nothing else. Group existence and membership are not checked. A request without a message reads the chat. |
| `GroupRoute.NotifiesEachOnceExtend` | routes/group_route.py:164-165 | Notifying one more member extends the notified set by exactly that member. |
| `GroupRoute.NotifiesEachOnceCount` | routes/group_route.py:162-165 | When each member is notified once, there are exactly as many new notifications as members. |
| `GroupRoute.NotifyMembers` | routes/group_route.py:161-165 | Each recipient gets exactly one notification with the given text, appended after the existing rows, which stay in order. The number of new rows equals the number of recipients. No other table changes. The notification id counter and the clock advance by the number of notifications sent, and the other id counters stay as they were. The new rows carry consecutive ids and timestamps, starting from the counter and the clock as they were before. |
| `GroupRoute.RemoveGroup` | routes/group_route.py:167-169 | The group's messages, its membership pairs and its row are removed. Its chat and member set become empty, and every other group keeps its chat and its members. Tasks and notifications are unchanged. |
| `GroupRoute.DeleteGroup` | routes/group_route.py:142-173 | A missing group answers 404, and a user other than the creator gets 403. Neither changes anything. Otherwise every member gets exactly one "deleted" notification, and earlier notifications stay in order. Afterwards the group has no messages, no membership pairs and no row. Other groups, their members and messages, and all tasks are unchanged. The notification id counter and the clock advance by the number of notifications sent, and the other id counters stay as they were. The new rows carry consecutive ids and timestamps, starting from the counter and the clock as they were before. |
| `NotificationRoute.CreateNotification` | routes/notification_route.py:7-16 | Exactly one row with the given recipient and text is appended. Earlier notifications stay in order, and nothing else changes. |
| `NotificationRoute.Notifications` | routes/notification_route.py:20-33 | With no user id in the session the page redirects to login. Otherwise it holds exactly the notifications whose recipient is the user, ordered by non-increasing `created_at`. |
| `NotificationRoute.Feed` | routes/notification_route.py:26-27 | A feed is no longer than the table, and each of its entries is a stored row addressed to that user. |
| `NotificationRoute.FeedContents` | routes/notification_route.py:26-28 | A user's feed holds exactly the rows addressed to that user. |
| `NotificationRoute.FeedNewestFirst` | routes/notification_route.py:27 | When the table is stored oldest first, a feed is ordered newest first. |
| `NotificationRoute.FeedAfterAppend` | routes/notification_route.py:10-13 | A new notification appears first in its recipient's feed. No other user's feed changes. |
| `Scenarios.CreateThenJoin` | routes/group_route.py:39-84 | One user creates "Sprint" and another joins with its code. Both are then members, and the joiner has exactly one notification, "added to the group". |
| `Scenarios.AssignGroupTask` | routes/task_route.py:119-140 | A group task assigned to another user gives that user exactly one assignment notification and gives the creator none. |
| `Scenarios.DeleteAssignedTask` | routes/task_route.py:206-225 | After the creator deletes a task assigned to someone else, it is gone from both users' task lists, and the deletion sends no notification. |
| `Scenarios.JoinTwice` | routes/group_route.py:72-84 | When no two groups share a code, a second join with the same code gives the same answer and changes nothing. Both joins together add at most the one pair and the one "added" notification of a single join, with that notification's id and timestamp, and advance the notification id counter and the clock by that one row. |

## Left out

- Rendering, blueprints, `redirect`/`url_for` and the GET branches that only render forms are left out. That includes the user and group pickers of `new_task_group` (routes/task_route.py:103-117), which only read. Outcomes are `Reply` values.
- Sessions and the secret key (app.py:14) are replaced by the explicit user parameter. app.py only registers blueprints.
- Database connections, cursors and commits are not modelled. Each handler is one atomic step. Notifications are committed on their own connection in the source; the model does not represent a failure between the two commits.
- `TaskRoute.TaskList` returns the matching tasks as a map. It leaves out `ORDER BY due_date` and where the store puts NULL due dates.
- The JOINs with `users` that add creator, assignee, sender and group names are left out. The `users` table is outside the model. As a result, the inner joins that would hide a task or message whose creator or sender has no user row, and a chat member with no user row (routes/group_route.py:128-133), are not modelled: `ViewChat` lists every member pair of the group.
- `GroupRoute.GenerateGroupCode` takes the random draws as a parameter. Each draw is the index `random.choices` picked, and `NewGroup` takes six. The distribution of the draws is not modelled.
- `GroupRoute.Upper` maps only the ASCII letters a-z. Python's `str.upper` also changes other characters, some of them into several characters. No invite code contains such characters, but a typed code could.
- The lookup of a code compares strings exactly. A case-insensitive collation in the store, if there is one, is not modelled. The upper-casing in the route makes it irrelevant for codes the generator produced.
- Form values arrive as integers in the model: the assignee in `TaskForm.assignedTo`, and the group and task ids. A non-numeric assignee, which makes `int(...)` fail in the source after the task has been committed, is not modelled. Optional text fields are stored as given.
- `created_at` is a counter that increases with every insert, so no two rows share a timestamp. With real timestamps, rows from the same second are returned in an unspecified order.
- Concurrency between requests and transaction isolation are not modelled.
