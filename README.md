# Task manager: a verified model of the API routes and their client-side view rules

The system is a small task manager. An Express server (`backend/Server.js`) keeps three
document collections: users, tasks and groups. It serves routes to:

- register users and manage them;
- create, list, update and delete tasks, personal or belonging to a group;
- create groups, edit them and manage their member lists.

A React client shows the tasks on a Kanban board, one card per task. A dashboard filters
the tasks by view. An admin page manages the members of groups.

This Dafny project models:

- **The store.** `Store.Db` holds the three collections as maps from document id to document.
- **The permission rules** (`Authz`). These are the creator, assignee, group owner,
  group member, admin and self checks that the handlers make before they write.
- **Every modelled route.** Each one answers `Result<...>`: either the new store (or the
  listed documents) or a `Failure` carrying the HTTP status the route sends (400, 403 or 404).
  - A straight-line handler becomes a function.
  - A handler that loops becomes a method with the same loop and its invariants. The
    looping handlers are the batch cascades of the two delete routes, the allow-list
    loop of the task update, the two-snapshot merge of the user listings, and the
    chunked lookups and replacements of the read routes.
  - Each route is proved against a specification function. Lemmas state what the
    route promises: invariants it keeps, round trips, and who may do what.
- **Reference hydration** (`Hydration`). The read routes do the following:
  - collect the ids a response mentions, without repetition;
  - query them ten at a time, the limit of the store's `in` query;
  - replace each id by the summary found for it, or keep the raw id when none is found.

  A reference in a response is `Raw(id)` or `Resolved(summary)`. The chunked lookup is
  proved equal to a direct lookup. Turning the hydrated references back into ids gives
  the stored list.
- **The client view rules**, over the responses of the listing routes:
  - Kanban bucketing;
  - the TaskCard flags and deadline badge;
  - the Dashboard filters and counters;
  - the admin page's "users not in this group" list and its name and e-mail lookups.

  Lemmas tie these rules back to the backend. For example, on a card from the
  user-tasks listing, the client's owner and assignee tests agree with the server's
  creator and assignee tests.

Inputs that come from outside the handlers are parameters of the model:

- **The requester id**, which the token middleware yields.
- **The id the store gives a new document**, with `newId !in ...`.
- **The password digest**, which bcrypt computes.
- **The order in which the store enumerates a collection**, as a sequence `order` that
  lists every key once. Each query snapshot is taken in that order.
- **On the client:**
  - whether the deadline is before now;
  - the whole days left until the deadline;
  - the id of the signed-in user, where "" means there is none.

## Model

| member | source | states |
|---|---|---|
| Seqs.Without | backend/Server.js:1254 | the filtered member list holds exactly the old members other than the removed id, never more |
| Seqs.WithoutAppend | backend/Server.js:382 | filtering distributes over concatenation, so the remaining members keep their relative order |
| Seqs.WithoutNoDup | backend/Server.js:1254 | filtering a duplicate-free list keeps it duplicate-free and shortens it by one when the id was present |
| Seqs.AppendThenWithout | backend/Server.js:1179-1180 | filtering out an id just appended to a list that lacked it gives the list back |
| Seqs.DeleteKeys | backend/Server.js:373-375 | deleting each id of a snapshot leaves exactly the documents whose id is not in the snapshot, unchanged |
| Hydration.ChunksCover | backend/Server.js:598-601 | the chunks concatenate back to the id list and each holds 1 to 10 ids |
| Hydration.ChunksCount | backend/Server.js:598 | there are ceil(n/10) chunks, one per started ten ids |
| Hydration.ChunkIsSlice | backend/Server.js:600-601 | chunk k is exactly `slice(10k, 10k + 10)` of the id list |
| Hydration.ChunksPartition | backend/Server.js:597-601 | with distinct ids, every id lands in exactly one chunk |
| Hydration.ChunkStep | backend/Server.js:600-601 | while ids remain after k chunks, the loop's next slice is chunk k and extends the covered prefix |
| Hydration.FetchSummaries | backend/Server.js:595-615 | pass k of the chunk loop queries chunk k; the merged map equals the summaries of the listed ids that have a document |
| Hydration.Distinct | backend/Server.js:587-597 | the collected ids hold no duplicate and exactly the ids mentioned |
| Hydration.Resolve | backend/Server.js:618-621 | replacement keeps length and order; position k is the summary of id k, or the raw id when none was found |
| Hydration.ResolveFetched | backend/Server.js:617-621 | replacing with a map fetched for a superset of the ids equals replacing with a direct lookup |
| Hydration.MissingStaysRaw | backend/Server.js:620 | an id with no document stays a raw id |
| Hydration.RefIds | src/Pages/AdminGroups/AdminGroupsPage.jsx:185-187 | references normalise to ids: raw ids as they are, summaries by their `_id`, position by position |
| Hydration.HydrationRoundTrip | backend/Server.js:620 | normalising a hydrated id list back to ids gives the stored list |
| Hydration.MergedUnion | backend/Server.js:557-584 | merging two duplicate-free snapshots gives no duplicate, exactly their union, and the first snapshot as prefix |
| Hydration.MergeSnapshots | backend/Server.js:557-584 | the two forEach loops with the processed-id set build the first snapshot then the unseen part of the second |
| Authz.UpdateAllowedCases | backend/Server.js:754-770 | update allowed iff creator, or admin, or assignee with a body whose only key is `status` |
| Authz.CreatorAssigneeMayEditAnything | backend/Server.js:766 | a creator who is also an assignee may send any body |
| Authz.AssigneeMayNotDelete | backend/Server.js:841-849 | an assignee who is neither creator nor admin may not delete |
| UserRoutes.Register | backend/Server.js:80-104 | 400 when a field is missing (checked first), 400 when the e-mail is in use; else the users map gains exactly one entry under the new id, holding the e-mail, the username, the password digest and role `user`, and nothing else changes |
| UserRoutes.AddUserKeepsEmailsUnique | backend/Server.js:89-93 | adding a user with an unused e-mail keeps e-mails unique |
| UserRoutes.RegisterKeepsEmailsUnique | backend/Server.js:88-104 | registration keeps e-mails unique |
| UserRoutes.RegisterNeverGrantsAdmin | backend/Server.js:101 | a self-registered user is never admin |
| UserRoutes.AdminCreateUser | backend/Server.js:210-241 | 403 for a non-admin first, then 400 for a missing field or e-mail in use; else one new user with role `role` or `user` |
| UserRoutes.AdminCreateKeepsEmailsUnique | backend/Server.js:226-232 | admin creation keeps e-mails unique |
| UserRoutes.AdminCreateStoresAnyRole | backend/Server.js:238 | admin creation stores a role outside {user, admin} as given |
| UserRoutes.UpdateUser | backend/Server.js:252-285 | 404 for a missing target or requester; success iff admin or self; only non-empty username and e-mail are written, everything else kept |
| UserRoutes.UpdateUserCanDuplicateEmail | backend/Server.js:280-285 | a profile update can give a user another user's e-mail |
| UserRoutes.UpdateRole | backend/Server.js:307-333 | 403 unless admin, then 400 unless the role is `user` or `admin`, then 404; else only that role changes |
| UserRoutes.UpdateRoleKeepsRolesValid | backend/Server.js:319-333 | the role route keeps every stored role in {user, admin} |
| UserRoutes.LastAdminMayDemoteSelf | backend/Server.js:307-333 | the only admin may demote themselves, leaving no admin |
| UserRoutes.StripMember | backend/Server.js:382 | the group keeps its name and owner and loses exactly the removed member |
| UserRoutes.DeleteTasksOf | backend/Server.js:370-375 | the batch deletes exactly the tasks the user created |
| UserRoutes.StripFromGroups | backend/Server.js:378-384 | every group listing the user gets its member list filtered; the other groups are untouched |
| UserRoutes.DeleteUser | backend/Server.js:353-390 | 403 unless admin, then 404 for a missing target; else the store after the whole batch |
| UserRoutes.AfterUserDeletedSpec | backend/Server.js:369-387 | afterwards the user is gone, no task has them as creator, no group lists them, other tasks and group owners are unchanged |
| UserRoutes.DeleteUserKeepsAnchored | backend/Server.js:369-390 | the cascade keeps every group task pointing at an existing group |
| UserRoutes.DeleteUserLeavesDanglingRefs | backend/Server.js:369-387 | groups owned by the deleted user and tasks assigned to them keep the stale id |
| TaskRoutes.CreateTask | backend/Server.js:403-422 | 400 iff name, description or deadline is missing; else the tasks map gains exactly the new task under the new id, users and groups unchanged |
| TaskRoutes.CreateTaskStoresInput | backend/Server.js:410-419 | for every input, the new task holds the given name, description, deadline and category, the requester as creator, `status` or "In Progress", `assignedTo` or [], and `groupId` or no group |
| TaskRoutes.CreateGroupTask | backend/Server.js:461-505 | 400 for a missing field or group id, then 404 for a missing group, then success iff owner or member |
| TaskRoutes.AdminGetsNoGroupTaskBypass | backend/Server.js:479-484 | an admin who neither owns nor belongs to the group gets 403 |
| TaskRoutes.PersonalRouteSkipsGroupCheck | backend/Server.js:403-422 | the personal route stores a group id for a requester whom the group route refuses |
| TaskRoutes.CreateGroupTaskKeepsAnchored | backend/Server.js:470-474 | the group route keeps group tasks pointing at existing groups |
| TaskRoutes.CreateTaskCanOrphan | backend/Server.js:418 | the personal route can store a task pointing at a group that does not exist |
| TaskRoutes.CreateTaskExample | backend/Server.js:415-419 | a personal task gets status "In Progress", no group, no assignees and its creator's id |
| TaskRoutes.ApplyUpdates | backend/Server.js:773-785 | the allow-list loop writes each allowed field present in the body and keeps the rest |
| TaskRoutes.UpdateTask | backend/Server.js:739-788 | 404 for a missing task first, 403 unless the permission rules allow the body, else the patched task |
| TaskRoutes.UnlistedKeysIgnored | backend/Server.js:773-785 | body keys outside the allow-list have no effect |
| TaskRoutes.StatusOnlyBody | backend/Server.js:766-785 | a body with only `status` changes the status and nothing else |
| TaskRoutes.PatchIdempotent | backend/Server.js:776-785 | applying a body twice equals applying it once |
| TaskRoutes.PatchKeepsOwnership | backend/Server.js:773 | an update never rewrites the creator or the group |
| TaskRoutes.AssigneeMayOnlySetStatus | backend/Server.js:766-770 | a plain assignee gets through iff the body is exactly {status}, and then only the status changes |
| TaskRoutes.OutsiderMayNotUpdate | backend/Server.js:761-763 | someone who is none of creator, assignee or admin is refused whatever the body |
| TaskRoutes.DeleteTask | backend/Server.js:829-852 | 404 for a missing task before any permission check; success iff creator or admin; only that task is removed |
| TaskRoutes.UnknownRequesterDeletesOnlyOwn | backend/Server.js:844-849 | a requester without a user document is never admin: only the creator may delete |
| TaskRoutes.UserTaskIdsSpec | backend/Server.js:554-584 | the user-tasks listing has no duplicate, holds exactly the created or assigned tasks, and lists the created ones first |
| TaskRoutes.AssigneePool | backend/Server.js:587-592 | every assignee of every listed task is collected |
| TaskRoutes.HydrateAssignees | backend/Server.js:586-622 | each listed task's assignees are replaced as a direct lookup would replace them; nothing else changes |
| TaskRoutes.ListUserTasks | backend/Server.js:536-625 | 403 unless the requester asks for their own tasks; else the merged listing, position by position, with assignees hydrated |
| TaskRoutes.TaskUserPool | backend/Server.js:650-658 | every set creator id and every assignee is collected |
| TaskRoutes.TaskGroupPool | backend/Server.js:655 | every set group id is collected |
| TaskRoutes.HydrateTaskFetched | backend/Server.js:713-729 | with maps fetched for every id a task mentions, the replacement step equals the admin view |
| TaskRoutes.ListAllTasks | backend/Server.js:633-731 | 403 unless admin; else every task in store order with creator, group and assignees hydrated when found |
| GroupRoutes.CreateGroup | backend/Server.js:865-885 | 400 iff no name; else one new group owned by the requester, members from the array body or empty |
| GroupRoutes.CreatorMayAddGroupTasks | backend/Server.js:881 | the creator of a group passes the group-task permission check |
| GroupRoutes.UpdateGroup | backend/Server.js:1077-1106 | 404, then success iff owner or admin; a non-empty name and an array member list replace the old ones; owner kept |
| GroupRoutes.UpdateGroupCanDuplicateMembers | backend/Server.js:1103 | the update route can store the same member twice |
| GroupRoutes.AddMember | backend/Server.js:1145-1184 | 400 without a user id first, then 404, then 403 unless owner or admin, then 400 if already a member; else the id is appended |
| GroupRoutes.RemoveMember | backend/Server.js:1223-1258 | 404, then 403 unless owner, admin or self, then 400 for a non-member; else exactly that member is filtered out |
| GroupRoutes.AddMemberKeepsMembersDistinct | backend/Server.js:1174-1180 | adding a member keeps member lists duplicate-free |
| GroupRoutes.RemoveMemberKeepsMembersDistinct | backend/Server.js:1254 | removing a member keeps member lists duplicate-free |
| GroupRoutes.RemoveMemberKeepsOrder | backend/Server.js:1254 | the members before and after any kept member stay on their side of it |
| GroupRoutes.AddThenRemoveRoundTrip | backend/Server.js:1145-1258 | an owner adding and then removing a member gives back the store as it was |
| GroupRoutes.MemberMayLeave | backend/Server.js:1242-1244 | a member may always remove themselves |
| GroupRoutes.MemberMayNotAdd | backend/Server.js:1163-1171 | a requester who is neither owner nor admin may not add members |
| GroupRoutes.DeleteGroup | backend/Server.js:1297-1333 | 404, then 403 unless owner or admin; else the group and all its tasks are removed in one batch |
| GroupRoutes.AfterGroupDeletedSpec | backend/Server.js:1320-1330 | afterwards the group is gone, no task points at it, and every other task is unchanged |
| GroupRoutes.DeleteGroupKeepsAnchored | backend/Server.js:1320-1330 | the cascade keeps the remaining group tasks pointing at existing groups |
| GroupRoutes.UserGroupIdsSpec | backend/Server.js:924-952 | the user-groups listing has no duplicate, holds exactly the owned or joined groups, and lists the owned ones first |
| GroupRoutes.MemberPool | backend/Server.js:955-960 | every member of every listed group is collected |
| GroupRoutes.ListUserGroups | backend/Server.js:906-993 | 403 unless the requester asks for their own groups; else the merged listing with member lists hydrated |
| GroupRoutes.GroupUserPool | backend/Server.js:1015-1024 | every set owner id and every member is collected |
| GroupRoutes.HydrateGroupFetched | backend/Server.js:1057-1067 | with the map fetched for every id a group mentions, the replacement step equals the admin view |
| GroupRoutes.ListAllGroups | backend/Server.js:1001-1069 | 403 unless admin; else every group in store order with owner and members hydrated when found |
| Kanban.ValidTasks | frontend/src/components/Kanban/Kanban.jsx:22 | null and non-object entries are dropped; every other entry is kept |
| Kanban.ValidTasksAppend | frontend/src/components/Kanban/Kanban.jsx:22 | cleaning keeps the input order: it distributes over concatenation |
| Kanban.WithStatus | frontend/src/components/Kanban/Kanban.jsx:30 | a column holds exactly the tasks with its status |
| Kanban.MakeColumn | frontend/src/components/Kanban/Kanban.jsx:57 | the header count equals the number of cards in the column |
| Kanban.Board | frontend/src/components/Kanban/Kanban.jsx:26-36 | four columns in the order In Progress, Paused, Review, Done; each holds exactly the valid tasks with its status |
| Kanban.WithStatusAppend | frontend/src/components/Kanban/Kanban.jsx:30 | cards keep their input order within a column |
| Kanban.UnknownStatusShownNowhere | frontend/src/components/Kanban/Kanban.jsx:27-31 | a task with a status outside the four is on no column |
| Kanban.KnownStatusShownOnce | frontend/src/components/Kanban/Kanban.jsx:27-31 | a valid task with one of the four statuses is on exactly one column |
| Kanban.Unshown | frontend/src/components/Kanban/Kanban.jsx:27-31 | the tasks left off the board are exactly those with an unknown status |
| Kanban.CountsAddUp | frontend/src/components/Kanban/Kanban.jsx:57 | the four column sizes plus the unshown tasks add up to the task count |
| Kanban.BoardCountsAddUp | frontend/src/components/Kanban/Kanban.jsx:57 | the four header counts add up to the valid tasks less those with an unknown status |
| TaskCard.DeadlineStatus | frontend/src/components/TaskCard/TaskCard.jsx:50-78 | no badge without a deadline; done is green; otherwise red iff days < 0, orange iff 0 to 2, green iff more; 0 reads "Vence hoy" |
| TaskCard.DoneIsGreen | frontend/src/components/TaskCard/TaskCard.jsx:54-56 | a done task is "Completada" in green whatever the days |
| TaskCard.NatToStringRoundTrip | frontend/src/components/TaskCard/TaskCard.jsx:60-71 | the day count in the badge reads back as the number it was made from |
| TaskCard.PluralOnlyAwayFromOne | frontend/src/components/TaskCard/TaskCard.jsx:60-71 | the day count reads "día" exactly when it is one day away, in either direction |
| TaskCard.CardFlagsMatchBackend | frontend/src/components/TaskCard/TaskCard.jsx:35-42 | on a user-tasks card, isOwner iff the server's creator test and isAssigned iff its assignee test |
| TaskCard.DeleteButtonHonoured | frontend/src/components/TaskCard/TaskCard.jsx:161 | the delete button is enabled only where the delete route succeeds |
| TaskCard.EditButtonHonoured | frontend/src/components/TaskCard/TaskCard.jsx:138-154 | whoever sees the status select and edit button enabled on a user-tasks card gets the `{status}` body both send accepted by the update route; for a plain assignee that is the only body accepted |
| TaskCard.HydratedCreatorNeverOwner | frontend/src/components/TaskCard/TaskCard.jsx:35-36 | a property of the component on an input the app never supplies (the app renders cards only from the user-tasks listing): given an admin-listing task, the hydrated creator stringifies as an object, so nobody is the owner |
| Dashboard.PersonalTasks | src/Pages/Dashboard/Dashboardpage.jsx:167 | exactly the tasks without a group id |
| Dashboard.GroupTasks | src/Pages/Dashboard/Dashboardpage.jsx:168 | exactly the tasks whose group id equals the view |
| Dashboard.FilteredTasks | src/Pages/Dashboard/Dashboardpage.jsx:165-169 | "all" returns the list unchanged, "personal" the tasks without a group, any other view that group's tasks |
| Dashboard.FilteredTasksAppend | src/Pages/Dashboard/Dashboardpage.jsx:166-168 | filtering keeps the listing order |
| Dashboard.ViewsMatchStore | src/Pages/Dashboard/Dashboardpage.jsx:167-168 | on the user-tasks listing, "personal" and a group view select by the stored group id |
| Dashboard.DonePlusPending | src/Pages/Dashboard/Dashboardpage.jsx:81-82 | every task is counted either as completed or as pending |
| Dashboard.CompletedIsDoneColumn | src/Pages/Dashboard/Dashboardpage.jsx:81-82 | the completed counter equals the size of the Kanban's Done column for the same tasks, and the pending counter the rest |
| Dashboard.ComputeStats | src/Pages/Dashboard/Dashboardpage.jsx:79-84 | completed plus pending equals total; the group count is the raw answer's length |
| Dashboard.VisibleGroups | src/Pages/Dashboard/Dashboardpage.jsx:72 | falsy group entries are dropped and every other entry is kept |
| Dashboard.GroupCountIncludesNulls | src/Pages/Dashboard/Dashboardpage.jsx:72-83 | a property of the page on an input this server does not produce (the user-groups route answers no null entry): a null entry would be counted but not shown |
| AdminGroups.MemberIds | src/Pages/AdminGroups/AdminGroupsPage.jsx:85 | members are normalised to ids position by position |
| AdminGroups.NormalisedMembersAreStored | src/Pages/AdminGroups/AdminGroupsPage.jsx:185-187 | normalising a listed group's members gives the stored member ids |
| AdminGroups.NotIn | src/Pages/AdminGroups/AdminGroupsPage.jsx:189 | exactly the users whose id is not a member id |
| AdminGroups.UsersNotInGroup | src/Pages/AdminGroups/AdminGroupsPage.jsx:182-190 | no group or no member field gives every user; otherwise exactly the users not in the group |
| AdminGroups.NotInAppend | src/Pages/AdminGroups/AdminGroupsPage.jsx:189 | the candidates keep the order of the user list |
| AdminGroups.CandidatesAreNonMembers | src/Pages/AdminGroups/AdminGroupsPage.jsx:182-190 | every candidate for a listed group is a stored non-member, and adding them is never refused as a duplicate |
| AdminGroups.FindUser | src/Pages/AdminGroups/AdminGroupsPage.jsx:172 | nothing found iff no user has the id; a found user has it |
| AdminGroups.FindUserFirst | src/Pages/AdminGroups/AdminGroupsPage.jsx:172 | the first user with the id is the one found |
| AdminGroups.UserName | src/Pages/AdminGroups/AdminGroupsPage.jsx:171-174 | the found user's name, or "Usuario desconocido" when no user has the id |
| AdminGroups.UserEmail | src/Pages/AdminGroups/AdminGroupsPage.jsx:176-179 | the found user's e-mail, or "" when no user has the id |
| AdminGroups.AddUserDisabledIffAllMembers | src/Pages/AdminGroups/AdminGroupsPage.jsx:458 | the add button is disabled iff every listed user is already a member (or, without a group, iff there are no users) |

## Left out

- Login and the token middleware are not modelled. Password comparison (bcrypt), token signing and verification (jwt) are foreign cryptography; the requester id and the password digest are inputs.
- The two user-reading routes (`GET /api/users`, `GET /api/users/:userId`) are not modelled. They copy fields out with no rule worth stating.
- The start-up creation of the first admin is not modelled, nor is server start-up.
- Every `500` answer is not modelled. The model has no error for a store or library call that throws, nor for the handler crash described in the next two lines.
- UpdateTask: a body whose `dead_line` is present but falsy (an empty string or null) is stored as given, without conversion (`backend/Server.js:779-783`). The handler then calls `toDate()` on it (`backend/Server.js:816`) and answers 500 after the write has committed. The model answers with the patched store, holding an empty deadline.
- ListUserTasks, ListAllTasks: once such a task is stored, every listing that contains it calls `toDate()` on the falsy deadline (`backend/Server.js:568`, `580`, `663`) and answers 500, on every later request until the task is fixed or deleted. The model lists the task with its empty deadline.
- Response bodies on write paths are not modelled. Create, update, add-member and remove-member answer with a one-shot `in` query that silently drops unknown ids (`backend/Server.js:434`, `798`, `1116`, `1194`). The model returns the new store instead.
- Timestamps are not modelled: `createdAt`, `serverTimestamp`, `toDate`, and the conversion of the deadline to a date. A deadline is an opaque string. The create routes require it non-empty; an update can store an empty one (see UpdateTask above).
- Concurrent requests are not modelled. That includes the check-then-insert race on e-mails, read-modify-write races on member lists, and batch atomicity beyond "all writes of a batch apply together".
- JSON values of the wrong kind are not modelled, such as a number for a status or a string for `assignedTo`. Bodies are typed here, and an absent or empty string field is the empty string.
- A stored group without a `user` field is not modelled: its member list is always present. The frontend keeps the absent-list case as `None`. On the server, `groupData.user.includes` (`backend/Server.js:480`) would throw for such a group.
- Inherited JavaScript object keys are not modelled. Id lookups in the server's plain-object maps (`userMap[id]` with an id such as `constructor`) are map lookups here.
- An update that writes no field is modelled as a success that changes nothing. This covers an empty task-update allow-list, and a profile or group update with nothing to write. The store library may reject such an empty update.
- The Kanban input is not modelled when it is not an array; the model's input is always a list.
- The dashboard's own state setters and the services behind it are not modelled.
- TaskCard's group-name lookup is not modelled, nor are its async handlers.
- Moment's date arithmetic is not modelled. Whether the deadline is before now and the whole days left are inputs, so `IsOverdue` and the badge are not tied to one clock.
- `TaskCard.IsOverdue`, the action predicates `StatusSelectEnabled`/`EditEnabled`/`DeleteEnabled`, and the `Authz` predicates are definitions without contracts of their own. The lemmas above state their properties.
