# Bug tracker core, modelled in Dafny

This project models the decision logic of a project/bug tracker built on a
REST framework and a websocket layer. Users own projects and belong to them
as members. Projects hold bugs, bugs hold comments, and every bug or comment
mutation writes an entry to an activity log and publishes an event to the
project's broadcast group. Each open socket relays those events to its
client, and it relays "typing" signals from its client to the other sockets
of the group.

The model has these parts:

- `Models` (models.dfy) is the store: users, projects, the member relation
  as a set of (project, user) pairs, bugs, comments and activity entries.
  Every table is a sequence in insertion order. Ids come from one counter,
  `nextId`, and creation stamps from an abstract clock. `WellFormed` states
  the invariants:
  - referential integrity;
  - the column lengths;
  - unique ids and usernames;
  - creation order along every table.

  The field defaults and the delete cascades are pure functions over the
  store.
- `Serializers` (serializers.dfy) covers the request and response sides:
  - the representations the API and the broadcasts carry;
  - the derived counts and `project_name`;
  - the validation of request bodies, which reads only the writable fields;
  - the `create` overrides that stamp the requester as owner, creator or
    commenter.
- `Views` (views.dfy) covers the REST layer:
  - the four querysets and `my_bugs`;
  - `add_member` and `remove_member`;
  - the bug create and update hooks, and the comment create hook.

  Each request is a pure step function from the store to a new store, the
  group messages it sent, and its outcome. The class `Views.Tracker` holds
  the store and a channel layer, and does the same work imperatively:
  save, then log, then send. Each of its methods is proved equal to the
  step function, and the step functions carry the lemmas.
- `Channels` (channels.dfy) is the channel layer. Groups map a group name
  to a set of channel names, and every `group_send` appends one record to
  an outbox.
- `Consumers` (consumers.dfy) is the per-connection socket consumer:
  - a class whose fields are set by `connect`;
  - joining and leaving the project group;
  - turning inbound "typing" frames into group events;
  - the four outbound handlers.
- `Seqs`, `Text` and `JsonData` are support modules: filters and orderings
  over sequences, decimal text, and JSON values.

Where the tracker's own description and its code differ, the model follows
the code:

- Creating a comment whose body has no `bug_id`, or names no bug, is
  described as a client error. In the code the hook's error `Response` is
  discarded by the framework's `create`. Nothing is stored, logged or sent,
  and the model states exactly that. The status code is not modelled.
- Typing events are described as never echoed to their sender. The code
  suppresses them by username, so the sender's other connections skip them
  too (`Consumers.TypingReachesOthersOnly`).
- Activity entries are described as never deleted. The foreign keys
  cascade, so deleting a project, a bug or a user deletes entries
  (`Models.DeleteProject`, `Models.DeleteBug`, `Models.DeleteUser`).
- The owner is described as implicitly a member. The member relation does
  not contain the owner. Visibility is "owner or member" everywhere, and an
  owner who removes themselves keeps the project
  (`Views.RemovedMemberSeesOnlyOwned`).
- A bug update is described as possibly changing the assignee. `assigned_to`
  is read-only in the bug serializer, so through this API the assignment
  phrase is never written (`Views.UpdateNeverReassigns`). The general
  two-field diff is still modelled and proved (`Views.ChangePhrases`).
- Bug create and update accept any existing project, with no membership
  check. Comment create accepts any existing bug, whatever the requester
  can see (`Views.CommentNeedsNoAccess`).

## Model

| member | source | states |
|---|---|---|
| Views.ProjectQueryset | tracker/rest/views/tracker.py:28-30 | a project is listed iff it is stored and the user owns it or is in its member set; the listing is newest first and, with unique ids, strictly decreasing by id, so each project appears at most once |
| Views.BugQueryset | tracker/rest/views/tracker.py:78-82 | a bug is listed iff it is stored and the user owns its project, is a member of its project, or created it; newest first, each bug once |
| Views.MyBugs | tracker/rest/views/tracker.py:109-113 | exactly the visible bugs whose assignee is the user, in the same newest-first order |
| Views.ActivityQueryset | tracker/rest/views/tracker.py:202-206 | an entry is listed iff it is stored and the user owns or belongs to its project; newest first |
| Views.CommentQueryset | tracker/rest/views/tracker.py:143-151 | with a non-empty `bug_id` parameter, every comment of that bug whoever asks, and a failure exactly when the parameter is not an integer; without it, the comments whose bug's project the user owns or belongs to; oldest first |
| Views.VisibleProject | tracker/rest/views/tracker.py:34 | `get_object`: the project with that id when the user sees it, and nothing exactly when no project with that id is visible |
| Views.VisibleBug | tracker/rest/views/tracker.py:89-90 | the bug with that id among the visible ones, and nothing exactly when none has it |
| Views.LookupName | tracker/rest/views/tracker.py:35 | a string `username` is looked up as itself; an absent or null one matches no user |
| Views.NamedUser | tracker/rest/views/tracker.py:40 | the stored user whose username is the looked-up name, and nothing exactly when no user has it |
| Views.AddMemberStep | tracker/rest/views/tracker.py:32-46 | a 404 for the project iff it is not visible; "User not found" iff it is visible and no user has the name; only the member set changes, and it only grows |
| Views.RemoveMemberStep | tracker/rest/views/tracker.py:48-62 | a 404 for the project iff it is not visible; "User not found" iff it is visible and no user has the name; only the member set changes, and it only shrinks |
| Views.AddMemberEffect | tracker/rest/views/tracker.py:32-46 | `add_member` succeeds iff the project is visible and the username names a user; success inserts exactly that pair into the member set and changes nothing else; a failure changes nothing |
| Views.AddMemberIdempotent | tracker/rest/views/tracker.py:41 | adding the same user a second time gives the same store and the same answer as adding them once |
| Views.AddedMemberSeesProject | tracker/rest/views/tracker.py:28-46 | after a successful add, the added user's project listing contains the project |
| Views.RemoveMemberEffect | tracker/rest/views/tracker.py:48-62 | `remove_member` succeeds iff the project is visible and the username names a user; success removes exactly that pair; a failure changes nothing; projects, and so ownership, are never changed |
| Views.RemovedMemberSeesOnlyOwned | tracker/rest/views/tracker.py:57 | after a successful remove, the removed user still sees the project iff they own it, so an owner may remove themselves |
| Views.MemberStepsWellFormed | tracker/rest/views/tracker.py:32-62 | adding or removing a member keeps the store well formed |
| Views.AssigneeName | tracker/rest/views/tracker.py:98-101 | a null assignee is rendered "Unassigned", any other as that user's username |
| Views.ChangePhrases | tracker/rest/views/tracker.py:94-102 | the list is empty iff neither status nor assignee changed; it holds at most two phrases, two iff both changed; the status phrase comes first and the assignment phrase last |
| Views.UpdateDescriptionOrder | tracker/rest/views/tracker.py:105 | the description is `Bug "<title>" - ` followed by the status phrase, then ", " and the assignment phrase, for each of the three ways the fields can change |
| Views.LogFor | tracker/rest/views/tracker.py:115-122 | `_log_activity` appends exactly one entry against the bug and its project, by the given user, with the given action and description; nothing else changes but the counters, and the store stays well formed |
| Views.PerformCreateBugStep | tracker/rest/views/tracker.py:84-87 | the bug create hook keeps the store well formed |
| Views.CreateBugStep | tracker/rest/views/tracker.py:84-87 | a create is rejected iff the body is invalid, never answers "not found", and keeps the store well formed |
| Views.CreateBugOutcome | tracker/rest/views/tracker.py:84-87 | a bug is created iff the body is valid; an invalid body stores and sends nothing; a valid one runs the hook on the validated fields |
| Views.PerformCreateBugRow | tracker/rest/views/tracker.py:85 | exactly one bug row is appended, with the next id, created by the requester, unassigned, with the title, description and project of the body, and status and priority from the body or else "Open" and "Medium"; users, projects, members and comments are unchanged |
| Views.PerformCreateBugLogged | tracker/rest/views/tracker.py:84-87 | exactly one entry is appended to the log: action "created", description `Bug "<title>" was created`, by the requester, against the new bug and its project; only the bug table, the log and the two counters change |
| Views.PerformCreateBugAnnounced | tracker/rest/views/tracker.py:84-87 | exactly one message is sent: a `bug_update` with event type "bug_created", the new bug's id and, as data, the serialization of the new bug in the saved store, to the group of the bug's project |
| Views.PerformUpdateBugStep | tracker/rest/views/tracker.py:89-107 | the bug update hook keeps the store well formed and saves the bug under its own id |
| Views.UpdateBugStep | tracker/rest/views/tracker.py:89-107 | an update is rejected as invalid iff the bug is visible and the body invalid; the store stays well formed |
| Views.UpdateBugOutcome | tracker/rest/views/tracker.py:89-107 | an update is "not found" iff the bug is not visible, and is saved iff the bug is visible and the body valid; any other outcome stores and sends nothing; a saved update keeps the requested id and runs the hook |
| Views.PerformUpdateBugEffect | tracker/rest/views/tracker.py:89-107 | the updated row replaces the old one under the same id; with neither status nor assignee changed, nothing is logged or sent; otherwise exactly one "updated" entry with the change description, by the requester, against the bug and its project, and exactly one "bug_updated" message to that project's group carrying the serialization of the updated bug |
| Views.PerformUpdateBugStore | tracker/rest/views/tracker.py:89-107 | when an update logs, the store is the saved store with one more id and tick and the new log; besides the saved row nothing else changes |
| Views.UpdateNeverReassigns | tracker/rest/views/tracker.py:97-102 | since the assignee is not writable, an update keeps it, writes only the status phrase, and is announced iff the status changed |
| Views.CommentOnStep | tracker/rest/views/tracker.py:160-174 | once the bug is found, the comment is stored under the next id and the store stays well formed |
| Views.BugIdKey | tracker/rest/views/tracker.py:161 | the id looked up is the integer itself, 1 or 0 for a boolean, or `int()` of a string; any other value makes the lookup raise |
| Views.PerformCreateCommentStep | tracker/rest/views/tracker.py:153-179 | the hook answers "bug_id is required" iff `bug_id` is absent or falsy, never rejects the body, and keeps the store well formed |
| Views.CreateCommentStep | tracker/rest/views/tracker.py:153-179 | a comment create is rejected iff the body is invalid, and keeps the store well formed |
| Views.CreateCommentOutcome | tracker/rest/views/tracker.py:153-179 | a comment is stored iff the body is valid and `bug_id` is present, truthy, readable as an id and names a stored bug, and then it goes on that bug; a missing or falsy `bug_id`, an unknown bug or an unreadable id each store, log and send nothing |
| Views.CommentOnEffect | tracker/rest/views/tracker.py:162-174 | exactly one comment on that bug by the requester, exactly one "commented" entry `Comment added to bug "<title>"` against the bug and its project, and exactly one `comment_added` message to that project's group carrying the serialization of the new comment; only the comments, the log and the two counters change |
| Views.CommentNeedsNoAccess | tracker/rest/views/tracker.py:153-162 | whether a comment is stored does not depend on who asks |
| Views.CreateProjectStep | tracker/rest/serializers/tracker.py:35-37 | a project is created iff the body is valid; the new row is owned by the requester and carries the next id. Only the project table and the id and clock counters change: users, members, bugs, comments and log stay |
| Views.Tracker.LogActivity | tracker/rest/views/tracker.py:115-122 | the store becomes `LogFor` of the old store |
| Views.Tracker.SendWebsocketUpdate | tracker/rest/views/tracker.py:124-136 | exactly the bug's message is appended to the outbox; groups are unchanged |
| Views.Tracker.SendCommentNotification | tracker/rest/views/tracker.py:181-192 | exactly the comment's message is appended to the outbox; groups are unchanged |
| Views.Tracker.AddMember | tracker/rest/views/tracker.py:32-46 | the new store and the answer are those of the `add_member` step; the store stays well formed |
| Views.Tracker.RemoveMember | tracker/rest/views/tracker.py:48-62 | the new store and the answer are those of the `remove_member` step; the store stays well formed |
| Views.Tracker.HandleCreateProject | tracker/rest/serializers/tracker.py:35-37 | the new store and the answer are those of the project create step |
| Views.Tracker.PerformCreateBug | tracker/rest/views/tracker.py:84-87 | save, log and send leave the store and the outbox as the create hook step says; groups are unchanged |
| Views.Tracker.HandleCreateBug | tracker/rest/views/tracker.py:84-87 | store, outbox and answer are those of the bug create step |
| Views.Tracker.DescribeChanges | tracker/rest/views/tracker.py:94-102 | the list built by appending is the change list |
| Views.Tracker.PerformUpdateBug | tracker/rest/views/tracker.py:89-107 | re-reading the stored row, saving, and logging and sending only on a change leave the store and the outbox as the update hook step says |
| Views.Tracker.HandleUpdateBug | tracker/rest/views/tracker.py:89-107 | store, outbox and answer are those of the bug update step |
| Views.Tracker.CommentOn | tracker/rest/views/tracker.py:160-174 | store, outbox and answer are those of commenting on the found bug |
| Views.Tracker.PerformCreateComment | tracker/rest/views/tracker.py:153-179 | store, outbox and answer are those of the comment hook step |
| Views.Tracker.HandleCreateComment | tracker/rest/views/tracker.py:153-179 | store, outbox and answer are those of the comment create step |
| Serializers.SerializeBug | tracker/rest/serializers/tracker.py:53-80 | the fields are copied from the row; `created_by` and `assigned_to` are the serializations of those very users; `project_name` is the name of the bug's project; `comment_count` is the number of the bug's comments and of nested comments |
| Serializers.SerializeBugComments | tracker/rest/serializers/tracker.py:57 | the nested comments are exactly the bug's own comments, serialized, in increasing id order |
| Serializers.SerializeProject | tracker/rest/serializers/tracker.py:13-33 | id, name and description are copied; the owner is the serialization of the owning user; the members are exactly the serializations of the users in the member set; `bug_count` is the number of the project's bugs |
| Serializers.SerializeComment | tracker/rest/serializers/tracker.py:40-45 | id and message are copied and the commenter is the serialization of the commenting user |
| Serializers.SerializeActivity | tracker/rest/serializers/tracker.py:87-92 | id, action and description are copied and the user is the serialization of the acting user |
| Serializers.CommentsOf | tracker/rest/serializers/tracker.py:57 | exactly the comments attached to the bug, oldest first, one per comment id |
| Serializers.CommentCount | tracker/rest/serializers/tracker.py:79-80 | `comment_count` is the number of distinct comments attached to the bug |
| Serializers.BugCount | tracker/rest/serializers/tracker.py:32-33 | `bug_count` is the number of distinct bugs of the project |
| Serializers.CharField | tracker/models.py:7 | a text field is accepted iff present (or optional), a string or number, non-blank where required, within its maximum length, and free of NUL characters |
| Serializers.ChoiceField | tracker/models.py:26-29 | a choice field is absent iff its key is, and accepted iff its text is one of the choices, the value then being that text |
| Serializers.PkOf | tracker/rest/serializers/tracker.py:69 | an integer is its own key, a string is read by `int()`, and no other kind of value gives a key |
| Serializers.ProjectField | tracker/rest/serializers/tracker.py:69 | `project` is accepted iff its key names a stored project, the value then being that id; it is absent iff not given and not required |
| Serializers.ValidateProject | tracker/rest/serializers/tracker.py:13-30 | a body is valid iff `name` is a non-blank text of at most 200 characters and `description`, if given, is text; the validated name is that text, and the description is given iff the body has one, and is then that text |
| Serializers.ValidateBug | tracker/rest/serializers/tracker.py:53-77 | a body is valid iff none of title, description, status, priority and project is rejected (all five required for a full body); a title is 1 to 200 characters, a description non-blank, status and priority choices, the project existing; each validated field is present iff its key is, and is then the text, choice or id the body gave |
| Serializers.ValidateComment | tracker/rest/serializers/tracker.py:40-46 | a body is valid iff `message` is non-blank text without a NUL character, and the message is that text |
| Serializers.ProjectIgnoresReadOnly | tracker/rest/serializers/tracker.py:14-15 | a key other than `name` and `description` (`owner` and `members` among them) does not affect project validation |
| Serializers.BugIgnoresReadOnly | tracker/rest/serializers/tracker.py:54-58 | a key other than the five writable ones (`created_by` and `assigned_to` among them) does not affect bug validation |
| Serializers.CommentIgnoresReadOnly | tracker/rest/serializers/tracker.py:41 | a key other than `message` (`commenter` among them) does not affect comment validation |
| Serializers.CreateProject | tracker/rest/serializers/tracker.py:35-37 | exactly one project is appended, owned by the requester, with the next id |
| Serializers.CreatedProjectOwnedByRequester | tracker/rest/serializers/tracker.py:35-37 | whatever a valid body carries, the created project's owner is the requester |
| Serializers.CreateBug | tracker/rest/serializers/tracker.py:82-84 | exactly one bug is appended, created by the requester, unassigned, with the next id, the validated title, description and project, and the defaults for status and priority left out |
| Serializers.AssigneeNotWritable | tracker/rest/serializers/tracker.py:55 | no valid body gives a created bug an assignee or changes the assignee on update |
| Serializers.UpdateBug | tracker/rest/serializers/tracker.py:53-77 | the fields the body gave replace those of the row; id, stamp, creator and assignee stay |
| Serializers.CreateComment | tracker/rest/serializers/tracker.py:48-50 | exactly one comment is appended, by the requester, with the next id |
| Serializers.CreateBugWellFormed | tracker/models.py:23-40 | a validated bug saved by an existing user keeps the store well formed |
| Models.InsertProjectWellFormed | tracker/models.py:6-12 | a new project owned by an existing user with a name of at most 200 characters keeps the store well formed |
| Models.InsertBugWellFormed | tracker/models.py:23-40 | a new bug with an existing project and creator, an optional existing assignee and fitting lengths keeps the store well formed |
| Models.InsertCommentWellFormed | tracker/models.py:51-54 | a new comment on an existing bug by an existing user keeps the store well formed |
| Models.AppendActivityWellFormed | tracker/models.py:65-74 | a new entry with an existing project and user, an optional existing bug and an action of at most 20 characters keeps the store well formed |
| Models.AddMembershipWellFormed | tracker/models.py:12 | a member pair of an existing project and user keeps the store well formed |
| Models.RemoveMembershipWellFormed | tracker/models.py:12 | removing a member pair keeps the store well formed |
| Models.SaveBugWellFormed | tracker/models.py:23-40 | saving a bug over its own row with fitting references keeps the store well formed |
| Models.SaveBugRows | tracker/rest/views/tracker.py:91 | `serializer.save()` of an update adds and drops no row: the saved bug takes the place of the row with its id, every other row and table stays |
| Models.DropBugs | tracker/models.py:37-72 | a bug survives iff neither it, its project nor its creator is deleted; a comment iff its bug survives and its commenter is not deleted; an entry iff its project, bug and user survive; survivors keep their order |
| Models.DropBugsReferences | tracker/models.py:52-71 | after the cascade every surviving comment and entry points at a surviving bug |
| Models.DeleteProject | tracker/models.py:37-71 | deleting a project deletes exactly its bugs, its entries, its member pairs and, through its bugs, their comments and entries |
| Models.DeleteBug | tracker/models.py:52-71 | deleting a bug deletes exactly its comments and entries; projects, users and member pairs are untouched |
| Models.ClearAssignee | tracker/models.py:30-36 | SET_NULL: the bug is no longer assigned to the deleted user, every other field stays, an assignee that remains is the old one, and a bug not assigned to that user is unchanged |
| Models.ClearAssigneesRows | tracker/models.py:30-36 | clearing keeps every row but its assignee, and keeps the bug table in order |
| Models.DeleteUser | tracker/models.py:9-72 | exactly the other users remain; a project remains iff the user does not own it; a member pair iff it is not the user's and its project remains; a bug remains iff the user neither created it nor owns its project, with its assignee cleared if it was the user; a comment remains iff it is not the user's and its bug remains; an entry iff it is not the user's and its project and bug remain; the tables stay in order |
| Models.UserCascade | tracker/models.py:37-72 | the bug, comment and entry rows left after deleting a user and the projects they own are exactly those the cascade spares, in order |
| Models.DeleteBugWellFormed | tracker/models.py:52-71 | deleting a bug leaves no dangling reference |
| Models.DeleteProjectWellFormed | tracker/models.py:37-71 | deleting a project leaves no dangling reference |
| Models.DeleteUserWellFormed | tracker/models.py:9-72 | deleting a user leaves no dangling reference |
| Consumers.HasAccessIff | tracker/consumers.py:90-100 | access is granted iff the user is not anonymous, the project exists, and the user owns it or is a member |
| Consumers.ProjectConsumer.HasProjectAccess | tracker/consumers.py:90-100 | the imperative check answers the access predicate |
| Consumers.ProjectConsumer.Connect | tracker/consumers.py:10-21 | project id and group `project_<id>` are recorded; with access the channel joins that group and the connection opens; without access it closes and every group is as before; nothing is sent |
| Consumers.ProjectConsumer.Disconnect | tracker/consumers.py:23-26 | the channel leaves its project group and every other group is unchanged |
| Consumers.Inbound | tracker/consumers.py:28-45 | an event is emitted iff the frame is a JSON object whose type is "typing"; undecodable text is dropped; a value that is not an object raises; the event carries the connection's username, `bug_id` and `is_typing` (default false) |
| Consumers.ProjectConsumer.Receive | tracker/consumers.py:28-45 | a typing frame appends exactly one event to the outbox, for this connection's group; any other frame appends nothing; a decoded value that is not an object raises and closes the connection, any other frame leaves it open; groups are unchanged |
| Consumers.Relay | tracker/consumers.py:48-88 | a typing event reaches the client iff its user is not this connection's username; bug, comment and activity events are forwarded field for field |
| Consumers.TypingReachesOthersOnly | tracker/consumers.py:28-83 | a typing frame from one username reaches a connection iff that connection's username differs, so the sender's other connections skip it too |
| Consumers.ProjectConsumer.BugUpdateHandler | tracker/consumers.py:48-58 | exactly one `bug_update` frame with the event's type, bug id and data is sent |
| Consumers.ProjectConsumer.CommentAddedHandler | tracker/consumers.py:60-69 | exactly one `comment_added` frame with the event's bug id and data is sent |
| Consumers.ProjectConsumer.TypingIndicatorHandler | tracker/consumers.py:71-83 | one `typing_indicator` frame is sent iff the event's user differs from this connection's username, otherwise nothing |
| Consumers.ProjectConsumer.ActivityUpdateHandler | tracker/consumers.py:85-88 | exactly one `activity_update` frame with the event's data is sent |
| Consumers.ProjectConsumer.Dispatch | tracker/consumers.py:48-88 | the frames sent for a group event are exactly what `Relay` says |
| Channels.GroupName | tracker/consumers.py:12 | the group name is `project_` followed by decimal text that reads back as the project id |
| Channels.GroupNameInjective | tracker/consumers.py:12 | distinct projects have distinct groups, so an event never reaches another project's sockets |
| Channels.WithChannel | tracker/consumers.py:16-18 | the channel joins the group and every other group is unchanged |
| Channels.WithoutChannel | tracker/consumers.py:24-26 | the channel leaves the group and every other group is unchanged |
| Channels.DiscardUndoesAdd | tracker/consumers.py:16-26 | leaving the group just joined restores it, unless the channel was already in it |
| Channels.ChannelLayer.GroupSend | tracker/rest/views/tracker.py:128-136 | exactly one record is appended to the outbox; membership is untouched |
| Channels.ChannelLayer.GroupAdd | tracker/consumers.py:16-18 | the groups become `WithChannel` of the old groups; the outbox is unchanged |
| Channels.ChannelLayer.GroupDiscard | tracker/consumers.py:24-26 | the groups become `WithoutChannel` of the old groups; the outbox is unchanged |
| Text.ParseIntToString | tracker/rest/views/tracker.py:146 | reading back the decimal text of any integer gives that integer |
| Text.ParseNatToString | tracker/rest/views/tracker.py:146 | reading back the decimal text of any natural number gives that number |
| Text.ParseInt | tracker/rest/views/tracker.py:161 | a string is read iff it is digits after an optional sign, and a negative result has a minus sign |

## Left out

- Some infrastructure is not modelled: the websocket transport, the
  channel layer's asynchronous delivery, `async_to_sync` and
  `database_sync_to_async`. A `group_send` is one record appended to an
  outbox. Delivery order across requests is the transport's business.
- Each request is atomic. The unlocked read-modify-write in
  `perform_update` (tracker/rest/views/tracker.py:90-91) and any other
  concurrency are not modelled.
- HTTP status codes and response bodies are not modelled. The outcome
  datatypes name the branch taken. The comment hook's own error responses
  are discarded by the framework, so only their effects are modelled.
- Timestamps: `created_at` is an abstract counter that increases with
  every insert, and `updated_at` is not modelled. The Meta orderings become
  table order.
- Choices: the contents of the status, priority and action choice lists
  are not part of this model. They are a parameter whose strings fit 20
  characters. Only the literals the code uses are fixed: "Open", "Medium",
  "created", "updated" and "commented".
- The REST list, retrieve, update and destroy endpoints of projects and
  comments, destroy of bugs, and the framework's search, ordering and
  filter backends are not modelled. Deletion is modelled at the store level
  only, by the cascade functions.
- JSON parsing itself is not modelled: `json.loads` is given as its
  result (`Consumers.Decoded`). The outbound `json.dumps` is modelled as
  structured frames.
- Views.LookupName: a list or an object given as `username` matches no
  user. The text Django would compare, the value's Python representation,
  is not modelled.
- Text.ParseInt: `int()` is modelled on an optional sign followed by
  decimal digits. Surrounding whitespace, underscores and non-ASCII digits
  are not accepted.
- Serializers.CharField: the framework trims whitespace before the
  blank and length checks. No trimming is modelled. Floats in bodies are
  not modelled. The framework also refuses lone surrogate code points. A
  Dafny `char` is a Unicode scalar value and cannot hold one, so such text
  cannot be given to the model at all.
- The members of a serialized project are a set. The order of the
  database's answer is not modelled.
- The routing file that extracts `project_id` from the socket URL is not
  part of this model. `project_id` is a natural number given to
  `Consumers.ProjectConsumer.Connect`.
- The serializer `create` overrides mutate `validated_data` before
  saving. They are modelled as functions that build the saved row.
- `ProjectsView` (templating), the admin, URL and ASGI modules, user
  registration and the websocket smoke-test command are glue and are not
  modelled.
- Consumers.ProjectConsumer.Receive requires an open connection. The
  framework delivers frames only after `accept`. When a frame that is not
  an object raises, the connection is closed. `disconnect` does not run,
  so the channel stays in its group.
- Views.BugMessage, Views.CommentMessage and Models.NewBug are definitions
  without contracts of their own. What they promise is stated by
  Views.PerformCreateBugAnnounced, Views.PerformUpdateBugEffect,
  Views.CommentOnEffect, Views.PerformCreateBugRow and
  Serializers.CreateBug.
- Views.UpdateDescription is a definition. Its text is stated by
  Views.UpdateDescriptionOrder.
