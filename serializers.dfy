/** tracker/rest/serializers/tracker.py: the representations the API and the
    broadcasts carry, the validation of request bodies (which reads only the
    writable fields, so every read-only field of the input is ignored), and the
    `create` overrides that stamp the requester onto the new row. */
module Serializers {
  import opened Seqs
  import opened Text
  import opened JsonData
  import opened Models

  // ---------------------------------------------------------------- output

  /** `UserSerializer`: id, username, email, first_name, last_name. */
  datatype UserRepr = UserRepr(id: nat, username: string, email: string, firstName: string, lastName: string)

  datatype CommentRepr = CommentRepr(id: nat, message: string, commenter: UserRepr)

  datatype BugRepr = BugRepr(
    id: nat,
    title: string,
    description: string,
    status: string,
    priority: string,
    assignedTo: Option<UserRepr>,
    project: nat,
    projectName: string,
    createdBy: UserRepr,
    comments: seq<CommentRepr>,
    commentCount: nat)

  datatype ProjectRepr = ProjectRepr(
    id: nat,
    name: string,
    description: string,
    owner: UserRepr,
    members: set<UserRepr>,
    bugCount: nat)

  datatype ActivityRepr = ActivityRepr(id: nat, user: UserRepr, action: string, description: string)

  function SerializeUser(u: User): UserRepr {
    UserRepr(u.id, u.username, u.email, u.firstName, u.lastName)
  }

  /** The user row with id `id`. */
  function UserOf(db: Db, id: nat): (u: User)
    requires id in UserIds(db)
    ensures u in db.users && u.id == id
  {
    var w :| w in db.users && w.id == id;
    assert UserKey(w) == id;
    FindUser(db, id).value
  }

  /** The project row with id `id`. */
  function ProjectOf(db: Db, id: nat): (p: Project)
    requires id in ProjectIds(db)
    ensures p in db.projects && p.id == id
  {
    var w :| w in db.projects && w.id == id;
    assert ProjectKey(w) == id;
    FindProject(db, id).value
  }

  function SerializeComment(db: Db, c: Comment): (r: CommentRepr)
    requires c.commenter in UserIds(db)
    ensures r.id == c.id && r.message == c.message
    ensures exists u :: u in db.users && u.id == c.commenter && r.commenter == SerializeUser(u)
  {
    CommentRepr(c.id, c.message, SerializeUser(UserOf(db, c.commenter)))
  }

  /** The ids of the comments attached to bug `bid`. */
  ghost function CommentIdsOf(db: Db, bid: nat): set<nat> {
    set c | c in db.comments && c.bug == bid :: c.id
  }

  /** The ids of the bugs of project `pid`. */
  ghost function BugIdsOf(db: Db, pid: nat): set<nat> {
    set b | b in db.bugs && b.project == pid :: b.id
  }

  /** `bug.comments`: the comments attached to bug `bid`, oldest first; with
      unique ids there is one per comment id of the bug. */
  function CommentsOf(db: Db, bid: nat): (r: seq<Comment>)
    ensures forall c :: c in r <==> c in db.comments && c.bug == bid
    ensures Increasing(db.comments, CommentKey) ==>
      Increasing(r, CommentKey) && |r| == |CommentIdsOf(db, bid)|
  {
    var f := (c: Comment) => c.bug == bid;
    FilterKeepsOrder(db.comments, f, CommentKey);
    FilterCountKeys(db.comments, CommentKey, f);
    assert KeysWhere(db.comments, CommentKey, f) == CommentIdsOf(db, bid);
    Filter(db.comments, f)
  }

  /** `get_comment_count`: `obj.comments.count()`. */
  function CommentCount(db: Db, bid: nat): (n: nat)
    ensures Increasing(db.comments, CommentKey) ==> n == |CommentIdsOf(db, bid)|
  {
    |CommentsOf(db, bid)|
  }

  /** `get_bug_count`: `obj.bugs.count()`. */
  function BugCount(db: Db, pid: nat): (n: nat)
    ensures Increasing(db.bugs, BugKey) ==> n == |BugIdsOf(db, pid)|
  {
    var f := (b: Bug) => b.project == pid;
    FilterCountKeys(db.bugs, BugKey, f);
    assert KeysWhere(db.bugs, BugKey, f) == BugIdsOf(db, pid);
    |Filter(db.bugs, f)|
  }

  /** The nested `comments` of a bug representation, in the order given. */
  function SerializeComments(db: Db, cs: seq<Comment>): (r: seq<CommentRepr>)
    requires forall c | c in cs :: c.commenter in UserIds(db)
    ensures |r| == |cs|
    ensures forall i :: 0 <= i < |cs| ==> r[i].id == cs[i].id && r[i].message == cs[i].message
    ensures forall x :: x in r <==> exists c :: c in cs && x == SerializeComment(db, c)
  {
    seq(|cs|, i requires 0 <= i < |cs| => SerializeComment(db, cs[i]))
  }

  /** `BugSerializer(bug).data`. */
  function SerializeBug(db: Db, b: Bug): (r: BugRepr)
    requires Increasing(db.comments, CommentKey)
    requires forall c | c in db.comments :: c.commenter in UserIds(db)
    requires BugRowFits(db, b)
    ensures r.id == b.id && r.title == b.title && r.description == b.description
    ensures r.status == b.status && r.priority == b.priority && r.project == b.project
    ensures exists u :: u in db.users && u.id == b.createdBy && r.createdBy == SerializeUser(u)
    ensures r.assignedTo.Some? <==> b.assignedTo.Some?
    ensures r.assignedTo.Some? ==>
      exists u :: u in db.users && u.id == b.assignedTo.value && r.assignedTo.value == SerializeUser(u)
    ensures exists p :: p in db.projects && p.id == b.project && r.projectName == p.name
    ensures r.commentCount == |CommentIdsOf(db, b.id)| == |r.comments|
  {
    var comments := CommentsOf(db, b.id);
    var reprs := SerializeComments(db, comments);
    BugRepr(
      b.id, b.title, b.description, b.status, b.priority,
      if b.assignedTo.Some? then Some(SerializeUser(UserOf(db, b.assignedTo.value))) else None,
      b.project, ProjectOf(db, b.project).name, SerializeUser(UserOf(db, b.createdBy)),
      reprs, CommentCount(db, b.id))
  }

  /** The nested `comments` of a serialized bug are exactly the bug's own
      comments, serialized, oldest first. */
  lemma SerializeBugComments(db: Db, b: Bug)
    requires Increasing(db.comments, CommentKey)
    requires forall c | c in db.comments :: c.commenter in UserIds(db)
    requires BugRowFits(db, b)
    ensures var r := SerializeBug(db, b);
      && (forall i, j :: 0 <= i < j < |r.comments| ==> r.comments[i].id < r.comments[j].id)
      && (forall x :: x in r.comments <==>
            exists c :: c in db.comments && c.bug == b.id && x == SerializeComment(db, c))
  {
  }

  /** `ProjectSerializer(project).data`. */
  function SerializeProject(db: Db, p: Project): (r: ProjectRepr)
    requires WellFormed(db) && p.owner in UserIds(db)
    ensures r.id == p.id && r.name == p.name && r.description == p.description
    ensures exists u :: u in db.users && u.id == p.owner && r.owner == SerializeUser(u)
    ensures forall x :: x in r.members <==>
      exists u :: u in db.users && IsMember(db, p.id, u.id) && x == SerializeUser(u)
    ensures r.bugCount == |BugIdsOf(db, p.id)|
  {
    ProjectRepr(
      p.id, p.name, p.description, SerializeUser(UserOf(db, p.owner)),
      set u | u in db.users && IsMember(db, p.id, u.id) :: SerializeUser(u),
      BugCount(db, p.id))
  }

  /** `ActivityLogSerializer(entry).data`. */
  function SerializeActivity(db: Db, a: Activity): (r: ActivityRepr)
    requires a.user in UserIds(db)
    ensures r.id == a.id
    ensures exists u :: u in db.users && u.id == a.user && r.user == SerializeUser(u)
    ensures r.action == a.action && r.description == a.description
  {
    ActivityRepr(a.id, SerializeUser(UserOf(db, a.user)), a.action, a.description)
  }

  // ----------------------------------------------------------------- input

  datatype Validated<T> = Valid(value: T) | Invalid

  /** One field of a body after validation: left out (and not required),
      accepted with a value, or rejected. */
  datatype Field<T> = Absent | Present(value: T) | Rejected

  /** A `CharField` reads a string or a number as its text; a boolean, `null`,
      a list or an object is rejected. */
  function CharText(v: Json): Option<string> {
    match v
    case JString(s) => Some(s)
    case JInt(i) => Some(IntToString(i))
    case _ => None
  }

  /** `CharField(required, allow_blank, max_length)` on key `k` of `body`.
      Besides the blank and length checks, every `CharField` refuses text
      holding a NUL character. */
  function CharField(body: Body, k: string, required: bool, allowBlank: bool, maxLength: Option<nat>): (r: Field<string>)
    ensures r.Present? <==>
      k in body && CharText(body[k]).Some? &&
      (allowBlank || CharText(body[k]).value != "") &&
      (maxLength.Some? ==> |CharText(body[k]).value| <= maxLength.value) &&
      '\0' !in CharText(body[k]).value
    ensures r.Present? ==> r.value == CharText(body[k]).value
    ensures r.Absent? <==> k !in body && !required
  {
    if k !in body then (if required then Rejected else Absent)
    else match CharText(body[k])
      case None => Rejected
      case Some(s) =>
        if s == "" && !allowBlank then Rejected
        else if maxLength.Some? && |s| > maxLength.value then Rejected
        else if '\0' in s then Rejected
        else Present(s)
  }

  /** The text `str()` gives a choice input: only strings, numbers and booleans
      can match a choice key. */
  function ChoiceText(v: Json): Option<string> {
    match v
    case JString(s) => Some(s)
    case JInt(i) => Some(IntToString(i))
    case JBool(b) => Some(if b then "True" else "False")
    case _ => None
  }

  /** An optional `ChoiceField` on key `k`: present values must name a choice. */
  function ChoiceField(body: Body, k: string, choices: set<string>): (r: Field<string>)
    ensures r.Present? <==> k in body && ChoiceText(body[k]).Some? && ChoiceText(body[k]).value in choices
    ensures r.Present? ==> r.value == ChoiceText(body[k]).value && r.value in choices
    ensures r.Absent? <==> k !in body
  {
    if k !in body then Absent
    else match ChoiceText(body[k])
      case Some(s) => if s in choices then Present(s) else Rejected
      case None => Rejected
  }

  /** The primary key a `PrimaryKeyRelatedField` looks up: an integer, or a
      string `int()` reads; `null`, booleans, lists and objects are rejected. */
  function PkOf(v: Json): (r: Option<int>)
    ensures v.JInt? ==> r == Some(v.i)
    ensures v.JString? ==> r == ParseInt(v.s)
    ensures r.Some? ==> v.JInt? || v.JString?
  {
    match v
    case JInt(i) => Some(i)
    case JString(s) => ParseInt(s)
    case _ => None
  }

  /** The required `project` field: the id of an existing project. */
  function ProjectField(db: Db, body: Body, required: bool): (r: Field<nat>)
    ensures r.Present? ==> r.value in ProjectIds(db)
    ensures r.Present? <==> ("project" in body && PkOf(body["project"]).Some? &&
      exists p :: p in db.projects && p.id == PkOf(body["project"]).value)
    ensures r.Present? ==> r.value == PkOf(body["project"]).value
    ensures r.Absent? <==> "project" !in body && !required
  {
    if "project" !in body then (if required then Rejected else Absent)
    else match PkOf(body["project"])
      case None => Rejected
      case Some(k) =>
        match FindProject(db, k)
        case Some(p) => Present(p.id)
        case None => Rejected
  }

  function FieldValue<T>(f: Field<T>): Option<T> {
    if f.Present? then Some(f.value) else None
  }

  /** The validated data of a project body: `name` and `description` are the
      only writable fields. */
  datatype ProjectInput = ProjectInput(name: string, description: Option<string>)

  function ValidateProject(body: Body): (r: Validated<ProjectInput>)
    ensures r.Valid? ==> 1 <= |r.value.name| <= NAME_MAX_LENGTH
    ensures r.Valid? <==>
      CharField(body, "name", true, false, Some(NAME_MAX_LENGTH)).Present? &&
      !CharField(body, "description", false, true, None).Rejected?
    ensures r.Valid? ==> r.value.name == CharText(body["name"]).value
    ensures r.Valid? ==> (r.value.description.Some? <==> "description" in body)
    ensures r.Valid? && "description" in body ==> r.value.description == CharText(body["description"])
  {
    var name := CharField(body, "name", true, false, Some(NAME_MAX_LENGTH));
    var description := CharField(body, "description", false, true, None);
    if name.Present? && !description.Rejected? then Valid(ProjectInput(name.value, FieldValue(description)))
    else Invalid
  }

  /** The validated data of a bug body; with `partial` (PATCH) every field may
      be left out. `title`, `description`, `status`, `priority` and `project`
      are the only writable fields. */
  datatype BugInput = BugInput(
    title: Option<string>,
    description: Option<string>,
    status: Option<string>,
    priority: Option<string>,
    project: Option<nat>)

  /** The fields a full (non-partial) body must carry. */
  predicate Complete(b: BugInput) {
    b.title.Some? && b.description.Some? && b.project.Some?
  }

  function ValidateBug(db: Db, choices: Choices, body: Body, partial: bool): (r: Validated<BugInput>)
    ensures r.Valid? && !partial ==> Complete(r.value)
    ensures r.Valid? ==> r.value.title.Some? ==> 1 <= |r.value.title.value| <= TITLE_MAX_LENGTH
    ensures r.Valid? ==> r.value.description.Some? ==> r.value.description.value != ""
    ensures r.Valid? ==> r.value.status.Some? ==> r.value.status.value in choices.status
    ensures r.Valid? ==> r.value.priority.Some? ==> r.value.priority.value in choices.priority
    ensures r.Valid? ==> r.value.project.Some? ==> r.value.project.value in ProjectIds(db)
    ensures r.Valid? <==>
      && !CharField(body, "title", !partial, false, Some(TITLE_MAX_LENGTH)).Rejected?
      && !CharField(body, "description", !partial, false, None).Rejected?
      && !ChoiceField(body, "status", choices.status).Rejected?
      && !ChoiceField(body, "priority", choices.priority).Rejected?
      && !ProjectField(db, body, !partial).Rejected?
    ensures r.Valid? ==> (r.value.title.Some? <==> "title" in body)
    ensures r.Valid? ==> (r.value.description.Some? <==> "description" in body)
    ensures r.Valid? ==> (r.value.status.Some? <==> "status" in body)
    ensures r.Valid? ==> (r.value.priority.Some? <==> "priority" in body)
    ensures r.Valid? ==> (r.value.project.Some? <==> "project" in body)
    ensures r.Valid? && "title" in body ==> r.value.title == CharText(body["title"])
    ensures r.Valid? && "description" in body ==> r.value.description == CharText(body["description"])
    ensures r.Valid? && "status" in body ==> r.value.status == ChoiceText(body["status"])
    ensures r.Valid? && "priority" in body ==> r.value.priority == ChoiceText(body["priority"])
    ensures r.Valid? && "project" in body ==>
      r.value.project.Some? && r.value.project.value == PkOf(body["project"]).value
  {
    var title := CharField(body, "title", !partial, false, Some(TITLE_MAX_LENGTH));
    var description := CharField(body, "description", !partial, false, None);
    var status := ChoiceField(body, "status", choices.status);
    var priority := ChoiceField(body, "priority", choices.priority);
    var project := ProjectField(db, body, !partial);
    if title.Rejected? || description.Rejected? || status.Rejected? || priority.Rejected? || project.Rejected?
    then Invalid
    else Valid(BugInput(FieldValue(title), FieldValue(description), FieldValue(status),
                        FieldValue(priority), FieldValue(project)))
  }

  /** The validated data of a comment body: `message` is the only writable field. */
  datatype CommentInput = CommentInput(message: string)

  function ValidateComment(body: Body): (r: Validated<CommentInput>)
    ensures r.Valid? <==>
      "message" in body && CharText(body["message"]).Some? && CharText(body["message"]).value != "" &&
      '\0' !in CharText(body["message"]).value
    ensures r.Valid? ==> r.value.message == CharText(body["message"]).value
  {
    var message := CharField(body, "message", true, false, None);
    if message.Present? then Valid(CommentInput(message.value)) else Invalid
  }

  /** Keys a project body may set. */
  const PROJECT_WRITABLE: set<string> := {"name", "description"}
  /** Keys a bug body may set. */
  const BUG_WRITABLE: set<string> := {"title", "description", "status", "priority", "project"}
  /** Keys a comment body may set. */
  const COMMENT_WRITABLE: set<string> := {"message"}

  /** Read-only fields (`owner`, `members`, `bug_count`, `id`, the timestamps)
      and unknown keys of a project body have no effect on validation. */
  lemma ProjectIgnoresReadOnly(body: Body, k: string, v: Json)
    requires k !in PROJECT_WRITABLE
    ensures ValidateProject(body[k := v]) == ValidateProject(body)
  {
    assert CharField(body[k := v], "name", true, false, Some(NAME_MAX_LENGTH)) ==
      CharField(body, "name", true, false, Some(NAME_MAX_LENGTH));
    assert CharField(body[k := v], "description", false, true, None) ==
      CharField(body, "description", false, true, None);
  }

  /** Read-only fields (`created_by`, `assigned_to`, `project_name`,
      `comments`, `comment_count`, `id`, the timestamps) and unknown keys of a
      bug body have no effect on validation. */
  lemma BugIgnoresReadOnly(db: Db, choices: Choices, body: Body, partial: bool, k: string, v: Json)
    requires k !in BUG_WRITABLE
    ensures ValidateBug(db, choices, body[k := v], partial) == ValidateBug(db, choices, body, partial)
  {
    var b2 := body[k := v];
    assert CharField(b2, "title", !partial, false, Some(TITLE_MAX_LENGTH)) ==
      CharField(body, "title", !partial, false, Some(TITLE_MAX_LENGTH));
    assert CharField(b2, "description", !partial, false, None) == CharField(body, "description", !partial, false, None);
    assert ChoiceField(b2, "status", choices.status) == ChoiceField(body, "status", choices.status);
    assert ChoiceField(b2, "priority", choices.priority) == ChoiceField(body, "priority", choices.priority);
    assert ProjectField(db, b2, !partial) == ProjectField(db, body, !partial);
  }

  /** Read-only fields (`commenter`, `id`, the timestamps) and every other key,
      `bug_id` included, have no effect on comment validation. */
  lemma CommentIgnoresReadOnly(body: Body, k: string, v: Json)
    requires k !in COMMENT_WRITABLE
    ensures ValidateComment(body[k := v]) == ValidateComment(body)
  {
    assert CharField(body[k := v], "message", true, false, None) == CharField(body, "message", true, false, None);
  }

  // ------------------------------------------------------- create overrides

  /** `ProjectSerializer.create`: the requester becomes the owner, whatever the
      body said; the new row is appended with fresh id and stamp. */
  function CreateProject(db: Db, input: ProjectInput, requester: nat): (r: Db)
    ensures r.projects == db.projects + [Project(db.nextId, input.name, input.description.GetOr(""), requester, db.clock)]
    ensures r.projects[|r.projects| - 1].owner == requester
    ensures r == Advance(db).(projects := r.projects)
  {
    InsertProject(db, input.name, input.description.GetOr(""), requester)
  }

  /** `BugSerializer.create`: the requester becomes `created_by`; status and
      priority take the model defaults when left out; no assignee. */
  function CreateBug(db: Db, input: BugInput, requester: nat): (r: Db)
    requires Complete(input)
    ensures |r.bugs| == |db.bugs| + 1 && r.bugs[..|db.bugs|] == db.bugs
    ensures r.bugs[|db.bugs|].createdBy == requester
    ensures r.bugs[|db.bugs|].id == db.nextId
    ensures r.bugs[|db.bugs|].assignedTo.None?
    ensures r.bugs[|db.bugs|].status == input.status.GetOr(DEFAULT_STATUS)
    ensures r.bugs[|db.bugs|].priority == input.priority.GetOr(DEFAULT_PRIORITY)
    ensures r.bugs[|db.bugs|].project == input.project.value
    ensures r.bugs[|db.bugs|].title == input.title.value
    ensures r.bugs[|db.bugs|].description == input.description.value
    ensures r == Advance(db).(bugs := r.bugs)
  {
    InsertBug(db, NewBug(db, input.title.value, input.description.value, input.status,
                         input.priority, input.project.value, requester))
  }

  /** `serializer.save()` of an update: the fields present in the input
      replace those of the row; id, stamp, creator and assignee stay. */
  function UpdateBug(b: Bug, input: BugInput): (r: Bug)
    ensures r.id == b.id && r.created == b.created && r.createdBy == b.createdBy
    ensures r.assignedTo == b.assignedTo
    ensures r.title == input.title.GetOr(b.title) && r.description == input.description.GetOr(b.description)
    ensures r.status == input.status.GetOr(b.status) && r.priority == input.priority.GetOr(b.priority)
    ensures r.project == input.project.GetOr(b.project)
  {
    b.(title := input.title.GetOr(b.title),
       description := input.description.GetOr(b.description),
       status := input.status.GetOr(b.status),
       priority := input.priority.GetOr(b.priority),
       project := input.project.GetOr(b.project))
  }

  /** `CommentSerializer.create`: the requester becomes the commenter. */
  function CreateComment(db: Db, bug: nat, input: CommentInput, requester: nat): (r: Db)
    ensures r.comments == db.comments + [Comment(db.nextId, bug, requester, input.message, db.clock)]
    ensures r.comments[|r.comments| - 1].commenter == requester
    ensures r == Advance(db).(comments := r.comments)
  {
    InsertComment(db, bug, requester, input.message)
  }

  /** Whatever a valid project body carries, the owner of the created project
      is the requester. */
  lemma CreatedProjectOwnedByRequester(db: Db, body: Body, requester: nat)
    requires ValidateProject(body).Valid?
    ensures var r := CreateProject(db, ValidateProject(body).value, requester);
      exists p :: p in r.projects && p.id == db.nextId && p.owner == requester
  {
    var r := CreateProject(db, ValidateProject(body).value, requester);
    assert r.projects[|r.projects| - 1] in r.projects;
  }

  /** A bug as created never has an assignee, and since `assigned_to` is
      read-only an update keeps the assignee it had. */
  lemma AssigneeNotWritable(db: Db, choices: Choices, body: Body, partial: bool, b: Bug)
    requires ValidateBug(db, choices, body, partial).Valid?
    ensures UpdateBug(b, ValidateBug(db, choices, body, partial).value).assignedTo == b.assignedTo
    ensures !partial ==> CreateBug(db, ValidateBug(db, choices, body, partial).value, 0).bugs[|db.bugs|].assignedTo.None?
  {
  }

  /** A saved bug fits its columns: validated fields, an existing project and
      an existing creator keep the store well formed. */
  lemma CreateBugWellFormed(db: Db, choices: Choices, input: BugInput, requester: nat)
    requires WellFormed(db) && ChoicesFit(choices) && Complete(input)
    requires input.title.Some? ==> |input.title.value| <= TITLE_MAX_LENGTH
    requires input.status.Some? ==> input.status.value in choices.status
    requires input.priority.Some? ==> input.priority.value in choices.priority
    requires input.project.value in ProjectIds(db) && requester in UserIds(db)
    ensures WellFormed(CreateBug(db, input, requester))
  {
    var b := NewBug(db, input.title.value, input.description.value, input.status,
                    input.priority, input.project.value, requester);
    assert BugRowFits(db, b);
    InsertBugWellFormed(db, b);
  }
}
