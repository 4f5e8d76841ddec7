/** tracker/rest/views/tracker.py: which rows each user sees, the membership
    actions, and the create/update hooks that write the activity log and
    publish to the project's group. Each request runs to completion on its
    own; the requester is an authenticated user. */
module Views {
  import opened Seqs
  import opened Text
  import opened JsonData
  import opened Models
  import opened Serializers
  import opened Channels

  // ------------------------------------------------------------ querysets

  /** `Q(owner=user) | Q(members=user)` on a project. */
  predicate SeesProject(db: Db, user: nat, p: Project) {
    p.owner == user || IsMember(db, p.id, user)
  }

  /** `Q(project__owner=user) | Q(project__members=user)`: owner or member of
      the project with id `pid`. */
  predicate InProject(db: Db, user: nat, pid: nat) {
    OwnsProject(db, pid, user) || IsMember(db, pid, user)
  }

  /** `ProjectViewSet.get_queryset`, newest first. */
  function ProjectQueryset(db: Db, user: nat): (r: seq<Project>)
    ensures forall p :: p in r <==> p in db.projects && (p.owner == user || IsMember(db, p.id, user))
    ensures Increasing(db.projects, ProjectStamp) ==> Decreasing(r, ProjectStamp)
    ensures Increasing(db.projects, ProjectKey) ==> Decreasing(r, ProjectKey)
  {
    var f := (p: Project) => SeesProject(db, user, p);
    NewestFirst(db.projects, f, ProjectStamp);
    NewestFirst(db.projects, f, ProjectKey);
    Reverse(Filter(db.projects, f))
  }

  /** `BugViewSet.get_queryset`, newest first. */
  function BugQueryset(db: Db, user: nat): (r: seq<Bug>)
    ensures forall b :: b in r <==> (b in db.bugs &&
      (OwnsProject(db, b.project, user) || IsMember(db, b.project, user) || b.createdBy == user))
    ensures Increasing(db.bugs, BugStamp) ==> Decreasing(r, BugStamp)
    ensures Increasing(db.bugs, BugKey) ==> Decreasing(r, BugKey)
  {
    var f := (b: Bug) => InProject(db, user, b.project) || b.createdBy == user;
    NewestFirst(db.bugs, f, BugStamp);
    NewestFirst(db.bugs, f, BugKey);
    Reverse(Filter(db.bugs, f))
  }

  /** `my_bugs`: the visible bugs assigned to the requester, in the same order. */
  function MyBugs(db: Db, user: nat): (r: seq<Bug>)
    ensures forall b :: b in r <==> b in BugQueryset(db, user) && b.assignedTo == Some(user)
    ensures Increasing(db.bugs, BugStamp) ==> Decreasing(r, BugStamp)
    ensures Increasing(db.bugs, BugKey) ==> Decreasing(r, BugKey)
  {
    var visible := BugQueryset(db, user);
    var f := (b: Bug) => b.assignedTo == Some(user);
    FilterKeepsNewestFirst(visible, f, BugStamp);
    FilterKeepsNewestFirst(visible, f, BugKey);
    Filter(visible, f)
  }

  /** `ActivityLogViewSet.get_queryset`, newest first. */
  function ActivityQueryset(db: Db, user: nat): (r: seq<Activity>)
    ensures forall a :: a in r <==> (a in db.activities &&
      (OwnsProject(db, a.project, user) || IsMember(db, a.project, user)))
    ensures Increasing(db.activities, ActivityStamp) ==> Decreasing(r, ActivityStamp)
    ensures Increasing(db.activities, ActivityKey) ==> Decreasing(r, ActivityKey)
  {
    var f := (a: Activity) => InProject(db, user, a.project);
    NewestFirst(db.activities, f, ActivityStamp);
    NewestFirst(db.activities, f, ActivityKey);
    Reverse(Filter(db.activities, f))
  }

  /** A comment whose bug lies in a project the user owns or belongs to. */
  predicate SeesComment(db: Db, user: nat, c: Comment) {
    exists b :: b in db.bugs && b.id == c.bug && InProject(db, user, b.project)
  }

  /** `CommentViewSet.get_queryset`, oldest first. A non-empty `bug_id` query
      parameter selects that bug's comments whoever asks; one `int()` cannot
      read raises (`None`). Without it, the comments of bugs in projects the
      user owns or belongs to. */
  function CommentQueryset(db: Db, user: nat, bugIdParam: Option<string>): (r: Option<seq<Comment>>)
    ensures bugIdParam.Some? && bugIdParam.value != "" ==>
      (r.None? <==> ParseInt(bugIdParam.value).None?)
    ensures bugIdParam.Some? && bugIdParam.value != "" && r.Some? ==>
      forall c :: c in r.value <==> c in db.comments && c.bug == ParseInt(bugIdParam.value).value
    ensures !(bugIdParam.Some? && bugIdParam.value != "") ==>
      r.Some? && forall c :: c in r.value <==> c in db.comments && SeesComment(db, user, c)
    ensures r.Some? && Increasing(db.comments, CommentStamp) ==> Increasing(r.value, CommentStamp)
  {
    if bugIdParam.Some? && bugIdParam.value != "" then
      match ParseInt(bugIdParam.value)
      case None => None
      case Some(n) =>
        var f := (c: Comment) => c.bug == n;
        FilterKeepsOrder(db.comments, f, CommentStamp);
        Some(Filter(db.comments, f))
    else
      var f := (c: Comment) => SeesComment(db, user, c);
      FilterKeepsOrder(db.comments, f, CommentStamp);
      Some(Filter(db.comments, f))
  }

  /** `get_object` on the project viewset: the visible project with id `pid`. */
  function VisibleProject(db: Db, user: nat, pid: nat): (r: Option<Project>)
    ensures r.Some? ==> r.value in db.projects && r.value.id == pid && SeesProject(db, user, r.value)
    ensures r.None? <==> forall p :: p in db.projects && p.id == pid ==> !SeesProject(db, user, p)
  {
    Find(ProjectQueryset(db, user), ProjectKey, pid)
  }

  /** `get_object` on the bug viewset: the visible bug with id `bid`. */
  function VisibleBug(db: Db, user: nat, bid: nat): (r: Option<Bug>)
    ensures r.Some? ==> r.value in BugQueryset(db, user) && r.value.id == bid
    ensures r.None? <==> forall b :: b in BugQueryset(db, user) ==> b.id != bid
  {
    Find(BugQueryset(db, user), BugKey, bid)
  }

  // ---------------------------------------------------------- membership

  /** The value `User.objects.get(username=...)` compares with: the text of a
      string, number or boolean; no value (`None`, or an absent key) matches
      no user. Lists and objects are not modelled and match no user. */
  function LookupName(v: Option<Json>): (r: Option<string>)
    ensures v.Some? && v.value.JString? ==> r == Some(v.value.s)
    ensures v.None? || v.value.JNull? ==> r.None?
  {
    if v.None? then None
    else match v.value
      case JString(s) => Some(s)
      case JInt(i) => Some(IntToString(i))
      case JBool(b) => Some(if b then "True" else "False")
      case _ => None
  }

  datatype MemberResult = ProjectNotFound | UserNotFound | MemberDone(message: string)

  datatype MemberStep = MemberStep(db: Db, result: MemberResult)

  /** The user a membership body names, if there is one. */
  function NamedUser(db: Db, body: Body): (r: Option<User>)
    ensures r.Some? ==> r.value in db.users && LookupName(Get(body, "username")) == Some(r.value.username)
    ensures r.None? <==> (LookupName(Get(body, "username")).None? ||
      forall u :: u in db.users ==> u.username != LookupName(Get(body, "username")).value)
  {
    match LookupName(Get(body, "username"))
    case None => None
    case Some(name) => FindUserByName(db, name)
  }

  /** `add_member`: the project must be visible to the requester (else 404),
      the username must name a user (else 404 "User not found"); then the user
      is put in the member set. */
  function AddMemberStep(db: Db, requester: nat, pid: nat, body: Body): (s: MemberStep)
    ensures s.result.ProjectNotFound? <==> VisibleProject(db, requester, pid).None?
    ensures s.result.UserNotFound? <==> VisibleProject(db, requester, pid).Some? && NamedUser(db, body).None?
    ensures s.db == db.(memberships := s.db.memberships) && db.memberships <= s.db.memberships
  {
    if VisibleProject(db, requester, pid).None? then MemberStep(db, ProjectNotFound)
    else match NamedUser(db, body)
      case None => MemberStep(db, UserNotFound)
      case Some(u) =>
        MemberStep(AddMembership(db, pid, u.id), MemberDone("Added " + u.username + " to project"))
  }

  /** `remove_member`: as `add_member`, taking the user out of the member set. */
  function RemoveMemberStep(db: Db, requester: nat, pid: nat, body: Body): (s: MemberStep)
    ensures s.result.ProjectNotFound? <==> VisibleProject(db, requester, pid).None?
    ensures s.result.UserNotFound? <==> VisibleProject(db, requester, pid).Some? && NamedUser(db, body).None?
    ensures s.db == db.(memberships := s.db.memberships) && s.db.memberships <= db.memberships
  {
    if VisibleProject(db, requester, pid).None? then MemberStep(db, ProjectNotFound)
    else match NamedUser(db, body)
      case None => MemberStep(db, UserNotFound)
      case Some(u) =>
        MemberStep(RemoveMembership(db, pid, u.id), MemberDone("Removed " + u.username + " from project"))
  }

  /** Adding succeeds exactly when the project is visible and the user exists;
      it inserts one pair into the member set and changes nothing else, and a
      failure changes nothing. */
  lemma AddMemberEffect(db: Db, requester: nat, pid: nat, body: Body)
    ensures var s := AddMemberStep(db, requester, pid, body);
      && (s.result.MemberDone? <==> VisibleProject(db, requester, pid).Some? && NamedUser(db, body).Some?)
      && (s.result.MemberDone? ==>
            s.db == db.(memberships := db.memberships + {Membership(pid, NamedUser(db, body).value.id)}))
      && (!s.result.MemberDone? ==> s.db == db)
  {
  }

  /** Adding the same user twice is the same as adding them once. */
  lemma {:induction false} AddMemberIdempotent(db: Db, requester: nat, pid: nat, body: Body)
    requires Increasing(db.projects, ProjectKey)
    ensures var once := AddMemberStep(db, requester, pid, body);
      AddMemberStep(once.db, requester, pid, body) == once
  {
    var once := AddMemberStep(db, requester, pid, body);
    var p := VisibleProject(db, requester, pid);
    if p.Some? && NamedUser(db, body).Some? {
      assert once.db.projects == db.projects && once.db.users == db.users;
      assert SeesProject(once.db, requester, p.value);
      assert p.value in ProjectQueryset(once.db, requester);
      FindSomeNotNone(ProjectQueryset(once.db, requester), p.value, pid);
      var u := NamedUser(db, body).value;
      assert NamedUser(once.db, body) == NamedUser(db, body);
      assert once.db.memberships + {Membership(pid, u.id)} == once.db.memberships;
    }
  }

  /** `Find` finds something once an element with the key is present. */
  lemma FindSomeNotNone(s: seq<Project>, x: Project, k: int)
    requires x in s && ProjectKey(x) == k
    ensures Find(s, ProjectKey, k).Some?
  {
  }

  /** After a successful add, the added user sees the project. */
  lemma AddedMemberSeesProject(db: Db, requester: nat, pid: nat, body: Body)
    requires AddMemberStep(db, requester, pid, body).result.MemberDone?
    ensures var s := AddMemberStep(db, requester, pid, body);
      exists p :: p in ProjectQueryset(s.db, NamedUser(db, body).value.id) && p.id == pid
  {
    var s := AddMemberStep(db, requester, pid, body);
    var p := VisibleProject(db, requester, pid).value;
    var u := NamedUser(db, body).value;
    assert IsMember(s.db, pid, u.id);
    assert p in ProjectQueryset(s.db, u.id);
  }

  /** After a successful remove, the removed user sees the project exactly
      when they own it: an owner who removes themselves keeps it. */
  lemma RemovedMemberSeesOnlyOwned(db: Db, requester: nat, pid: nat, body: Body)
    requires Increasing(db.projects, ProjectKey)
    requires RemoveMemberStep(db, requester, pid, body).result.MemberDone?
    ensures var s := RemoveMemberStep(db, requester, pid, body);
      var u := NamedUser(db, body).value;
      (exists p :: p in ProjectQueryset(s.db, u.id) && p.id == pid) <==> OwnsProject(db, pid, u.id)
  {
    var s := RemoveMemberStep(db, requester, pid, body);
    var p := VisibleProject(db, requester, pid).value;
    var u := NamedUser(db, body).value;
    assert !IsMember(s.db, pid, u.id);
    if exists q :: q in ProjectQueryset(s.db, u.id) && q.id == pid {
      var q :| q in ProjectQueryset(s.db, u.id) && q.id == pid;
      assert q.owner == u.id;
    }
    if OwnsProject(db, pid, u.id) {
      var q :| q in db.projects && q.id == pid && q.owner == u.id;
      assert q in ProjectQueryset(s.db, u.id);
    }
  }

  /** The member set changes only by the one pair; ownership never changes. */
  lemma RemoveMemberEffect(db: Db, requester: nat, pid: nat, body: Body)
    ensures var s := RemoveMemberStep(db, requester, pid, body);
      && (s.result.MemberDone? <==> VisibleProject(db, requester, pid).Some? && NamedUser(db, body).Some?)
      && (s.result.MemberDone? ==>
            s.db == db.(memberships := db.memberships - {Membership(pid, NamedUser(db, body).value.id)}))
      && (!s.result.MemberDone? ==> s.db == db)
      && s.db.projects == db.projects
  {
  }

  /** Membership changes keep the store well formed. */
  lemma MemberStepsWellFormed(db: Db, requester: nat, pid: nat, body: Body)
    requires WellFormed(db)
    ensures WellFormed(AddMemberStep(db, requester, pid, body).db)
    ensures WellFormed(RemoveMemberStep(db, requester, pid, body).db)
  {
    var p := VisibleProject(db, requester, pid);
    var u := NamedUser(db, body);
    if p.Some? && u.Some? {
      assert pid in ProjectIds(db) && u.value.id in UserIds(db);
      AddMembershipWellFormed(db, pid, u.value.id);
      RemoveMembershipWellFormed(db, pid, u.value.id);
    }
  }

  // ----------------------------------------------------------- bug hooks

  const ACTION_CREATED := "created"
  const ACTION_UPDATED := "updated"
  const ACTION_COMMENTED := "commented"

  /** `f'Bug "{bug.title}" was created'`. */
  function CreatedDescription(title: string): string {
    "Bug \"" + title + "\" was created"
  }

  /** `f'Comment added to bug "{bug.title}"'`. */
  function CommentedDescription(title: string): string {
    "Comment added to bug \"" + title + "\""
  }

  function StatusPhrase(from: string, to: string): string {
    "status changed from " + from + " to " + to
  }

  function AssignPhrase(from: string, to: string): string {
    "assigned from " + from + " to " + to
  }

  /** The username of an assignee, or "Unassigned". */
  function AssigneeName(db: Db, a: Option<nat>): (r: string)
    requires a.Some? ==> a.value in UserIds(db)
    ensures a.None? ==> r == "Unassigned"
    ensures a.Some? ==> exists u :: u in db.users && u.id == a.value && r == u.username
  {
    if a.Some? then UserOf(db, a.value).username else "Unassigned"
  }

  /** The `changes` list of `perform_update`: one phrase per changed field of
      the two it compares, the status phrase first. */
  function ChangePhrases(db: Db, before: Bug, after: Bug): (r: seq<string>)
    requires before.assignedTo.Some? ==> before.assignedTo.value in UserIds(db)
    requires after.assignedTo.Some? ==> after.assignedTo.value in UserIds(db)
    ensures r == [] <==> before.status == after.status && before.assignedTo == after.assignedTo
    ensures |r| <= 2
    ensures before.status != after.status ==> r[0] == StatusPhrase(before.status, after.status)
    ensures before.assignedTo != after.assignedTo ==>
      r[|r| - 1] == AssignPhrase(AssigneeName(db, before.assignedTo), AssigneeName(db, after.assignedTo))
    ensures |r| == 2 <==> before.status != after.status && before.assignedTo != after.assignedTo
  {
    (if before.status != after.status then [StatusPhrase(before.status, after.status)] else []) +
    (if before.assignedTo != after.assignedTo
     then [AssignPhrase(AssigneeName(db, before.assignedTo), AssigneeName(db, after.assignedTo))]
     else [])
  }

  /** `f'Bug "{bug.title}" - {", ".join(changes)}'`. */
  function UpdateDescription(title: string, changes: seq<string>): string {
    "Bug \"" + title + "\" - " + Join(changes, ", ")
  }

  /** The description lists the status change, then the assignment change,
      separated by ", ". */
  lemma UpdateDescriptionOrder(db: Db, before: Bug, after: Bug)
    requires before.assignedTo.Some? ==> before.assignedTo.value in UserIds(db)
    requires after.assignedTo.Some? ==> after.assignedTo.value in UserIds(db)
    ensures var d := UpdateDescription(after.title, ChangePhrases(db, before, after));
      var sp := StatusPhrase(before.status, after.status);
      var ap := AssignPhrase(AssigneeName(db, before.assignedTo), AssigneeName(db, after.assignedTo));
      var head := "Bug \"" + after.title + "\" - ";
      && (before.status != after.status && before.assignedTo != after.assignedTo ==> d == head + sp + ", " + ap)
      && (before.status != after.status && before.assignedTo == after.assignedTo ==> d == head + sp)
      && (before.status == after.status && before.assignedTo != after.assignedTo ==> d == head + ap)
  {
    var sp := StatusPhrase(before.status, after.status);
    var ap := AssignPhrase(AssigneeName(db, before.assignedTo), AssigneeName(db, after.assignedTo));
    var head := "Bug \"" + after.title + "\" - ";
    if before.status != after.status && before.assignedTo != after.assignedTo {
      JoinTwo(sp, ap, ", ");
      assert head + (sp + ", " + ap) == head + sp + ", " + ap;
    }
  }

  datatype BugResult = BugSaved(id: nat) | BugInvalid | BugNotFound

  /** The new store, the group messages sent, and the outcome of one request. */
  datatype BugStep = BugStep(db: Db, sent: seq<GroupMessage>, result: BugResult)

  /** `_send_websocket_update`: a `bug_update` message to the bug's project group. */
  function BugMessage(db: Db, b: Bug, eventType: string): GroupMessage
    requires WellFormed(db) && BugRowFits(db, b)
  {
    GroupMessage(GroupName(b.project), BugUpdate(eventType, b.id, BugData(SerializeBug(db, b))))
  }

  /** An activity entry of `user` against bug `b` fits the store. */
  lemma EntryFits(db: Db, b: Bug, user: nat, action: string, description: string)
    requires BugRowFits(db, b) && b.id in BugIds(db) && user in UserIds(db) && |action| <= CHOICE_MAX_LENGTH
    ensures ActivityRowFits(db, Activity(db.nextId, b.project, Some(b.id), user, action, description, db.clock))
  {
  }

  /** `_log_activity` against bug `bug`: one entry appended at the end of the
      log; every other table is unchanged and the store stays well formed. */
  function LogFor(db: Db, bug: Bug, user: nat, action: string, description: string): (r: Db)
    requires WellFormed(db) && BugRowFits(db, bug) && bug.id in BugIds(db) && user in UserIds(db)
    requires |action| <= CHOICE_MAX_LENGTH
    ensures WellFormed(r)
    ensures r.activities ==
      db.activities + [Activity(db.nextId, bug.project, Some(bug.id), user, action, description, db.clock)]
    ensures r == Advance(db).(activities := r.activities)
    ensures BugRowFits(r, bug) && bug.id in BugIds(r)
  {
    EntryFits(db, bug, user, action, description);
    AppendActivityWellFormed(db, bug.project, Some(bug.id), user, action, description);
    AppendActivity(db, bug.project, Some(bug.id), user, action, description)
  }

  /** Logging right after a save that took one id and one tick: the entry
      lands after the log as it was before the save. */
  lemma LogAfterAdvance(db: Db, saved: Db, bug: Bug, user: nat, action: string, description: string)
    requires WellFormed(saved) && BugRowFits(saved, bug) && bug.id in BugIds(saved) && user in UserIds(saved)
    requires |action| <= CHOICE_MAX_LENGTH
    requires saved.activities == db.activities && saved.nextId == db.nextId + 1 && saved.clock == db.clock + 1
    ensures LogFor(saved, bug, user, action, description).activities ==
      db.activities + [Activity(db.nextId + 1, bug.project, Some(bug.id), user, action, description, db.clock + 1)]
  {
  }

  /** What the validated fields of a bug body promise about the store: a
      title within its length, a status and priority that fit their columns,
      and an existing project. */
  ghost predicate InputFits(db: Db, input: BugInput) {
    && (input.title.Some? ==> |input.title.value| <= TITLE_MAX_LENGTH)
    && (input.status.Some? ==> |input.status.value| <= CHOICE_MAX_LENGTH)
    && (input.priority.Some? ==> |input.priority.value| <= CHOICE_MAX_LENGTH)
    && (input.project.Some? ==> input.project.value in ProjectIds(db))
  }

  lemma ValidatedInputFits(db: Db, choices: Choices, body: Body, partial: bool)
    requires ChoicesFit(choices) && ValidateBug(db, choices, body, partial).Valid?
    ensures InputFits(db, ValidateBug(db, choices, body, partial).value)
  {
  }

  /** The row `serializer.save()` creates fits the store it is saved in. */
  lemma CreatedRowFits(db: Db, requester: nat, input: BugInput)
    requires WellFormed(db) && requester in UserIds(db) && Complete(input) && InputFits(db, input)
    ensures var r := CreateBug(db, input, requester);
      WellFormed(r) && BugRowFits(r, r.bugs[|db.bugs|]) && r.bugs[|db.bugs|].id in BugIds(r)
  {
    var b := NewBug(db, input.title.value, input.description.value, input.status,
                    input.priority, input.project.value, requester);
    assert BugRowFits(db, b);
    InsertBugWellFormed(db, b);
    var r := CreateBug(db, input, requester);
    assert r.bugs[|db.bugs|] in r.bugs;
  }

  /** The row `serializer.save()` writes over an existing bug fits the store. */
  lemma UpdatedRowFits(db: Db, before: Bug, input: BugInput)
    requires WellFormed(db) && before in db.bugs && InputFits(db, input)
    ensures var bug := UpdateBug(before, input);
      var r := SaveBug(db, bug);
      WellFormed(r) && BugRowFits(r, bug) && bug.id in BugIds(r) && r == db.(bugs := r.bugs)
  {
    var bug := UpdateBug(before, input);
    assert BugRowFits(db, before);
    assert BugRowFits(db, bug);
    SaveBugWellFormed(db, bug);
    var i :| 0 <= i < |db.bugs| && db.bugs[i] == before;
    assert SaveBug(db, bug).bugs[i] == bug;
  }

  /** `perform_create` of the bug viewset: save with the requester as
      creator, log "created", send "bug_created". */
  function PerformCreateBugStep(db: Db, requester: nat, input: BugInput): (s: BugStep)
    requires WellFormed(db) && requester in UserIds(db) && Complete(input) && InputFits(db, input)
    ensures WellFormed(s.db)
  {
    CreatedRowFits(db, requester, input);
    var saved := CreateBug(db, input, requester);
    var bug := saved.bugs[|db.bugs|];
    var logged := LogFor(saved, bug, requester, ACTION_CREATED, CreatedDescription(bug.title));
    BugStep(logged, [BugMessage(logged, bug, "bug_created")], BugSaved(bug.id))
  }

  /** `create` on the bug viewset: the body is validated with every required
      field demanded (else 400 and no effect), then `perform_create` runs. */
  function CreateBugStep(db: Db, choices: Choices, requester: nat, body: Body): (s: BugStep)
    requires WellFormed(db) && ChoicesFit(choices) && requester in UserIds(db)
    ensures WellFormed(s.db) && !s.result.BugNotFound?
    ensures s.result.BugInvalid? <==> ValidateBug(db, choices, body, false).Invalid?
  {
    match ValidateBug(db, choices, body, false)
    case Invalid => BugStep(db, [], BugInvalid)
    case Valid(input) =>
      ValidatedInputFits(db, choices, body, false);
      PerformCreateBugStep(db, requester, input)
  }

  /** A create is saved exactly when the body is valid; an invalid body
      changes and sends nothing. */
  lemma CreateBugOutcome(db: Db, choices: Choices, requester: nat, body: Body)
    requires WellFormed(db) && ChoicesFit(choices) && requester in UserIds(db)
    ensures var s := CreateBugStep(db, choices, requester, body);
      && (s.result.BugSaved? <==> ValidateBug(db, choices, body, false).Valid?)
      && (s.result.BugInvalid? ==> s.db == db && s.sent == [])
      && (s.result.BugSaved? ==>
            var input := ValidateBug(db, choices, body, false).value;
            && WellFormed(s.db) && Complete(input) && InputFits(db, input)
            && s == PerformCreateBugStep(db, requester, input))
  {
    if ValidateBug(db, choices, body, false).Valid? {
      var input := ValidateBug(db, choices, body, false).value;
      ValidatedInputFits(db, choices, body, false);
      CreatedRowFits(db, requester, input);
    }
  }

  /** `perform_create` appends exactly one bug row, with the next id, created
      by the requester, unassigned, with the default status and priority unless
      the body gave them. */
  lemma PerformCreateBugRow(db: Db, requester: nat, input: BugInput)
    requires WellFormed(db) && requester in UserIds(db) && Complete(input) && InputFits(db, input)
    ensures var s := PerformCreateBugStep(db, requester, input);
      && |s.db.bugs| == |db.bugs| + 1 && s.db.bugs[..|db.bugs|] == db.bugs
      && var b := s.db.bugs[|db.bugs|];
      && s.result == BugSaved(b.id) && b.id == db.nextId
      && b.createdBy == requester && b.assignedTo.None?
      && b.title == input.title.value && b.description == input.description.value
      && b.project == input.project.value
      && b.status == input.status.GetOr(DEFAULT_STATUS)
      && b.priority == input.priority.GetOr(DEFAULT_PRIORITY)
      && s.db == db.(bugs := s.db.bugs, activities := s.db.activities,
                     nextId := db.nextId + 2, clock := db.clock + 2)
  {
    CreatedRowFits(db, requester, input);
  }

  /** `perform_create` appends exactly one "created" entry, by the requester,
      against the new bug and its project, after the log as it was. */
  lemma PerformCreateBugLogged(db: Db, requester: nat, input: BugInput)
    requires WellFormed(db) && requester in UserIds(db) && Complete(input) && InputFits(db, input)
    ensures var s := PerformCreateBugStep(db, requester, input);
      && |s.db.bugs| == |db.bugs| + 1
      && var b := s.db.bugs[|db.bugs|];
      && s.db.activities == db.activities +
           [Activity(db.nextId + 1, b.project, Some(b.id), requester, ACTION_CREATED,
                     CreatedDescription(b.title), db.clock + 1)]
      && s.db == db.(bugs := s.db.bugs, activities := s.db.activities,
                     nextId := db.nextId + 2, clock := db.clock + 2)
  {
    CreatedRowFits(db, requester, input);
    var saved := CreateBug(db, input, requester);
    var bug := saved.bugs[|db.bugs|];
    LogAfterAdvance(db, saved, bug, requester, ACTION_CREATED, CreatedDescription(bug.title));
  }

  /** `perform_create` sends exactly one "bug_created" message, to the group
      of the new bug's project. */
  lemma PerformCreateBugAnnounced(db: Db, requester: nat, input: BugInput)
    requires WellFormed(db) && requester in UserIds(db) && Complete(input) && InputFits(db, input)
    ensures var s := PerformCreateBugStep(db, requester, input);
      && |s.db.bugs| == |db.bugs| + 1
      && var b := s.db.bugs[|db.bugs|];
      && |s.sent| == 1 && s.sent[0].group == GroupName(b.project)
      && s.sent[0].event.BugUpdate? && s.sent[0].event.eventType == "bug_created"
      && s.sent[0].event.bugId == b.id
      && s.sent[0].event.data == BugData(SerializeBug(s.db, b))
  {
    CreatedRowFits(db, requester, input);
  }

  /** `perform_update` of the bug viewset: re-read the stored row, save the
      updated one, and only when status or assignee changed log one "updated"
      entry and send one "bug_updated" message. */
  function PerformUpdateBugStep(db: Db, requester: nat, before: Bug, input: BugInput): (s: BugStep)
    requires WellFormed(db) && requester in UserIds(db) && before in db.bugs && InputFits(db, input)
    ensures WellFormed(s.db) && s.result == BugSaved(before.id)
  {
    UpdatedRowFits(db, before, input);
    var bug := UpdateBug(before, input);
    var saved := SaveBug(db, bug);
    var changes := ChangePhrases(saved, before, bug);
    if changes == [] then BugStep(saved, [], BugSaved(bug.id))
    else
      var logged := LogFor(saved, bug, requester, ACTION_UPDATED, UpdateDescription(bug.title, changes));
      BugStep(logged, [BugMessage(logged, bug, "bug_updated")], BugSaved(bug.id))
  }

  /** `update` on the bug viewset: the bug must be visible (else 404) and the
      body valid (else 400), then `perform_update` runs. */
  function UpdateBugStep(db: Db, choices: Choices, requester: nat, bid: nat, body: Body, partial: bool): (s: BugStep)
    requires WellFormed(db) && ChoicesFit(choices) && requester in UserIds(db)
    ensures WellFormed(s.db)
    ensures s.result.BugInvalid? <==>
      VisibleBug(db, requester, bid).Some? && ValidateBug(db, choices, body, partial).Invalid?
  {
    match VisibleBug(db, requester, bid)
    case None => BugStep(db, [], BugNotFound)
    case Some(before) =>
      match ValidateBug(db, choices, body, partial)
      case Invalid => BugStep(db, [], BugInvalid)
      case Valid(input) =>
        ValidatedInputFits(db, choices, body, partial);
        PerformUpdateBugStep(db, requester, before, input)
  }

  /** An update of a bug the requester cannot see is a 404, one with an
      invalid body a 400, and either changes and sends nothing; otherwise the
      visible bug is saved under its own id. */
  lemma UpdateBugOutcome(db: Db, choices: Choices, requester: nat, bid: nat, body: Body, partial: bool)
    requires WellFormed(db) && ChoicesFit(choices) && requester in UserIds(db)
    ensures var s := UpdateBugStep(db, choices, requester, bid, body, partial);
      && (s.result.BugNotFound? <==> VisibleBug(db, requester, bid).None?)
      && (s.result.BugSaved? <==>
            VisibleBug(db, requester, bid).Some? && ValidateBug(db, choices, body, partial).Valid?)
      && (!s.result.BugSaved? ==> s.db == db && s.sent == [])
      && (s.result.BugSaved? ==>
            var before := VisibleBug(db, requester, bid).value;
            var input := ValidateBug(db, choices, body, partial).value;
            && s.result.id == bid && WellFormed(s.db)
            && before in db.bugs && InputFits(db, input)
            && s == PerformUpdateBugStep(db, requester, before, input))
  {
    if VisibleBug(db, requester, bid).Some? && ValidateBug(db, choices, body, partial).Valid? {
      ValidatedInputFits(db, choices, body, partial);
      var before := VisibleBug(db, requester, bid).value;
      assert before in db.bugs;
    }
  }

  /** `perform_update` saves the updated row under the same id. When neither
      status nor assignee changed it logs and sends nothing; otherwise it logs
      exactly one "updated" entry describing the changes against the bug's
      (possibly new) project and sends one "bug_updated" message to that
      project's group. */
  lemma PerformUpdateBugEffect(db: Db, requester: nat, before: Bug, input: BugInput)
    requires WellFormed(db) && requester in UserIds(db) && before in db.bugs && InputFits(db, input)
    ensures var s := PerformUpdateBugStep(db, requester, before, input);
      var after := UpdateBug(before, input);
      && after.id == before.id
      && s.db.bugs == SaveBug(db, after).bugs
      && (before.status == after.status && before.assignedTo == after.assignedTo ==>
            s.db == SaveBug(db, after) && s.sent == [])
      && (before.status != after.status || before.assignedTo != after.assignedTo ==>
            && assert BugRowFits(db, before);
            && |s.db.activities| == |db.activities| + 1
            && s.db.activities[..|db.activities|] == db.activities
            && var a := s.db.activities[|db.activities|];
            && a.action == ACTION_UPDATED && a.bug == Some(before.id) && a.user == requester
            && a.project == after.project
            && a.description == UpdateDescription(after.title, ChangePhrases(db, before, after))
            && |s.sent| == 1 && s.sent[0].group == GroupName(after.project)
            && s.sent[0].event.BugUpdate? && s.sent[0].event.eventType == "bug_updated"
            && s.sent[0].event.bugId == before.id
            && BugRowFits(s.db, after)
            && s.sent[0].event.data == BugData(SerializeBug(s.db, after)))
  {
    UpdatedRowFits(db, before, input);
    var after := UpdateBug(before, input);
    assert BugRowFits(db, before);
    assert ChangePhrases(SaveBug(db, after), before, after) == ChangePhrases(db, before, after) by {
      assert SaveBug(db, after).users == db.users;
    }
  }

  /** Besides the saved row, `perform_update` touches only the log and, when
      it logs, the id and clock counters. */
  lemma PerformUpdateBugStore(db: Db, requester: nat, before: Bug, input: BugInput)
    requires WellFormed(db) && requester in UserIds(db) && before in db.bugs && InputFits(db, input)
    ensures var s := PerformUpdateBugStep(db, requester, before, input);
      s.sent != [] ==> s.db == Advance(SaveBug(db, UpdateBug(before, input))).(activities := s.db.activities)
  {
    UpdatedRowFits(db, before, input);
  }

  /** `assigned_to` is read-only, so `perform_update` never changes the
      assignee and never writes an assignment phrase: an update is announced
      exactly when it changes the status. */
  lemma UpdateNeverReassigns(db: Db, requester: nat, before: Bug, input: BugInput)
    requires WellFormed(db) && requester in UserIds(db) && before in db.bugs && InputFits(db, input)
    ensures var after := UpdateBug(before, input);
      && assert BugRowFits(db, before);
      && after.assignedTo == before.assignedTo
      && ChangePhrases(db, before, after) ==
           (if before.status != after.status then [StatusPhrase(before.status, after.status)] else [])
      && (PerformUpdateBugStep(db, requester, before, input).sent != [] <==> before.status != after.status)
  {
    assert BugRowFits(db, before);
    PerformUpdateBugEffect(db, requester, before, input);
  }

  // ------------------------------------------------------- comment hooks

  datatype CommentResult =
    | Commented(id: nat)
    | CommentInvalid       // the serializer rejected the body
    | MissingBugId         // `bug_id` absent or falsy
    | CommentBugNotFound   // no bug with that id
    | LookupRaised         // `Bug.objects.get` raised on a value it cannot read as an id

  datatype CommentStep = CommentStep(db: Db, sent: seq<GroupMessage>, result: CommentResult)

  /** The id `Bug.objects.get(id=...)` looks up for a truthy `bug_id`, or
      `None` when the lookup raises. */
  function BugIdKey(v: Json): (r: Option<int>)
    ensures v.JInt? ==> r == Some(v.i)
    ensures v.JBool? ==> r == Some(if v.b then 1 else 0)
    ensures v.JString? ==> r == ParseInt(v.s)
    ensures r.Some? ==> v.JInt? || v.JBool? || v.JString?
  {
    match v
    case JInt(i) => Some(i)
    case JBool(b) => Some(if b then 1 else 0)
    case JString(s) => ParseInt(s)
    case _ => None
  }

  /** `_send_comment_notification`: a `comment_added` message to the group of
      the comment's bug's project. */
  function CommentMessage(db: Db, bug: Bug, c: Comment): GroupMessage
    requires c.commenter in UserIds(db)
  {
    GroupMessage(GroupName(bug.project), CommentAdded(bug.id, CommentData(SerializeComment(db, c))))
  }

  /** The `try` block of the comment hook once the bug is found: save the
      comment on it, log "commented", notify the project group. */
  function CommentOnStep(db: Db, requester: nat, bug: Bug, input: CommentInput): (s: CommentStep)
    requires WellFormed(db) && requester in UserIds(db) && bug in db.bugs
    ensures WellFormed(s.db) && s.result == Commented(db.nextId)
  {
    assert bug.id in BugIds(db) && BugRowFits(db, bug);
    InsertCommentWellFormed(db, bug.id, requester, input.message);
    var saved := CreateComment(db, bug.id, input, requester);
    var comment := saved.comments[|saved.comments| - 1];
    var logged := LogFor(saved, bug, requester, ACTION_COMMENTED, CommentedDescription(bug.title));
    CommentStep(logged, [CommentMessage(logged, bug, comment)], Commented(comment.id))
  }

  /** `perform_create` of the comment viewset. Any bug will do: there is no
      visibility check on the bug. */
  function PerformCreateCommentStep(db: Db, requester: nat, body: Body, input: CommentInput): (s: CommentStep)
    requires WellFormed(db) && requester in UserIds(db)
    ensures WellFormed(s.db) && !s.result.CommentInvalid?
    ensures s.result.MissingBugId? <==> Get(body, "bug_id").None? || !Truthy(Get(body, "bug_id").value)
  {
    var v := Get(body, "bug_id");
    if v.None? || !Truthy(v.value) then CommentStep(db, [], MissingBugId)
    else match BugIdKey(v.value)
      case None => CommentStep(db, [], LookupRaised)
      case Some(k) =>
        match FindBug(db, k)
        case None => CommentStep(db, [], CommentBugNotFound)
        case Some(bug) => CommentOnStep(db, requester, bug, input)
  }

  /** `create` on the comment viewset: validate (else 400), then the hook. */
  function CreateCommentStep(db: Db, requester: nat, body: Body): (s: CommentStep)
    requires WellFormed(db) && requester in UserIds(db)
    ensures WellFormed(s.db)
    ensures s.result.CommentInvalid? <==> ValidateComment(body).Invalid?
  {
    match ValidateComment(body)
    case Invalid => CommentStep(db, [], CommentInvalid)
    case Valid(input) => PerformCreateCommentStep(db, requester, body, input)
  }

  /** A comment is stored exactly when the body is valid and `bug_id` is
      present, truthy, readable as an id and names an existing bug, and then
      it goes on that bug; otherwise nothing is stored, logged or sent. */
  lemma CreateCommentOutcome(db: Db, requester: nat, body: Body)
    requires WellFormed(db) && requester in UserIds(db)
    ensures var s := CreateCommentStep(db, requester, body);
      var v := Get(body, "bug_id");
      && (s.result.CommentInvalid? <==> ValidateComment(body).Invalid?)
      && (s.result.MissingBugId? <==> ValidateComment(body).Valid? && (v.None? || !Truthy(v.value)))
      && (s.result.LookupRaised? <==>
            ValidateComment(body).Valid? && v.Some? && Truthy(v.value) && BugIdKey(v.value).None?)
      && (s.result.Commented? <==>
            ValidateComment(body).Valid? && v.Some? && Truthy(v.value) && BugIdKey(v.value).Some? &&
            FindBug(db, BugIdKey(v.value).value).Some?)
      && (!s.result.Commented? ==> s.db == db && s.sent == [])
      && (s.result.Commented? ==>
            var bug := FindBug(db, BugIdKey(v.value).value).value;
            bug in db.bugs && s == CommentOnStep(db, requester, bug, ValidateComment(body).value))
  {
  }

  /** Saving a comment on a bug attaches it to that bug with the requester as
      commenter, logs one "commented" entry by the requester against the bug
      and its project, and sends one `comment_added` message, carrying the
      bug's id, to that project's group. */
  lemma CommentOnEffect(db: Db, requester: nat, bug: Bug, input: CommentInput)
    requires WellFormed(db) && requester in UserIds(db) && bug in db.bugs
    ensures var s := CommentOnStep(db, requester, bug, input);
      && s.db.comments == db.comments + [Comment(db.nextId, bug.id, requester, input.message, db.clock)]
      && s.db.activities == db.activities +
           [Activity(db.nextId + 1, bug.project, Some(bug.id), requester, ACTION_COMMENTED,
                     CommentedDescription(bug.title), db.clock + 1)]
      && s.db == db.(comments := s.db.comments, activities := s.db.activities,
                     nextId := db.nextId + 2, clock := db.clock + 2)
      && |s.sent| == 1 && s.sent[0].group == GroupName(bug.project)
      && s.sent[0].event.CommentAdded? && s.sent[0].event.bugId == bug.id
      && |s.db.comments| == |db.comments| + 1 && s.db.comments[|db.comments|].commenter in UserIds(s.db)
      && s.sent[0].event.data == CommentData(SerializeComment(s.db, s.db.comments[|db.comments|]))
  {
    assert bug.id in BugIds(db) && BugRowFits(db, bug);
    InsertCommentWellFormed(db, bug.id, requester, input.message);
    var saved := CreateComment(db, bug.id, input, requester);
    LogAfterAdvance(db, saved, bug, requester, ACTION_COMMENTED, CommentedDescription(bug.title));
  }

  /** Whether a comment is stored does not depend on who asks: commenting
      needs no access to the bug's project. */
  lemma CommentNeedsNoAccess(db: Db, alice: nat, bob: nat, body: Body)
    requires WellFormed(db) && alice in UserIds(db) && bob in UserIds(db)
    ensures CreateCommentStep(db, alice, body).result.Commented? == CreateCommentStep(db, bob, body).result.Commented?
  {
    CreateCommentOutcome(db, alice, body);
    CreateCommentOutcome(db, bob, body);
  }

  // ------------------------------------------------------------ projects

  datatype ProjectResult = ProjectCreated(id: nat) | ProjectInvalid

  /** `create` on the project viewset: validate, then save with the requester
      as owner. The owner is not added to the member set. */
  function CreateProjectStep(db: Db, requester: nat, body: Body): (r: (Db, ProjectResult))
    requires WellFormed(db) && requester in UserIds(db)
    ensures WellFormed(r.0)
    ensures r.1.ProjectInvalid? <==> ValidateProject(body).Invalid?
    ensures r.1.ProjectInvalid? ==> r.0 == db
    ensures r.1.ProjectCreated? ==>
      r.0.projects == db.projects + [Project(r.1.id, ValidateProject(body).value.name,
                                            ValidateProject(body).value.description.GetOr(""), requester, db.clock)]
      && r.0.memberships == db.memberships && r.0.activities == db.activities && r.0.bugs == db.bugs
    ensures r.1.ProjectCreated? ==> r.1.id == db.nextId && r.0 == Advance(db).(projects := r.0.projects)
  {
    match ValidateProject(body)
    case Invalid => (db, ProjectInvalid)
    case Valid(input) =>
      InsertProjectWellFormed(db, input.name, input.description.GetOr(""), requester);
      (CreateProject(db, input, requester), ProjectCreated(db.nextId))
  }

  // --------------------------------------------------------- the service

  /** The tracker's database and its channel layer. */
  class Tracker {
    var db: Db
    const layer: ChannelLayer
    const choices: Choices

    ghost predicate Valid()
      reads this
    {
      WellFormed(db) && ChoicesFit(choices)
    }

    constructor (db: Db, layer: ChannelLayer, choices: Choices)
      requires WellFormed(db) && ChoicesFit(choices)
      ensures Valid() && this.db == db && this.layer == layer && this.choices == choices
    {
      this.db := db;
      this.layer := layer;
      this.choices := choices;
    }

    /** `_log_activity`: one entry appended. */
    method LogActivity(bug: Bug, user: nat, action: string, description: string)
      requires Valid() && BugRowFits(db, bug) && bug.id in BugIds(db) && user in UserIds(db)
      requires |action| <= CHOICE_MAX_LENGTH
      modifies this`db
      ensures db == LogFor(old(db), bug, user, action, description)
      ensures Valid()
    {
      db := LogFor(db, bug, user, action, description);
    }

    /** `_send_websocket_update`: one message to the bug's project group. */
    method SendWebsocketUpdate(bug: Bug, eventType: string)
      requires Valid() && BugRowFits(db, bug)
      modifies layer
      ensures layer.outbox == old(layer.outbox) + [BugMessage(db, bug, eventType)]
      ensures layer.groups == old(layer.groups)
    {
      var groupName := GroupName(bug.project);
      layer.GroupSend(groupName, BugUpdate(eventType, bug.id, BugData(SerializeBug(db, bug))));
    }

    /** `_send_comment_notification`: one message to the project group. */
    method SendCommentNotification(bug: Bug, comment: Comment)
      requires comment.commenter in UserIds(db)
      modifies layer
      ensures layer.outbox == old(layer.outbox) + [CommentMessage(db, bug, comment)]
      ensures layer.groups == old(layer.groups)
    {
      var groupName := GroupName(bug.project);
      layer.GroupSend(groupName, CommentAdded(bug.id, CommentData(SerializeComment(db, comment))));
    }

    method AddMember(requester: nat, pid: nat, body: Body) returns (r: MemberResult)
      requires Valid()
      modifies this`db
      ensures db == AddMemberStep(old(db), requester, pid, body).db
      ensures r == AddMemberStep(old(db), requester, pid, body).result
      ensures Valid()
    {
      MemberStepsWellFormed(db, requester, pid, body);
      var project := VisibleProject(db, requester, pid);
      if project.None? {
        return ProjectNotFound;
      }
      var user := NamedUser(db, body);
      if user.None? {
        return UserNotFound;
      }
      db := AddMembership(db, pid, user.value.id);
      r := MemberDone("Added " + user.value.username + " to project");
    }

    method RemoveMember(requester: nat, pid: nat, body: Body) returns (r: MemberResult)
      requires Valid()
      modifies this`db
      ensures db == RemoveMemberStep(old(db), requester, pid, body).db
      ensures r == RemoveMemberStep(old(db), requester, pid, body).result
      ensures Valid()
    {
      MemberStepsWellFormed(db, requester, pid, body);
      var project := VisibleProject(db, requester, pid);
      if project.None? {
        return ProjectNotFound;
      }
      var user := NamedUser(db, body);
      if user.None? {
        return UserNotFound;
      }
      db := RemoveMembership(db, pid, user.value.id);
      r := MemberDone("Removed " + user.value.username + " from project");
    }

    /** `create` on the project viewset. */
    method HandleCreateProject(requester: nat, body: Body) returns (r: ProjectResult)
      requires Valid() && requester in UserIds(db)
      modifies this`db
      ensures (db, r) == CreateProjectStep(old(db), requester, body)
      ensures Valid()
    {
      var v := ValidateProject(body);
      if v.Invalid? {
        return ProjectInvalid;
      }
      r := ProjectCreated(db.nextId);
      db := CreateProject(db, v.value, requester);
    }

    /** `perform_create` of the bug viewset. */
    method PerformCreateBug(requester: nat, input: BugInput)
      requires Valid() && requester in UserIds(db) && Complete(input) && InputFits(db, input)
      modifies this`db, layer
      ensures var s := PerformCreateBugStep(old(db), requester, input);
        db == s.db && layer.outbox == old(layer.outbox) + s.sent
      ensures layer.groups == old(layer.groups)
      ensures Valid()
    {
      CreatedRowFits(db, requester, input);
      var before := db;
      db := CreateBug(db, input, requester);
      var bug := db.bugs[|before.bugs|];
      LogActivity(bug, requester, ACTION_CREATED, CreatedDescription(bug.title));
      SendWebsocketUpdate(bug, "bug_created");
    }

    /** `create` on the bug viewset. */
    method HandleCreateBug(requester: nat, body: Body) returns (r: BugResult)
      requires Valid() && requester in UserIds(db)
      modifies this`db, layer
      ensures var s := CreateBugStep(old(db), choices, requester, body);
        db == s.db && layer.outbox == old(layer.outbox) + s.sent && r == s.result
      ensures layer.groups == old(layer.groups)
      ensures Valid()
    {
      CreateBugOutcome(db, choices, requester, body);
      var v := ValidateBug(db, choices, body, false);
      if v.Invalid? {
        return BugInvalid;
      }
      PerformCreateBugRow(db, requester, v.value);
      r := BugSaved(db.nextId);
      PerformCreateBug(requester, v.value);
    }

    /** The `changes` list `perform_update` builds before logging. */
    method DescribeChanges(before: Bug, after: Bug) returns (changes: seq<string>)
      requires before.assignedTo.Some? ==> before.assignedTo.value in UserIds(db)
      requires after.assignedTo.Some? ==> after.assignedTo.value in UserIds(db)
      ensures changes == ChangePhrases(db, before, after)
    {
      changes := [];
      if before.status != after.status {
        changes := changes + [StatusPhrase(before.status, after.status)];
      }
      if before.assignedTo != after.assignedTo {
        var oldAssignee := AssigneeName(db, before.assignedTo);
        var newAssignee := AssigneeName(db, after.assignedTo);
        changes := changes + [AssignPhrase(oldAssignee, newAssignee)];
      }
    }

    /** `perform_update` of the bug viewset; `before` is the instance the
        serializer was bound to. */
    method PerformUpdateBug(requester: nat, before: Bug, input: BugInput)
      requires Valid() && requester in UserIds(db) && before in db.bugs && InputFits(db, input)
      modifies this`db, layer
      ensures var s := PerformUpdateBugStep(old(db), requester, before, input);
        db == s.db && layer.outbox == old(layer.outbox) + s.sent
      ensures layer.groups == old(layer.groups)
      ensures Valid()
    {
      UpdatedRowFits(db, before, input);
      FindUnique(db.bugs, BugKey, before);
      var oldBug := FindBug(db, before.id).value;
      var bug := UpdateBug(oldBug, input);
      db := SaveBug(db, bug);
      var changes := DescribeChanges(oldBug, bug);
      if changes != [] {
        var description := UpdateDescription(bug.title, changes);
        LogActivity(bug, requester, ACTION_UPDATED, description);
        SendWebsocketUpdate(bug, "bug_updated");
      }
    }

    /** `update` / `partial_update` on the bug viewset. */
    method HandleUpdateBug(requester: nat, bid: nat, body: Body, partial: bool) returns (r: BugResult)
      requires Valid() && requester in UserIds(db)
      modifies this`db, layer
      ensures var s := UpdateBugStep(old(db), choices, requester, bid, body, partial);
        db == s.db && layer.outbox == old(layer.outbox) + s.sent && r == s.result
      ensures layer.groups == old(layer.groups)
      ensures Valid()
    {
      UpdateBugOutcome(db, choices, requester, bid, body, partial);
      var found := VisibleBug(db, requester, bid);
      if found.None? {
        return BugNotFound;
      }
      var v := ValidateBug(db, choices, body, partial);
      if v.Invalid? {
        return BugInvalid;
      }
      PerformUpdateBug(requester, found.value, v.value);
      r := BugSaved(bid);
    }

    /** The `try` block of the comment hook once the bug is found. */
    method CommentOn(requester: nat, bug: Bug, input: CommentInput) returns (r: CommentResult)
      requires Valid() && requester in UserIds(db) && bug in db.bugs
      modifies this`db, layer
      ensures var s := CommentOnStep(old(db), requester, bug, input);
        db == s.db && layer.outbox == old(layer.outbox) + s.sent && r == s.result
      ensures layer.groups == old(layer.groups)
      ensures Valid()
    {
      assert bug.id in BugIds(db) && BugRowFits(db, bug);
      InsertCommentWellFormed(db, bug.id, requester, input.message);
      db := CreateComment(db, bug.id, input, requester);
      var comment := db.comments[|db.comments| - 1];
      LogActivity(bug, requester, ACTION_COMMENTED, CommentedDescription(bug.title));
      SendCommentNotification(bug, comment);
      r := Commented(comment.id);
    }

    /** `perform_create` of the comment viewset. */
    method PerformCreateComment(requester: nat, body: Body, input: CommentInput) returns (r: CommentResult)
      requires Valid() && requester in UserIds(db)
      modifies this`db, layer
      ensures var s := PerformCreateCommentStep(old(db), requester, body, input);
        db == s.db && layer.outbox == old(layer.outbox) + s.sent && r == s.result
      ensures layer.groups == old(layer.groups)
      ensures Valid()
    {
      var bugId := Get(body, "bug_id");
      if bugId.None? || !Truthy(bugId.value) {
        return MissingBugId;
      }
      var key := BugIdKey(bugId.value);
      if key.None? {
        return LookupRaised;
      }
      var found := FindBug(db, key.value);
      if found.None? {
        return CommentBugNotFound;
      }
      r := CommentOn(requester, found.value, input);
    }

    /** `create` on the comment viewset. */
    method HandleCreateComment(requester: nat, body: Body) returns (r: CommentResult)
      requires Valid() && requester in UserIds(db)
      modifies this`db, layer
      ensures var s := CreateCommentStep(old(db), requester, body);
        db == s.db && layer.outbox == old(layer.outbox) + s.sent && r == s.result
      ensures layer.groups == old(layer.groups)
      ensures Valid()
    {
      var v := ValidateComment(body);
      if v.Invalid? {
        return CommentInvalid;
      }
      r := PerformCreateComment(requester, body, v.value);
    }
  }
}
