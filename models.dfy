/** The records of tracker/models.py over an abstract in-memory store.

    Every table is a sequence of rows in insertion order. Ids and `created`
    stamps come from two counters of the store (`nextId`, and `clock`, which
    stands for `auto_now_add`), so along every table both increase; the Meta
    orderings are then "table order" (comments) and "reverse table order"
    (projects, bugs, activity entries). The many-to-many `Project.members`
    is its own relation: a set of (project, user) pairs. */
module Models {
  import opened Seqs

  /** `max_length` of `Project.name` and `Bug.title`. */
  const NAME_MAX_LENGTH := 200
  const TITLE_MAX_LENGTH := 200
  /** `max_length` of `Bug.status`, `Bug.priority` and `ActivityLog.action`. */
  const CHOICE_MAX_LENGTH := 20

  const DEFAULT_STATUS := "Open"
  const DEFAULT_PRIORITY := "Medium"

  /** The parts of a user account the tracker reads and serializes. */
  datatype User = User(id: nat, username: string, email: string, firstName: string, lastName: string)

  datatype Project = Project(id: nat, name: string, description: string, owner: nat, created: nat)

  /** One row of the `Project.members` relation. */
  datatype Membership = Membership(project: nat, user: nat)

  datatype Bug = Bug(
    id: nat,
    title: string,
    description: string,
    status: string,
    priority: string,
    assignedTo: Option<nat>,
    project: nat,
    createdBy: nat,
    created: nat)

  datatype Comment = Comment(id: nat, bug: nat, commenter: nat, message: string, created: nat)

  /** An `ActivityLog` row. */
  datatype Activity = Activity(
    id: nat,
    project: nat,
    bug: Option<nat>,
    user: nat,
    action: string,
    description: string,
    created: nat)

  datatype Db = Db(
    users: seq<User>,
    projects: seq<Project>,
    memberships: set<Membership>,
    bugs: seq<Bug>,
    comments: seq<Comment>,
    activities: seq<Activity>,
    nextId: nat,
    clock: nat)

  /** The contents of STATUS_CHOICES and PRIORITY_CHOICES. */
  datatype Choices = Choices(status: set<string>, priority: set<string>)

  /** Every choice fits its column (`max_length=20`). */
  predicate ChoicesFit(c: Choices) {
    (forall s | s in c.status :: |s| <= CHOICE_MAX_LENGTH) &&
    (forall s | s in c.priority :: |s| <= CHOICE_MAX_LENGTH)
  }

  function UserKey(u: User): int { u.id }
  function UserName(u: User): string { u.username }
  function ProjectKey(p: Project): int { p.id }
  function ProjectStamp(p: Project): int { p.created }
  function BugKey(b: Bug): int { b.id }
  function BugStamp(b: Bug): int { b.created }
  function CommentKey(c: Comment): int { c.id }
  function CommentStamp(c: Comment): int { c.created }
  function ActivityKey(a: Activity): int { a.id }
  function ActivityStamp(a: Activity): int { a.created }

  function UserIds(db: Db): set<nat> { set u | u in db.users :: u.id }
  function ProjectIds(db: Db): set<nat> { set p | p in db.projects :: p.id }
  function BugIds(db: Db): set<nat> { set b | b in db.bugs :: b.id }

  function FindUser(db: Db, id: int): Option<User> { Find(db.users, UserKey, id) }
  function FindUserByName(db: Db, username: string): Option<User> { Find(db.users, UserName, username) }
  function FindProject(db: Db, id: int): Option<Project> { Find(db.projects, ProjectKey, id) }
  function FindBug(db: Db, id: int): Option<Bug> { Find(db.bugs, BugKey, id) }

  /** `project.owner == user`, for the project with id `pid`. */
  predicate OwnsProject(db: Db, pid: nat, user: nat) {
    exists p :: p in db.projects && p.id == pid && p.owner == user
  }

  /** `user in project.members.all()`. */
  predicate IsMember(db: Db, pid: nat, user: nat) {
    Membership(pid, user) in db.memberships
  }

  /** Ids and stamps increase along the table and lie below the counters. */
  ghost predicate Table<T>(s: seq<T>, key: T -> int, stamp: T -> int, nextId: int, clock: int) {
    && Increasing(s, key)
    && Increasing(s, stamp)
    && (forall x | x in s :: 0 <= key(x) < nextId && 0 <= stamp(x) < clock)
  }

  ghost predicate UsersWellFormed(db: Db) {
    && Increasing(db.users, UserKey)
    && (forall x, y | x in db.users && y in db.users && x.username == y.username :: x == y)
  }

  ghost predicate ProjectsWellFormed(db: Db) {
    && Table(db.projects, ProjectKey, ProjectStamp, db.nextId, db.clock)
    && (forall p | p in db.projects :: p.owner in UserIds(db) && |p.name| <= NAME_MAX_LENGTH)
  }

  ghost predicate MembershipsWellFormed(db: Db) {
    forall m | m in db.memberships :: m.project in ProjectIds(db) && m.user in UserIds(db)
  }

  ghost predicate BugRowFits(db: Db, b: Bug) {
    && b.project in ProjectIds(db)
    && b.createdBy in UserIds(db)
    && (b.assignedTo.Some? ==> b.assignedTo.value in UserIds(db))
    && |b.title| <= TITLE_MAX_LENGTH
    && |b.status| <= CHOICE_MAX_LENGTH
    && |b.priority| <= CHOICE_MAX_LENGTH
  }

  ghost predicate BugsWellFormed(db: Db) {
    && Table(db.bugs, BugKey, BugStamp, db.nextId, db.clock)
    && (forall b | b in db.bugs :: BugRowFits(db, b))
  }

  ghost predicate CommentsWellFormed(db: Db) {
    && Table(db.comments, CommentKey, CommentStamp, db.nextId, db.clock)
    && (forall c | c in db.comments :: c.bug in BugIds(db) && c.commenter in UserIds(db))
  }

  ghost predicate ActivityRowFits(db: Db, a: Activity) {
    && a.project in ProjectIds(db)
    && (a.bug.Some? ==> a.bug.value in BugIds(db))
    && a.user in UserIds(db)
    && |a.action| <= CHOICE_MAX_LENGTH
  }

  ghost predicate ActivitiesWellFormed(db: Db) {
    && Table(db.activities, ActivityKey, ActivityStamp, db.nextId, db.clock)
    && (forall a | a in db.activities :: ActivityRowFits(db, a))
  }

  /** Referential integrity (every required reference exists, every optional
      one is null or exists), the length bounds, unique ids and usernames, and
      creation order along every table. */
  ghost predicate WellFormed(db: Db) {
    && UsersWellFormed(db)
    && ProjectsWellFormed(db)
    && MembershipsWellFormed(db)
    && BugsWellFormed(db)
    && CommentsWellFormed(db)
    && ActivitiesWellFormed(db)
  }

  /** The store after allocating one id and one creation stamp. */
  function Advance(db: Db): Db {
    db.(nextId := db.nextId + 1, clock := db.clock + 1)
  }

  /** A new bug row: status and priority take their field defaults when the
      input leaves them out, and the assignee starts empty. */
  function NewBug(
    db: Db, title: string, description: string, status: Option<string>,
    priority: Option<string>, project: nat, createdBy: nat): Bug
  {
    Bug(db.nextId, title, description, status.GetOr(DEFAULT_STATUS),
        priority.GetOr(DEFAULT_PRIORITY), None, project, createdBy, db.clock)
  }

  function InsertProject(db: Db, name: string, description: string, owner: nat): Db {
    Advance(db).(projects := db.projects + [Project(db.nextId, name, description, owner, db.clock)])
  }

  function InsertBug(db: Db, b: Bug): Db {
    Advance(db).(bugs := db.bugs + [b])
  }

  function InsertComment(db: Db, bug: nat, commenter: nat, message: string): Db {
    Advance(db).(comments := db.comments + [Comment(db.nextId, bug, commenter, message, db.clock)])
  }

  /** `ActivityLog.objects.create(...)`. */
  function AppendActivity(
    db: Db, project: nat, bug: Option<nat>, user: nat, action: string, description: string): Db
  {
    Advance(db).(activities := db.activities + [Activity(db.nextId, project, bug, user, action, description, db.clock)])
  }

  /** `bug.save()` of an existing row: the row with `b`'s id becomes `b`. */
  function SaveBug(db: Db, b: Bug): Db {
    db.(bugs := MapSeq(db.bugs, (x: Bug) => if x.id == b.id then b else x))
  }

  /** Saving adds and drops no row: `b` takes the place of the row with its
      id, every other row and every other table stays. */
  lemma SaveBugRows(db: Db, b: Bug)
    ensures var r := SaveBug(db, b);
      && r == db.(bugs := r.bugs) && |r.bugs| == |db.bugs|
      && (forall x :: x in r.bugs ==> x == b || (x in db.bugs && x.id != b.id))
      && (forall x :: x in db.bugs && x.id != b.id ==> x in r.bugs)
      && (b.id in BugIds(db) ==> b in r.bugs)
  {
    var r := SaveBug(db, b);
    forall x | x in r.bugs ensures x == b || (x in db.bugs && x.id != b.id) {
      var i :| 0 <= i < |r.bugs| && r.bugs[i] == x;
      assert db.bugs[i] in db.bugs;
    }
    forall x | x in db.bugs ensures (if x.id == b.id then b else x) in r.bugs {
      var i :| 0 <= i < |db.bugs| && db.bugs[i] == x;
      assert r.bugs[i] == (if x.id == b.id then b else x);
    }
  }

  /** `project.members.add(user)`. */
  function AddMembership(db: Db, pid: nat, user: nat): Db {
    db.(memberships := db.memberships + {Membership(pid, user)})
  }

  /** `project.members.remove(user)`. */
  function RemoveMembership(db: Db, pid: nat, user: nat): Db {
    db.(memberships := db.memberships - {Membership(pid, user)})
  }

  /** Appending a row stamped with the counters keeps a table a table. */
  lemma TableAppend<T>(s: seq<T>, x: T, key: T -> int, stamp: T -> int, nextId: int, clock: int)
    requires Table(s, key, stamp, nextId, clock)
    requires key(x) == nextId >= 0 && stamp(x) == clock >= 0
    ensures Table(s + [x], key, stamp, nextId + 1, clock + 1)
  {
    var t := s + [x];
    forall i, j | 0 <= i < j < |t| ensures key(t[i]) < key(t[j]) && stamp(t[i]) < stamp(t[j]) {
      if j < |s| {
        assert t[i] == s[i] && t[j] == s[j];
      } else {
        assert t[i] == s[i] && s[i] in s;
      }
    }
  }

  /** A new project owned by an existing user, with a name that fits. */
  lemma InsertProjectWellFormed(db: Db, name: string, description: string, owner: nat)
    requires WellFormed(db)
    requires owner in UserIds(db) && |name| <= NAME_MAX_LENGTH
    ensures WellFormed(InsertProject(db, name, description, owner))
  {
    var r := InsertProject(db, name, description, owner);
    TableAppend(db.projects, Project(db.nextId, name, description, owner, db.clock),
      ProjectKey, ProjectStamp, db.nextId, db.clock);
    assert ProjectIds(db) <= ProjectIds(r);
    forall b | b in r.bugs ensures BugRowFits(r, b) {
      assert BugRowFits(db, b);
    }
    forall a | a in r.activities ensures ActivityRowFits(r, a) {
      assert ActivityRowFits(db, a);
    }
  }

  /** A new bug row stamped with the counters whose references resolve. */
  lemma InsertBugWellFormed(db: Db, b: Bug)
    requires WellFormed(db)
    requires b.id == db.nextId && b.created == db.clock && BugRowFits(db, b)
    ensures WellFormed(InsertBug(db, b))
  {
    var r := InsertBug(db, b);
    TableAppend(db.bugs, b, BugKey, BugStamp, db.nextId, db.clock);
    assert BugIds(db) <= BugIds(r);
    forall x | x in r.bugs ensures BugRowFits(r, x) {
      assert BugRowFits(db, x);
    }
    forall a | a in r.activities ensures ActivityRowFits(r, a) {
      assert ActivityRowFits(db, a);
    }
  }

  /** A new comment on an existing bug by an existing user. */
  lemma InsertCommentWellFormed(db: Db, bug: nat, commenter: nat, message: string)
    requires WellFormed(db)
    requires bug in BugIds(db) && commenter in UserIds(db)
    ensures WellFormed(InsertComment(db, bug, commenter, message))
  {
    var r := InsertComment(db, bug, commenter, message);
    TableAppend(db.comments, Comment(db.nextId, bug, commenter, message, db.clock),
      CommentKey, CommentStamp, db.nextId, db.clock);
    forall x | x in r.bugs ensures BugRowFits(r, x) {
      assert BugRowFits(db, x);
    }
    forall a | a in r.activities ensures ActivityRowFits(r, a) {
      assert ActivityRowFits(db, a);
    }
  }

  /** A new activity entry whose references resolve and whose action fits. */
  lemma AppendActivityWellFormed(
    db: Db, project: nat, bug: Option<nat>, user: nat, action: string, description: string)
    requires WellFormed(db)
    requires ActivityRowFits(db, Activity(db.nextId, project, bug, user, action, description, db.clock))
    ensures WellFormed(AppendActivity(db, project, bug, user, action, description))
  {
    var r := AppendActivity(db, project, bug, user, action, description);
    TableAppend(db.activities, Activity(db.nextId, project, bug, user, action, description, db.clock),
      ActivityKey, ActivityStamp, db.nextId, db.clock);
    forall x | x in r.bugs ensures BugRowFits(r, x) {
      assert BugRowFits(db, x);
    }
    forall a | a in r.activities ensures ActivityRowFits(r, a) {
      assert ActivityRowFits(db, a);
    }
  }

  /** Adding a member pair of an existing project and user keeps the store
      well formed; so does removing any pair. */
  lemma AddMembershipWellFormed(db: Db, pid: nat, user: nat)
    requires WellFormed(db) && pid in ProjectIds(db) && user in UserIds(db)
    ensures WellFormed(AddMembership(db, pid, user))
  {
    var r := AddMembership(db, pid, user);
    assert UserIds(r) == UserIds(db) && ProjectIds(r) == ProjectIds(db) && BugIds(r) == BugIds(db);
  }

  lemma RemoveMembershipWellFormed(db: Db, pid: nat, user: nat)
    requires WellFormed(db)
    ensures WellFormed(RemoveMembership(db, pid, user))
  {
    var r := RemoveMembership(db, pid, user);
    assert UserIds(r) == UserIds(db) && ProjectIds(r) == ProjectIds(db) && BugIds(r) == BugIds(db);
  }

  /** A table whose rows are replaced by rows with the same ids and stamps is a table. */
  lemma SameKeysTable<T>(s: seq<T>, t: seq<T>, key: T -> int, stamp: T -> int, nextId: int, clock: int)
    requires Table(s, key, stamp, nextId, clock)
    requires |t| == |s|
    requires forall i :: 0 <= i < |s| ==> key(t[i]) == key(s[i]) && stamp(t[i]) == stamp(s[i])
    ensures Table(t, key, stamp, nextId, clock)
  {
    forall x | x in t ensures 0 <= key(x) < nextId && 0 <= stamp(x) < clock {
      var i :| 0 <= i < |t| && t[i] == x;
      assert s[i] in s;
    }
  }

  /** Saving a bug over its own row, keeping its id and stamp, with
      references that resolve. */
  lemma SaveBugWellFormed(db: Db, b: Bug)
    requires WellFormed(db)
    requires exists x :: x in db.bugs && x.id == b.id && x.created == b.created
    requires BugRowFits(db, b)
    ensures WellFormed(SaveBug(db, b))
  {
    var r := SaveBug(db, b);
    SaveBugKeys(db, b);
    SameKeysTable(db.bugs, r.bugs, BugKey, BugStamp, db.nextId, db.clock);
    SaveBugIds(db, b);
    SaveBugRows(db, b);
    assert ProjectIds(r) == ProjectIds(db) && UserIds(r) == UserIds(db);
    forall x | x in r.bugs ensures BugRowFits(r, x) {
      assert BugRowFits(db, x);
    }
    assert BugsWellFormed(r);
    forall a | a in r.activities ensures ActivityRowFits(r, a) {
      assert ActivityRowFits(db, a);
    }
  }

  /** Saving over a row with the same id keeps the set of bug ids. */
  lemma SaveBugIds(db: Db, b: Bug)
    requires Increasing(db.bugs, BugKey)
    requires exists x :: x in db.bugs && x.id == b.id && x.created == b.created
    ensures BugIds(SaveBug(db, b)) == BugIds(db)
  {
    var r := SaveBug(db, b);
    SaveBugKeys(db, b);
    forall x | x in BugIds(db) ensures x in BugIds(r) {
      var i :| 0 <= i < |db.bugs| && db.bugs[i].id == x;
      assert r.bugs[i] in r.bugs;
    }
    forall x | x in BugIds(r) ensures x in BugIds(db) {
      var i :| 0 <= i < |r.bugs| && r.bugs[i].id == x;
      assert db.bugs[i] in db.bugs;
    }
  }

  /** Saving keeps the id and stamp at every position. */
  lemma SaveBugKeys(db: Db, b: Bug)
    requires Increasing(db.bugs, BugKey)
    requires exists x :: x in db.bugs && x.id == b.id && x.created == b.created
    ensures forall i :: 0 <= i < |db.bugs| ==>
      SaveBug(db, b).bugs[i].id == db.bugs[i].id && SaveBug(db, b).bugs[i].created == db.bugs[i].created
  {
    var r := SaveBug(db, b);
    var prior :| prior in db.bugs && prior.id == b.id && prior.created == b.created;
    forall i | 0 <= i < |db.bugs| ensures r.bugs[i].id == db.bugs[i].id && r.bugs[i].created == db.bugs[i].created {
      if db.bugs[i].id == b.id {
        assert db.bugs[i] in db.bugs;
        IncreasingInjective(db.bugs, BugKey, db.bugs[i], prior);
      }
    }
  }

  /** Filtering a table keeps it a table. */
  lemma FilterTable<T(!new)>(s: seq<T>, f: T -> bool, key: T -> int, stamp: T -> int, nextId: int, clock: int)
    ensures Table(s, key, stamp, nextId, clock) ==> Table(Filter(s, f), key, stamp, nextId, clock)
  {
    FilterKeepsOrder(s, f, key);
    FilterKeepsOrder(s, f, stamp);
  }

  /** Whether a bug row goes when projects `P`, bugs `B` and users `U` are deleted. */
  predicate BugDies(P: set<nat>, B: set<nat>, U: set<nat>, b: Bug) {
    b.id in B || b.project in P || b.createdBy in U
  }

  /** The ids of the bugs that go. */
  function DeadBugs(db: Db, P: set<nat>, B: set<nat>, U: set<nat>): set<nat> {
    B + (set b | b in db.bugs && BugDies(P, B, U, b) :: b.id)
  }

  /** The bug, comment and activity rows that remain once projects `P`, bugs
      `B` and users `U` are deleted: CASCADE from a project to its bugs and
      activity entries, from a bug to its comments and activity entries, and
      from a user to the bugs they created, their comments and their entries.
      The surviving rows keep their order. */
  function DropBugs(db: Db, P: set<nat>, B: set<nat>, U: set<nat>): (r: Db)
    ensures r == db.(bugs := r.bugs, comments := r.comments, activities := r.activities)
    ensures forall b :: b in r.bugs <==> b in db.bugs && !BugDies(P, B, U, b)
    ensures forall c :: c in r.comments <==>
      c in db.comments && c.bug !in DeadBugs(db, P, B, U) && c.commenter !in U
    ensures forall a :: a in r.activities <==>
      a in db.activities && a.project !in P && a.user !in U &&
      !(a.bug.Some? && a.bug.value in DeadBugs(db, P, B, U))
    ensures Table(db.bugs, BugKey, BugStamp, db.nextId, db.clock) ==>
      Table(r.bugs, BugKey, BugStamp, db.nextId, db.clock)
    ensures Table(db.comments, CommentKey, CommentStamp, db.nextId, db.clock) ==>
      Table(r.comments, CommentKey, CommentStamp, db.nextId, db.clock)
    ensures Table(db.activities, ActivityKey, ActivityStamp, db.nextId, db.clock) ==>
      Table(r.activities, ActivityKey, ActivityStamp, db.nextId, db.clock)
  {
    var deadBugs := DeadBugs(db, P, B, U);
    var liveBug := (b: Bug) => !BugDies(P, B, U, b);
    var liveComment := (c: Comment) => c.bug !in deadBugs && c.commenter !in U;
    var liveActivity := (a: Activity) =>
      a.project !in P && a.user !in U && !(a.bug.Some? && a.bug.value in deadBugs);
    FilterTable(db.bugs, liveBug, BugKey, BugStamp, db.nextId, db.clock);
    FilterTable(db.comments, liveComment, CommentKey, CommentStamp, db.nextId, db.clock);
    FilterTable(db.activities, liveActivity, ActivityKey, ActivityStamp, db.nextId, db.clock);
    db.(bugs := Filter(db.bugs, liveBug),
        comments := Filter(db.comments, liveComment),
        activities := Filter(db.activities, liveActivity))
  }

  /** The comments and activity entries that survive a cascade point at
      surviving bugs. */
  lemma DropBugsReferences(db: Db, P: set<nat>, B: set<nat>, U: set<nat>)
    requires WellFormed(db)
    ensures forall c | c in DropBugs(db, P, B, U).comments :: c.bug in BugIds(DropBugs(db, P, B, U))
    ensures forall a | a in DropBugs(db, P, B, U).activities ::
      a.bug.Some? ==> a.bug.value in BugIds(DropBugs(db, P, B, U))
  {
    var d := DropBugs(db, P, B, U);
    forall c | c in d.comments ensures c.bug in BugIds(d) {
      var b :| b in db.bugs && b.id == c.bug;
      assert b in d.bugs;
    }
    forall a | a in d.activities && a.bug.Some? ensures a.bug.value in BugIds(d) {
      var b :| b in db.bugs && b.id == a.bug.value;
      assert b in d.bugs;
    }
  }

  /** Deleting a project deletes its bugs, its activity entries and its
      memberships, and through the bugs their comments and entries. */
  function DeleteProject(db: Db, pid: nat): (r: Db)
    ensures r.users == db.users && r.nextId == db.nextId && r.clock == db.clock
    ensures forall p :: p in r.projects <==> p in db.projects && p.id != pid
    ensures forall m :: m in r.memberships <==> m in db.memberships && m.project != pid
    ensures forall b :: b in r.bugs <==> b in db.bugs && b.project != pid
    ensures forall c :: c in r.comments <==>
      c in db.comments && !(exists b :: b in db.bugs && b.id == c.bug && b.project == pid)
    ensures forall a :: a in r.activities <==>
      a in db.activities && a.project != pid &&
      !(a.bug.Some? && exists b :: b in db.bugs && b.id == a.bug.value && b.project == pid)
    ensures Table(db.projects, ProjectKey, ProjectStamp, db.nextId, db.clock) ==>
      Table(r.projects, ProjectKey, ProjectStamp, db.nextId, db.clock)
  {
    var liveProject := (p: Project) => p.id != pid;
    FilterTable(db.projects, liveProject, ProjectKey, ProjectStamp, db.nextId, db.clock);
    DropBugs(db, {pid}, {}, {}).(
      projects := Filter(db.projects, liveProject),
      memberships := (set m | m in db.memberships && m.project != pid))
  }

  /** Deleting a bug deletes its comments and its activity entries; projects,
      users and memberships are untouched. */
  function DeleteBug(db: Db, bid: nat): (r: Db)
    ensures r.users == db.users && r.projects == db.projects && r.memberships == db.memberships
    ensures r.nextId == db.nextId && r.clock == db.clock
    ensures forall b :: b in r.bugs <==> b in db.bugs && b.id != bid
    ensures forall c :: c in r.comments <==> c in db.comments && c.bug != bid
    ensures forall a :: a in r.activities <==> a in db.activities && a.bug != Some(bid)
  {
    DropBugs(db, {}, {bid}, {})
  }

  /** SET_NULL: a bug assigned to the deleted user `uid` loses its assignee. */
  function ClearAssignee(b: Bug, uid: nat): (r: Bug)
    ensures r.assignedTo != Some(uid)
    ensures r.(assignedTo := b.assignedTo) == b
    ensures b.assignedTo != Some(uid) ==> r == b
    ensures r.assignedTo.Some? ==> r == b
  {
    if b.assignedTo == Some(uid) then b.(assignedTo := None) else b
  }

  /** `ClearAssignee` on every row of a bug table. */
  function ClearAssignees(bugs: seq<Bug>, uid: nat): (r: seq<Bug>)
    ensures |r| == |bugs|
    ensures forall i :: 0 <= i < |bugs| ==> r[i] == ClearAssignee(bugs[i], uid)
  {
    seq(|bugs|, i requires 0 <= i < |bugs| => ClearAssignee(bugs[i], uid))
  }

  /** Clearing assignees keeps every row but its assignee, and keeps a bug
      table a table. */
  lemma ClearAssigneesRows(bugs: seq<Bug>, uid: nat, nextId: int, clock: int)
    ensures forall b :: b in ClearAssignees(bugs, uid) ==>
      b.assignedTo != Some(uid) && (b in bugs || b.(assignedTo := Some(uid)) in bugs)
    ensures forall b :: b in bugs ==> ClearAssignee(b, uid) in ClearAssignees(bugs, uid)
    ensures Table(bugs, BugKey, BugStamp, nextId, clock) ==>
      Table(ClearAssignees(bugs, uid), BugKey, BugStamp, nextId, clock)
  {
    var r := ClearAssignees(bugs, uid);
    forall b | b in r ensures b in bugs || b.(assignedTo := Some(uid)) in bugs {
      var i :| 0 <= i < |r| && r[i] == b;
      assert bugs[i] in bugs;
    }
    forall b | b in bugs ensures ClearAssignee(b, uid) in r {
      var i :| 0 <= i < |bugs| && bugs[i] == b;
      assert r[i] == ClearAssignee(b, uid);
    }
  }

  /** The ids of the projects `uid` owns. */
  function OwnedProjects(db: Db, uid: nat): (r: set<nat>)
    ensures forall pid :: pid in r <==> OwnsProject(db, pid, uid)
  {
    set p | p in db.projects && p.owner == uid :: p.id
  }

  /** Deleting a user deletes the projects they own, the bugs they created,
      their comments, their activity entries and their memberships (with
      everything that cascades from those), and clears the assignee of the
      surviving bugs assigned to them. */
  function DeleteUser(db: Db, uid: nat): (r: Db)
    ensures r.nextId == db.nextId && r.clock == db.clock
    ensures forall u :: u in r.users <==> u in db.users && u.id != uid
    ensures forall p :: p in r.projects <==> p in db.projects && p.owner != uid
    ensures forall m :: m in r.memberships <==>
      m in db.memberships && m.user != uid && !OwnsProject(db, m.project, uid)
    ensures forall b :: b in r.bugs ==>
      b.assignedTo != Some(uid) && b.createdBy != uid && !OwnsProject(db, b.project, uid) &&
      (b in db.bugs || b.(assignedTo := Some(uid)) in db.bugs)
    ensures forall b :: b in db.bugs && b.createdBy != uid && !OwnsProject(db, b.project, uid) ==>
      ClearAssignee(b, uid) in r.bugs
    ensures forall c :: c in r.comments <==>
      c in db.comments && c.commenter != uid && c.bug !in DeadBugs(db, OwnedProjects(db, uid), {}, {uid})
    ensures forall a :: a in r.activities <==>
      a in db.activities && a.user != uid && !OwnsProject(db, a.project, uid) &&
      !(a.bug.Some? && a.bug.value in DeadBugs(db, OwnedProjects(db, uid), {}, {uid}))
    ensures Increasing(db.users, UserKey) ==> Increasing(r.users, UserKey)
    ensures Table(db.projects, ProjectKey, ProjectStamp, db.nextId, db.clock) ==>
      Table(r.projects, ProjectKey, ProjectStamp, db.nextId, db.clock)
    ensures Table(db.bugs, BugKey, BugStamp, db.nextId, db.clock) ==>
      Table(r.bugs, BugKey, BugStamp, db.nextId, db.clock)
  {
    var d := UserCascade(db, uid);
    ClearAssigneesRows(d.bugs, uid, db.nextId, db.clock);
    d.(users := OtherUsers(db.users, uid),
       projects := UnownedProjects(db, uid),
       memberships := OtherMemberships(db, uid),
       bugs := ClearAssignees(d.bugs, uid))
  }

  /** The bug, comment and activity rows that survive the deletion of `uid`
      and of the projects they own. */
  function UserCascade(db: Db, uid: nat): (r: Db)
    ensures r == db.(bugs := r.bugs, comments := r.comments, activities := r.activities)
    ensures forall b :: b in r.bugs <==>
      b in db.bugs && b.createdBy != uid && !OwnsProject(db, b.project, uid)
    ensures forall c :: c in r.comments <==>
      c in db.comments && c.commenter != uid && c.bug !in DeadBugs(db, OwnedProjects(db, uid), {}, {uid})
    ensures forall a :: a in r.activities <==>
      a in db.activities && a.user != uid && !OwnsProject(db, a.project, uid) &&
      !(a.bug.Some? && a.bug.value in DeadBugs(db, OwnedProjects(db, uid), {}, {uid}))
    ensures Table(db.bugs, BugKey, BugStamp, db.nextId, db.clock) ==>
      Table(r.bugs, BugKey, BugStamp, db.nextId, db.clock)
  {
    DropBugs(db, OwnedProjects(db, uid), {}, {uid})
  }

  /** The users other than `uid`, in table order. */
  function OtherUsers(users: seq<User>, uid: nat): (r: seq<User>)
    ensures forall u :: u in r <==> u in users && u.id != uid
    ensures Increasing(users, UserKey) ==> Increasing(r, UserKey)
  {
    var live := (u: User) => u.id != uid;
    FilterKeepsOrder(users, live, UserKey);
    Filter(users, live)
  }

  /** The projects `uid` does not own, in table order. */
  function UnownedProjects(db: Db, uid: nat): (r: seq<Project>)
    ensures forall p :: p in r <==> p in db.projects && p.owner != uid
    ensures Table(db.projects, ProjectKey, ProjectStamp, db.nextId, db.clock) ==>
      Table(r, ProjectKey, ProjectStamp, db.nextId, db.clock)
  {
    var live := (p: Project) => p.owner != uid;
    FilterTable(db.projects, live, ProjectKey, ProjectStamp, db.nextId, db.clock);
    Filter(db.projects, live)
  }

  /** The member pairs that survive the deletion of `uid`. */
  function OtherMemberships(db: Db, uid: nat): (r: set<Membership>)
    ensures forall m :: m in r <==> m in db.memberships && m.user != uid && !OwnsProject(db, m.project, uid)
  {
    set m | m in db.memberships && m.user != uid && m.project !in OwnedProjects(db, uid)
  }

  /** A deleted bug leaves no dangling reference behind. */
  lemma DeleteBugWellFormed(db: Db, bid: nat)
    requires WellFormed(db)
    ensures WellFormed(DeleteBug(db, bid))
  {
    var r := DeleteBug(db, bid);
    DropBugsReferences(db, {}, {bid}, {});
    assert ProjectIds(r) == ProjectIds(db) && UserIds(r) == UserIds(db);
    forall b | b in r.bugs ensures BugRowFits(r, b) {
      assert BugRowFits(db, b);
    }
    forall a | a in r.activities ensures ActivityRowFits(r, a) {
      assert ActivityRowFits(db, a);
    }
  }

  /** A deleted project leaves no dangling reference behind. */
  lemma DeleteProjectWellFormed(db: Db, pid: nat)
    requires WellFormed(db)
    ensures WellFormed(DeleteProject(db, pid))
  {
    var r := DeleteProject(db, pid);
    DropBugsReferences(db, {pid}, {}, {});
    assert r.bugs == DropBugs(db, {pid}, {}, {}).bugs;
    assert UserIds(r) == UserIds(db);
    forall q | q in ProjectIds(db) && q != pid ensures q in ProjectIds(r) {
      var p :| p in db.projects && p.id == q;
      assert p in r.projects;
    }
    forall b | b in r.bugs ensures BugRowFits(r, b) {
      assert BugRowFits(db, b);
    }
    forall a | a in r.activities ensures ActivityRowFits(r, a) {
      assert ActivityRowFits(db, a);
    }
  }

  /** The ids that survive the deletion of a user. */
  lemma DeleteUserIds(db: Db, uid: nat)
    requires WellFormed(db)
    ensures forall x | x in UserIds(db) && x != uid :: x in UserIds(DeleteUser(db, uid))
    ensures forall q | q in ProjectIds(db) && !OwnsProject(db, q, uid) :: q in ProjectIds(DeleteUser(db, uid))
    ensures BugIds(DeleteUser(db, uid)) == BugIds(DropBugs(db, OwnedProjects(db, uid), {}, {uid}))
  {
    var r := DeleteUser(db, uid);
    var d := DropBugs(db, OwnedProjects(db, uid), {}, {uid});
    ClearAssigneesRows(d.bugs, uid, db.nextId, db.clock);
    forall x | x in BugIds(d) ensures x in BugIds(r) {
      var b :| b in d.bugs && b.id == x;
      assert ClearAssignee(b, uid) in r.bugs;
    }
    forall x | x in UserIds(db) && x != uid ensures x in UserIds(r) {
      var u :| u in db.users && u.id == x;
      assert u in r.users;
    }
    forall q | q in ProjectIds(db) && !OwnsProject(db, q, uid) ensures q in ProjectIds(r) {
      var p :| p in db.projects && p.id == q;
      assert p in r.projects;
    }
  }

  /** A deleted user leaves no dangling reference behind. */
  lemma DeleteUserWellFormed(db: Db, uid: nat)
    requires WellFormed(db)
    ensures WellFormed(DeleteUser(db, uid))
  {
    var r := DeleteUser(db, uid);
    DeleteUserIds(db, uid);
    DropBugsReferences(db, OwnedProjects(db, uid), {}, {uid});
    assert UsersWellFormed(r);
    assert ProjectsWellFormed(r);
    assert MembershipsWellFormed(r);
    forall b | b in r.bugs ensures BugRowFits(r, b) {
      if b in db.bugs {
        assert BugRowFits(db, b);
      } else {
        assert BugRowFits(db, b.(assignedTo := Some(uid)));
      }
    }
    assert CommentsWellFormed(r);
    forall a | a in r.activities ensures ActivityRowFits(r, a) {
      assert ActivityRowFits(db, a);
    }
  }
}
