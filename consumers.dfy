/** tracker/consumers.py: one `ProjectConsumer` per socket connection. It joins
    the group of its project when the user may see the project, relays
    "typing" messages from its client to the group, and forwards the group's
    events to its client, except typing events whose user is its own. */
module Consumers {
  import opened Seqs
  import opened JsonData
  import opened Models
  import opened Channels

  /** `scope["user"]`. */
  datatype ScopeUser = Anonymous | Authenticated(id: nat, username: string)

  /** `.username`; an anonymous user's is empty. */
  function Username(u: ScopeUser): string {
    if u.Authenticated? then u.username else ""
  }

  /** `has_project_access`: not anonymous, the project exists, and the user
      owns it or is one of its members. */
  predicate HasAccess(db: Db, user: ScopeUser, projectId: nat) {
    && user.Authenticated?
    && match FindProject(db, projectId)
       case None => false
       case Some(p) => p.owner == user.id || IsMember(db, p.id, user.id)
  }

  /** With unique project ids, access is exactly ownership or membership of
      an existing project. */
  lemma HasAccessIff(db: Db, user: ScopeUser, projectId: nat)
    requires Increasing(db.projects, ProjectKey)
    ensures HasAccess(db, user, projectId) <==>
      user.Authenticated? && projectId in ProjectIds(db) &&
      (OwnsProject(db, projectId, user.id) || IsMember(db, projectId, user.id))
  {
    if user.Authenticated? && OwnsProject(db, projectId, user.id) {
      var p :| p in db.projects && p.id == projectId && p.owner == user.id;
      FindUnique(db.projects, ProjectKey, p);
    }
    if user.Authenticated? && projectId in ProjectIds(db) {
      var p :| p in db.projects && p.id == projectId;
      FindUnique(db.projects, ProjectKey, p);
    }
  }

  /** What `json.loads` made of the text frame. */
  datatype Decoded = Malformed | Decoded(value: Json)

  /** What `receive` does with one frame. */
  datatype ReceiveResult =
    | Dropped          // not JSON: the decode error is swallowed
    | Raised           // JSON but not an object: `data.get` raises
    | Ignored          // an object whose type is not "typing"
    | Emitted(event: Event)

  /** The effect of one inbound frame from a client whose username is `me`. */
  function Inbound(me: string, d: Decoded): (r: ReceiveResult)
    ensures r.Emitted? <==>
      d.Decoded? && d.value.JObject? && Get(d.value.fields, "type") == Some(JString("typing"))
    ensures r.Dropped? <==> d.Malformed?
    ensures r.Raised? <==> d.Decoded? && !d.value.JObject?
    ensures r.Emitted? ==> r.event.TypingIndicator? && r.event.user == me
    ensures r.Emitted? ==>
      r.event.typingBugId == Get(d.value.fields, "bug_id").GetOr(JNull) &&
      r.event.isTyping == Get(d.value.fields, "is_typing").GetOr(JBool(false))
  {
    match d
    case Malformed => Dropped
    case Decoded(v) =>
      if !v.JObject? then Raised
      else if Get(v.fields, "type") == Some(JString("typing")) then
        Emitted(TypingIndicator(me, Get(v.fields, "bug_id").GetOr(JNull), Get(v.fields, "is_typing").GetOr(JBool(false))))
      else Ignored
  }

  /** The frames `send` writes to the client, by their `type` key. */
  datatype OutMessage =
    | OutBugUpdate(eventType: string, bugId: nat, data: Payload)
    | OutCommentAdded(bugId: nat, data: Payload)
    | OutTyping(user: string, typingBugId: Json, isTyping: Json)
    | OutActivity(data: Payload)

  /** What the handler for a group event sends to a client whose username is
      `me`: every field of the event unchanged, and nothing for a typing
      event of `me`'s own. */
  function Relay(me: string, e: Event): (r: Option<OutMessage>)
    ensures r.None? <==> e.TypingIndicator? && e.user == me
    ensures e.BugUpdate? ==> r == Some(OutBugUpdate(e.eventType, e.bugId, e.data))
    ensures e.CommentAdded? ==> r == Some(OutCommentAdded(e.bugId, e.data))
    ensures e.ActivityUpdate? ==> r == Some(OutActivity(e.data))
    ensures e.TypingIndicator? && r.Some? ==> r == Some(OutTyping(e.user, e.typingBugId, e.isTyping))
  {
    match e
    case BugUpdate(t, id, data) => Some(OutBugUpdate(t, id, data))
    case CommentAdded(id, data) => Some(OutCommentAdded(id, data))
    case TypingIndicator(u, id, typing) => if u != me then Some(OutTyping(u, id, typing)) else None
    case ActivityUpdate(data) => Some(OutActivity(data))
  }

  /** A typing frame from a client named `sender` reaches a connection named
      `receiver` exactly when the names differ: never its sender, and never the
      sender's other connections either. */
  lemma TypingReachesOthersOnly(sender: string, receiver: string, d: Decoded)
    requires Inbound(sender, d).Emitted?
    ensures Relay(receiver, Inbound(sender, d).event).Some? <==> sender != receiver
  {
  }

  function AsSeq<T>(o: Option<T>): (r: seq<T>)
    ensures o.None? ==> r == []
    ensures o.Some? ==> r == [o.value]
  {
    if o.Some? then [o.value] else []
  }

  datatype ConnState = Connecting | Open | Closed

  class ProjectConsumer {
    const channelName: string
    const user: ScopeUser
    const layer: ChannelLayer
    var projectId: nat
    var groupName: string
    var state: ConnState
    /** The frames sent to the client, oldest first. */
    var sent: seq<OutMessage>

    constructor (channelName: string, user: ScopeUser, layer: ChannelLayer)
      ensures this.channelName == channelName && this.user == user && this.layer == layer
      ensures state == Connecting && sent == []
    {
      this.channelName := channelName;
      this.user := user;
      this.layer := layer;
      projectId := 0;
      groupName := "";
      state := Connecting;
      sent := [];
    }

    method HasProjectAccess(db: Db) returns (ok: bool)
      ensures ok == HasAccess(db, user, projectId)
    {
      if user.Anonymous? {
        return false;
      }
      var project := FindProject(db, projectId);
      if project.None? {
        return false;
      }
      ok := project.value.owner == user.id || Membership(project.value.id, user.id) in db.memberships;
    }

    /** `connect`: record the project and its group, then join the group and
      accept when access is granted, or close leaving every group as it was. */
    method Connect(db: Db, projectId: nat)
      requires state == Connecting
      modifies this, layer
      ensures this.projectId == projectId && groupName == GroupName(projectId)
      ensures HasAccess(db, user, projectId) ==>
        state == Open && layer.groups == WithChannel(old(layer.groups), groupName, channelName)
      ensures !HasAccess(db, user, projectId) ==> state == Closed && layer.groups == old(layer.groups)
      ensures layer.outbox == old(layer.outbox) && sent == old(sent)
    {
      this.projectId := projectId;
      groupName := GroupName(projectId);
      var ok := HasProjectAccess(db);
      if ok {
        layer.GroupAdd(groupName, channelName);
        state := Open;
      } else {
        state := Closed;
      }
    }

    /** `disconnect`: leave this connection's group; no other group changes. */
    method Disconnect()
      requires state != Connecting
      modifies this, layer
      ensures layer.groups == WithoutChannel(old(layer.groups), groupName, channelName)
      ensures channelName !in Members(layer.groups, groupName)
      ensures forall g :: g != groupName ==> Members(layer.groups, g) == Members(old(layer.groups), g)
      ensures state == Closed && layer.outbox == old(layer.outbox) && sent == old(sent)
      ensures projectId == old(projectId) && groupName == old(groupName)
    {
      layer.GroupDiscard(groupName, channelName);
      state := Closed;
    }

    /** `receive`: a typing frame becomes one group event; anything else
      sends nothing. A JSON value that is not an object makes `data.get`
      raise; the exception is not caught, so the server closes the socket
      without running `disconnect`, and the channel stays in its group. */
    method Receive(d: Decoded) returns (r: ReceiveResult)
      requires state == Open
      modifies this`state, layer
      ensures r == Inbound(Username(user), d)
      ensures r.Emitted? ==> layer.outbox == old(layer.outbox) + [GroupMessage(groupName, r.event)]
      ensures !r.Emitted? ==> layer.outbox == old(layer.outbox)
      ensures r.Raised? ==> state == Closed
      ensures !r.Raised? ==> state == Open
      ensures layer.groups == old(layer.groups)
    {
      match d
      case Malformed =>
        return Dropped;
      case Decoded(v) =>
        if !v.JObject? {
          state := Closed;
          return Raised;
        }
        var messageType := Get(v.fields, "type");
        if messageType == Some(JString("typing")) {
          var e := TypingIndicator(Username(user), Get(v.fields, "bug_id").GetOr(JNull),
                                   Get(v.fields, "is_typing").GetOr(JBool(false)));
          layer.GroupSend(groupName, e);
          return Emitted(e);
        }
        return Ignored;
    }

    method BugUpdateHandler(eventType: string, bugId: nat, data: Payload)
      modifies this`sent
      ensures sent == old(sent) + [OutBugUpdate(eventType, bugId, data)]
    {
      sent := sent + [OutBugUpdate(eventType, bugId, data)];
    }

    method CommentAddedHandler(bugId: nat, data: Payload)
      modifies this`sent
      ensures sent == old(sent) + [OutCommentAdded(bugId, data)]
    {
      sent := sent + [OutCommentAdded(bugId, data)];
    }

    method TypingIndicatorHandler(sender: string, bugId: Json, isTyping: Json)
      modifies this`sent
      ensures sender != Username(user) ==> sent == old(sent) + [OutTyping(sender, bugId, isTyping)]
      ensures sender == Username(user) ==> sent == old(sent)
    {
      if sender != Username(user) {
        sent := sent + [OutTyping(sender, bugId, isTyping)];
      }
    }

    method ActivityUpdateHandler(data: Payload)
      modifies this`sent
      ensures sent == old(sent) + [OutActivity(data)]
    {
      sent := sent + [OutActivity(data)];
    }

    /** A group event handed to its handler by its `type`. */
    method Dispatch(e: Event)
      modifies this`sent
      ensures sent == old(sent) + AsSeq(Relay(Username(user), e))
    {
      match e
      case BugUpdate(t, id, data) => BugUpdateHandler(t, id, data);
      case CommentAdded(id, data) => CommentAddedHandler(id, data);
      case TypingIndicator(u, id, typing) => TypingIndicatorHandler(u, id, typing);
      case ActivityUpdate(data) => ActivityUpdateHandler(data);
    }
  }
}
