/** The channel layer the tracker publishes to: a map from group name to the
    set of channel names in the group, and an outbox to which every
    `group_send` appends one record. Delivery is the transport's business. */
module Channels {
  import opened Seqs
  import opened Text
  import opened JsonData
  import opened Serializers

  /** `f"project_{project_id}"`: the prefix, then the project id in decimal,
      which reads back as that id. */
  function GroupName(projectId: nat): (g: string)
    ensures |g| > |"project_"| && g[..|"project_"|] == "project_"
    ensures ParseNat(g[|"project_"|..]) == Some(projectId)
  {
    var g := "project_" + NatToString(projectId);
    assert g[|"project_"|..] == NatToString(projectId);
    ParseNatToString(projectId);
    g
  }

  /** Distinct projects have distinct groups: an event for one project never
      reaches the connections of another. */
  lemma GroupNameInjective(a: nat, b: nat)
    ensures GroupName(a) == GroupName(b) <==> a == b
  {
  }

  /** The `data` of a broadcast: a serialized bug, a serialized comment, or a
      value some other publisher attached. */
  datatype Payload = BugData(bug: BugRepr) | CommentData(comment: CommentRepr) | OtherData(value: Json)

  /** The group messages, by their `type` key. */
  datatype Event =
    | BugUpdate(eventType: string, bugId: nat, data: Payload)
    | CommentAdded(bugId: nat, data: Payload)
    | TypingIndicator(user: string, typingBugId: Json, isTyping: Json)
    | ActivityUpdate(data: Payload)

  datatype GroupMessage = GroupMessage(group: string, event: Event)

  /** The channels in `group` (none when the group was never created). */
  function Members(groups: map<string, set<string>>, group: string): (r: set<string>)
    ensures group in groups ==> r == groups[group]
    ensures group !in groups ==> r == {}
  {
    if group in groups then groups[group] else {}
  }

  /** `group_add`: `channel` joins `group`; every other group is unchanged. */
  function WithChannel(groups: map<string, set<string>>, group: string, channel: string): (r: map<string, set<string>>)
    ensures Members(r, group) == Members(groups, group) + {channel}
    ensures forall g :: g != group ==> Members(r, g) == Members(groups, g)
  {
    groups[group := Members(groups, group) + {channel}]
  }

  /** `group_discard`: `channel` leaves `group`; every other group is unchanged. */
  function WithoutChannel(groups: map<string, set<string>>, group: string, channel: string): (r: map<string, set<string>>)
    ensures Members(r, group) == Members(groups, group) - {channel}
    ensures forall g :: g != group ==> Members(r, g) == Members(groups, g)
  {
    if group in groups then groups[group := groups[group] - {channel}] else groups
  }

  /** Leaving the group just joined restores the group, unless the channel
      was already a member. */
  lemma DiscardUndoesAdd(groups: map<string, set<string>>, group: string, channel: string)
    requires channel !in Members(groups, group)
    ensures Members(WithoutChannel(WithChannel(groups, group, channel), group, channel), group) ==
      Members(groups, group)
  {
    var before := Members(groups, group);
    assert (before + {channel}) - {channel} == before;
  }

  class ChannelLayer {
    var groups: map<string, set<string>>
    var outbox: seq<GroupMessage>

    constructor ()
      ensures groups == map[] && outbox == []
    {
      groups := map[];
      outbox := [];
    }

    method GroupAdd(group: string, channel: string)
      modifies this
      ensures groups == WithChannel(old(groups), group, channel)
      ensures outbox == old(outbox)
    {
      groups := WithChannel(groups, group, channel);
    }

    method GroupDiscard(group: string, channel: string)
      modifies this
      ensures groups == WithoutChannel(old(groups), group, channel)
      ensures outbox == old(outbox)
    {
      groups := WithoutChannel(groups, group, channel);
    }

    /** `group_send`: one record appended, membership untouched. */
    method GroupSend(group: string, event: Event)
      modifies this
      ensures outbox == old(outbox) + [GroupMessage(group, event)]
      ensures groups == old(groups)
    {
      outbox := outbox + [GroupMessage(group, event)];
    }
  }
}
