/** Identifiers and records shared by the cluster components. */
module ClusterTypes {
  type NodeId = string

  datatype NodeMeta = NodeMeta(id: NodeId, addr: string, tags: map<string, string>, joinedAt: int)

  datatype MemberEventType = MemberJoin | MemberLeave | MemberFailed | MemberUpdated

  datatype MemberEvent = MemberEvent(kind: MemberEventType, member: NodeMeta)

  function Ids(members: seq<NodeMeta>): set<NodeId>
  {
    set m | m in members :: m.id
  }
}
