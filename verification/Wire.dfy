/** The server's records as the client sees them (`ember/client/src/wire.rs`). */
module Wire {
  import opened Wrappers
  import Transcripts

  datatype SessionStatus = Idle | Running | WaitingForApproval | Finished | Failed | Unknown

  datatype SessionRecord = SessionRecord(
    id: string,
    project: string,
    agent: string,
    cwd: string,
    model: Option<string>,
    nativeId: Option<string>,
    status: SessionStatus,
    title: string,
    createdAt: int,
    updatedAt: int,
    lastSeq: int,
    accountId: Option<string>,
    accountReason: Option<string>,
    pinned: bool,
    archived: bool)

  /** Title, pin and archive mark: what the user edits. */
  predicate SameMeta(a: SessionRecord, b: SessionRecord) {
    a.title == b.title && a.pinned == b.pinned && a.archived == b.archived
  }

  /** `cur` with the user-editable metadata of `other`, and whether anything changed. */
  function TakeMeta(cur: SessionRecord, other: SessionRecord): (r: (SessionRecord, bool))
    ensures SameMeta(r.0, other)
    ensures r.1 <==> r.0 != cur
    ensures r.0.id == cur.id && r.0.project == cur.project && r.0.updatedAt == cur.updatedAt
    ensures r.0.lastSeq == cur.lastSeq && r.0.status == cur.status && r.0.nativeId == cur.nativeId
  {
    (cur.(title := other.title, pinned := other.pinned, archived := other.archived), !SameMeta(cur, other))
  }

  datatype Project = Project(name: string, createdAt: int, computers: seq<string>)

  datatype StoredEvent = StoredEvent(sessionId: string, no: int, at: int, event: Transcripts.AgentEvent)

  datatype TeamRole = Leader | Teammate | UnknownRole

  datatype TaskStatus = Open | InProgress | Blocked | Done | Cancelled | UnknownTask

  datatype TeamMember = TeamMember(
    sessionId: string,
    name: string,
    role: TeamRole,
    joinedAt: int,
    endedAt: Option<int>,
    title: string,
    agent: string,
    status: Option<SessionStatus>)

  datatype TeamTask = TeamTask(
    id: string,
    teamId: string,
    number: int,
    title: string,
    detail: string,
    status: TaskStatus,
    assignee: Option<string>,
    assigneeName: Option<string>,
    createdBy: string,
    createdAt: int,
    updatedAt: int)

  datatype TeamView = TeamView(
    id: string,
    project: string,
    leader: string,
    createdAt: int,
    members: seq<TeamMember>,
    tasks: seq<TeamTask>)

  function MembersOf(members: seq<TeamMember>): set<string> {
    set m | m in members :: m.sessionId
  }

  /** The sessions a team lists, ended members included. */
  function Members(team: TeamView): set<string> {
    MembersOf(team.members)
  }

  datatype Push =
    | SessionCreated(session: SessionRecord)
    | Event(status: SessionStatus, event: StoredEvent)
    | Lagged(missed: nat)
    | SessionUpdated(session: SessionRecord)
    | ProjectUpdated(project: Project)
    | TeamUpdated(team: TeamView)
}
