/** The client's view of the server as a reducer (`ember/client/src/state.rs`). */
module ClientState {
  import opened Wrappers
  import opened Wire
  import opened Ordering
  import Transcripts

  datatype LauncherStatus = Idle | Running | WaitingForApproval | FinishedUnread | Finished | Failed | Unknown

  datatype Reachability = UnknownReach | Online | Offline

  datatype Computer = Computer(id: string, name: string, reachability: Reachability, projects: seq<string>)

  datatype Connection =
    | NotStarted
    | Connecting(attempt: nat)
    | Connected
    | Reconnecting(attempt: nat, retryInMs: nat, error: string)
    | Incompatible(server: nat, client: nat)

  datatype Input =
    | SessionsLoaded(sessions: seq<SessionRecord>)
    | SessionLoaded(record: SessionRecord)
    | Pushed(push: Push)
    | EventsFetched(sessionId: string, events: seq<StoredEvent>)
    | Opened(id: string)
    | Closed(id: string)
    | ConnectionIs(connection: Connection)
    | ComputersLoaded(computers: seq<Computer>)
    | ProjectsLoaded(projects: seq<Project>)
    | TeamLoaded(sessionId: string, team: Option<TeamView>)

  datatype Changes = Changes(
    projects: bool,
    sessions: set<string>,
    transcripts: set<string>,
    computers: bool,
    connection: bool,
    teams: set<string>,
    resync: set<string>,
    resyncAll: bool,
    persist: bool)

  const NOTHING := Changes(false, {}, {}, false, false, {}, {}, false, false)

  datatype Client = Client(
    sessions: map<string, SessionRecord>,
    transcripts: map<string, Transcripts.State>,
    open: set<string>,
    lastSeen: map<string, int>,
    baselined: bool,
    computers: seq<Computer>,
    projectRecords: map<string, Project>,
    projectsKnown: bool,
    teams: map<string, TeamView>,
    teamOf: map<string, string>,
    connection: Connection,
    revision: nat)

  const NEW := Client(map[], map[], {}, map[], false, [], map[], false, map[], map[], NotStarted, 0)

  // ---- reads ---------------------------------------------------------------------------------

  /** The highest sequence number the user has seen. */
  function SeenIn(lastSeen: map<string, int>, id: string): int {
    if id in lastSeen then lastSeen[id] else 0
  }

  /** A finished session with events the user has not seen shows as unread until it is opened. */
  function StatusIn(lastSeen: map<string, int>, open: set<string>, s: SessionRecord): LauncherStatus {
    match s.status
    case Idle => LauncherStatus.Idle
    case Running => LauncherStatus.Running
    case WaitingForApproval => LauncherStatus.WaitingForApproval
    case Finished => if s.lastSeq > SeenIn(lastSeen, s.id) && s.id !in open then FinishedUnread
        else LauncherStatus.Finished
    case Failed => LauncherStatus.Failed
    case Unknown => LauncherStatus.Unknown
  }

  function StatusOf(c: Client, s: SessionRecord): LauncherStatus {
    StatusIn(c.lastSeen, c.open, s)
  }

  datatype SessionView = SessionView(record: SessionRecord, status: LauncherStatus, open: bool)

  function SessionIn(sessions: map<string, SessionRecord>, lastSeen: map<string, int>, open: set<string>,
      id: string): Option<SessionView> {
    if id in sessions then Some(SessionView(sessions[id], StatusIn(lastSeen, open, sessions[id]), id in open)) else None
  }

  function Session(c: Client, id: string): Option<SessionView> {
    SessionIn(c.sessions, c.lastSeen, c.open, id)
  }

  function TeamIn(teams: map<string, TeamView>, teamOf: map<string, string>, id: string): Option<TeamView> {
    if id in teamOf && teamOf[id] in teams then Some(teams[teamOf[id]]) else None
  }

  /** The team a session leads or belongs to. */
  function TeamFor(c: Client, id: string): Option<TeamView> {
    TeamIn(c.teams, c.teamOf, id)
  }

  function TeamById(teams: map<string, TeamView>, team: string): Option<TeamView> {
    if team in teams then Some(teams[team]) else None
  }

  function ProjectNamed(records: map<string, Project>, name: string): Option<Project> {
    if name in records then Some(records[name]) else None
  }

  datatype TranscriptView = TranscriptView(items: seq<Transcripts.Item>, usage: Transcripts.Usage, lastSeq: int)

  function TranscriptIn(transcripts: map<string, Transcripts.State>, id: string): Option<TranscriptView> {
    if id in transcripts then
      var t := transcripts[id].core;
      Some(TranscriptView(t.items, t.usage, t.lastSeq))
    else None
  }

  /** What a conversation view draws. */
  function TranscriptOf(c: Client, id: string): Option<TranscriptView> {
    TranscriptIn(c.transcripts, id)
  }

  datatype ProjectView = ProjectView(name: string, sessions: seq<string>)

  /** What the project list needs of a session. */
  datatype Placed = Placed(id: string, project: string, updatedAt: int)

  function Placement(sessions: map<string, SessionRecord>): map<string, Placed> {
    map k | k in sessions :: Placed(sessions[k].id, sessions[k].project, sessions[k].updatedAt)
  }

  /** Most recently active first, then by id. */
  predicate MoreRecent(a: (int, string), b: (int, string)) {
    a.0 > b.0 || (a.0 == b.0 && Less(a.1, b.1))
  }

  lemma RecencyOrder()
    ensures StrictTotal(MoreRecent)
  {
    TextOrder();
  }

  function Activity(name: string, placed: map<string, Placed>): set<(int, string)> {
    set k | k in placed && placed[k].project == name :: (placed[k].updatedAt, placed[k].id)
  }

  function SessionsOf(name: string, placed: map<string, Placed>): seq<string> {
    RecencyOrder();
    var order := Ordered(Activity(name, placed), MoreRecent);
    seq(|order|, i requires 0 <= i < |order| => order[i].1)
  }

  function ListProjects(known: set<string>, placed: map<string, Placed>): seq<ProjectView> {
    TextOrder();
    var names := Ordered(known + set k | k in placed :: placed[k].project, Less);
    seq(|names|, i requires 0 <= i < |names| => ProjectView(names[i], SessionsOf(names[i], placed)))
  }

  /** Projects by name, each with its sessions, most recently active first. */
  function Projects(c: Client): seq<ProjectView> {
    ListProjects(c.projectRecords.Keys, Placement(c.sessions))
  }

  // ---- the cache -----------------------------------------------------------------------------

  datatype CacheSnapshot = CacheSnapshot(
    format: nat,
    baselined: bool,
    sessions: seq<SessionRecord>,
    lastSeen: map<string, int>,
    computers: seq<Computer>,
    projects: seq<Project>)

  const CACHE_FORMAT: nat := 1

  /** The values of a map in key order. */
  function InKeyOrder<V(==)>(m: map<string, V>): (r: seq<V>)
    ensures |r| == |m|
    ensures forall v :: v in r ==> v in m.Values
  {
    TextOrder();
    var keys := Ordered(m.Keys, Less);
    OrderedLength(m.Keys, Less);
    seq(|keys|, i requires 0 <= i < |keys| => (assert keys[i] in keys; m[keys[i]]))
  }

  lemma InKeyOrderHasAll<V>(m: map<string, V>, k: string)
    requires k in m
    ensures m[k] in InKeyOrder(m)
  {
    TextOrder();
    var keys := Ordered(m.Keys, Less);
    OrderedLength(m.Keys, Less);
    assert k in keys;
    var i :| 0 <= i < |keys| && keys[i] == k;
    assert InKeyOrder(m)[i] == m[k];
  }

  function ToCache(c: Client): CacheSnapshot {
    CacheSnapshot(CACHE_FORMAT, c.baselined, InKeyOrder(c.sessions), c.lastSeen, c.computers,
        InKeyOrder(c.projectRecords))
  }

  /** Records collected into a map; a later one of the same id wins. */
  function ById(list: seq<SessionRecord>): (m: map<string, SessionRecord>)
    ensures forall k :: k in m ==> m[k].id == k && m[k] in list
    ensures forall r :: r in list ==> r.id in m
  {
    if list == [] then map[]
    else
      var n := |list| - 1;
      assert list == list[..n] + [list[n]];
      ById(list[..n])[list[n].id := list[n]]
  }

  function ByName(list: seq<Project>): (m: map<string, Project>)
    ensures forall k :: k in m ==> m[k].name == k && m[k] in list
    ensures forall p :: p in list ==> p.name in m
  {
    if list == [] then map[]
    else
      var n := |list| - 1;
      assert list == list[..n] + [list[n]];
      ByName(list[..n])[list[n].name := list[n]]
  }

  function FromCache(s: CacheSnapshot): Client {
    NEW.(sessions := ById(s.sessions), lastSeen := s.lastSeen, baselined := s.baselined, computers := s.computers,
    projectsKnown := s.projects != [], projectRecords := ByName(s.projects))
  }

  // ---- the reducer ---------------------------------------------------------------------------

  /** A state under change and what has been reported of it so far. */
  datatype Step = Step(c: Client, ch: Changes)

  /** The read marks once `id` is read to its end. */
  function Marked(sessions: map<string, SessionRecord>, lastSeen: map<string, int>, id: string): map<string, int> {
    if id !in sessions then lastSeen
    else lastSeen[id := if Unread(sessions, lastSeen, id) then sessions[id].lastSeq else SeenIn(lastSeen, id)]
  }

  predicate Unread(sessions: map<string, SessionRecord>, lastSeen: map<string, int>, id: string) {
    id in sessions && SeenIn(lastSeen, id) < sessions[id].lastSeq
  }

  /** A session's record or status changed, and with it the cache. */
  function TellSession(ch: Changes, id: string): Changes {
    ch.(sessions := ch.sessions + {id}, persist := true)
  }

  function MarkedSeen(t: Step, id: string): Step {
    var c := t.c.(lastSeen := Marked(t.c.sessions, t.c.lastSeen, id));
    Step(c, if Unread(t.c.sessions, t.c.lastSeen, id) then TellSession(t.ch, id) else t.ch)
  }

  /** Is the transcript of `id` behind what its record says? */
  predicate Behind(c: Client, id: string) {
    id in c.transcripts && id in c.sessions && c.transcripts[id].core.lastSeq < c.sessions[id].lastSeq
  }

  /** An open session fetches what its transcript lacks. */
  function AskedFor(t: Step, id: string): Step {
    t.(ch := if Behind(t.c, id) then t.ch.(resync := t.ch.resync + {id}) else t.ch)
  }

  /** A session never seen before is read up to `rec` before the first list load, and unread after it. */
  function FirstSeen(lastSeen: map<string, int>, baselined: bool, rec: SessionRecord): map<string, int> {
    if rec.id in lastSeen then lastSeen else lastSeen[rec.id := if baselined then 0 else rec.lastSeq]
  }

  predicate Stale(sessions: map<string, SessionRecord>, rec: SessionRecord) {
    rec.id in sessions && (sessions[rec.id].lastSeq > rec.lastSeq || sessions[rec.id] == rec)
  }

  /** Does `rec` change where its session stands in the project list? */
  predicate Moves(sessions: map<string, SessionRecord>, rec: SessionRecord) {
    rec.id !in sessions || sessions[rec.id].project != rec.project || sessions[rec.id].updatedAt != rec.updatedAt
  }

  /** A newer record put in. */
  function Stored(t: Step, rec: SessionRecord): Step {
    Step(t.c.(sessions := t.c.sessions[rec.id := rec]),
         TellSession(t.ch.(projects := t.ch.projects || Moves(t.c.sessions, rec)), rec.id))
  }

  function CaughtUp(t: Step, id: string): Step {
    if id in t.c.open then AskedFor(MarkedSeen(t, id), id) else t
  }

  function Upserted(t: Step, rec: SessionRecord): Step {
    var t := t.(c := t.c.(lastSeen := FirstSeen(t.c.lastSeen, t.c.baselined, rec)));
    if Stale(t.c.sessions, rec) then t else CaughtUp(Stored(t, rec), rec.id)
  }

  function UpsertedAll(t: Step, list: seq<SessionRecord>): Step {
    if list == [] then t else Upserted(UpsertedAll(t, list[..|list| - 1]), list[|list| - 1])
  }

  /** A record moved on by an event past its end. */
  function MovedOn(rec: SessionRecord, status: Option<SessionStatus>, ev: StoredEvent): (r: SessionRecord)
    ensures r.id == rec.id && r.project == rec.project && r.lastSeq == ev.no && r.updatedAt == ev.at
  {
    var rec := rec.(lastSeq := ev.no, updatedAt := ev.at);
    var rec := if status.Some? then rec.(status := status.value) else rec;
    if ev.event.NativeSession? then rec.(nativeId := Some(ev.event.nativeId)) else rec
  }

  predicate Advances(sessions: map<string, SessionRecord>, ev: StoredEvent) {
    ev.sessionId in sessions && ev.no > sessions[ev.sessionId].lastSeq
  }

  function Advanced(sessions: map<string, SessionRecord>, status: Option<SessionStatus>, ev: StoredEvent)
    : map<string, SessionRecord>
  {
    if Advances(sessions, ev) then sessions[ev.sessionId := MovedOn(sessions[ev.sessionId], status, ev)] else sessions
  }

  function TellAdvance(ch: Changes, sessions: map<string, SessionRecord>, ev: StoredEvent): Changes {
    if ev.sessionId !in sessions then ch.(resyncAll := true)
    else if Advances(sessions, ev) then
      TellSession(ch.(projects := ch.projects || sessions[ev.sessionId].updatedAt != ev.at), ev.sessionId)
    else ch
  }

  /** The record's part of an event. */
  function Recorded(t: Step, status: Option<SessionStatus>, ev: StoredEvent): Step {
    Step(t.c.(sessions := Advanced(t.c.sessions, status, ev)), TellAdvance(t.ch, t.c.sessions, ev))
  }

  /** What a transcript's answer to an event reports. */
  function TellTranscript(ch: Changes, id: string, open: bool, applied: Transcripts.Applied): Changes {
    match applied
    case Changed => ch.(transcripts := ch.transcripts + {id})
    case Duplicate => ch
    case Gap(_) => if open then ch.(resync := ch.resync + {id}) else ch
  }

  /** The transcript's part of an event. */
  function Transcribed(t: Step, ev: StoredEvent): Step {
    var id := ev.sessionId;
    if id !in t.c.transcripts then t
    else
      var r := Transcripts.ApplySeq(t.c.transcripts[id], ev.no, ev.event);
      Step(t.c.(transcripts := t.c.transcripts[id := r.0]), TellTranscript(t.ch, id, id in t.c.open, r.1))
  }

  function OnEventSpec(t: Step, status: Option<SessionStatus>, ev: StoredEvent): Step {
    var u := Transcribed(Recorded(t, status, ev), ev);
    if ev.sessionId in u.c.open then MarkedSeen(u, ev.sessionId) else u
  }

  function Fetched(t: Step, id: string, events: seq<StoredEvent>): Step {
    if events == [] then t
    else
      var t := Fetched(t, id, events[..|events| - 1]);
      var ev := events[|events| - 1];
      if ev.sessionId == id then OnEventSpec(t, None, ev) else t
  }

  /** Each member of `team` points at it, and nothing else does. */
  function Linked(teamOf: map<string, string>, team: TeamView): map<string, string> {
    var members := Members(team);
    map s | s in teamOf.Keys + members && (s in members || teamOf[s] != team.id) ::
      if s in members then team.id else teamOf[s]
  }

  /** The other teams `team` takes one of `members` from. */
  function BereftOf(teamOf: map<string, string>, members: set<string>, team: string): set<string> {
    set s | s in members && s in teamOf && teamOf[s] != team :: teamOf[s]
  }

  function Bereft(teamOf: map<string, string>, team: TeamView): set<string> {
    BereftOf(teamOf, Members(team), team.id)
  }

  function TeamPut(t: Step, team: TeamView): Step {
    if team.id in t.c.teams && t.c.teams[team.id] == team then t
    else
      Step(t.c.(teamOf := Linked(t.c.teamOf, team), teams := t.c.teams[team.id := team]),
           t.ch.(teams := t.ch.teams + Bereft(t.c.teamOf, team) + {team.id}))
  }

  function Unlinked(t: Step, id: string): Step {
    if id !in t.c.teamOf then t
    else Step(t.c.(teamOf := t.c.teamOf - {id}), t.ch.(teams := t.ch.teams + {t.c.teamOf[id]}))
  }

  /** The projects that assign a computer, by name. */
  function Assigned(records: map<string, Project>, computer: string): seq<string> {
    TextOrder();
    Ordered(set k | k in records && computer in records[k].computers :: k, Less)
  }

  function Derived(records: map<string, Project>, computers: seq<Computer>): (r: seq<Computer>)
    ensures |r| == |computers|
    ensures forall i :: 0 <= i < |r| ==> r[i] == computers[i].(projects := Assigned(records, computers[i].id))
  {
    seq(|computers|, i requires 0 <= i < |computers| => computers[i].(projects := Assigned(records, computers[i].id)))
  }

  function WithDerived(c: Client): Client {
    if c.projectsKnown then c.(computers := Derived(c.projectRecords, c.computers)) else c
  }

  function ProjectTaken(t: Step, project: Project): Step {
    var c := t.c.(projectsKnown := true);
    if project.name in c.projectRecords && c.projectRecords[project.name] == project then t.(c := c)
    else
      var d := WithDerived(c.(projectRecords := c.projectRecords[project.name := project]));
      Step(d, t.ch.(projects := true, persist := true, computers := t.ch.computers || d.computers != c.computers))
  }

  function ProjectsTaken(t: Step, list: seq<Project>): Step {
    var listed := ByName(list);
    var ch := if listed != t.c.projectRecords then t.ch.(projects := true, persist := true) else t.ch;
    var d := WithDerived(t.c.(projectsKnown := true, projectRecords := listed));
    var computers := ch.computers || d.computers != t.c.computers;
    Step(d, ch.(computers := computers, persist := ch.persist || computers))
  }

  function MetaTaken(t: Step, session: SessionRecord): Step {
    var id := session.id;
    if id !in t.c.sessions then t.(ch := t.ch.(resyncAll := true))
    else
      var (rec, changed) := TakeMeta(t.c.sessions[id], session);
      var c := t.c.(sessions := t.c.sessions[id := rec]);
      Step(c, if changed then t.ch.(projects := true, sessions := t.ch.sessions + {id}, persist := true) else t.ch)
  }

  function Created(t: Step, session: SessionRecord): Step {
    var c := if session.id !in t.c.sessions && session.id !in t.c.lastSeen
             then t.c.(lastSeen := t.c.lastSeen[session.id := 0]) else t.c;
    Upserted(t.(c := c), session)
  }

  function OnPush(t: Step, push: Push): Step {
    match push
    case SessionCreated(session) => Created(t, session)
    case Event(status, event) => OnEventSpec(t, Some(status), event)
    case Lagged(_) => t.(ch := t.ch.(resyncAll := true))
    case SessionUpdated(session) => MetaTaken(t, session)
    case ProjectUpdated(project) => ProjectTaken(t, project)
    case TeamUpdated(team) => TeamPut(t, team)
  }

  /** A conversation view shown, with an empty transcript if there is none yet. */
  function Shown(t: Step, id: string): Step {
    var transcript := if id in t.c.transcripts then t.c.transcripts[id] else Transcripts.FRESH;
    Step(t.c.(open := t.c.open + {id}, transcripts := t.c.transcripts[id := transcript]),
         t.ch.(sessions := t.ch.sessions + {id}, transcripts := t.ch.transcripts + {id}, resync := t.ch.resync + {id}))
  }

  function ViewOpened(t: Step, id: string): Step {
    MarkedSeen(Shown(t, id), id)
  }

  function Shut(t: Step, id: string): Step {
    Step(t.c.(open := t.c.open - {id}), t.ch.(sessions := t.ch.sessions + {id}))
  }

  function ViewClosed(t: Step, id: string): Step {
    if id in t.c.open then MarkedSeen(Shut(t, id), id) else t
  }

  function SessionsTaken(t: Step, list: seq<SessionRecord>): Step {
    var u := UpsertedAll(t, list);
    if u.c.baselined then u else Step(u.c.(baselined := true), u.ch.(persist := true))
  }

  function ComputersTaken(t: Step, list: seq<Computer>): Step {
    if list == t.c.computers then t
    else Step(WithDerived(t.c.(computers := list)), t.ch.(computers := true, persist := true))
  }

  function TeamTaken(t: Step, id: string, team: Option<TeamView>): Step {
    match team
    case Some(team) => TeamPut(if id in Members(team) then t else Unlinked(t, id), team)
    case None => Unlinked(t, id)
  }

  function ConnectionTaken(t: Step, k: Connection): Step {
    if k == t.c.connection then t else Step(t.c.(connection := k), t.ch.(connection := true))
  }

  /** One input, from an empty report. */
  function Taken(c: Client, input: Input): Step {
    var t := Step(c, NOTHING);
    match input
    case SessionsLoaded(list) => SessionsTaken(t, list)
    case SessionLoaded(rec) => Upserted(t, rec)
    case Pushed(push) => OnPush(t, push)
    case EventsFetched(id, events) => Fetched(t, id, events)
    case Opened(id) => ViewOpened(t, id)
    case Closed(id) => ViewClosed(t, id)
    case ConnectionIs(k) => ConnectionTaken(t, k)
    case ComputersLoaded(list) => ComputersTaken(t, list)
    case ProjectsLoaded(list) => ProjectsTaken(t, list)
    case TeamLoaded(id, team) => TeamTaken(t, id, team)
  }

  /** A state that reports something is a new revision. */
  function Numbered(t: Step): Step {
    t.(c := t.c.(revision := if t.ch == NOTHING then t.c.revision else t.c.revision + 1))
  }

  /** The whole reaction: the new state, its revision counted, and the report. */
  function ApplySpec(c: Client, input: Input): Step {
    Numbered(Taken(c, input))
  }

  /** It makes no difference whether a session is told before or after it catches up. */
  lemma TellFirst(c: Client, ch: Changes, id: string)
    ensures var u := CaughtUp(Step(c, ch), id);
            CaughtUp(Step(c, TellSession(ch, id)), id) == Step(u.c, TellSession(u.ch, id))
  {
  }

  /** The members in `done` point at `team`, the others still where they did. */
  ghost predicate Pointing(was: map<string, string>, team: TeamView, done: seq<TeamMember>, now: map<string, string>) {
    && (forall s :: s in now <==> s in MembersOf(done) || (s in was && (was[s] != team.id || s in Members(team))))
    && (forall s :: s in now ==> now[s] == if s in MembersOf(done) then team.id else was[s])
  }

  /** So they do, and `left` are the teams they left. */
  ghost predicate Repointing(was: map<string, string>, team: TeamView, done: seq<TeamMember>,
      now: map<string, string>, left: set<string>)
  {
    Pointing(was, team, done, now) && left == BereftOf(was, MembersOf(done), team.id)
  }

  lemma BereftOne(was: map<string, string>, done: seq<TeamMember>, m: TeamMember, team: string)
    ensures MembersOf(done + [m]) == MembersOf(done) + {m.sessionId}
    ensures BereftOf(was, MembersOf(done) + {m.sessionId}, team)
         == BereftOf(was, MembersOf(done), team)
            + if m.sessionId in was && was[m.sessionId] != team then {was[m.sessionId]} else {}
  {
    var s := m.sessionId;
    assert forall x :: x in MembersOf(done + [m]) <==> x in MembersOf(done) || x == s;
  }

  lemma PointOne(was: map<string, string>, team: TeamView, done: seq<TeamMember>, m: TeamMember,
                 now: map<string, string>)
    requires m.sessionId in Members(team) && MembersOf(done + [m]) == MembersOf(done) + {m.sessionId}
    requires Pointing(was, team, done, now)
    ensures Pointing(was, team, done + [m], now[m.sessionId := team.id])
  {
  }

  lemma RepointOne(was: map<string, string>, team: TeamView, i: nat, now: map<string, string>, left: set<string>)
    requires i < |team.members| && Repointing(was, team, team.members[..i], now, left)
    ensures var s := team.members[i].sessionId;
            var left' := if s in now && now[s] != team.id then left + {now[s]} else left;
            Repointing(was, team, team.members[..i + 1], now[s := team.id], left')
  {
    var m := team.members[i];
    assert team.members[..i + 1] == team.members[..i] + [m];
    BereftOne(was, team.members[..i], m, team.id);
    assert m.sessionId in Members(team);
    PointOne(was, team, team.members[..i], m, now);
  }

  /** Members `team` no longer lists leave the index. */
  function Retained(teamOf: map<string, string>, team: TeamView): map<string, string> {
    map s | s in teamOf && (teamOf[s] != team.id || s in Members(team)) :: teamOf[s]
  }

  lemma RepointNone(was: map<string, string>, team: TeamView)
    ensures Repointing(was, team, [], Retained(was, team), {})
  {
  }

  lemma RepointedAll(was: map<string, string>, team: TeamView, now: map<string, string>, left: set<string>)
    requires Repointing(was, team, team.members, now, left)
    ensures now == Linked(was, team) && left == Bereft(was, team)
  {
  }

  // ---- the object itself ---------------------------------------------------------------------

  class State {
    var sessions: map<string, SessionRecord>
    var transcripts: map<string, Transcripts.State>
    var open: set<string>
    var lastSeen: map<string, int>
    var baselined: bool
    var computers: seq<Computer>
    var projectRecords: map<string, Project>
    var projectsKnown: bool
    var teams: map<string, TeamView>
    var teamOf: map<string, string>
    var connection: Connection
    var revision: nat

    ghost function View(): Client
      reads this
    {
      Client(sessions, transcripts, open, lastSeen, baselined, computers, projectRecords, projectsKnown, teams,
          teamOf, connection, revision)
    }

    constructor ()
      ensures View() == NEW
    {
      sessions, transcripts, open, lastSeen, baselined := map[], map[], {}, map[], false;
      computers, projectRecords, projectsKnown := [], map[], false;
      teams, teamOf, connection, revision := map[], map[], NotStarted, 0;
    }

    constructor FromSnapshot(s: CacheSnapshot)
      ensures View() == FromCache(s)
    {
      sessions, transcripts, open, lastSeen, baselined := ById(s.sessions), map[], {}, s.lastSeen, s.baselined;
      computers, projectRecords, projectsKnown := s.computers, ByName(s.projects), s.projects != [];
      teams, teamOf, connection, revision := map[], map[], NotStarted, 0;
    }

    method MarkSeen(id: string, ch: Changes) returns (ch': Changes)
      modifies `lastSeen
      ensures Step(View(), ch') == MarkedSeen(Step(old(View()), ch), id)
    {
      ch' := ch;
      if id !in sessions {
        return;
      }
      if id !in lastSeen {
        lastSeen := lastSeen[id := 0];
      }
      if lastSeen[id] < sessions[id].lastSeq {
        lastSeen := lastSeen[id := sessions[id].lastSeq];
        ch' := ch'.(sessions := ch'.sessions + {id}, persist := true);
      }
    }

    method Upsert(rec: SessionRecord, ch: Changes) returns (ch': Changes)
      modifies `sessions, `lastSeen
      ensures Step(View(), ch') == Upserted(Step(old(View()), ch), rec)
    {
      ch' := ch;
      var id := rec.id;
      if id !in lastSeen {
        lastSeen := lastSeen[id := if baselined then 0 else rec.lastSeq];
      }
      if id in sessions && (sessions[id].lastSeq > rec.lastSeq || sessions[id] == rec) {
        return;
      }
      ch' := Replace(rec, ch');
    }

    method Replace(rec: SessionRecord, ch: Changes) returns (ch': Changes)
      modifies `sessions, `lastSeen
      ensures Step(View(), ch') == CaughtUp(Stored(Step(old(View()), ch), rec), rec.id)
    {
      ch' := Put(rec, ch);
      TellFirst(View(), ch', rec.id);
      ch' := CatchUp(rec.id, ch');
      ch' := TellSession(ch', rec.id);
    }

    method Put(rec: SessionRecord, ch: Changes) returns (ch': Changes)
      modifies `sessions
      ensures Step(View(), TellSession(ch', rec.id)) == Stored(Step(old(View()), ch), rec)
    {
      ch' := ch;
      var id := rec.id;
      if id !in sessions || sessions[id].project != rec.project || sessions[id].updatedAt != rec.updatedAt {
        ch' := ch'.(projects := true);
      }
      sessions := sessions[id := rec];
    }

    method CatchUp(id: string, ch: Changes) returns (ch': Changes)
      modifies `lastSeen
      ensures Step(View(), ch') == CaughtUp(Step(old(View()), ch), id)
    {
      ch' := ch;
      if id in open {
        ch' := MarkSeen(id, ch');
        if Behind(id) {
          ch' := ch'.(resync := ch'.resync + {id});
        }
      }
    }

    /** The record may be ahead of the transcript. */
    predicate Behind(id: string)
      reads this
    {
      id in transcripts && id in sessions && transcripts[id].core.lastSeq < sessions[id].lastSeq
    }

    method OnEvent(status: Option<SessionStatus>, ev: StoredEvent, ch: Changes) returns (ch': Changes)
      modifies `sessions, `transcripts, `lastSeen
      ensures Step(View(), ch') == OnEventSpec(Step(old(View()), ch), status, ev)
    {
      ch' := Record(status, ev, ch);
      ch' := Transcribe(ev, ch');
      if ev.sessionId in open {
        ch' := MarkSeen(ev.sessionId, ch');
      }
    }

    method Record(status: Option<SessionStatus>, ev: StoredEvent, ch: Changes) returns (ch': Changes)
      modifies `sessions
      ensures Step(View(), ch') == Recorded(Step(old(View()), ch), status, ev)
    {
      ch' := ch;
      var id := ev.sessionId;
      if id !in sessions {
        ch' := ch'.(resyncAll := true);
        return;
      }
      if ev.no > sessions[id].lastSeq {
        if sessions[id].updatedAt != ev.at {
          ch' := ch'.(projects := true);
        }
        var rec := MoveOn(sessions[id], status, ev);
        sessions := sessions[id := rec];
        ch' := ch'.(sessions := ch'.sessions + {id}, persist := true);
      }
    }

    static method MoveOn(was: SessionRecord, status: Option<SessionStatus>, ev: StoredEvent)
      returns (rec: SessionRecord)
      ensures rec == MovedOn(was, status, ev)
    {
      rec := was.(lastSeq := ev.no);
      if rec.updatedAt != ev.at {
        rec := rec.(updatedAt := ev.at);
      }
      if status.Some? {
        rec := rec.(status := status.value);
      }
      if ev.event.NativeSession? {
        rec := rec.(nativeId := Some(ev.event.nativeId));
      }
    }

    method Transcribe(ev: StoredEvent, ch: Changes) returns (ch': Changes)
      modifies `transcripts
      ensures Step(View(), ch') == Transcribed(Step(old(View()), ch), ev)
    {
      ch' := ch;
      var id := ev.sessionId;
      if id !in transcripts {
        return;
      }
      var r := Transcripts.ApplySeq(transcripts[id], ev.no, ev.event);
      transcripts := transcripts[id := r.0];
      match r.1 {
        case Changed => ch' := ch'.(transcripts := ch'.transcripts + {id});
        case Duplicate =>
        case Gap(_) =>
          if id in open {
            ch' := ch'.(resync := ch'.resync + {id});
          }
      }
    }

    method PutTeam(team: TeamView, ch: Changes) returns (ch': Changes)
      modifies `teams, `teamOf
      ensures Step(View(), ch') == TeamPut(Step(old(View()), ch), team)
    {
      ch' := ch;
      if team.id in teams && teams[team.id] == team {
        return;
      }
      var left := Repoint(team);
      teams := teams[team.id := team];
      ch' := ch'.(teams := ch'.teams + left + {team.id});
    }

    method Repoint(team: TeamView) returns (left: set<string>)
      modifies `teamOf
      ensures teamOf == Linked(old(teamOf), team) && left == Bereft(old(teamOf), team)
    {
      ghost var was := teamOf;
      teamOf := Retained(teamOf, team);
      left := {};
      RepointNone(was, team);
      assert team.members[..0] == [];
      for i := 0 to |team.members|
        invariant Repointing(was, team, team.members[..i], teamOf, left)
      {
        var s := team.members[i].sessionId;
        RepointOne(was, team, i, teamOf, left);
        left := if s in teamOf && teamOf[s] != team.id then left + {teamOf[s]} else left;
        teamOf := teamOf[s := team.id];
      }
      assert team.members[..|team.members|] == team.members;
      RepointedAll(was, team, teamOf, left);
    }

    method UnlinkSession(id: string, ch: Changes) returns (ch': Changes)
      modifies `teamOf
      ensures Step(View(), ch') == Unlinked(Step(old(View()), ch), id)
    {
      ch' := ch;
      if id in teamOf {
        ch' := ch'.(teams := ch'.teams + {teamOf[id]});
        teamOf := teamOf - {id};
      }
    }

    method DeriveComputerProjects() returns (changed: bool)
      modifies `computers
      ensures View() == WithDerived(old(View()))
      ensures changed <==> computers != old(computers)
    {
      changed := false;
      if !projectsKnown {
        return;
      }
      for i := 0 to |computers|
        invariant |computers| == |old(computers)|
        invariant forall j :: 0 <= j < i ==>
            computers[j] == old(computers)[j].(projects := Assigned(projectRecords, old(computers)[j].id))
        invariant forall j :: i <= j < |computers| ==> computers[j] == old(computers)[j]
        invariant changed <==> computers != old(computers)
      {
        var projects := Assigned(projectRecords, computers[i].id);
        if computers[i].projects != projects {
          computers := computers[i := computers[i].(projects := projects)];
          assert computers[i] != old(computers)[i];
          changed := true;
        }
      }
      assert computers == Derived(projectRecords, old(computers));
    }
  
    method Apply(input: Input) returns (ch: Changes)
      modifies this
      ensures Step(View(), ch) == ApplySpec(old(View()), input)
    {
      ch := Take(input);
      Number(ch);
    }

    method Number(ch: Changes)
      modifies `revision
      ensures Step(View(), ch) == Numbered(Step(old(View()), ch))
    {
      if ch != NOTHING {
        revision := revision + 1;
      }
    }

    method Take(input: Input) returns (ch: Changes)
      modifies this
      ensures Step(View(), ch) == Taken(old(View()), input)
    {
      ch := NOTHING;
      match input {
        case SessionsLoaded(list) => ch := TakeSessions(list, ch);
        case SessionLoaded(rec) => ch := Upsert(rec, ch);
        case Pushed(push) => ch := TakePush(push, ch);
        case EventsFetched(id, events) => ch := TakeEvents(id, events, ch);
        case Opened(id) => ch := OpenView(id, ch);
        case Closed(id) => ch := CloseView(id, ch);
        case ConnectionIs(k) => ch := TakeConnection(k, ch);
        case ComputersLoaded(list) => ch := TakeComputers(list, ch);
        case ProjectsLoaded(list) => ch := TakeProjects(list, ch);
        case TeamLoaded(id, team) => ch := TakeTeam(id, team, ch);
      }
    }

    method TakeConnection(k: Connection, ch: Changes) returns (ch': Changes)
      modifies `connection
      ensures Step(View(), ch') == ConnectionTaken(Step(old(View()), ch), k)
    {
      ch' := ch;
      if k != connection {
        connection := k;
        ch' := ch'.(connection := true);
      }
    }

    method TakeComputers(list: seq<Computer>, ch: Changes) returns (ch': Changes)
      modifies `computers
      ensures Step(View(), ch') == ComputersTaken(Step(old(View()), ch), list)
    {
      ch' := ch;
      if list != computers {
        computers := list;
        var _ := DeriveComputerProjects();
        ch' := ch'.(computers := true, persist := true);
      }
    }

    method TakeSessions(list: seq<SessionRecord>, ch: Changes) returns (ch': Changes)
      modifies `sessions, `lastSeen, `baselined
      ensures Step(View(), ch') == SessionsTaken(Step(old(View()), ch), list)
    {
      ch' := ch;
      for i := 0 to |list|
        invariant baselined == old(baselined)
        invariant Step(View(), ch') == UpsertedAll(Step(old(View()), ch), list[..i])
      {
        assert list[..i + 1][..i] == list[..i];
        ch' := Upsert(list[i], ch');
      }
      assert list[..|list|] == list;
      if !baselined {
        baselined := true;
        ch' := ch'.(persist := true);
      }
    }

    method TakeEvents(id: string, events: seq<StoredEvent>, ch: Changes) returns (ch': Changes)
      modifies `sessions, `transcripts, `lastSeen
      ensures Step(View(), ch') == Fetched(Step(old(View()), ch), id, events)
    {
      ch' := ch;
      for i := 0 to |events|
        invariant Step(View(), ch') == Fetched(Step(old(View()), ch), id, events[..i])
      {
        assert events[..i + 1][..i] == events[..i];
        if events[i].sessionId == id {
          ch' := OnEvent(None, events[i], ch');
        }
      }
      assert events[..|events|] == events;
    }

    method TakePush(push: Push, ch: Changes) returns (ch': Changes)
      modifies `sessions, `transcripts, `lastSeen, `computers, `projectRecords, `projectsKnown, `teams, `teamOf
      ensures Step(View(), ch') == OnPush(Step(old(View()), ch), push)
    {
      ch' := ch;
      match push {
        case SessionCreated(session) =>
          if session.id !in sessions && session.id !in lastSeen {
            lastSeen := lastSeen[session.id := 0];
          }
          ch' := Upsert(session, ch');
        case Event(status, event) => ch' := OnEvent(Some(status), event, ch');
        case Lagged(_) => ch' := ch'.(resyncAll := true);
        case SessionUpdated(session) => ch' := TakeMetadata(session, ch');
        case ProjectUpdated(project) => ch' := TakeProject(project, ch');
        case TeamUpdated(team) => ch' := PutTeam(team, ch');
      }
    }

    method TakeMetadata(session: SessionRecord, ch: Changes) returns (ch': Changes)
      modifies `sessions
      ensures Step(View(), ch') == MetaTaken(Step(old(View()), ch), session)
    {
      ch' := ch;
      var id := session.id;
      if id in sessions {
        var r := TakeMeta(sessions[id], session);
        sessions := sessions[id := r.0];
        if r.1 {
          ch' := ch'.(projects := true, sessions := ch'.sessions + {id}, persist := true);
        }
      } else {
        ch' := ch'.(resyncAll := true);
      }
    }

    method TakeProject(project: Project, ch: Changes) returns (ch': Changes)
      modifies `computers, `projectRecords, `projectsKnown
      ensures Step(View(), ch') == ProjectTaken(Step(old(View()), ch), project)
    {
      ch' := ch;
      projectsKnown := true;
      if project.name !in projectRecords || projectRecords[project.name] != project {
        projectRecords := projectRecords[project.name := project];
        ch' := ch'.(projects := true, persist := true);
        var changed := DeriveComputerProjects();
        ch' := ch'.(computers := ch'.computers || changed);
      }
    }

    method TakeProjects(list: seq<Project>, ch: Changes) returns (ch': Changes)
      modifies `computers, `projectRecords, `projectsKnown
      ensures Step(View(), ch') == ProjectsTaken(Step(old(View()), ch), list)
    {
      ch' := ch;
      var listed := ByName(list);
      projectsKnown := true;
      if listed != projectRecords {
        projectRecords := listed;
        ch' := ch'.(projects := true, persist := true);
      }
      var changed := DeriveComputerProjects();
      ch' := ch'.(computers := ch'.computers || changed);
      ch' := ch'.(persist := ch'.persist || ch'.computers);
    }

    method TakeTeam(id: string, team: Option<TeamView>, ch: Changes) returns (ch': Changes)
      modifies `teams, `teamOf
      ensures Step(View(), ch') == TeamTaken(Step(old(View()), ch), id, team)
    {
      ch' := ch;
      match team {
        case Some(team) =>
          if id !in Members(team) {
            ch' := UnlinkSession(id, ch');
          }
          ch' := PutTeam(team, ch');
        case None => ch' := UnlinkSession(id, ch');
      }
    }

    method OpenView(id: string, ch: Changes) returns (ch': Changes)
      modifies `open, `transcripts, `lastSeen
      ensures Step(View(), ch') == ViewOpened(Step(old(View()), ch), id)
    {
      open := open + {id};
      if id !in transcripts {
        transcripts := transcripts[id := Transcripts.FRESH];
      }
      ch' := ch.(sessions := ch.sessions + {id}, transcripts := ch.transcripts + {id}, resync := ch.resync + {id});
      assert transcripts == old(transcripts)[id := transcripts[id]];
      ch' := MarkSeen(id, ch');
    }

    method CloseView(id: string, ch: Changes) returns (ch': Changes)
      modifies `open, `lastSeen
      ensures Step(View(), ch') == ViewClosed(Step(old(View()), ch), id)
    {
      ch' := ch;
      if id in open {
        open := open - {id};
        ch' := ch'.(sessions := ch'.sessions + {id});
        ch' := MarkSeen(id, ch');
      }
    }
  }
}
