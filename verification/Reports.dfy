/** Nothing is reported without a cause (`ember/client/src/state.rs`). */
module Reports {
  import opened Wrappers
  import opened Wire
  import opened ClientState
  import opened ClientRuns
  import opened Readers
  import Transcripts

  // ---- asking for the list again -------------------------------------------------------------

  /** Does the input speak of a session that is not stored? */
  predicate SpeaksOfUnknown(c: Client, input: Input) {
    match input
    case Pushed(Event(_, ev)) => ev.sessionId !in c.sessions
    case Pushed(SessionUpdated(other)) => other.id !in c.sessions
    case EventsFetched(sid, events) => sid !in c.sessions && OffersOf(events, sid) != []
    case _ => false
  }

  lemma UpsertedAsks(t: Step, rec: SessionRecord)
    ensures Upserted(t, rec).ch.resyncAll == t.ch.resyncAll
  {
  }

  lemma {:induction false} UpsertedAllAsks(t: Step, list: seq<SessionRecord>)
    ensures UpsertedAll(t, list).ch.resyncAll == t.ch.resyncAll
  {
    if list == [] {
    } else {
      UpsertedAllAsks(t, list[..|list| - 1]);
      UpsertedAsks(UpsertedAll(t, list[..|list| - 1]), list[|list| - 1]);
    }
  }

  lemma OnEventAsks(t: Step, status: Option<SessionStatus>, ev: StoredEvent)
    ensures OnEventSpec(t, status, ev).ch.resyncAll <==> t.ch.resyncAll || ev.sessionId !in t.c.sessions
    ensures OnEventSpec(t, status, ev).c.sessions.Keys == t.c.sessions.Keys
  {
    TranscribedAsks(Recorded(t, status, ev), ev);
    MarkOnly(Transcribed(Recorded(t, status, ev), ev), ev.sessionId);
    AdvancedEnds(t.c.sessions, status, ev);
  }

  lemma TranscribedAsks(t: Step, ev: StoredEvent)
    ensures Transcribed(t, ev).ch.resyncAll == t.ch.resyncAll && Transcribed(t, ev).c.sessions == t.c.sessions
  {
  }

  lemma {:induction false} FetchedAsks(t: Step, sid: string, events: seq<StoredEvent>)
    ensures var u := Fetched(t, sid, events);
            && u.c.sessions.Keys == t.c.sessions.Keys
            && (u.ch.resyncAll <==> t.ch.resyncAll || (sid !in t.c.sessions && OffersOf(events, sid) != []))
  {
    if events == [] {
    } else {
      var n := |events| - 1;
      FetchedAsks(t, sid, events[..n]);
      if events[n].sessionId == sid {
        OnEventAsks(Fetched(t, sid, events[..n]), None, events[n]);
      }
    }
  }

  lemma PushAsks(t: Step, push: Push)
    ensures OnPush(t, push).ch.resyncAll <==> t.ch.resyncAll || push.Lagged? || SpeaksOfUnknown(t.c, Pushed(push))
  {
    match push {
      case SessionCreated(rec) => UpsertedAsks(t.(c := CreatedFrom(t.c, rec)), rec);
      case Event(status, ev) => OnEventAsks(t, Some(status), ev);
      case _ =>
    }
  }

  function CreatedFrom(c: Client, rec: SessionRecord): Client {
    if rec.id !in c.sessions && rec.id !in c.lastSeen then c.(lastSeen := c.lastSeen[rec.id := 0]) else c
  }

  /** In every state, the list of sessions is asked for again exactly when pushes were missed, or an event or metadata
      came for a session that is not stored. */
  lemma ListAskedForExactly(c: Client, input: Input)
    ensures ApplySpec(c, input).ch.resyncAll
       <==> SpeaksOfUnknown(c, input) || (input.Pushed? && input.push.Lagged?)
  {
    var t := Step(c, NOTHING);
    match input {
      case SessionsLoaded(list) => UpsertedAllAsks(t, list);
      case SessionLoaded(rec) => UpsertedAsks(t, rec);
      case Pushed(push) => PushAsks(t, push);
      case EventsFetched(sid, events) => FetchedAsks(t, sid, events);
      case _ =>
    }
  }

  // ---- what each step can tell ---------------------------------------------------------------

  /** Nothing told but these parts. */
  predicate ToldOfSessions(a: Changes, b: Changes) {
    b == a.(projects := b.projects, sessions := b.sessions, resync := b.resync, persist := b.persist)
  }

  predicate ToldOfEvents(a: Changes, b: Changes) {
    b == a.(projects := b.projects, sessions := b.sessions, transcripts := b.transcripts, resync := b.resync,
            resyncAll := b.resyncAll, persist := b.persist)
  }

  lemma UpsertedTold(t: Step, rec: SessionRecord)
    ensures var u := Upserted(t, rec);
            && ToldOfSessions(t.ch, u.ch)
            && if Stale(t.c.sessions, rec) then u.ch == t.ch else u.ch.sessions == t.ch.sessions + {rec.id}
  {
    var v := t.(c := t.c.(lastSeen := FirstSeen(t.c.lastSeen, t.c.baselined, rec)));
    if !Stale(t.c.sessions, rec) {
      CaughtUpTold(Stored(v, rec), rec.id);
    }
  }

  lemma CaughtUpTold(t: Step, id: string)
    ensures var u := CaughtUp(t, id);
            && ToldOfSessions(t.ch, u.ch) && u.ch.projects == t.ch.projects
            && u.ch.sessions <= t.ch.sessions + {id} && t.ch.sessions <= u.ch.sessions
  {
  }

  predicate InList(list: seq<SessionRecord>, id: string) {
    exists i :: 0 <= i < |list| && list[i].id == id
  }

  lemma {:induction false} UpsertedAllTold(t: Step, list: seq<SessionRecord>)
    ensures var u := UpsertedAll(t, list);
            ToldOfSessions(t.ch, u.ch) && forall id :: id in u.ch.sessions ==> id in t.ch.sessions || InList(list, id)
  {
    if list == [] {
    } else {
      var n := |list| - 1;
      UpsertedAllTold(t, list[..n]);
      UpsertedTold(UpsertedAll(t, list[..n]), list[n]);
      forall id | InList(list[..n], id) || id == list[n].id
        ensures InList(list, id)
      {
        InLonger(list, n, id);
      }
    }
  }

  lemma InLonger(list: seq<SessionRecord>, n: nat, id: string)
    requires |list| == n + 1 && (InList(list[..n], id) || id == list[n].id)
    ensures InList(list, id)
  {
    if id != list[n].id {
      var i :| 0 <= i < n && list[..n][i].id == id;
      assert list[i].id == id;
    }
  }

  /** An event's report names its own session, and only if the record moved on. */
  lemma OnEventCauses(t: Step, status: Option<SessionStatus>, ev: StoredEvent)
    requires Inv(t.c)
    ensures var u, id := OnEventSpec(t, status, ev), ev.sessionId;
            && u.ch.sessions <= t.ch.sessions + {id} && u.ch.transcripts <= t.ch.transcripts + {id}
            && (id in u.ch.sessions && id !in t.ch.sessions ==>
                  id in t.c.sessions && id in u.c.sessions && u.c.sessions[id].lastSeq > t.c.sessions[id].lastSeq)
            && (id in u.ch.transcripts && id !in t.ch.transcripts ==>
                  id in t.c.transcripts && id in u.c.transcripts
                  && u.c.transcripts[id].core.lastSeq > t.c.transcripts[id].core.lastSeq)
  {
    var r, id := Recorded(t, status, ev), ev.sessionId;
    RecordedKeeps(t, status, ev);
    TranscribedFrame(r, ev);
    TranscribedCauses(r, ev);
    var v := Transcribed(r, ev);
    MarkOnly(v, id);
    if !Advances(t.c.sessions, ev) && id in t.c.open {
      assert id in t.c.sessions ==> id in t.c.lastSeen.Keys;
      assert !Unread(v.c.sessions, v.c.lastSeen, id);
    }
  }

  lemma TranscribedCauses(t: Step, ev: StoredEvent)
    ensures var u, id := Transcribed(t, ev), ev.sessionId;
            && u.ch.sessions == t.ch.sessions && u.ch.transcripts <= t.ch.transcripts + {id}
            && (id in u.ch.transcripts && id !in t.ch.transcripts ==>
                  id in t.c.transcripts && id in u.c.transcripts
                  && u.c.transcripts[id].core.lastSeq > t.c.transcripts[id].core.lastSeq)
  {
    if ev.sessionId in t.c.transcripts {
      ApplyLeaves(t.c.transcripts[ev.sessionId], ev.no, ev.event);
    }
  }

  lemma RecordedTold(t: Step, status: Option<SessionStatus>, ev: StoredEvent)
    ensures ToldOfEvents(t.ch, Recorded(t, status, ev).ch)
  {
  }

  lemma OnEventTold(t: Step, status: Option<SessionStatus>, ev: StoredEvent)
    ensures ToldOfEvents(t.ch, OnEventSpec(t, status, ev).ch)
  {
    RecordedTold(t, status, ev);
    TranscribedTold(Recorded(t, status, ev), ev);
    MarkTold(Transcribed(Recorded(t, status, ev), ev), ev.sessionId);
  }

  lemma TranscribedTold(t: Step, ev: StoredEvent)
    ensures var u := Transcribed(t, ev).ch; u == t.ch.(transcripts := u.transcripts, resync := u.resync)
  {
    if ev.sessionId in t.c.transcripts {
      var applied := Transcripts.ApplySeq(t.c.transcripts[ev.sessionId], ev.no, ev.event).1;
      TellTold(t.ch, ev.sessionId, ev.sessionId in t.c.open, applied);
    }
  }

  lemma TellTold(ch: Changes, id: string, open: bool, applied: Transcripts.Applied)
    ensures var u := TellTranscript(ch, id, open, applied); u == ch.(transcripts := u.transcripts, resync := u.resync)
  {
  }

  lemma MarkTold(t: Step, id: string)
    ensures var u := MarkedSeen(t, id);
            && u.ch == t.ch.(sessions := u.ch.sessions, persist := u.ch.persist)
            && (u.ch.persist && !t.ch.persist ==> u.c.lastSeen != t.c.lastSeen)
  {
  }

  /** The session moved on in its record. */
  ghost predicate RecordMovedOn(c: Client, u: Client, id: string) {
    id in c.sessions && id in u.sessions && u.sessions[id].lastSeq > c.sessions[id].lastSeq
  }

  ghost predicate TranscriptMovedOn(c: Client, u: Client, id: string) {
    id in c.transcripts && id in u.transcripts && u.transcripts[id].core.lastSeq > c.transcripts[id].core.lastSeq
  }

  /** All an event's report names moved on. */
  ghost predicate OnlyMoved(t: Step, u: Step) {
    && ToldOfEvents(t.ch, u.ch)
    && (forall id :: id in u.ch.sessions && id !in t.ch.sessions ==> RecordMovedOn(t.c, u.c, id))
    && (forall id :: id in u.ch.transcripts && id !in t.ch.transcripts ==> TranscriptMovedOn(t.c, u.c, id))
    && (u.ch.persist && !t.ch.persist ==> exists id :: RecordMovedOn(t.c, u.c, id))
    && t.ch.sessions <= u.ch.sessions
    && (u.ch.projects && !t.ch.projects ==> u.ch.sessions != {})
  }

  lemma OnEventOnlyMoved(t: Step, status: Option<SessionStatus>, ev: StoredEvent)
    requires Inv(t.c)
    ensures OnlyMoved(t, OnEventSpec(t, status, ev))
  {
    OnEventTold(t, status, ev);
    OnEventCauses(t, status, ev);
    OnEventFlags(t, status, ev);
  }

  lemma OnEventFlags(t: Step, status: Option<SessionStatus>, ev: StoredEvent)
    requires Inv(t.c)
    ensures var u := OnEventSpec(t, status, ev);
            && (u.ch.persist && !t.ch.persist ==> RecordMovedOn(t.c, u.c, ev.sessionId))
            && t.ch.sessions <= u.ch.sessions
            && (u.ch.projects && !t.ch.projects ==> ev.sessionId in u.ch.sessions)
  {
    var r, id := Recorded(t, status, ev), ev.sessionId;
    RecordedKeeps(t, status, ev);
    TranscribedFrame(r, ev);
    TranscribedTold(r, ev);
    var v := Transcribed(r, ev);
    MarkOnly(v, id);
    MarkTold(v, id);
    if !Advances(t.c.sessions, ev) && id in t.c.open {
      assert id in t.c.sessions ==> id in t.c.lastSeen.Keys;
      assert !Unread(v.c.sessions, v.c.lastSeen, id);
    }
  }

  /** No session or conversation is lost, none is new, and none moves back. */
  ghost predicate Ahead(a: Client, c: Client) {
    RecordsAhead(a.sessions, c.sessions) && TranscriptsAhead(a.transcripts, c.transcripts)
  }

  ghost predicate RecordsAhead(a: map<string, SessionRecord>, c: map<string, SessionRecord>) {
    a.Keys == c.Keys && forall id :: id in a ==> a[id].lastSeq <= c[id].lastSeq
  }

  ghost predicate TranscriptsAhead(a: map<string, Transcripts.State>, c: map<string, Transcripts.State>) {
    a.Keys == c.Keys && forall id :: id in a ==> a[id].core.lastSeq <= c[id].core.lastSeq
  }

  lemma TranscribedAhead(t: Step, ev: StoredEvent)
    ensures TranscriptsAhead(t.c.transcripts, Transcribed(t, ev).c.transcripts)
  {
    if ev.sessionId in t.c.transcripts {
      ApplyLeaves(t.c.transcripts[ev.sessionId], ev.no, ev.event);
    }
  }

  lemma OnEventAhead(t: Step, status: Option<SessionStatus>, ev: StoredEvent)
    ensures Ahead(t.c, OnEventSpec(t, status, ev).c)
  {
    var r := Recorded(t, status, ev);
    AdvancedEnds(t.c.sessions, status, ev);
    TranscribedAhead(r, ev);
    TranscriptOnly(r, ev);
    MarkOnly(Transcribed(r, ev), ev.sessionId);
  }

  lemma OnlyMovedOn(t: Step, u: Step, v: Step)
    requires OnlyMoved(t, u) && OnlyMoved(u, v) && Ahead(t.c, u.c) && Ahead(u.c, v.c)
    ensures OnlyMoved(t, v)
  {
    forall id | RecordMovedOn(t.c, u.c, id) || RecordMovedOn(u.c, v.c, id)
      ensures RecordMovedOn(t.c, v.c, id)
    {
    }
  }

  lemma OneMoreMoved(t: Step, v: Step, ev: StoredEvent)
    requires Inv(v.c) && OnlyMoved(t, v) && Ahead(t.c, v.c)
    ensures var w := OnEventSpec(v, None, ev); Inv(w.c) && OnlyMoved(t, w) && Ahead(t.c, w.c)
  {
    OnEventOnlyMoved(v, None, ev);
    OnEventKeeps(v, None, ev);
    OnEventAhead(v, None, ev);
    OnlyMovedOn(t, v, OnEventSpec(v, None, ev));
  }

  lemma {:induction false} FetchedOnlyMoved(t: Step, sid: string, events: seq<StoredEvent>)
    requires Inv(t.c)
    ensures var u := Fetched(t, sid, events); Inv(u.c) && OnlyMoved(t, u) && Ahead(t.c, u.c)
  {
    if events == [] {
    } else {
      var n := |events| - 1;
      FetchedOnlyMoved(t, sid, events[..n]);
      if events[n].sessionId == sid {
        OneMoreMoved(t, Fetched(t, sid, events[..n]), events[n]);
      }
    }
  }

  // ---- causes --------------------------------------------------------------------------------

  /** A session is named only if it shows differently, or came in a list, or its view was opened or closed. */
  ghost predicate SessionCause(c: Client, input: Input, u: Client, id: string) {
    || Session(c, id) != Session(u, id)
    || (input.SessionsLoaded? && InList(input.sessions, id))
    || input == Opened(id) || (input == Closed(id) && id in c.open)
  }

  /** A conversation is named only if it shows more, or its view was opened. */
  ghost predicate TranscriptCause(c: Client, input: Input, u: Client, id: string) {
    TranscriptOf(c, id) != TranscriptOf(u, id) || input == Opened(id)
  }

  /** A team is named only if it is stored differently, or a session has left it. */
  ghost predicate TeamCause(c: Client, u: Client, team: string) {
    || TeamById(c.teams, team) != TeamById(u.teams, team)
    || exists id :: id in c.teamOf && c.teamOf[id] == team && (id !in u.teamOf || u.teamOf[id] != team)
  }

  /** The project list is named only if the projects differ, or some session is named that did not just open or
      close. */
  predicate ProjectCause(c: Client, input: Input, u: Step) {
    c.projectRecords != u.c.projectRecords || (u.ch.sessions != {} && !input.Opened? && !input.Closed?)
  }

  ghost predicate Caused(c: Client, input: Input, u: Step) {
    && (forall id :: id in u.ch.sessions ==> SessionCause(c, input, u.c, id))
    && (forall id :: id in u.ch.transcripts ==> TranscriptCause(c, input, u.c, id))
    && (forall team :: team in u.ch.teams ==> TeamCause(c, u.c, team))
    && (u.ch.projects ==> ProjectCause(c, input, u))
    && (u.ch.computers ==> c.computers != u.c.computers || (input.ComputersLoaded? && input.computers != c.computers))
    && (u.ch.connection ==> c.connection != u.c.connection)
    && (u.ch.persist ==> !SameCached(c, u.c) || input.SessionsLoaded? || input.ComputersLoaded?)
  }

  /** Taking a record, with read marks first set apart from it. */
  lemma UpsertCaused(c: Client, d: Client, rec: SessionRecord, input: Input)
    requires !input.Opened? && !input.Closed? && d == c.(lastSeen := d.lastSeen)
    ensures Caused(c, input, Upserted(Step(d, NOTHING), rec))
  {
    var t, u := Step(d, NOTHING), Upserted(Step(d, NOTHING), rec);
    UpsertedTold(t, rec);
    UpsertedFrame(t, rec);
    UpsertedRecord(t, rec, rec.id);
    if !Stale(c.sessions, rec) {
      assert RecordIn(u.c, rec.id) != RecordIn(c, rec.id);
    }
  }

  lemma ListCaused(c: Client, list: seq<SessionRecord>)
    ensures Caused(c, SessionsLoaded(list), SessionsTaken(Step(c, NOTHING), list))
  {
    var t := Step(c, NOTHING);
    UpsertedAllTold(t, list);
    UpsertedAllProjects(t, list);
    ListMoves(t, list);
  }

  /** A list that moves some session names it. */
  lemma {:induction false} ListMoves(t: Step, list: seq<SessionRecord>)
    requires t.ch.projects ==> t.ch.sessions != {}
    ensures var u := UpsertedAll(t, list); u.ch.projects ==> u.ch.sessions != {}
  {
    if list == [] {
    } else {
      var n := |list| - 1;
      ListMoves(t, list[..n]);
      UpsertedTold(UpsertedAll(t, list[..n]), list[n]);
      UpsertedProjects(UpsertedAll(t, list[..n]), list[n]);
    }
  }

  lemma MovedCaused(c: Client, input: Input, u: Step)
    requires OnlyMoved(Step(c, NOTHING), u) && !input.Opened? && !input.Closed?
    requires u.ch.projects ==> u.ch.sessions != {}
    ensures Caused(c, input, u)
  {
    forall id | RecordMovedOn(c, u.c, id)
      ensures Session(c, id) != Session(u.c, id) && !SameCached(c, u.c)
    {
      assert c.sessions[id] != u.c.sessions[id];
    }
    forall id | TranscriptMovedOn(c, u.c, id)
      ensures TranscriptOf(c, id) != TranscriptOf(u.c, id)
    {
    }
  }

  lemma EventCaused(c: Client, status: SessionStatus, ev: StoredEvent)
    requires Inv(c)
    ensures Caused(c, Pushed(Event(status, ev)), OnEventSpec(Step(c, NOTHING), Some(status), ev))
  {
    OnEventOnlyMoved(Step(c, NOTHING), Some(status), ev);
    MovedCaused(c, Pushed(Event(status, ev)), OnEventSpec(Step(c, NOTHING), Some(status), ev));
  }

  lemma FetchedCaused(c: Client, sid: string, events: seq<StoredEvent>)
    requires Inv(c)
    ensures Caused(c, EventsFetched(sid, events), Fetched(Step(c, NOTHING), sid, events))
  {
    FetchedOnlyMoved(Step(c, NOTHING), sid, events);
    MovedCaused(c, EventsFetched(sid, events), Fetched(Step(c, NOTHING), sid, events));
  }

  lemma MetaCaused(c: Client, other: SessionRecord)
    ensures Caused(c, Pushed(SessionUpdated(other)), MetaTaken(Step(c, NOTHING), other))
  {
  }

  lemma ProjectCaused(c: Client, project: Project)
    ensures Caused(c, Pushed(ProjectUpdated(project)), ProjectTaken(Step(c, NOTHING), project))
  {
  }

  lemma ProjectsCaused(c: Client, list: seq<Project>)
    ensures Caused(c, ProjectsLoaded(list), ProjectsTaken(Step(c, NOTHING), list))
  {
  }

  lemma TeamPutCaused(c: Client, team: TeamView)
    ensures var u := TeamPut(Step(c, NOTHING), team);
            && u.ch == NOTHING.(teams := u.ch.teams)
            && forall x :: x in u.ch.teams ==> TeamCause(c, u.c, x)
  {
    var u := TeamPut(Step(c, NOTHING), team);
    forall x | x in u.ch.teams && x != team.id
      ensures TeamCause(c, u.c, x)
    {
      var s :| s in Members(team) && s in c.teamOf && c.teamOf[s] == x;
      assert u.c.teamOf[s] == team.id;
    }
  }

  lemma TeamTakenCaused(c: Client, sid: string, team: Option<TeamView>)
    ensures var u := TeamTaken(Step(c, NOTHING), sid, team);
            && u.ch == NOTHING.(teams := u.ch.teams)
            && forall x :: x in u.ch.teams ==> TeamCause(c, u.c, x)
  {
    var t := Step(c, NOTHING);
    var v := Unlinked(t, sid);
    if team.Some? {
      var w := if sid in Members(team.value) then t else v;
      TeamPutCaused(w.c, team.value);
      LeftBehind(c, w, team.value, sid);
    } else {
      assert sid in c.teamOf ==> c.teamOf[sid] in v.ch.teams && sid !in v.c.teamOf;
    }
  }

  /** What leaving one team and joining another tells. */
  lemma LeftBehind(c: Client, w: Step, team: TeamView, sid: string)
    requires w == Step(c, NOTHING) || (w == Unlinked(Step(c, NOTHING), sid) && sid !in Members(team))
    ensures var u := TeamPut(w, team);
            && u.ch == NOTHING.(teams := u.ch.teams)
            && forall x :: x in u.ch.teams ==> TeamCause(c, u.c, x)
  {
    var u := TeamPut(w, team);
    forall x | x in u.ch.teams && x != team.id
      ensures TeamCause(c, u.c, x)
    {
      if x in Bereft(w.c.teamOf, team) {
        var s :| s in Members(team) && s in w.c.teamOf && w.c.teamOf[s] == x;
        assert c.teamOf[s] == x;
      } else {
        assert c.teamOf[sid] == x && sid !in u.c.teamOf;
      }
    }
  }

  lemma ViewCaused(c: Client, id: string)
    requires Inv(c)
    ensures Caused(c, Opened(id), ViewOpened(Step(c, NOTHING), id))
    ensures Caused(c, Closed(id), ViewClosed(Step(c, NOTHING), id))
  {
    var t := Step(c, NOTHING);
    MarkTold(Shown(t, id), id);
    MarkTold(Shut(t, id), id);
  }

  lemma PushCaused(c: Client, push: Push)
    requires Inv(c)
    ensures Caused(c, Pushed(push), OnPush(Step(c, NOTHING), push))
  {
    match push {
      case SessionCreated(rec) => UpsertCaused(c, CreatedFrom(c, rec), rec, Pushed(push));
      case Event(status, ev) => EventCaused(c, status, ev);
      case Lagged(_) =>
      case SessionUpdated(other) => MetaCaused(c, other);
      case ProjectUpdated(project) => ProjectCaused(c, project);
      case TeamUpdated(team) => TeamPutCaused(c, team);
    }
  }

  lemma ComputersCaused(c: Client, list: seq<Computer>)
    ensures Caused(c, ComputersLoaded(list), ComputersTaken(Step(c, NOTHING), list))
  {
  }

  lemma TakenCaused(c: Client, input: Input)
    requires Inv(c)
    ensures Caused(c, input, Taken(c, input))
  {
    match input {
      case SessionsLoaded(list) => ListCaused(c, list);
      case SessionLoaded(rec) => UpsertCaused(c, c, rec, input);
      case Pushed(push) => PushCaused(c, push);
      case EventsFetched(sid, events) => FetchedCaused(c, sid, events);
      case Opened(id) => ViewCaused(c, id);
      case Closed(id) => ViewCaused(c, id);
      case ConnectionIs(k) =>
      case ComputersLoaded(list) => ComputersCaused(c, list);
      case ProjectsLoaded(list) => ProjectsCaused(c, list);
      case TeamLoaded(sid, team) => TeamTakenCaused(c, sid, team);
    }
  }

  /** After any run, nothing is reported without a cause: what a report names shows differently, or is what the input
      itself opened, closed or listed. */
  lemma NothingWithoutCause(acts: seq<Act>, input: Input)
    requires SaneRun(acts)
    ensures Caused(After(acts), input, ApplySpec(After(acts), input))
  {
    var c := After(acts);
    RunKeeps(acts);
    TakenCaused(c, input);
    NumberedCaused(c, input, Taken(c, input));
  }

  lemma NumberedCaused(c: Client, input: Input, u: Step)
    requires Caused(c, input, u)
    ensures Caused(c, input, Numbered(u))
  {
  }

  // ---- asking for events ---------------------------------------------------------------------

  /** Sessions asked for are open, and lack something. */
  ghost predicate AsksOnlyLagging(t: Step, u: Step) {
    forall id :: id in u.ch.resync ==> id in t.ch.resync || Lags(u.c, id)
  }

  lemma UpsertedAsksFor(t: Step, rec: SessionRecord)
    ensures AsksOnlyLagging(t, Upserted(t, rec))
    ensures forall id :: Lags(t.c, id) ==> Lags(Upserted(t, rec).c, id)
  {
    UpsertedFrame(t, rec);
    UpsertedProjects(t, rec);
    var v := t.(c := t.c.(lastSeen := FirstSeen(t.c.lastSeen, t.c.baselined, rec)));
    if !Stale(t.c.sessions, rec) {
      CaughtUpAsksFor(Stored(v, rec), rec.id);
    }
  }

  lemma CaughtUpAsksFor(t: Step, id: string)
    ensures var u := CaughtUp(t, id);
            && (forall k :: k in u.ch.resync ==> k in t.ch.resync || (k == id && id in t.c.open && Behind(t.c, id)))
  {
  }

  lemma {:induction false} UpsertedAllAsksFor(t: Step, list: seq<SessionRecord>)
    ensures AsksOnlyLagging(t, UpsertedAll(t, list))
  {
    if list == [] {
    } else {
      var n := |list| - 1;
      UpsertedAllAsksFor(t, list[..n]);
      UpsertedAsksFor(UpsertedAll(t, list[..n]), list[n]);
    }
  }

  lemma OnEventAsksFor(t: Step, status: Option<SessionStatus>, ev: StoredEvent)
    ensures AsksOnlyLagging(t, OnEventSpec(t, status, ev))
    ensures OnEventSpec(t, status, ev).ch.resync <= t.ch.resync + {ev.sessionId}
  {
    var r := Recorded(t, status, ev);
    TranscribedAsksFor(r, ev);
    MarkOnly(Transcribed(r, ev), ev.sessionId);
    MarkTold(Transcribed(r, ev), ev.sessionId);
  }

  lemma TranscribedAsksFor(t: Step, ev: StoredEvent)
    ensures AsksOnlyLagging(t, Transcribed(t, ev)) && Transcribed(t, ev).ch.resync <= t.ch.resync + {ev.sessionId}
  {
    TranscribedFrame(t, ev);
    if ev.sessionId in t.c.transcripts {
      GapHeld(t.c.transcripts[ev.sessionId], ev.no, ev.event);
    }
  }

  lemma GapHeld(t: Transcripts.State, no: int, event: Transcripts.AgentEvent)
    ensures var r := Transcripts.ApplySeq(t, no, event); r.1.Gap? ==> r.0.held != map[]
  {
    assert no in t.held[no := event];
  }

  lemma {:induction false} FetchedAsksFor(t: Step, sid: string, events: seq<StoredEvent>)
    ensures Fetched(t, sid, events).ch.resync <= t.ch.resync + {sid}
  {
    if events == [] {
    } else {
      var n := |events| - 1;
      FetchedAsksFor(t, sid, events[..n]);
      if events[n].sessionId == sid {
        OnEventAsksFor(Fetched(t, sid, events[..n]), None, events[n]);
      }
    }
  }

  lemma PushAsksFor(c: Client, push: Push)
    ensures var u := OnPush(Step(c, NOTHING), push); forall id :: id in u.ch.resync ==> Lags(u.c, id)
  {
    match push {
      case SessionCreated(rec) => UpsertedAsksFor(Step(CreatedFrom(c, rec), NOTHING), rec);
      case Event(status, ev) => OnEventAsksFor(Step(c, NOTHING), Some(status), ev);
      case _ =>
    }
  }

  /** In every state, the events of a session are asked for only if its view is open and lacks some, or just opened;
      or they were just fetched. */
  lemma EventsAskedForWithCause(c: Client, input: Input, id: string)
    requires id in ApplySpec(c, input).ch.resync
    ensures Lags(ApplySpec(c, input).c, id) || input == Opened(id) || (input.EventsFetched? && input.sessionId == id)
  {
    var t := Step(c, NOTHING);
    match input {
      case SessionsLoaded(list) => UpsertedAllAsksFor(t, list);
      case SessionLoaded(rec) => UpsertedAsksFor(t, rec);
      case Pushed(push) => PushAsksFor(c, push);
      case EventsFetched(sid, events) => FetchedAsksFor(t, sid, events);
      case Opened(sid) => MarkTold(Shown(t, sid), sid);
      case Closed(sid) => MarkTold(Shut(t, sid), sid);
      case _ =>
    }
  }
}
