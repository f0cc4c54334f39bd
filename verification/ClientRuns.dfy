/** What holds of the client's view over every run, restarts included. */
module ClientRuns {
  import opened Wrappers
  import opened Wire
  import opened Ordering
  import opened ClientState
  import Transcripts

  // ---- what every reachable state keeps ------------------------------------------------------

  predicate RecordsKeyed(sessions: map<string, SessionRecord>) {
    forall id :: id in sessions ==> sessions[id].id == id
  }

  /** Nothing is read past its end, and an open session is read up to it. */
  predicate ReadMarks(sessions: map<string, SessionRecord>, lastSeen: map<string, int>, open: set<string>) {
    && lastSeen.Keys == sessions.Keys
    && (forall id :: id in sessions ==> 0 <= sessions[id].lastSeq && lastSeen[id] <= sessions[id].lastSeq)
    && (forall id :: id in sessions && id in open ==> lastSeen[id] == sessions[id].lastSeq)
  }

  /** Each session's team is stored and lists it. */
  predicate TeamsLinked(teams: map<string, TeamView>, teamOf: map<string, string>) {
    && (forall t :: t in teams ==> teams[t].id == t)
    && (forall id :: id in teamOf ==> teamOf[id] in teams && id in Members(teams[teamOf[id]]))
  }

  /** Once projects are known, every computer's projects are exactly those that assign it, by name. */
  predicate ProjectsDerived(records: map<string, Project>, known: bool, computers: seq<Computer>) {
    && (records != map[] ==> known)
    && (forall k :: k in records ==> records[k].name == k)
    && (known ==> forall x :: x in computers ==> x.projects == Assigned(records, x.id))
  }

  ghost predicate TranscriptsSound(transcripts: map<string, Transcripts.State>) {
    forall id :: id in transcripts ==> Transcripts.Sound(transcripts[id].core) && Transcripts.Settled(transcripts[id])
  }

  /** `Inv`, with the open sessions in `but` perhaps not yet read to their end. */
  ghost predicate InvBut(c: Client, but: set<string>) {
    && RecordsKeyed(c.sessions) && ReadMarks(c.sessions, c.lastSeen, c.open - but) && TeamsLinked(c.teams, c.teamOf)
    && ProjectsDerived(c.projectRecords, c.projectsKnown, c.computers) && TranscriptsSound(c.transcripts)
  }

  ghost predicate Inv(c: Client) {
    && RecordsKeyed(c.sessions) && ReadMarks(c.sessions, c.lastSeen, c.open) && TeamsLinked(c.teams, c.teamOf)
    && ProjectsDerived(c.projectRecords, c.projectsKnown, c.computers) && TranscriptsSound(c.transcripts)
  }

  // ---- what a report must tell ---------------------------------------------------------------

  /** The projects and each project's sessions and their order. */
  predicate ProjectsTold(a: Client, c: Client, projects: bool) {
    !projects ==> a.projectRecords == c.projectRecords && Placement(a.sessions) == Placement(c.sessions)
  }

  ghost predicate SessionsTold(a: Client, c: Client, sessions: set<string>) {
    forall id :: id !in sessions ==> Session(a, id) == Session(c, id)
  }

  ghost predicate TranscriptsTold(a: map<string, Transcripts.State>, c: map<string, Transcripts.State>,
      transcripts: set<string>) {
    forall id :: id !in transcripts ==> TranscriptIn(a, id) == TranscriptIn(c, id)
  }

  /** A session's team view differs only with the old and the new team reported. */
  predicate TeamTold(before: Option<TeamView>, after: Option<TeamView>, teams: set<string>) {
    before != after ==> (before.Some? ==> before.value.id in teams) && (after.Some? ==> after.value.id in teams)
  }

  ghost predicate TeamsTold(a: Client, c: Client, teams: set<string>) {
    && (forall id :: TeamTold(TeamFor(a, id), TeamFor(c, id), teams))
    && (forall team :: team !in teams ==> TeamById(a.teams, team) == TeamById(c.teams, team))
  }

  /** The cache holds the same. */
  predicate SameCached(a: Client, c: Client) {
    && a.sessions == c.sessions && a.lastSeen == c.lastSeen && a.baselined == c.baselined
    && a.computers == c.computers && a.projectRecords == c.projectRecords
  }

  /** Every part of the view that differs between `a` and the state of `t` is named by the report of `t`. */
  ghost predicate Told(a: Client, t: Step) {
    && ProjectsTold(a, t.c, t.ch.projects)
    && SessionsTold(a, t.c, t.ch.sessions)
    && TranscriptsTold(a.transcripts, t.c.transcripts, t.ch.transcripts)
    && TeamsTold(a, t.c, t.ch.teams)
    && (!t.ch.computers ==> a.computers == t.c.computers)
    && (!t.ch.connection ==> a.connection == t.c.connection)
    && (!t.ch.persist ==> SameCached(a, t.c))
  }

  /** Reports only grow. */
  predicate Grows(a: Changes, b: Changes) {
    && (a.projects ==> b.projects) && a.sessions <= b.sessions && a.transcripts <= b.transcripts
    && (a.computers ==> b.computers) && (a.connection ==> b.connection) && a.teams <= b.teams
    && a.resync <= b.resync && (a.resyncAll ==> b.resyncAll) && (a.persist ==> b.persist)
  }

  /** No session goes away, and neither its end nor its read mark moves back. */
  predicate Onward(a: Client, c: Client) {
    forall id :: id in a.sessions ==>
      && id in c.sessions && a.sessions[id].lastSeq <= c.sessions[id].lastSeq
      && id in a.lastSeen && id in c.lastSeen && a.lastSeen[id] <= c.lastSeen[id]
  }

  /** From `t` to `u` everything that changed is told, and nothing told or seen is taken back. */
  ghost predicate Moved(t: Step, u: Step) {
    Told(t.c, u) && Grows(t.ch, u.ch) && Onward(t.c, u.c) && t.c.revision == u.c.revision
  }

  lemma TeamsToldOn(a: Client, b: Client, c: Client, teams: set<string>, teams': set<string>)
    requires TeamsTold(a, b, teams) && TeamsTold(b, c, teams') && teams <= teams'
    ensures TeamsTold(a, c, teams')
  {
    forall id
      ensures TeamTold(TeamFor(a, id), TeamFor(c, id), teams')
    {
      assert TeamTold(TeamFor(a, id), TeamFor(b, id), teams) && TeamTold(TeamFor(b, id), TeamFor(c, id), teams');
    }
  }

  lemma MovedOnward(t: Step, u: Step, v: Step)
    requires Moved(t, u) && Moved(u, v)
    ensures Moved(t, v)
  {
    TeamsToldOn(t.c, u.c, v.c, u.ch.teams, v.ch.teams);
  }

  // ---- step by step --------------------------------------------------------------------------

  lemma SameTeams(a: Client, c: Client, teams: set<string>)
    requires a.teams == c.teams && a.teamOf == c.teamOf
    ensures TeamsTold(a, c, teams)
  {
  }

  lemma SameTranscripts(a: map<string, Transcripts.State>, transcripts: set<string>)
    ensures TranscriptsTold(a, a, transcripts)
  {
  }

  lemma MarkedSeenReads(t: Step, id: string)
    requires ReadMarks(t.c.sessions, t.c.lastSeen, t.c.open - {id})
    ensures var u := MarkedSeen(t, id);
            && ReadMarks(t.c.sessions, u.c.lastSeen, t.c.open)
  {
    var u := MarkedSeen(t, id);
    if id in t.c.sessions {
      assert id in t.c.lastSeen.Keys;
      assert u.c.lastSeen.Keys == t.c.lastSeen.Keys;
    }
  }

  lemma MarkedSeenSessions(t: Step, id: string)
    requires RecordsKeyed(t.c.sessions)
    ensures var u := MarkedSeen(t, id); SessionsTold(t.c, u.c, u.ch.sessions)
  {
  }

  lemma MarkedSeenKeeps(t: Step, id: string)
    requires InvBut(t.c, {id})
    ensures var u := MarkedSeen(t, id); Inv(u.c) && Moved(t, u)
  {
    var u := MarkedSeen(t, id);
    MarkedSeenReads(t, id);
    MarkedSeenSessions(t, id);
    SameTeams(t.c, u.c, u.ch.teams);
    SameTranscripts(t.c.transcripts, u.ch.transcripts);
  }

  /** A record put in leaves the others keyed and shown as they were. */
  lemma PutShown(sessions: map<string, SessionRecord>, seen: map<string, int>, seen': map<string, int>,
      open: set<string>, rec: SessionRecord)
    requires RecordsKeyed(sessions) && forall k :: k != rec.id ==> SeenIn(seen', k) == SeenIn(seen, k)
    ensures RecordsKeyed(sessions[rec.id := rec])
    ensures forall k :: k != rec.id ==>
              SessionIn(sessions[rec.id := rec], seen', open, k) == SessionIn(sessions, seen, open, k)
  {
  }

  lemma PutPlaced(sessions: map<string, SessionRecord>, rec: SessionRecord)
    requires RecordsKeyed(sessions) && !Moves(sessions, rec)
    ensures Placement(sessions[rec.id := rec]) == Placement(sessions)
  {
  }

  /** Nothing moves back when a record no older is put in and nothing is marked less read. */
  lemma PutOnward(a: Client, c: Client, rec: SessionRecord)
    requires c.sessions == a.sessions[rec.id := rec] && a.sessions.Keys == a.lastSeen.Keys
    requires forall k :: k in a.lastSeen ==> k in c.lastSeen && a.lastSeen[k] <= c.lastSeen[k]
    requires rec.id in a.sessions ==> a.sessions[rec.id].lastSeq <= rec.lastSeq
    ensures Onward(a, c)
  {
  }

  /** What a record put in must come with. */
  ghost predicate PutWell(t: Step, u: Step, rec: SessionRecord, but: set<string>) {
    && u.c == t.c.(sessions := t.c.sessions[rec.id := rec], lastSeen := u.c.lastSeen)
    && ReadMarks(u.c.sessions, u.c.lastSeen, u.c.open - but)
    && Grows(t.ch, u.ch) && rec.id in u.ch.sessions && u.ch.persist
    && (u.ch.projects || !Moves(t.c.sessions, rec))
  }

  lemma RecordPut(t: Step, u: Step, rec: SessionRecord, but: set<string>)
    requires Inv(t.c) && PutWell(t, u, rec, but)
    requires forall k :: k != rec.id ==> SeenIn(u.c.lastSeen, k) == SeenIn(t.c.lastSeen, k)
    requires forall k :: k in t.c.lastSeen ==> k in u.c.lastSeen && t.c.lastSeen[k] <= u.c.lastSeen[k]
    requires rec.id in t.c.sessions ==> t.c.sessions[rec.id].lastSeq <= rec.lastSeq
    ensures InvBut(u.c, but) && Moved(t, u)
  {
    PutShown(t.c.sessions, t.c.lastSeen, u.c.lastSeen, t.c.open, rec);
    if !u.ch.projects {
      PutPlaced(t.c.sessions, rec);
    }
    PutOnward(t.c, u.c, rec);
    SameTeams(t.c, u.c, u.ch.teams);
    SameTranscripts(t.c.transcripts, u.ch.transcripts);
  }

  lemma FirstSeenKeeps(seen: map<string, int>, baselined: bool, rec: SessionRecord)
    ensures var r := FirstSeen(seen, baselined, rec);
            && (forall k :: k != rec.id ==> SeenIn(r, k) == SeenIn(seen, k))
            && (forall k :: k in seen ==> k in r && seen[k] == r[k])
  {
  }

  /** A record newer than the one held, or the first of its session, put in. */
  lemma StoredKeeps(t: Step, rec: SessionRecord, lastSeen: map<string, int>)
    requires Inv(t.c) && rec.lastSeq >= 0 && !Stale(t.c.sessions, rec)
    requires lastSeen == FirstSeen(t.c.lastSeen, t.c.baselined, rec)
    ensures var v := Stored(t.(c := t.c.(lastSeen := lastSeen)), rec);
            InvBut(v.c, {rec.id}) && Moved(t, v)
  {
    var v := Stored(t.(c := t.c.(lastSeen := lastSeen)), rec);
    StoredReads(t.c.sessions, t.c.lastSeen, t.c.open, rec, t.c.baselined);
    FirstSeenKeeps(t.c.lastSeen, t.c.baselined, rec);
    RecordPut(t, v, rec, {rec.id});
  }

  lemma StoredReads(sessions: map<string, SessionRecord>, lastSeen: map<string, int>, open: set<string>,
      rec: SessionRecord, baselined: bool)
    requires ReadMarks(sessions, lastSeen, open) && rec.lastSeq >= 0 && !Stale(sessions, rec)
    ensures var seen := FirstSeen(lastSeen, baselined, rec); ReadMarks(sessions[rec.id := rec], seen, open - {rec.id})
  {
    var seen := FirstSeen(lastSeen, baselined, rec);
    assert seen.Keys == sessions[rec.id := rec].Keys;
  }

  lemma AskedForKeeps(t: Step, id: string)
    requires Inv(t.c)
    ensures var u := AskedFor(t, id); Inv(u.c) && Moved(t, u)
  {
    SameTeams(t.c, t.c, t.ch.teams);
    SameTranscripts(t.c.transcripts, t.ch.transcripts);
  }

  lemma CaughtUpKeeps(t: Step, id: string)
    requires InvBut(t.c, {id})
    ensures var u := CaughtUp(t, id); Inv(u.c) && Moved(t, u)
  {
    if id in t.c.open {
      var m := MarkedSeen(t, id);
      MarkedSeenKeeps(t, id);
      AskedForKeeps(m, id);
      MovedOnward(t, m, AskedFor(m, id));
    } else {
      assert t.c.open - {id} == t.c.open;
      AskedForKeeps(t, id);
      MovedNot(t);
    }
  }

  lemma MovedNot(t: Step)
    requires ReadMarks(t.c.sessions, t.c.lastSeen, t.c.open)
    ensures Moved(t, t)
  {
    SameTeams(t.c, t.c, t.ch.teams);
    SameTranscripts(t.c.transcripts, t.ch.transcripts);
  }

  lemma UpsertedKeeps(t: Step, rec: SessionRecord)
    requires Inv(t.c) && rec.lastSeq >= 0
    ensures var u := Upserted(t, rec); Inv(u.c) && Moved(t, u)
  {
    var lastSeen := FirstSeen(t.c.lastSeen, t.c.baselined, rec);
    if Stale(t.c.sessions, rec) {
      assert rec.id in t.c.lastSeen.Keys;
      MovedNot(t);
    } else {
      var v := Stored(t.(c := t.c.(lastSeen := lastSeen)), rec);
      StoredKeeps(t, rec, lastSeen);
      CaughtUpKeeps(v, rec.id);
      MovedOnward(t, v, CaughtUp(v, rec.id));
    }
  }

  /** Sequence numbers count from zero. */
  predicate Counts(rec: SessionRecord) {
    rec.lastSeq >= 0
  }

  lemma {:induction false} UpsertedAllKeeps(t: Step, list: seq<SessionRecord>)
    requires Inv(t.c) && forall rec :: rec in list ==> Counts(rec)
    ensures var u := UpsertedAll(t, list); Inv(u.c) && Moved(t, u)
  {
    if list == [] {
      MovedNot(t);
    } else {
      var n := |list| - 1;
      assert list[n] in list && Counts(list[n]);
      UpsertedAllKeeps(t, list[..n]);
      var v := UpsertedAll(t, list[..n]);
      UpsertedKeeps(v, list[n]);
      MovedOnward(t, v, Upserted(v, list[n]));
    }
  }

  /** A session's record moved on by an event. */
  lemma MovedOnReads(sessions: map<string, SessionRecord>, lastSeen: map<string, int>, open: set<string>, id: string,
      rec: SessionRecord)
    requires ReadMarks(sessions, lastSeen, open) && id in sessions && rec.lastSeq > sessions[id].lastSeq
    ensures ReadMarks(sessions[id := rec], lastSeen, open - {id})
  {
    assert sessions[id := rec].Keys == sessions.Keys;
  }

  lemma RecordMoved(t: Step, id: string, rec: SessionRecord, ch: Changes)
    requires Inv(t.c) && id in t.c.sessions && rec.lastSeq > t.c.sessions[id].lastSeq
    requires rec.id == id && rec.project == t.c.sessions[id].project
    requires ch == TellSession(t.ch.(projects := t.ch.projects || t.c.sessions[id].updatedAt != rec.updatedAt), id)
    ensures var u := Step(t.c.(sessions := t.c.sessions[id := rec]), ch); InvBut(u.c, {id}) && Moved(t, u)
  {
    MovedOnReads(t.c.sessions, t.c.lastSeen, t.c.open, id, rec);
    RecordPut(t, Step(t.c.(sessions := t.c.sessions[id := rec]), ch), rec, {id});
  }

  lemma RecordedIs(t: Step, status: Option<SessionStatus>, ev: StoredEvent)
    ensures var u := Recorded(t, status, ev);
            if Advances(t.c.sessions, ev) then
              var rec := MovedOn(t.c.sessions[ev.sessionId], status, ev);
              && u.c == t.c.(sessions := t.c.sessions[ev.sessionId := rec])
              && u.ch == TellSession(t.ch.(projects := t.ch.projects
                  || t.c.sessions[ev.sessionId].updatedAt != ev.at), ev.sessionId)
            else u.c == t.c && (u.ch == t.ch || u.ch == t.ch.(resyncAll := true))
  {
  }

  lemma RecordedKeeps(t: Step, status: Option<SessionStatus>, ev: StoredEvent)
    requires Inv(t.c)
    ensures var u := Recorded(t, status, ev); InvBut(u.c, {ev.sessionId}) && Moved(t, u)
  {
    RecordedIs(t, status, ev);
    var u := Recorded(t, status, ev);
    if Advances(t.c.sessions, ev) {
      RecordMoved(t, ev.sessionId, MovedOn(t.c.sessions[ev.sessionId], status, ev), u.ch);
    } else {
      MovedNot(t);
      assert Moved(t, Step(t.c, t.ch.(resyncAll := true)));
    }
  }

  /** Only transcripts changed, and what is drawn of them is told. */
  lemma TranscriptsMoved(t: Step, transcripts: map<string, Transcripts.State>, ch: Changes, but: set<string>)
    requires InvBut(t.c, but) && TranscriptsSound(transcripts)
        && TranscriptsTold(t.c.transcripts, transcripts, ch.transcripts)
    requires Grows(t.ch, ch)
    ensures var u := Step(t.c.(transcripts := transcripts), ch); InvBut(u.c, but) && Moved(t, u)
  {
    SameTeams(t.c, t.c.(transcripts := transcripts), ch.teams);
  }

  /** What is drawn of a transcript changes only with an event taken. */
  lemma OfferedTold(t: Transcripts.State, no: int, event: Transcripts.AgentEvent)
    ensures var r := Transcripts.ApplySeq(t, no, event); !r.1.Changed? ==> r.0.core == t.core
  {
  }

  lemma TranscribedTold(t: Step, ev: StoredEvent)
    ensures var u := Transcribed(t, ev);
            && TranscriptsTold(t.c.transcripts, u.c.transcripts, u.ch.transcripts) && Grows(t.ch, u.ch)
            && u.c == t.c.(transcripts := u.c.transcripts)
  {
    var id := ev.sessionId;
    if id in t.c.transcripts {
      OfferedTold(t.c.transcripts[id], ev.no, ev.event);
      ReplacedTold(t.c.transcripts, id, Transcribed(t, ev).c.transcripts[id], Transcribed(t, ev).ch.transcripts);
    }
  }

  lemma ReplacedTold(a: map<string, Transcripts.State>, id: string, t: Transcripts.State, told: set<string>)
    requires id in a && (id in told || t.core == a[id].core)
    ensures TranscriptsTold(a, a[id := t], told)
  {
  }

  lemma TranscribedSound(t: Step, ev: StoredEvent)
    requires TranscriptsSound(t.c.transcripts)
    ensures TranscriptsSound(Transcribed(t, ev).c.transcripts)
  {
    if ev.sessionId in t.c.transcripts {
      Transcripts.ApplySound(t.c.transcripts[ev.sessionId], ev.no, ev.event);
      Transcripts.ApplySettles(t.c.transcripts[ev.sessionId], ev.no, ev.event);
    }
  }

  lemma TranscribedKeeps(t: Step, ev: StoredEvent)
    requires InvBut(t.c, {ev.sessionId})
    ensures var u := Transcribed(t, ev); InvBut(u.c, {ev.sessionId}) && Moved(t, u)
  {
    var u := Transcribed(t, ev);
    TranscribedTold(t, ev);
    TranscribedSound(t, ev);
    TranscriptsMoved(t, u.c.transcripts, u.ch, {ev.sessionId});
  }

  lemma OnEventKeeps(t: Step, status: Option<SessionStatus>, ev: StoredEvent)
    requires Inv(t.c)
    ensures var u := OnEventSpec(t, status, ev); Inv(u.c) && Moved(t, u)
  {
    var v := Recorded(t, status, ev);
    RecordedKeeps(t, status, ev);
    var w := Transcribed(v, ev);
    TranscribedKeeps(v, ev);
    MovedOnward(t, v, w);
    if ev.sessionId in w.c.open {
      MarkedSeenKeeps(w, ev.sessionId);
      MovedOnward(t, w, MarkedSeen(w, ev.sessionId));
    } else {
      assert w.c.open - {ev.sessionId} == w.c.open;
    }
  }

  lemma {:induction false} FetchedKeeps(t: Step, id: string, events: seq<StoredEvent>)
    requires Inv(t.c)
    ensures var u := Fetched(t, id, events); Inv(u.c) && Moved(t, u)
  {
    if events == [] {
      MovedNot(t);
    } else {
      var n := |events| - 1;
      FetchedKeeps(t, id, events[..n]);
      var v := Fetched(t, id, events[..n]);
      if events[n].sessionId == id {
        OnEventKeeps(v, None, events[n]);
        MovedOnward(t, v, OnEventSpec(v, None, events[n]));
      }
    }
  }

  lemma MetaTakenKeeps(t: Step, session: SessionRecord)
    requires Inv(t.c)
    ensures var u := MetaTaken(t, session); Inv(u.c) && Moved(t, u)
  {
    var id := session.id;
    if id in t.c.sessions {
      MetaMoved(t, id, TakeMeta(t.c.sessions[id], session).0, MetaTaken(t, session).ch);
    } else {
      MovedNot(t);
    }
  }

  lemma MetaReads(sessions: map<string, SessionRecord>, lastSeen: map<string, int>,
                  open: set<string>, rec: SessionRecord)
    requires ReadMarks(sessions, lastSeen, open) && rec.id in sessions && rec.lastSeq == sessions[rec.id].lastSeq
    ensures ReadMarks(sessions[rec.id := rec], lastSeen, open - {})
  {
    assert sessions[rec.id := rec].Keys == sessions.Keys;
  }

  lemma MetaMoved(t: Step, id: string, rec: SessionRecord, ch: Changes)
    requires Inv(t.c) && id in t.c.sessions
    requires rec.id == id && rec.project == t.c.sessions[id].project && rec.updatedAt == t.c.sessions[id].updatedAt
    requires rec.lastSeq == t.c.sessions[id].lastSeq
    requires ch == if rec == t.c.sessions[id] then t.ch
                   else t.ch.(projects := true, sessions := t.ch.sessions + {id}, persist := true)
    ensures var u := Step(t.c.(sessions := t.c.sessions[id := rec]), ch); Inv(u.c) && Moved(t, u)
  {
    if rec == t.c.sessions[id] {
      assert t.c.sessions[id := rec] == t.c.sessions;
      MovedNot(t);
    } else {
      MetaReads(t.c.sessions, t.c.lastSeen, t.c.open, rec);
      RecordPut(t, Step(t.c.(sessions := t.c.sessions[id := rec]), ch), rec, {});
      assert t.c.open - {} == t.c.open;
    }
  }

  lemma CreatedKeeps(t: Step, session: SessionRecord)
    requires Inv(t.c) && session.lastSeq >= 0
    ensures var u := Created(t, session); Inv(u.c) && Moved(t, u)
  {
    var id := session.id;
    if id in t.c.sessions {
      UpsertedKeeps(t, session);
    } else {
      assert id !in t.c.lastSeen.Keys;
      var seen := t.c.lastSeen[id := 0];
      CreatedStored(t, session, seen);
      var v := Stored(t.(c := t.c.(lastSeen := seen)), session);
      CaughtUpKeeps(v, id);
      MovedOnward(t, v, CaughtUp(v, id));
    }
  }

  /** A session created while connected starts unread, whether or not the list was loaded. */
  lemma CreatedStored(t: Step, session: SessionRecord, seen: map<string, int>)
    requires Inv(t.c) && session.lastSeq >= 0 && session.id !in t.c.sessions
    requires seen == t.c.lastSeen[session.id := 0]
    ensures var v := Stored(t.(c := t.c.(lastSeen := seen)), session); InvBut(v.c, {session.id}) && Moved(t, v)
  {
    var c := t.c.(baselined := true);
    assert session.id !in t.c.lastSeen.Keys;
    StoredKeeps(Step(c, t.ch), session, seen);
    var v := Stored(t.(c := t.c.(lastSeen := seen)), session);
    SameTeams(t.c, v.c, v.ch.teams);
    SameTranscripts(t.c.transcripts, v.ch.transcripts);
  }

  // ---- teams ---------------------------------------------------------------------------------

  lemma TeamsMoved(t: Step, teams: map<string, TeamView>, teamOf: map<string, string>, told: set<string>)
    requires Inv(t.c) && TeamsLinked(teams, teamOf)
    requires TeamsTold(t.c, t.c.(teams := teams, teamOf := teamOf), told) && t.ch.teams <= told
    ensures var u := Step(t.c.(teams := teams, teamOf := teamOf), t.ch.(teams := told)); Inv(u.c) && Moved(t, u)
  {
    SameTranscripts(t.c.transcripts, t.ch.transcripts);
  }

  lemma LinkedLinks(teams: map<string, TeamView>, teamOf: map<string, string>, team: TeamView)
    requires TeamsLinked(teams, teamOf)
    ensures TeamsLinked(teams[team.id := team], Linked(teamOf, team))
  {
  }

  /** Whoever changes team, both teams are told; whoever stays in the new team sees it told. */
  lemma LinkedTold(teams: map<string, TeamView>, teamOf: map<string, string>, team: TeamView, id: string)
    requires TeamsLinked(teams, teamOf)
    ensures TeamTold(TeamIn(teams, teamOf, id), TeamIn(teams[team.id := team], Linked(teamOf, team), id),
                     Bereft(teamOf, team) + {team.id})
  {
    if id in teamOf && teamOf[id] != team.id && id in Members(team) {
      assert teamOf[id] in Bereft(teamOf, team);
    }
  }

  lemma TeamPutKeeps(t: Step, team: TeamView)
    requires Inv(t.c)
    ensures var u := TeamPut(t, team); Inv(u.c) && Moved(t, u)
  {
    if team.id in t.c.teams && t.c.teams[team.id] == team {
      MovedNot(t);
    } else {
      var teams, teamOf := t.c.teams[team.id := team], Linked(t.c.teamOf, team);
      var told := t.ch.teams + Bereft(t.c.teamOf, team) + {team.id};
      LinkedLinks(t.c.teams, t.c.teamOf, team);
      forall id
        ensures TeamTold(TeamFor(t.c, id), TeamIn(teams, teamOf, id), told)
      {
        LinkedTold(t.c.teams, t.c.teamOf, team, id);
      }
      TeamsMoved(t, teams, teamOf, told);
    }
  }

  lemma UnlinkedKeeps(t: Step, id: string)
    requires Inv(t.c)
    ensures var u := Unlinked(t, id); Inv(u.c) && Moved(t, u)
  {
    if id in t.c.teamOf {
      var teamOf, told := t.c.teamOf - {id}, t.ch.teams + {t.c.teamOf[id]};
      assert TeamsLinked(t.c.teams, teamOf);
      assert TeamsTold(t.c, t.c.(teams := t.c.teams, teamOf := teamOf), told);
      TeamsMoved(t, t.c.teams, teamOf, told);
    } else {
      MovedNot(t);
    }
  }

  lemma TeamTakenKeeps(t: Step, id: string, team: Option<TeamView>)
    requires Inv(t.c)
    ensures var u := TeamTaken(t, id, team); Inv(u.c) && Moved(t, u)
  {
    if team.Some? && id in Members(team.value) {
      TeamPutKeeps(t, team.value);
    } else {
      var v := Unlinked(t, id);
      UnlinkedKeeps(t, id);
      if team.Some? {
        TeamPutKeeps(v, team.value);
        MovedOnward(t, v, TeamPut(v, team.value));
      }
    }
  }

  // ---- projects and computers ----------------------------------------------------------------

  /** Projects and computers changed, and both are told. */
  lemma ProjectsMoved(t: Step, records: map<string, Project>, computers: seq<Computer>, ch: Changes)
    requires Inv(t.c)
    requires forall k :: k in records ==> records[k].name == k
    requires computers == Derived(records, t.c.computers)
    requires Grows(t.ch, ch)
    requires records != t.c.projectRecords ==> ch.projects && ch.persist
    requires computers != t.c.computers ==> ch.computers && ch.persist
    ensures var u := Step(t.c.(projectsKnown := true, projectRecords := records, computers := computers), ch);
            Inv(u.c) && Moved(t, u)
  {
    var u := Step(t.c.(projectsKnown := true, projectRecords := records, computers := computers), ch);
    SameTeams(t.c, u.c, ch.teams);
    SameTranscripts(t.c.transcripts, ch.transcripts);
    DerivedDerived(records, t.c.computers);
  }

  lemma DerivedDerived(records: map<string, Project>, computers: seq<Computer>)
    requires forall k :: k in records ==> records[k].name == k
    ensures ProjectsDerived(records, true, Derived(records, computers))
  {
  }

  lemma ProjectTakenKeeps(t: Step, project: Project)
    requires Inv(t.c)
    ensures var u := ProjectTaken(t, project); Inv(u.c) && Moved(t, u)
  {
    var records := t.c.projectRecords;
    if project.name in records && records[project.name] == project {
      MovedNot(t);
    } else {
      var records' := records[project.name := project];
      ProjectsMoved(t, records', Derived(records', t.c.computers), ProjectTaken(t, project).ch);
    }
  }

  lemma ProjectsTakenKeeps(t: Step, list: seq<Project>)
    requires Inv(t.c)
    ensures var u := ProjectsTaken(t, list); Inv(u.c) && Moved(t, u)
  {
    var records := ByName(list);
    ProjectsMoved(t, records, Derived(records, t.c.computers), ProjectsTaken(t, list).ch);
  }

  lemma ComputersMoved(t: Step, computers: seq<Computer>)
    requires Inv(t.c) && ProjectsDerived(t.c.projectRecords, t.c.projectsKnown, computers)
    ensures var u := Step(t.c.(computers := computers), t.ch.(computers := true, persist := true));
        Inv(u.c) && Moved(t, u)
  {
    var u := Step(t.c.(computers := computers), t.ch.(computers := true, persist := true));
    SameTeams(t.c, u.c, t.ch.teams);
    SameTranscripts(t.c.transcripts, t.ch.transcripts);
  }

  lemma ComputersTakenKeeps(t: Step, list: seq<Computer>)
    requires Inv(t.c)
    ensures var u := ComputersTaken(t, list); Inv(u.c) && Moved(t, u)
  {
    if list == t.c.computers {
      MovedNot(t);
    } else if t.c.projectsKnown {
      DerivedDerived(t.c.projectRecords, list);
      ComputersMoved(t, Derived(t.c.projectRecords, list));
    } else {
      ComputersMoved(t, list);
    }
  }

  // ---- opening and closing -------------------------------------------------------------------

  lemma ShownReads(sessions: map<string, SessionRecord>, lastSeen: map<string, int>, open: set<string>, id: string)
    requires ReadMarks(sessions, lastSeen, open) && RecordsKeyed(sessions)
    ensures ReadMarks(sessions, lastSeen, open + {id} - {id})
    ensures forall k :: k != id ==>
              SessionIn(sessions, lastSeen, open + {id}, k) == SessionIn(sessions, lastSeen, open, k)
  {
  }

  lemma ShownTold(transcripts: map<string, Transcripts.State>, id: string, told: set<string>)
    requires TranscriptsSound(transcripts) && id in told
    ensures var shown := transcripts[id := if id in transcripts then transcripts[id] else Transcripts.FRESH];
            TranscriptsSound(shown) && TranscriptsTold(transcripts, shown, told)
  {
  }

  lemma ShownMoved(t: Step, id: string)
    requires Inv(t.c)
    ensures var u := Shown(t, id); InvBut(u.c, {id}) && Moved(t, u)
  {
    var u := Shown(t, id);
    ShownReads(t.c.sessions, t.c.lastSeen, t.c.open, id);
    ShownTold(t.c.transcripts, id, u.ch.transcripts);
    SameTeams(t.c, u.c, t.ch.teams);
  }

  lemma ViewOpenedKeeps(t: Step, id: string)
    requires Inv(t.c)
    ensures var u := ViewOpened(t, id);
            Inv(u.c) && Moved(t, u) && id in u.ch.resync && id in u.c.open && id in u.c.transcripts
  {
    var v := Shown(t, id);
    ShownMoved(t, id);
    MarkedSeenKeeps(v, id);
    MovedOnward(t, v, MarkedSeen(v, id));
  }

  lemma ShutMoved(t: Step, id: string)
    requires Inv(t.c)
    ensures var u := Shut(t, id); InvBut(u.c, {id}) && Moved(t, u)
  {
    SameTeams(t.c, Shut(t, id).c, t.ch.teams);
    SameTranscripts(t.c.transcripts, t.ch.transcripts);
  }

  lemma ViewClosedKeeps(t: Step, id: string)
    requires Inv(t.c)
    ensures var u := ViewClosed(t, id); Inv(u.c) && Moved(t, u)
  {
    if id in t.c.open {
      var v := Shut(t, id);
      ShutMoved(t, id);
      MarkedSeenKeeps(v, id);
      MovedOnward(t, v, MarkedSeen(v, id));
    } else {
      MovedNot(t);
    }
  }

  lemma SessionsTakenKeeps(t: Step, list: seq<SessionRecord>)
    requires Inv(t.c) && forall rec :: rec in list ==> Counts(rec)
    ensures var u := SessionsTaken(t, list); Inv(u.c) && Moved(t, u)
  {
    var v := UpsertedAll(t, list);
    UpsertedAllKeeps(t, list);
    Baselined(v);
    var w := Step(v.c.(baselined := true), v.ch.(persist := true));
    MovedOnward(t, v, w);
  }

  lemma Baselined(t: Step)
    requires Inv(t.c)
    ensures var u := Step(t.c.(baselined := true), t.ch.(persist := true)); Inv(u.c) && Moved(t, u)
  {
    var u := Step(t.c.(baselined := true), t.ch.(persist := true));
    SameTeams(t.c, u.c, t.ch.teams);
    SameTranscripts(t.c.transcripts, t.ch.transcripts);
  }

  // ---- every input ---------------------------------------------------------------------------

  /** Sequence numbers in the server's session records count from zero. */
  predicate Sane(input: Input) {
    match input
    case SessionsLoaded(list) => forall rec :: rec in list ==> Counts(rec)
    case SessionLoaded(rec) => Counts(rec)
    case Pushed(SessionCreated(rec)) => Counts(rec)
    case _ => true
  }

  lemma OnPushKeeps(t: Step, push: Push)
    requires Inv(t.c) && Sane(Pushed(push))
    ensures var u := OnPush(t, push); Inv(u.c) && Moved(t, u)
  {
    match push {
      case SessionCreated(session) => CreatedKeeps(t, session);
      case Event(status, event) => OnEventKeeps(t, Some(status), event);
      case Lagged(_) => MovedNot(t);
      case SessionUpdated(session) => MetaTakenKeeps(t, session);
      case ProjectUpdated(project) => ProjectTakenKeeps(t, project);
      case TeamUpdated(team) => TeamPutKeeps(t, team);
    }
  }

  lemma Reconnected(t: Step, connection: Connection)
    requires Inv(t.c)
    ensures var u := Step(t.c.(connection := connection), t.ch.(connection := true)); Inv(u.c) && Moved(t, u)
  {
    SameTeams(t.c, t.c.(connection := connection), t.ch.teams);
    SameTranscripts(t.c.transcripts, t.ch.transcripts);
  }

  lemma ConnectionTakenKeeps(t: Step, k: Connection)
    requires Inv(t.c)
    ensures var u := ConnectionTaken(t, k); Inv(u.c) && Moved(t, u)
  {
    MovedNot(t);
    Reconnected(t, k);
  }

  lemma TakenKeeps(c: Client, input: Input)
    requires Inv(c) && Sane(input)
    ensures var u := Taken(c, input); Inv(u.c) && Moved(Step(c, NOTHING), u)
  {
    var t := Step(c, NOTHING);
    match input {
      case SessionsLoaded(list) => SessionsTakenKeeps(t, list);
      case SessionLoaded(rec) => UpsertedKeeps(t, rec);
      case Pushed(push) => OnPushKeeps(t, push);
      case EventsFetched(id, events) => FetchedKeeps(t, id, events);
      case Opened(id) => ViewOpenedKeeps(t, id);
      case Closed(id) => ViewClosedKeeps(t, id);
      case ConnectionIs(k) => ConnectionTakenKeeps(t, k);
      case ComputersLoaded(list) => ComputersTakenKeeps(t, list);
      case ProjectsLoaded(list) => ProjectsTakenKeeps(t, list);
      case TeamLoaded(id, team) => TeamTakenKeeps(t, id, team);
    }
  }

  // ---- the report is complete ----------------------------------------------------------------

  /** Whatever a reader of the state sees differently after an input, the report names. */
  ghost predicate Complete(a: Client, u: Step) {
    && (Projects(a) != Projects(u.c) ==> u.ch.projects)
    && (forall id :: Session(a, id) != Session(u.c, id) ==> id in u.ch.sessions)
    && (forall id :: TranscriptOf(a, id) != TranscriptOf(u.c, id) ==> id in u.ch.transcripts)
    && (a.computers != u.c.computers ==> u.ch.computers)
    && (a.connection != u.c.connection ==> u.ch.connection)
    && (forall id :: TeamTold(TeamFor(a, id), TeamFor(u.c, id), u.ch.teams))
    && (forall team :: TeamById(a.teams, team) != TeamById(u.c.teams, team) ==> team in u.ch.teams)
    && (forall name :: ProjectNamed(a.projectRecords, name) != ProjectNamed(u.c.projectRecords, name) ==> u.ch.projects)
    && (ToCache(a) != ToCache(u.c) ==> u.ch.persist)
  }

  /** Every report is complete, and the revision advances exactly when it names something. */
  lemma ReportComplete(c: Client, input: Input)
    requires Inv(c) && Sane(input)
    ensures var u := ApplySpec(c, input);
            && Complete(c, u) && Inv(u.c) && Onward(c, u.c)
            && u.c.revision == c.revision + if u.ch == NOTHING then 0 else 1
  {
    TakenKeeps(c, input);
    NumberedComplete(Step(c, NOTHING), Taken(c, input));
  }

  lemma NumberedComplete(t: Step, u: Step)
    requires Inv(u.c) && Moved(t, u)
    ensures var v := Numbered(u);
            && Complete(t.c, v) && Inv(v.c) && Onward(t.c, v.c)
            && v.c.revision == t.c.revision + if v.ch == NOTHING then 0 else 1
  {
    NumberedTold(t.c, u);
    CompleteIfTold(t.c, Numbered(u));
  }

  lemma NumberedTold(c: Client, u: Step)
    requires Told(c, u)
    ensures Told(c, Numbered(u))
  {
  }

  lemma CompleteIfTold(c: Client, t: Step)
    requires Told(c, t)
    ensures Complete(c, t)
  {
  }

  // ---- gaps are asked for --------------------------------------------------------------------

  /** An open session whose transcript lacks something: held events, or events its record counts. */
  predicate Lags(c: Client, id: string) {
    id in c.open && id in c.transcripts && (c.transcripts[id].held != map[] || Behind(c, id))
  }

  ghost predicate GapsTold(a: Client, t: Step) {
    forall id :: Lags(t.c, id) ==> Lags(a, id) || id in t.ch.resync
  }

  lemma GapsToldOn(a: Client, t: Step, u: Step)
    requires GapsTold(a, t) && GapsTold(t.c, u) && Grows(t.ch, u.ch)
    ensures GapsTold(a, u)
  {
  }

  /** Nothing a lag depends on changed. */
  predicate SameLags(a: Client, c: Client) {
    && c.open <= a.open && c.transcripts == a.transcripts
    && (forall id :: id in c.sessions && id in c.transcripts && id in c.open ==>
          id in a.sessions && c.sessions[id].lastSeq == a.sessions[id].lastSeq)
  }

  lemma SameLagsTold(a: Client, t: Step)
    requires SameLags(a, t.c)
    ensures GapsTold(a, t)
  {
  }

  lemma UpsertedGaps(t: Step, rec: SessionRecord)
    ensures GapsTold(t.c, Upserted(t, rec))
  {
  }

  lemma {:induction false} UpsertedAllGaps(t: Step, list: seq<SessionRecord>)
    requires Inv(t.c) && forall rec :: rec in list ==> Counts(rec)
    ensures GapsTold(t.c, UpsertedAll(t, list))
  {
    if list == [] {
      SameLagsTold(t.c, t);
    } else {
      var n := |list| - 1;
      assert list[n] in list && Counts(list[n]);
      var v := UpsertedAll(t, list[..n]);
      UpsertedAllGaps(t, list[..n]);
      UpsertedAllKeeps(t, list[..n]);
      UpsertedGaps(v, list[n]);
      UpsertedKeeps(v, list[n]);
      GapsToldOn(t.c, v, Upserted(v, list[n]));
    }
  }

  /** What applying an event leaves missing was missing before, or is a gap. */
  lemma ApplyLeaves(t: Transcripts.State, no: int, event: Transcripts.AgentEvent)
    ensures var r := Transcripts.ApplySeq(t, no, event);
            && (r.1.Changed? ==> r.0.core.lastSeq >= no && (r.0.held != map[] ==> t.held != map[]))
            && (r.1.Duplicate? ==> r.0 == t && (no <= t.core.lastSeq || t.held != map[]))
            && t.core.lastSeq <= r.0.core.lastSeq
  {
    if no == t.core.lastSeq + 1 && no !in t.held {
      DrainLeaves(Transcripts.State(Transcripts.Reduce(t.core, no, event), t.held));
    }
  }

  lemma {:induction false} DrainLeaves(t: Transcripts.State)
    ensures var r := Transcripts.DrainHeld(t);
            r.core.lastSeq >= t.core.lastSeq && (r.held != map[] ==> t.held != map[])
    decreases |t.held|
  {
    var next := t.core.lastSeq + 1;
    if next in t.held {
      Transcripts.Shrinks(t.held, next);
      Transcripts.LastSeqIs(t.core, next, t.held[next]);
      DrainLeaves(Transcripts.State(Transcripts.Reduce(t.core, next, t.held[next]), t.held - {next}));
    }
  }

  /** An event leaves a record as it was, or ending at the event. */
  lemma AdvancedEnds(sessions: map<string, SessionRecord>, status: Option<SessionStatus>, ev: StoredEvent)
    ensures var advanced := Advanced(sessions, status, ev);
            && advanced.Keys == sessions.Keys
            && (forall k :: k in sessions ==>
                  advanced[k] == sessions[k] || (k == ev.sessionId && advanced[k].lastSeq == ev.no))
  {
  }

  lemma TranscribedFrame(t: Step, ev: StoredEvent)
    ensures var u := Transcribed(t, ev);
            && u.c == t.c.(transcripts := u.c.transcripts) && t.ch.resync <= u.ch.resync
            && (forall k :: k != ev.sessionId && k in u.c.transcripts ==>
                k in t.c.transcripts && u.c.transcripts[k] == t.c.transcripts[k])
  {
  }

  /** The event's own session, if open, does not start to lag without its transcript being asked for. */
  lemma TranscribedGap(t: Step, before: Client, ev: StoredEvent)
    requires t.c.transcripts == before.transcripts && t.c.open == before.open
    requires forall k :: k in t.c.sessions ==> k in before.sessions
    requires var id := ev.sessionId;
             id in t.c.sessions ==> t.c.sessions[id] == before.sessions[id] || t.c.sessions[id].lastSeq == ev.no
    ensures var u := Transcribed(t, ev);
            Lags(u.c, ev.sessionId) ==> Lags(before, ev.sessionId) || ev.sessionId in u.ch.resync
  {
    var id := ev.sessionId;
    if id in t.c.transcripts {
      ApplyLeaves(t.c.transcripts[id], ev.no, ev.event);
    }
  }

  lemma EventGaps(t: Step, v: Step, w: Step, id: string)
    requires v.c.open == t.c.open && w.c.open == v.c.open && w.c.sessions == v.c.sessions
    requires forall k :: k != id && k in v.c.sessions ==> k in t.c.sessions && v.c.sessions[k] == t.c.sessions[k]
    requires forall k :: k != id && k in w.c.transcripts ==>
        k in t.c.transcripts && w.c.transcripts[k] == t.c.transcripts[k]
    requires Lags(w.c, id) ==> Lags(t.c, id) || id in w.ch.resync
    ensures GapsTold(t.c, w)
  {
  }

  lemma MarkedSeenGaps(a: Client, t: Step, id: string)
    requires GapsTold(a, t)
    ensures GapsTold(a, MarkedSeen(t, id))
  {
  }

  lemma OnEventGaps(t: Step, status: Option<SessionStatus>, ev: StoredEvent)
    ensures GapsTold(t.c, OnEventSpec(t, status, ev))
  {
    var v := Recorded(t, status, ev);
    var w := Transcribed(v, ev);
    AdvancedEnds(t.c.sessions, status, ev);
    TranscribedFrame(v, ev);
    TranscribedGap(v, t.c, ev);
    EventGaps(t, v, w, ev.sessionId);
    MarkedSeenGaps(t.c, w, ev.sessionId);
  }

  lemma {:induction false} FetchedGaps(t: Step, id: string, events: seq<StoredEvent>)
    requires Inv(t.c)
    ensures GapsTold(t.c, Fetched(t, id, events))
  {
    if events == [] {
      SameLagsTold(t.c, t);
    } else {
      var n := |events| - 1;
      var v := Fetched(t, id, events[..n]);
      FetchedGaps(t, id, events[..n]);
      FetchedKeeps(t, id, events[..n]);
      if events[n].sessionId == id {
        OnEventGaps(v, None, events[n]);
        OnEventKeeps(v, None, events[n]);
        GapsToldOn(t.c, v, OnEventSpec(v, None, events[n]));
      }
    }
  }

  lemma MetaTakenGaps(t: Step, session: SessionRecord)
    ensures GapsTold(t.c, MetaTaken(t, session))
  {
    SameLagsTold(t.c, MetaTaken(t, session));
  }

  lemma ViewGaps(t: Step, id: string)
    ensures GapsTold(t.c, ViewOpened(t, id)) && GapsTold(t.c, ViewClosed(t, id))
  {
    assert GapsTold(t.c, Shown(t, id));
    MarkedSeenGaps(t.c, Shown(t, id), id);
    SameLagsTold(t.c, Shut(t, id));
    MarkedSeenGaps(t.c, Shut(t, id), id);
    SameLagsTold(t.c, t);
  }

  lemma OnPushGaps(t: Step, push: Push)
    ensures GapsTold(t.c, OnPush(t, push))
  {
    var u := OnPush(t, push);
    match push {
      case SessionCreated(session) => CreatedGaps(t, session);
      case Event(status, event) => OnEventGaps(t, Some(status), event);
      case SessionUpdated(session) => MetaTakenGaps(t, session);
      case ProjectUpdated(project) => SameLagsTold(t.c, u);
      case TeamUpdated(team) => SameLagsTold(t.c, u);
      case Lagged(_) => SameLagsTold(t.c, u);
    }
  }

  lemma CreatedGaps(t: Step, session: SessionRecord)
    ensures GapsTold(t.c, Created(t, session))
  {
    var seen := if session.id !in t.c.sessions && session.id !in t.c.lastSeen then t.c.lastSeen[session.id := 0]
        else t.c.lastSeen;
    var v := Step(t.c.(lastSeen := seen), t.ch);
    UpsertedGaps(v, session);
    assert forall id :: Lags(v.c, id) == Lags(t.c, id);
  }

  lemma SessionsTakenGaps(t: Step, list: seq<SessionRecord>)
    requires Inv(t.c) && forall rec :: rec in list ==> Counts(rec)
    ensures GapsTold(t.c, SessionsTaken(t, list))
  {
    UpsertedAllGaps(t, list);
    var u := UpsertedAll(t, list);
    assert forall id :: Lags(u.c.(baselined := true), id) == Lags(u.c, id);
  }

  lemma ListGaps(t: Step, computers: seq<Computer>, projects: seq<Project>)
    ensures GapsTold(t.c, ComputersTaken(t, computers)) && GapsTold(t.c, ProjectsTaken(t, projects))
  {
    SameLagsTold(t.c, ComputersTaken(t, computers));
    SameLagsTold(t.c, ProjectsTaken(t, projects));
  }

  lemma TeamGaps(t: Step, id: string, team: Option<TeamView>)
    ensures GapsTold(t.c, TeamTaken(t, id, team))
  {
    SameLagsTold(t.c, TeamTaken(t, id, team));
  }

  lemma TakenGaps(c: Client, input: Input)
    requires Inv(c) && Sane(input)
    ensures GapsTold(c, Taken(c, input))
  {
    var t := Step(c, NOTHING);
    match input {
      case SessionsLoaded(list) => SessionsTakenGaps(t, list);
      case SessionLoaded(rec) => UpsertedGaps(t, rec);
      case Pushed(push) => OnPushGaps(t, push);
      case EventsFetched(id, events) => FetchedGaps(t, id, events);
      case Opened(id) => ViewGaps(t, id);
      case Closed(id) => ViewGaps(t, id);
      case ComputersLoaded(list) => ListGaps(t, list, []);
      case ProjectsLoaded(list) => ListGaps(t, [], list);
      case TeamLoaded(id, team) => TeamGaps(t, id, team);
      case ConnectionIs(k) =>
        SameLagsTold(c, t);
        SameLagsTold(c, Step(c.(connection := k), NOTHING.(connection := true)));
    }
  }

  lemma NumberedGaps(c: Client, u: Step)
    requires GapsTold(c, u)
    ensures GapsTold(c, Numbered(u))
  {
  }

  /** An open session that starts to lack events is asked for in the same report. */
  lemma GapsAskedFor(c: Client, input: Input)
    requires Inv(c) && Sane(input)
    ensures GapsTold(c, ApplySpec(c, input))
  {
    TakenGaps(c, input);
    NumberedGaps(c, Taken(c, input));
  }

  // ---- a fetch closes the gap ----------------------------------------------------------------

  /** A session's events among those fetched. */
  function OffersOf(events: seq<StoredEvent>, id: string): seq<(int, Transcripts.AgentEvent)> {
    if events == [] then []
    else
      var ev := events[|events| - 1];
      OffersOf(events[..|events| - 1], id) + if ev.sessionId == id then [(ev.no, ev.event)] else []
  }

  lemma OnEventTranscript(t: Step, status: Option<SessionStatus>, ev: StoredEvent)
    requires ev.sessionId in t.c.transcripts
    ensures var u := OnEventSpec(t, status, ev);
            && ev.sessionId in u.c.transcripts
            && u.c.transcripts[ev.sessionId] == Transcripts.ApplySeq(t.c.transcripts[ev.sessionId], ev.no, ev.event).0
  {
  }

  lemma {:induction false} FetchedTranscript(t: Step, id: string, events: seq<StoredEvent>)
    requires id in t.c.transcripts
    ensures var u := Fetched(t, id, events);
            id in u.c.transcripts
                && u.c.transcripts[id] == Transcripts.Offered(t.c.transcripts[id], OffersOf(events, id))
  {
    if events == [] {
    } else {
      var n := |events| - 1;
      var before := OffersOf(events[..n], id);
      FetchedTranscript(t, id, events[..n]);
      if events[n].sessionId == id {
        OnEventTranscript(Fetched(t, id, events[..n]), None, events[n]);
        var offers := before + [(events[n].no, events[n].event)];
        assert offers[..|before|] == before;
        assert OffersOf(events, id) == offers;
      } else {
        assert OffersOf(events, id) == before;
      }
    }
  }

  lemma OnEventRecord(t: Step, status: Option<SessionStatus>, ev: StoredEvent)
    requires ev.sessionId in t.c.sessions
    ensures var u := OnEventSpec(t, status, ev);
            && ev.sessionId in u.c.sessions
            && u.c.sessions[ev.sessionId].lastSeq >= t.c.sessions[ev.sessionId].lastSeq
            && u.c.sessions[ev.sessionId].lastSeq >= ev.no
  {
    AdvancedEnds(t.c.sessions, status, ev);
    TranscribedFrame(Recorded(t, status, ev), ev);
  }

  lemma {:induction false} FetchedRecord(t: Step, id: string, events: seq<StoredEvent>)
    requires id in t.c.sessions
    ensures var u := Fetched(t, id, events);
            && id in u.c.sessions
            && forall o :: o in OffersOf(events, id) ==> o.0 <= u.c.sessions[id].lastSeq
  {
    if events == [] {
    } else {
      var n := |events| - 1;
      var before := OffersOf(events[..n], id);
      FetchedRecord(t, id, events[..n]);
      if events[n].sessionId == id {
        OnEventRecord(Fetched(t, id, events[..n]), None, events[n]);
        var offers := before + [(events[n].no, events[n].event)];
        assert OffersOf(events, id) == offers;
        assert forall o :: o in offers ==> o in before || o.0 == events[n].no;
      } else {
        assert OffersOf(events, id) == before;
      }
    }
  }

  lemma FetchedCloses(t: Step, id: string, events: seq<StoredEvent>)
    requires TranscriptsSound(t.c.transcripts) && id in t.c.transcripts && id in t.c.sessions
    requires var u := Fetched(t, id, events).c;
             id in u.sessions && Brings(events, id, t.c.transcripts[id].core.lastSeq, u.sessions[id].lastSeq)
    ensures var u := Fetched(t, id, events).c;
            && !Behind(u, id) && id in u.transcripts && id in u.sessions
            && forall no :: no in u.transcripts[id].held ==>
                 no in t.c.transcripts[id].held && no > u.sessions[id].lastSeq
  {
    var offers, u := OffersOf(events, id), Fetched(t, id, events).c;
    FetchedTranscript(t, id, events);
    FetchedRecord(t, id, events);
    Transcripts.OfferedCatchesUp(t.c.transcripts[id], offers, u.sessions[id].lastSeq);
    Transcripts.OfferedSettles(t.c.transcripts[id], offers);
  }

  /** Do the events have every number after `last` up to `end`? */
  ghost predicate Brings(events: seq<StoredEvent>, id: string, last: int, end: int) {
    forall no :: last < no <= end ==> no in Transcripts.NumbersOf(OffersOf(events, id))
  }

  /** A fetch that brings every event after the transcript's last, up to the record's end, closes the gap:
      the transcript is no longer behind, and what it still holds was held before and is past that end. */
  lemma FetchClosesGap(c: Client, id: string, events: seq<StoredEvent>)
    requires Inv(c) && id in c.transcripts && id in c.sessions
    requires var u := ApplySpec(c, EventsFetched(id, events)).c;
             id in u.sessions && Brings(events, id, c.transcripts[id].core.lastSeq, u.sessions[id].lastSeq)
    ensures var u := ApplySpec(c, EventsFetched(id, events)).c;
            && !Behind(u, id) && id in u.transcripts && id in u.sessions
            && forall no :: no in u.transcripts[id].held ==> no in c.transcripts[id].held && no > u.sessions[id].lastSeq
  {
    FetchedCloses(Step(c, NOTHING), id, events);
  }

  // ---- restarts ------------------------------------------------------------------------------

  /** What survives a restart. */
  function Restarted(c: Client): Client {
    NEW.(sessions := c.sessions, lastSeen := c.lastSeen, baselined := c.baselined, computers := c.computers,
    projectRecords := c.projectRecords, projectsKnown := c.projectRecords != map[])
  }

  lemma SessionsBack(sessions: map<string, SessionRecord>)
    requires RecordsKeyed(sessions)
    ensures ById(InKeyOrder(sessions)) == sessions
  {
    var m := ById(InKeyOrder(sessions));
    forall id
      ensures id in m <==> id in sessions
      ensures id in m ==> m[id] == sessions[id]
    {
      if id in sessions {
        InKeyOrderHasAll(sessions, id);
      }
      if id in m {
        assert m[id] in sessions.Values;
      }
    }
  }

  lemma ProjectsBack(records: map<string, Project>)
    requires forall k :: k in records ==> records[k].name == k
    ensures ByName(InKeyOrder(records)) == records
  {
    var m := ByName(InKeyOrder(records));
    forall id
      ensures id in m <==> id in records
      ensures id in m ==> m[id] == records[id]
    {
      if id in records {
        InKeyOrderHasAll(records, id);
      }
      if id in m {
        assert m[id] in records.Values;
      }
    }
  }

  lemma CacheRoundTrip(c: Client)
    requires Inv(c)
    ensures FromCache(ToCache(c)) == Restarted(c)
  {
    SessionsBack(c.sessions);
    ProjectsBack(c.projectRecords);
    assert |InKeyOrder(c.projectRecords)| == |c.projectRecords|;
  }

  lemma RestartedKeeps(c: Client)
    requires Inv(c)
    ensures Inv(Restarted(c)) && Onward(c, Restarted(c))
  {
  }

  /** A closed view changes no status once it was read to its end. */
  lemma StatusKept(sessions: map<string, SessionRecord>, lastSeen: map<string, int>, open: set<string>, id: string)
    requires RecordsKeyed(sessions) && ReadMarks(sessions, lastSeen, open) && id in sessions
    ensures StatusIn(lastSeen, {}, sessions[id]) == StatusIn(lastSeen, open, sessions[id])
  {
  }

  ghost predicate ShowsTheSame(c: Client, r: Client) {
    && r.sessions == c.sessions && r.computers == c.computers && Projects(r) == Projects(c)
    && (forall id :: id in c.sessions ==> StatusOf(r, c.sessions[id]) == StatusOf(c, c.sessions[id]))
  }

  lemma RestartedShows(c: Client, r: Client)
    requires RecordsKeyed(c.sessions) && ReadMarks(c.sessions, c.lastSeen, c.open)
    requires r.sessions == c.sessions && r.lastSeen == c.lastSeen && r.computers == c.computers && r.open == {}
    requires r.projectRecords == c.projectRecords
    ensures ShowsTheSame(c, r)
  {
    forall id | id in c.sessions
      ensures StatusOf(r, c.sessions[id]) == StatusOf(c, c.sessions[id])
    {
      StatusKept(c.sessions, c.lastSeen, c.open, id);
    }
  }

  /** A restart shows the same sessions with the same status, the same projects in the same order, and the same
      computers. */
  lemma RestartShowsTheSame(acts: seq<Act>)
    requires SaneRun(acts)
    ensures ShowsTheSame(After(acts), After(acts + [Restart]))
  {
    var c := After(acts);
    RunKeeps(acts);
    assert (acts + [Restart])[..|acts|] == acts;
    CacheRoundTrip(c);
    RestartedShows(c, Restarted(c));
  }

  // ---- every run -----------------------------------------------------------------------------

  datatype Act = Feed(input: Input) | Restart

  predicate SaneAct(act: Act) {
    act.Feed? ==> Sane(act.input)
  }

  function Done(c: Client, act: Act): Client {
    match act
    case Feed(input) => ApplySpec(c, input).c
    case Restart => FromCache(ToCache(c))
  }

  /** The state after a run that begins with nothing known. */
  function After(acts: seq<Act>): Client {
    if acts == [] then NEW else Done(After(acts[..|acts| - 1]), acts[|acts| - 1])
  }

  predicate SaneRun(acts: seq<Act>) {
    forall i :: 0 <= i < |acts| ==> SaneAct(acts[i])
  }

  lemma DoneKeeps(c: Client, act: Act)
    requires Inv(c) && SaneAct(act)
    ensures Inv(Done(c, act)) && Onward(c, Done(c, act))
  {
    match act {
      case Feed(input) => ReportComplete(c, input);
      case Restart =>
        CacheRoundTrip(c);
        RestartedKeeps(c);
    }
  }

  /** Over every run: read marks, links and derived projects agree with what they derive from. */
  lemma {:induction false} RunKeeps(acts: seq<Act>)
    requires SaneRun(acts)
    ensures Inv(After(acts))
  {
    if acts == [] {
    } else {
      var n := |acts| - 1;
      RunKeeps(acts[..n]);
      DoneKeeps(After(acts[..n]), acts[n]);
    }
  }

  /** After every run, the report of any input names all it changed for a reader, and asks for every gap it opened. */
  lemma EveryReportComplete(acts: seq<Act>, input: Input)
    requires SaneRun(acts) && Sane(input)
    ensures var c := After(acts); Complete(c, ApplySpec(c, input)) && GapsTold(c, ApplySpec(c, input))
  {
    RunKeeps(acts);
    ReportComplete(After(acts), input);
    GapsAskedFor(After(acts), input);
  }

  lemma OnwardOn(a: Client, b: Client, c: Client)
    requires Onward(a, b) && Onward(b, c)
    ensures Onward(a, c)
  {
  }

  /** The state after the first `n` acts of a run. */
  function Midway(acts: seq<Act>, n: nat): Client
    requires n <= |acts|
  {
    After(acts[..n])
  }

  lemma MidwayStep(acts: seq<Act>, n: nat)
    requires n < |acts| && SaneRun(acts)
    ensures Onward(Midway(acts, n), Midway(acts, n + 1))
  {
    var acts' := acts[..n + 1];
    assert acts'[..n] == acts[..n] && SaneAct(acts[n]);
    RunKeeps(acts[..n]);
    DoneKeeps(After(acts[..n]), acts[n]);
  }

  lemma OnwardSame(c: Client)
    requires ReadMarks(c.sessions, c.lastSeen, c.open)
    ensures Onward(c, c)
  {
  }

  lemma {:induction false} MidwayOnward(acts: seq<Act>, n: nat, m: nat)
    requires SaneRun(acts) && n <= m <= |acts|
    ensures Onward(Midway(acts, n), Midway(acts, m))
    decreases m
  {
    if n == m {
      RunKeeps(acts[..n]);
      OnwardSame(After(acts[..n]));
    } else {
      MidwayOnward(acts, n, m - 1);
      MidwayStep(acts, m - 1);
      OnwardOn(Midway(acts, n), Midway(acts, m - 1), Midway(acts, m));
    }
  }

  /** Over every run, sessions stay, and what was said and seen of them never moves back. */
  lemma NothingGoesBack(acts: seq<Act>, n: nat)
    requires SaneRun(acts) && n <= |acts|
    ensures Onward(After(acts[..n]), After(acts))
  {
    MidwayOnward(acts, n, |acts|);
    assert acts[..|acts|] == acts;
  }

  /** After every run, each computer lists the projects that assign it, once each and by name. */
  lemma ComputersAgree(acts: seq<Act>, x: Computer)
    requires SaneRun(acts)
    ensures var c := After(acts);
            c.projectsKnown && x in c.computers ==>
              && Ascending(x.projects, Less)
              && forall name ::
                   name in x.projects <==> name in c.projectRecords && x.id in c.projectRecords[name].computers
  {
    RunKeeps(acts);
    TextOrder();
  }

  /** After every run, the team a session is in is stored under its own id and lists it. */
  lemma TeamsAgree(acts: seq<Act>, id: string)
    requires SaneRun(acts)
    ensures var c := After(acts);
            id in c.teamOf ==>
              && TeamFor(c, id).Some? && TeamFor(c, id).value.id == c.teamOf[id]
              && id in Members(TeamFor(c, id).value)
  {
    RunKeeps(acts);
  }

  // ---- the project list ----------------------------------------------------------------------

  /** Projects are listed by name, and each lists exactly its sessions, most recently active first. */
  lemma ProjectsAreListed(c: Client)
    requires RecordsKeyed(c.sessions)
    ensures var list := Projects(c);
            && (forall i, j :: 0 <= i < j < |list| ==> Less(list[i].name, list[j].name))
            && (forall name :: name in c.projectRecords ==> exists i :: 0 <= i < |list| && list[i].name == name)
            && (forall i :: 0 <= i < |list| ==> Lists(c.sessions, list[i]))
            && (forall id :: id in c.sessions ==> exists i :: 0 <= i < |list| && list[i].name == c.sessions[id].project)
  {
    TextOrder();
    var list := Projects(c);
    forall i | 0 <= i < |list|
      ensures Lists(c.sessions, list[i])
    {
      SessionsListed(c.sessions, list[i].name);
    }
    forall id | id in c.sessions
      ensures exists i :: 0 <= i < |list| && list[i].name == c.sessions[id].project
    {
      assert Placement(c.sessions)[id].project == c.sessions[id].project;
      ListedByName(c, c.sessions[id].project);
    }
    forall name | name in c.projectRecords
      ensures exists i :: 0 <= i < |list| && list[i].name == name
    {
      ListedByName(c, name);
    }
  }

  lemma ListedByName(c: Client, name: string)
    requires var placed := Placement(c.sessions);
             name in c.projectRecords.Keys + set k | k in placed :: placed[k].project
    ensures exists i :: 0 <= i < |Projects(c)| && Projects(c)[i].name == name
  {
    TextOrder();
    var placed := Placement(c.sessions);
    var names := Ordered(c.projectRecords.Keys + set k | k in placed :: placed[k].project, Less);
    assert name in names;
    var i :| 0 <= i < |names| && names[i] == name;
    assert Projects(c)[i].name == name;
  }

  ghost predicate Lists(sessions: map<string, SessionRecord>, view: ProjectView) {
    && (forall id :: id in view.sessions <==> id in sessions && sessions[id].project == view.name)
    && (forall i, j :: 0 <= i < j < |view.sessions| ==> Precedes(sessions, view.sessions[i], view.sessions[j]))
  }

  predicate Precedes(sessions: map<string, SessionRecord>, a: string, b: string) {
    && a in sessions && b in sessions
    && (sessions[a].updatedAt > sessions[b].updatedAt || (sessions[a].updatedAt == sessions[b].updatedAt && Less(a, b)))
  }

  lemma SessionsListed(sessions: map<string, SessionRecord>, name: string)
    requires RecordsKeyed(sessions)
    ensures Lists(sessions, ProjectView(name, SessionsOf(name, Placement(sessions))))
  {
    RecencyOrder();
    var placed := Placement(sessions);
    var order := Ordered(Activity(name, placed), MoreRecent);
    var ids := SessionsOf(name, placed);
    forall i | 0 <= i < |ids|
      ensures ids[i] in sessions && sessions[ids[i]].project == name && order[i] == (sessions[ids[i]].updatedAt, ids[i])
    {
      assert order[i] in order;
      assert order[i] in Activity(name, placed);
    }
    forall id | id in sessions && sessions[id].project == name
      ensures id in ids
    {
      assert (placed[id].updatedAt, placed[id].id) in Activity(name, placed);
      var i :| 0 <= i < |order| && order[i] == (sessions[id].updatedAt, id);
      assert ids[i] == id;
    }
  }

  // ---- pin and archive marks -----------------------------------------------------------------

  predicate SameMarks(a: SessionRecord, b: SessionRecord) {
    a.pinned == b.pinned && a.archived == b.archived
  }

  /** Some session has another pin or archive mark. */
  ghost predicate OtherMarks(a: map<string, SessionRecord>, b: map<string, SessionRecord>) {
    exists id :: id in a && id in b && !SameMarks(a[id], b[id])
  }

  /** Is `rec` taken, and does it move its session in the project list? */
  predicate TakenElsewhere(sessions: map<string, SessionRecord>, rec: SessionRecord) {
    !Stale(sessions, rec) && Moves(sessions, rec)
  }

  /** Does some record of the list, in its turn, move its session in the project list? */
  predicate SomeElsewhere(t: Step, list: seq<SessionRecord>) {
    list != []
    && var n := |list| - 1;
       SomeElsewhere(t, list[..n]) || TakenElsewhere(UpsertedAll(t, list[..n]).c.sessions, list[n])
  }

  /** Does the input carry pushed metadata, or a record that moves its session in the project list? */
  predicate Relocates(c: Client, input: Input) {
    match input
    case SessionsLoaded(list) => SomeElsewhere(Step(c, NOTHING), list)
    case SessionLoaded(rec) => TakenElsewhere(c.sessions, rec)
    case Pushed(SessionCreated(rec)) => TakenElsewhere(c.sessions, rec)
    case Pushed(SessionUpdated(_)) => true
    case _ => false
  }

  lemma CaughtUpFrame(t: Step, id: string)
    ensures var u := CaughtUp(t, id);
            u.c.sessions == t.c.sessions && u.ch.projects == t.ch.projects && t.ch.sessions <= u.ch.sessions
  {
  }

  lemma UpsertedProjects(t: Step, rec: SessionRecord)
    ensures var u := Upserted(t, rec);
            && (u.ch.projects <==> t.ch.projects || TakenElsewhere(t.c.sessions, rec))
            && u.c.sessions == if Stale(t.c.sessions, rec) then t.c.sessions else t.c.sessions[rec.id := rec]
  {
    var v := t.(c := t.c.(lastSeen := FirstSeen(t.c.lastSeen, t.c.baselined, rec)));
    CaughtUpFrame(Stored(v, rec), rec.id);
  }

  lemma {:induction false} UpsertedAllProjects(t: Step, list: seq<SessionRecord>)
    ensures UpsertedAll(t, list).ch.projects <==> t.ch.projects || SomeElsewhere(t, list)
  {
    if list == [] {
    } else {
      var n := |list| - 1;
      UpsertedAllProjects(t, list[..n]);
      UpsertedProjects(UpsertedAll(t, list[..n]), list[n]);
    }
  }

  /** The same sessions, with the same marks. */
  predicate MarksKept(a: map<string, SessionRecord>, b: map<string, SessionRecord>) {
    a.Keys == b.Keys && forall id :: id in a ==> SameMarks(a[id], b[id])
  }

  lemma OnEventMarks(t: Step, status: Option<SessionStatus>, ev: StoredEvent)
    ensures MarksKept(t.c.sessions, OnEventSpec(t, status, ev).c.sessions)
  {
    AdvancedMarks(t.c.sessions, status, ev);
    TranscribedFrame(Recorded(t, status, ev), ev);
  }

  lemma AdvancedMarks(sessions: map<string, SessionRecord>, status: Option<SessionStatus>, ev: StoredEvent)
    ensures MarksKept(sessions, Advanced(sessions, status, ev))
  {
  }

  lemma {:induction false} FetchedMarks(t: Step, id: string, events: seq<StoredEvent>)
    ensures MarksKept(t.c.sessions, Fetched(t, id, events).c.sessions)
  {
    if events == [] {
    } else {
      var n := |events| - 1;
      FetchedMarks(t, id, events[..n]);
      OnEventMarks(Fetched(t, id, events[..n]), None, events[n]);
    }
  }

  lemma MetaTakenMarks(t: Step, session: SessionRecord)
    ensures var u := MetaTaken(t, session); u.ch.projects || MarksKept(t.c.sessions, u.c.sessions)
  {
  }

  lemma OnPushMarks(c: Client, push: Push)
    requires !push.SessionCreated?
    ensures var u := OnPush(Step(c, NOTHING), push);
            (push.SessionUpdated? && u.ch.projects) || MarksKept(c.sessions, u.c.sessions)
  {
    var t := Step(c, NOTHING);
    match push {
      case Event(status, event) => OnEventMarks(t, Some(status), event);
      case SessionUpdated(session) => MetaTakenMarks(t, session);
      case _ =>
    }
  }

  lemma CreatedProjects(c: Client, session: SessionRecord)
    ensures Created(Step(c, NOTHING), session).ch.projects <==> TakenElsewhere(c.sessions, session)
  {
    var seen := if session.id !in c.sessions && session.id !in c.lastSeen then c.lastSeen[session.id := 0]
        else c.lastSeen;
    UpsertedProjects(Step(c.(lastSeen := seen), NOTHING), session);
  }

  lemma ViewMarks(t: Step, id: string)
    ensures ViewOpened(t, id).c.sessions == t.c.sessions && ViewClosed(t, id).c.sessions == t.c.sessions
  {
  }

  lemma TeamTakenMarks(t: Step, id: string, team: Option<TeamView>)
    ensures TeamTaken(t, id, team).c.sessions == t.c.sessions
  {
  }

  lemma TakenMarks(c: Client, input: Input)
    ensures var u := Taken(c, input);
            OtherMarks(c.sessions, u.c.sessions) ==> (u.ch.projects <==> Relocates(c, input))
  {
    var t := Step(c, NOTHING);
    match input {
      case SessionsLoaded(list) => UpsertedAllProjects(t, list);
      case SessionLoaded(rec) => UpsertedProjects(t, rec);
      case Pushed(push) =>
        if push.SessionCreated? {
          CreatedProjects(c, push.session);
        } else {
          OnPushMarks(c, push);
        }
      case EventsFetched(id, events) => FetchedMarks(t, id, events);
      case Opened(id) => ViewMarks(t, id);
      case Closed(id) => ViewMarks(t, id);
      case TeamLoaded(id, team) => TeamTakenMarks(t, id, team);
      case _ =>
    }
  }

  /** Whenever an input changes some pin or archive mark, the project list is told as changed exactly when
      the input is pushed metadata or one of its records, taken in its turn, moves in that list. */
  lemma MarksTold(c: Client, input: Input)
    ensures var u := ApplySpec(c, input);
            OtherMarks(c.sessions, u.c.sessions) ==> (u.ch.projects <==> Relocates(c, input))
  {
    TakenMarks(c, input);
  }

  /** Such marks left untold: a session loaded or created again, pinned and otherwise the same. */
  lemma PinLeftUntold(rec: SessionRecord, input: Input)
    requires !rec.pinned
    requires input == SessionLoaded(rec.(pinned := true)) || input == Pushed(SessionCreated(rec.(pinned := true)))
    ensures var c := After([Feed(SessionLoaded(rec))]); var u := ApplySpec(c, input);
            OtherMarks(c.sessions, u.c.sessions) && !u.ch.projects
  {
    var acts := [Feed(SessionLoaded(rec))];
    var c, pinned := After(acts), rec.(pinned := true);
    assert acts[..0] == [];
    assert After(acts) == Done(NEW, acts[0]);
    UpsertedProjects(Step(NEW, NOTHING), rec);
    assert c.sessions == map[rec.id := rec];
    var seen := if input.SessionLoaded? || rec.id in c.sessions
        || rec.id in c.lastSeen then c.lastSeen else c.lastSeen[rec.id := 0];
    UpsertedProjects(Step(c.(lastSeen := seen), NOTHING), pinned);
    var u := ApplySpec(c, input);
    assert u.c.sessions[rec.id] == pinned;
    assert !SameMarks(c.sessions[rec.id], u.c.sessions[rec.id]);
  }
}
