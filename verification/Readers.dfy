/** What a reader of the client's state sees after each input (`ember/client/src/state.rs`). */
module Readers {
  import opened Wrappers
  import opened Wire
  import opened Ordering
  import opened ClientState
  import opened ClientRuns
  import Conversations
  import Transcripts

  // ---- which parts an input touches ----------------------------------------------------------

  lemma UpsertedFrame(t: Step, rec: SessionRecord)
    ensures var u := Upserted(t, rec); u.c == t.c.(sessions := u.c.sessions, lastSeen := u.c.lastSeen)
  {
  }

  lemma {:induction false} UpsertedAllFrame(t: Step, list: seq<SessionRecord>)
    ensures var u := UpsertedAll(t, list); u.c == t.c.(sessions := u.c.sessions, lastSeen := u.c.lastSeen)
  {
    if list == [] {
    } else {
      UpsertedAllFrame(t, list[..|list| - 1]);
      UpsertedFrame(UpsertedAll(t, list[..|list| - 1]), list[|list| - 1]);
    }
  }

  lemma OnEventFrame(t: Step, status: Option<SessionStatus>, ev: StoredEvent)
    ensures var u := OnEventSpec(t, status, ev);
            u.c == t.c.(sessions := u.c.sessions, lastSeen := u.c.lastSeen, transcripts := u.c.transcripts)
  {
    TranscriptOnly(Recorded(t, status, ev), ev);
    MarkOnly(Transcribed(Recorded(t, status, ev), ev), ev.sessionId);
  }

  lemma TranscriptOnly(t: Step, ev: StoredEvent)
    ensures var u := Transcribed(t, ev); u.c == t.c.(transcripts := u.c.transcripts)
  {
  }

  lemma MarkOnly(t: Step, id: string)
    ensures var u := MarkedSeen(t, id); u.c == t.c.(lastSeen := u.c.lastSeen)
  {
  }

  lemma {:induction false} FetchedFrame(t: Step, id: string, events: seq<StoredEvent>)
    ensures var u := Fetched(t, id, events);
            u.c == t.c.(sessions := u.c.sessions, lastSeen := u.c.lastSeen, transcripts := u.c.transcripts)
  {
    if events == [] {
    } else {
      var n := |events| - 1;
      FetchedFrame(t, id, events[..n]);
      OnEventFrame(Fetched(t, id, events[..n]), None, events[n]);
    }
  }

  lemma TeamTakenFrame(t: Step, id: string, team: Option<TeamView>)
    ensures var u := TeamTaken(t, id, team);
            u.c == t.c.(teams := u.c.teams, teamOf := u.c.teamOf)
  {
    UnlinkedFrame(t, id);
    if team.Some? {
      TeamPutFrame(if id in Members(team.value) then t else Unlinked(t, id), team.value);
    }
  }

  lemma UnlinkedFrame(t: Step, id: string)
    ensures var u := Unlinked(t, id).c; u == t.c.(teamOf := u.teamOf)
  {
  }

  lemma TeamPutFrame(t: Step, team: TeamView)
    ensures var u := TeamPut(t, team).c; u == t.c.(teams := u.teams, teamOf := u.teamOf)
  {
  }

  lemma ProjectsFrame(t: Step, list: seq<Project>, project: Project)
    ensures var u := ProjectsTaken(t, list);
            u.c == t.c.(projectsKnown := true, projectRecords := u.c.projectRecords, computers := u.c.computers)
    ensures var u := ProjectTaken(t, project);
            u.c == t.c.(projectsKnown := true, projectRecords := u.c.projectRecords, computers := u.c.computers)
  {
  }

  lemma ViewFrame(t: Step, id: string)
    ensures var u := ViewOpened(t, id);
            u.c == t.c.(open := u.c.open, lastSeen := u.c.lastSeen, transcripts := u.c.transcripts)
    ensures var u := ViewClosed(t, id); u.c == t.c.(open := u.c.open, lastSeen := u.c.lastSeen)
  {
  }

  // ---- session records -----------------------------------------------------------------------

  function RecordIn(c: Client, id: string): Option<SessionRecord> {
    if id in c.sessions then Some(c.sessions[id]) else None
  }

  /** A record from the server, unless the one held counts more events. */
  function Newer(held: Option<SessionRecord>, rec: SessionRecord): Option<SessionRecord> {
    if held.Some? && held.value.lastSeq > rec.lastSeq then held else Some(rec)
  }

  function Newest(held: Option<SessionRecord>, list: seq<SessionRecord>, id: string): Option<SessionRecord> {
    if list == [] then held
    else
      var n := |list| - 1;
      var before := Newest(held, list[..n], id);
      if list[n].id == id then Newer(before, list[n]) else before
  }

  /** The record held before while all in the list count fewer events; else the one in the list that counts most, the
      last of those. */
  lemma {:induction false} NewestIs(held: Option<SessionRecord>, list: seq<SessionRecord>, id: string)
    ensures var r := Newest(held, list, id);
            || (r == held && StaysHeld(held, list, id))
            || exists i :: IsNewest(held, list, id, i) && r == Some(list[i])
  {
    if list == [] {
    } else {
      var n := |list| - 1;
      NewestIs(held, list[..n], id);
      var before := Newest(held, list[..n], id);
      if list[n].id == id && (before.None? || before.value.lastSeq <= list[n].lastSeq) {
        NewestIsLast(held, list, id, n);
        assert IsNewest(held, list, id, n);
      } else if StaysHeld(held, list[..n], id) && before == held {
        StillHeld(held, list, id, n);
      } else {
        var i :| IsNewest(held, list[..n], id, i) && before == Some(list[..n][i]);
        StillNewest(held, list, id, n, i);
      }
    }
  }

  /** Every record of the session in the list counts fewer events than the one held. */
  predicate StaysHeld(held: Option<SessionRecord>, list: seq<SessionRecord>, id: string) {
    forall j :: 0 <= j < |list| && list[j].id == id ==> held.Some? && list[j].lastSeq < held.value.lastSeq
  }

  lemma StillHeld(held: Option<SessionRecord>, list: seq<SessionRecord>, id: string, n: nat)
    requires |list| == n + 1 && StaysHeld(held, list[..n], id)
    requires list[n].id == id ==> held.Some? && list[n].lastSeq < held.value.lastSeq
    ensures StaysHeld(held, list, id)
  {
    forall j | 0 <= j < n && list[j].id == id
      ensures held.Some? && list[j].lastSeq < held.value.lastSeq
    {
      assert list[..n][j] == list[j];
    }
  }

  lemma StillNewest(held: Option<SessionRecord>, list: seq<SessionRecord>, id: string, n: nat, i: int)
    requires |list| == n + 1 && IsNewest(held, list[..n], id, i)
    requires list[n].id == id ==> list[n].lastSeq < list[i].lastSeq
    ensures IsNewest(held, list, id, i)
  {
    forall j | 0 <= j < n && list[j].id == id
      ensures list[j].lastSeq <= list[i].lastSeq && (j > i ==> list[j].lastSeq < list[i].lastSeq)
    {
      assert list[..n][j] == list[j];
    }
  }

  predicate IsNewest(held: Option<SessionRecord>, list: seq<SessionRecord>, id: string, i: int) {
    && 0 <= i < |list| && list[i].id == id
    && (held.Some? ==> held.value.lastSeq <= list[i].lastSeq)
    && (forall j :: 0 <= j < |list| && list[j].id == id ==>
          list[j].lastSeq <= list[i].lastSeq && (j > i ==> list[j].lastSeq < list[i].lastSeq))
  }

  lemma {:induction false} NewestBounds(held: Option<SessionRecord>, list: seq<SessionRecord>, id: string)
    ensures var r := Newest(held, list, id);
            && (held.Some? ==> r.Some? && held.value.lastSeq <= r.value.lastSeq)
            && (forall j :: 0 <= j < |list| && list[j].id == id ==> r.Some? && list[j].lastSeq <= r.value.lastSeq)
  {
    if list == [] {
    } else {
      NewestBounds(held, list[..|list| - 1], id);
    }
  }

  lemma NewestIsLast(held: Option<SessionRecord>, list: seq<SessionRecord>, id: string, n: nat)
    requires |list| == n + 1 && list[n].id == id
    requires var before := Newest(held, list[..n], id); before.None? || before.value.lastSeq <= list[n].lastSeq
    ensures IsNewest(held, list, id, n)
  {
    NewestBounds(held, list[..n], id);
    forall j | 0 <= j < |list| && list[j].id == id
      ensures list[j].lastSeq <= list[n].lastSeq
    {
      assert j < n ==> list[..n][j] == list[j];
    }
  }

  lemma UpsertedRecord(t: Step, rec: SessionRecord, id: string)
    ensures RecordIn(Upserted(t, rec).c, id)
         == if id == rec.id then Newer(RecordIn(t.c, id), rec) else RecordIn(t.c, id)
  {
    UpsertedProjects(t, rec);
  }

  lemma {:induction false} UpsertedAllRecord(t: Step, list: seq<SessionRecord>, id: string)
    ensures RecordIn(UpsertedAll(t, list).c, id) == Newest(RecordIn(t.c, id), list, id)
  {
    if list == [] {
    } else {
      var n := |list| - 1;
      UpsertedAllRecord(t, list[..n], id);
      UpsertedRecord(UpsertedAll(t, list[..n]), list[n], id);
    }
  }

  /** A record after an event of its session: if the event is past its end, that becomes its end and its time of
      change, a pushed status its status, and a native session its native id. Nothing else changes. */
  function AfterEvent(rec: SessionRecord, status: Option<SessionStatus>, ev: StoredEvent): SessionRecord {
    if ev.no <= rec.lastSeq then rec
    else
      SessionRecord(
        rec.id, rec.project, rec.agent, rec.cwd, rec.model,
        if ev.event.NativeSession? then Some(ev.event.nativeId) else rec.nativeId,
        if status.Some? then status.value else rec.status,
        rec.title, rec.createdAt, ev.at, ev.no, rec.accountId, rec.accountReason, rec.pinned, rec.archived)
  }

  lemma OnEventRecordIs(t: Step, status: Option<SessionStatus>, ev: StoredEvent, id: string)
    ensures RecordIn(OnEventSpec(t, status, ev).c, id)
         == if id == ev.sessionId && id in t.c.sessions then Some(AfterEvent(t.c.sessions[id], status, ev))
            else RecordIn(t.c, id)
  {
    TranscribedFrame(Recorded(t, status, ev), ev);
  }

  /** A record after fetched events, which carry no status. */
  function AfterEvents(rec: SessionRecord, events: seq<StoredEvent>): SessionRecord {
    if events == [] then rec
    else
      var n := |events| - 1;
      var before := AfterEvents(rec, events[..n]);
      if events[n].sessionId == rec.id then AfterEvent(before, None, events[n]) else before
  }

  lemma {:induction false} AfterEventsId(rec: SessionRecord, events: seq<StoredEvent>)
    ensures var r := AfterEvents(rec, events);
            r == rec.(nativeId := r.nativeId, updatedAt := r.updatedAt, lastSeq := r.lastSeq)
            && r.lastSeq >= rec.lastSeq
            && forall i :: 0 <= i < |events| && events[i].sessionId == rec.id ==> events[i].no <= r.lastSeq
  {
    if events == [] {
    } else {
      AfterEventsId(rec, events[..|events| - 1]);
    }
  }

  lemma {:induction false} FetchedRecordIs(t: Step, sid: string, events: seq<StoredEvent>, id: string)
    requires RecordsKeyed(t.c.sessions)
    ensures RecordIn(Fetched(t, sid, events).c, id)
         == if id == sid && id in t.c.sessions then Some(AfterEvents(t.c.sessions[id], events)) else RecordIn(t.c, id)
  {
    if events == [] {
    } else {
      var n := |events| - 1;
      FetchedRecordIs(t, sid, events[..n], id);
      if events[n].sessionId == sid {
        OnEventRecordIs(Fetched(t, sid, events[..n]), None, events[n], id);
      }
    }
  }

  /** The record of `id` after the input. */
  function RecordAfter(c: Client, input: Input, id: string): Option<SessionRecord> {
    var held := RecordIn(c, id);
    match input
    case SessionsLoaded(list) => Newest(held, list, id)
    case SessionLoaded(rec) => if rec.id == id then Newer(held, rec) else held
    case Pushed(SessionCreated(rec)) => if rec.id == id then Newer(held, rec) else held
    case Pushed(Event(status, ev)) =>
      if ev.sessionId == id && held.Some? then Some(AfterEvent(held.value, Some(status), ev)) else held
    case Pushed(SessionUpdated(other)) =>
      if other.id == id && held.Some? then
        Some(held.value.(title := other.title, pinned := other.pinned, archived := other.archived))
      else held
    case EventsFetched(sid, events) => if sid == id && held.Some? then Some(AfterEvents(held.value, events)) else held
    case _ => held
  }

  /** After any run, each input leaves every session's record as the server last said: a record loaded unless the one
      held counts more events, a pushed event's status and end, fetched events' end, pushed metadata. */
  lemma RecordsSeen(acts: seq<Act>, input: Input, id: string)
    requires SaneRun(acts)
    ensures RecordIn(ApplySpec(After(acts), input).c, id) == RecordAfter(After(acts), input, id)
  {
    RunKeeps(acts);
    RecordsTaken(After(acts), input, id);
  }

  lemma RecordsTaken(c: Client, input: Input, id: string)
    requires RecordsKeyed(c.sessions)
    ensures RecordIn(Taken(c, input).c, id) == RecordAfter(c, input, id)
  {
    var t := Step(c, NOTHING);
    match input {
      case SessionsLoaded(list) => UpsertedAllRecord(t, list, id);
      case SessionLoaded(rec) => UpsertedRecord(t, rec, id);
      case Pushed(push) => PushRecords(c, push, id);
      case EventsFetched(sid, events) => FetchedRecordIs(t, sid, events, id);
      case Opened(sid) => ViewFrame(t, sid);
      case Closed(sid) => ViewFrame(t, sid);
      case ProjectsLoaded(list) => ProjectsFrame(t, list, Project("", 0, []));
      case TeamLoaded(sid, team) => TeamTakenFrame(t, sid, team);
      case _ =>
    }
  }

  lemma PushRecords(c: Client, push: Push, id: string)
    requires RecordsKeyed(c.sessions)
    ensures RecordIn(OnPush(Step(c, NOTHING), push).c, id) == RecordAfter(c, Pushed(push), id)
  {
    var t := Step(c, NOTHING);
    match push {
      case SessionCreated(rec) => CreatedRecord(t, rec, id);
      case Event(status, ev) => OnEventRecordIs(t, Some(status), ev, id);
      case Lagged(_) =>
      case SessionUpdated(other) => MetaRecord(t, other, id);
      case ProjectUpdated(project) => ProjectsFrame(t, [], project);
      case TeamUpdated(team) =>
    }
  }

  lemma MetaRecord(t: Step, other: SessionRecord, id: string)
    ensures RecordIn(MetaTaken(t, other).c, id)
         == if id == other.id && id in t.c.sessions then
              Some(t.c.sessions[id].(title := other.title, pinned := other.pinned, archived := other.archived))
            else RecordIn(t.c, id)
  {
  }

  lemma CreatedRecord(t: Step, rec: SessionRecord, id: string)
    ensures RecordIn(Created(t, rec).c, id) == if id == rec.id then Newer(RecordIn(t.c, id), rec) else RecordIn(t.c, id)
  {
    var c := if rec.id !in t.c.sessions && rec.id !in t.c.lastSeen
             then t.c.(lastSeen := t.c.lastSeen[rec.id := 0]) else t.c;
    UpsertedRecord(t.(c := c), rec, id);
  }

  /** A pushed event past the end of a stored session shows its status at once, with the event's number and time; one
      not past it changes nothing. */
  lemma PushedStatusShows(acts: seq<Act>, status: SessionStatus, ev: StoredEvent)
    requires SaneRun(acts) && ev.sessionId in After(acts).sessions
    ensures var c, u := After(acts), ApplySpec(After(acts), Pushed(Event(status, ev))).c;
            ev.sessionId in u.sessions && ShowsEvent(c.sessions[ev.sessionId], status, ev, u.sessions[ev.sessionId])
  {
    RunKeeps(acts);
    PushedTaken(Step(After(acts), NOTHING), status, ev);
  }

  lemma PushedTaken(t: Step, status: SessionStatus, ev: StoredEvent)
    requires ev.sessionId in t.c.sessions
    ensures var u := OnEventSpec(t, Some(status), ev).c;
            ev.sessionId in u.sessions && ShowsEvent(t.c.sessions[ev.sessionId], status, ev, u.sessions[ev.sessionId])
  {
    OnEventRecordIs(t, Some(status), ev, ev.sessionId);
    AfterPushed(t.c.sessions[ev.sessionId], status, ev);
  }

  /** `now` is `was` after a pushed event: its status, number, time and native id if it is past the end of `was`, and
      nothing else. */
  predicate ShowsEvent(was: SessionRecord, status: SessionStatus, ev: StoredEvent, now: SessionRecord) {
    && (ev.no > was.lastSeq ==> now.status == status && now.lastSeq == ev.no && now.updatedAt == ev.at)
    && (ev.no > was.lastSeq && ev.event.NativeSession? ==> now.nativeId == Some(ev.event.nativeId))
    && (ev.no > was.lastSeq && !ev.event.NativeSession? ==> now.nativeId == was.nativeId)
    && (ev.no <= was.lastSeq ==> now == was)
    && now == was.(status := now.status, lastSeq := now.lastSeq, updatedAt := now.updatedAt, nativeId := now.nativeId)
  }

  lemma AfterPushed(was: SessionRecord, status: SessionStatus, ev: StoredEvent)
    ensures ShowsEvent(was, status, ev, AfterEvent(was, Some(status), ev))
  {
  }

  /** Fetched events leave every session's status. */
  lemma FetchedStatusStays(acts: seq<Act>, sid: string, events: seq<StoredEvent>, id: string)
    requires SaneRun(acts) && id in After(acts).sessions
    ensures var c, u := After(acts), ApplySpec(After(acts), EventsFetched(sid, events)).c;
            id in u.sessions && u.sessions[id].status == c.sessions[id].status
  {
    RecordsSeen(acts, EventsFetched(sid, events), id);
    AfterEventsId(After(acts).sessions[id], events);
  }

  // ---- read marks ----------------------------------------------------------------------------

  function MarkIn(c: Client, id: string): Option<int> {
    if id in c.lastSeen then Some(c.lastSeen[id]) else None
  }

  /** What the first record of `id` in a list makes of it: read as far as it counts, or not at all once some list has
      been loaded. */
  function FirstMark(baselined: bool, list: seq<SessionRecord>, id: string): Option<int> {
    if list == [] then None
    else
      var n := |list| - 1;
      var before := FirstMark(baselined, list[..n], id);
      if before.Some? then before
      else if list[n].id == id then Some(if baselined then 0 else list[n].lastSeq)
      else None
  }

  /** The records an input brings. */
  function RecordsOf(input: Input): seq<SessionRecord> {
    match input
    case SessionsLoaded(list) => list
    case SessionLoaded(rec) => [rec]
    case _ => []
  }

  /** How far a closed session is read after the input. */
  function MarkAfter(c: Client, input: Input, id: string): Option<int> {
    if MarkIn(c, id).Some? then MarkIn(c, id)
    else if input.Pushed? && input.push.SessionCreated? && input.push.session.id == id then Some(0)
    else FirstMark(c.baselined, RecordsOf(input), id)
  }

  lemma UpsertedMark(t: Step, rec: SessionRecord, id: string)
    requires id !in t.c.open
    ensures MarkIn(Upserted(t, rec).c, id)
         == if MarkIn(t.c, id).Some? then MarkIn(t.c, id) else FirstMark(t.c.baselined, [rec], id)
  {
    assert [rec][..0] == [];
    var v := t.(c := t.c.(lastSeen := FirstSeen(t.c.lastSeen, t.c.baselined, rec)));
    CaughtUpMark(Stored(v, rec), rec.id, id);
  }

  lemma CaughtUpMark(t: Step, rid: string, id: string)
    requires id !in t.c.open
    ensures MarkIn(CaughtUp(t, rid).c, id) == MarkIn(t.c, id)
  {
  }

  lemma {:induction false} UpsertedAllMark(t: Step, list: seq<SessionRecord>, id: string)
    requires id !in t.c.open
    ensures MarkIn(UpsertedAll(t, list).c, id)
         == if MarkIn(t.c, id).Some? then MarkIn(t.c, id) else FirstMark(t.c.baselined, list, id)
  {
    if list == [] {
    } else {
      var n := |list| - 1;
      UpsertedAllMark(t, list[..n], id);
      UpsertedAllFrame(t, list[..n]);
      UpsertedMark(UpsertedAll(t, list[..n]), list[n], id);
      assert [list[n]][..0] == [];
    }
  }

  lemma CreatedMark(t: Step, rec: SessionRecord, id: string)
    requires id !in t.c.open && t.c.lastSeen.Keys == t.c.sessions.Keys
    ensures MarkIn(Created(t, rec).c, id)
         == if MarkIn(t.c, id).Some? || rec.id != id then MarkIn(t.c, id) else Some(0)
  {
    var c := if rec.id !in t.c.sessions && rec.id !in t.c.lastSeen
             then t.c.(lastSeen := t.c.lastSeen[rec.id := 0]) else t.c;
    UpsertedMark(t.(c := c), rec, id);
    assert [rec][..0] == [];
  }

  lemma OnEventMark(t: Step, status: Option<SessionStatus>, ev: StoredEvent, id: string)
    requires id !in t.c.open
    ensures MarkIn(OnEventSpec(t, status, ev).c, id) == MarkIn(t.c, id)
  {
    TranscriptOnly(Recorded(t, status, ev), ev);
  }

  lemma {:induction false} FetchedMark(t: Step, sid: string, events: seq<StoredEvent>, id: string)
    requires id !in t.c.open
    ensures MarkIn(Fetched(t, sid, events).c, id) == MarkIn(t.c, id)
  {
    if events == [] {
    } else {
      var n := |events| - 1;
      FetchedMark(t, sid, events[..n], id);
      FetchedFrame(t, sid, events[..n]);
      if events[n].sessionId == sid {
        OnEventMark(Fetched(t, sid, events[..n]), None, events[n], id);
      }
    }
  }

  lemma ClosedMark(t: Step, sid: string, id: string)
    requires Inv(t.c)
    ensures MarkIn(ViewClosed(t, sid).c, id) == MarkIn(t.c, id)
  {
    if id in t.c.sessions {
      assert id in t.c.lastSeen.Keys;
    }
  }

  lemma OpenedMark(t: Step, sid: string, id: string)
    requires id != sid
    ensures MarkIn(ViewOpened(t, sid).c, id) == MarkIn(t.c, id)
  {
  }

  lemma PushMark(c: Client, push: Push, id: string)
    requires Inv(c) && id !in c.open
    ensures MarkIn(OnPush(Step(c, NOTHING), push).c, id) == MarkAfter(c, Pushed(push), id)
  {
    var t := Step(c, NOTHING);
    match push {
      case SessionCreated(rec) => CreatedMark(t, rec, id);
      case Event(status, ev) => OnEventMark(t, Some(status), ev, id);
      case _ => OtherPushMark(t, push, id);
    }
  }

  lemma OtherPushMark(t: Step, push: Push, id: string)
    requires !push.SessionCreated? && !push.Event?
    ensures MarkIn(OnPush(t, push).c, id) == MarkIn(t.c, id)
  {
    match push {
      case Lagged(_) =>
      case SessionUpdated(other) => MetaFrame(t, other);
      case ProjectUpdated(project) => ProjectsFrame(t, [], project);
      case TeamUpdated(team) => TeamPutFrame(t, team);
    }
  }

  lemma TakenMark(c: Client, input: Input, id: string)
    requires Inv(c) && id !in c.open && input != Opened(id)
    ensures MarkIn(Taken(c, input).c, id) == MarkAfter(c, input, id)
  {
    var t := Step(c, NOTHING);
    match input {
      case SessionsLoaded(list) => UpsertedAllMark(t, list, id);
      case SessionLoaded(rec) => UpsertedMark(t, rec, id);
      case Pushed(push) => PushMark(c, push, id);
      case EventsFetched(sid, events) => FetchedMark(t, sid, events, id);
      case Opened(sid) => OpenedMark(t, sid, id);
      case Closed(sid) => ClosedMark(t, sid, id);
      case ConnectionIs(k) => ConnectionSet(t, k);
      case _ => ListFrame(t, input);
    }
  }

  /** After any run, an open session is read to its end, and a closed one as far as it was: as far as it counted when
      first loaded, not at all if it was created while watched or came after a list, and to its end when closed. */
  lemma MarksSeen(acts: seq<Act>, input: Input, id: string)
    requires SaneRun(acts) && Sane(input)
    ensures var c, u := After(acts), ApplySpec(After(acts), input).c;
            && (id in u.open && id in u.sessions ==> MarkIn(u, id) == Some(u.sessions[id].lastSeq))
            && (id !in u.open ==> MarkIn(u, id) == MarkAfter(c, input, id))
            && (MarkIn(u, id).Some? <==> id in u.sessions)
  {
    RunKeeps(acts);
    MarksTaken(After(acts), input, id);
  }

  lemma MarksTaken(c: Client, input: Input, id: string)
    requires Inv(c) && Sane(input)
    ensures var u := ApplySpec(c, input).c;
            && (id in u.open && id in u.sessions ==> MarkIn(u, id) == Some(u.sessions[id].lastSeq))
            && (id !in u.open ==> MarkIn(u, id) == MarkAfter(c, input, id))
            && (MarkIn(u, id).Some? <==> id in u.sessions)
  {
    var u := ApplySpec(c, input).c;
    ReportComplete(c, input);
    MarksOf(u, id);
    if id !in u.open {
      ClosedTaken(c, input, id);
    }
  }

  lemma MarksOf(c: Client, id: string)
    requires ReadMarks(c.sessions, c.lastSeen, c.open)
    ensures id in c.open && id in c.sessions ==> MarkIn(c, id) == Some(c.sessions[id].lastSeq)
    ensures MarkIn(c, id).Some? <==> id in c.sessions
  {
    assert id in c.sessions <==> id in c.lastSeen.Keys;
  }

  lemma ClosedTaken(c: Client, input: Input, id: string)
    requires Inv(c) && id !in ApplySpec(c, input).c.open
    ensures MarkIn(ApplySpec(c, input).c, id) == MarkAfter(c, input, id)
  {
    OpenSeen(c, input);
    if id in c.open {
      JustClosed(c, id);
    } else {
      TakenMark(c, input, id);
    }
  }

  lemma JustClosed(c: Client, id: string)
    requires Inv(c)
    ensures MarkIn(ApplySpec(c, Closed(id)).c, id) == MarkAfter(c, Closed(id), id)
  {
    ClosedMark(Step(c, NOTHING), id, id);
  }

  /** A finished session shows as unread exactly while it is closed and has events past its read mark. */
  lemma UnreadExactly(acts: seq<Act>, id: string)
    requires SaneRun(acts) && id in After(acts).sessions
    ensures var c := After(acts); var v := Session(c, id);
            && v.Some? && v.value.record == c.sessions[id] && (v.value.open <==> id in c.open)
            && (v.value.status == FinishedUnread
                <==> c.sessions[id].status == SessionStatus.Finished && id !in c.open
                     && SeenIn(c.lastSeen, id) < c.sessions[id].lastSeq)
            && (v.value.status == LauncherStatus.Running <==> c.sessions[id].status == SessionStatus.Running)
            && (v.value.status == LauncherStatus.WaitingForApproval
                <==> c.sessions[id].status == SessionStatus.WaitingForApproval)
            && (v.value.status == LauncherStatus.Idle <==> c.sessions[id].status == SessionStatus.Idle)
            && (v.value.status == LauncherStatus.Failed <==> c.sessions[id].status == SessionStatus.Failed)
            && (v.value.status == LauncherStatus.Unknown <==> c.sessions[id].status == SessionStatus.Unknown)
  {
    RunKeeps(acts);
    assert id in After(acts).lastSeen.Keys;
  }

  // ---- views, lists and the connection -------------------------------------------------------

  /** Only opening and closing a conversation view change which are open, only a list of sessions marks that one was
      loaded, and the connection is what was last said of it. */
  lemma OpenSeen(c: Client, input: Input)
    ensures OpenRight(c, input, ApplySpec(c, input).c)
  {
    match input {
      case Opened(id) => OpenedRight(c, id);
      case Closed(id) => ClosedRight(c, id);
      case ConnectionIs(k) => ConnectionRight(c, k);
      case _ => OthersOpen(c, input);
    }
  }

  lemma OpenedRight(c: Client, id: string)
    ensures OpenRight(c, Opened(id), ApplySpec(c, Opened(id)).c)
  {
    OpenedView(Step(c, NOTHING), id);
    assert Taken(c, Opened(id)) == ViewOpened(Step(c, NOTHING), id);
  }

  lemma ClosedRight(c: Client, id: string)
    ensures OpenRight(c, Closed(id), ApplySpec(c, Closed(id)).c)
  {
    ClosedView(Step(c, NOTHING), id);
    assert Taken(c, Closed(id)) == ViewClosed(Step(c, NOTHING), id);
  }

  lemma ConnectionRight(c: Client, k: Connection)
    ensures OpenRight(c, ConnectionIs(k), ApplySpec(c, ConnectionIs(k)).c)
  {
    ConnectionSet(Step(c, NOTHING), k);
  }

  lemma ConnectionSet(t: Step, k: Connection)
    ensures ConnectionTaken(t, k).c == t.c.(connection := k)
  {
  }

  /** The same views are open on the same connection. */
  predicate SameViews(c: Client, u: Client) {
    u.open == c.open && u.connection == c.connection
  }

  lemma OthersOpen(c: Client, input: Input)
    requires !input.Opened? && !input.Closed? && !input.ConnectionIs?
    ensures var u := ApplySpec(c, input).c;
            SameViews(c, u) && (u.baselined <==> c.baselined || input.SessionsLoaded?)
  {
    var t := Step(c, NOTHING);
    match input {
      case SessionsLoaded(list) => UpsertedAllFrame(t, list);
      case SessionLoaded(rec) => UpsertedFrame(t, rec);
      case Pushed(push) => PushFrame(t, push);
      case EventsFetched(sid, events) => FetchedFrame(t, sid, events);
      case _ => ListFrame(t, input);
    }
  }

  predicate OpenRight(c: Client, input: Input, u: Client) {
    && u.open == (if input.Opened? then c.open + {input.id} else if input.Closed? then c.open - {input.id} else c.open)
    && (u.baselined <==> c.baselined || input.SessionsLoaded?)
    && u.connection == if input.ConnectionIs? then input.connection else c.connection
  }

  lemma OpenedView(t: Step, id: string)
    ensures var u := ViewOpened(t, id).c;
            u.open == t.c.open + {id} && u.baselined == t.c.baselined && u.connection == t.c.connection
  {
    MarkOnly(Shown(t, id), id);
  }

  lemma ClosedView(t: Step, id: string)
    ensures var u := ViewClosed(t, id).c;
            u.open == t.c.open - {id} && u.baselined == t.c.baselined && u.connection == t.c.connection
  {
    MarkOnly(Shut(t, id), id);
  }

  /** Sessions, marks and open views are the same. */
  predicate SameSessions(a: Client, b: Client) {
    && a.open == b.open && a.baselined == b.baselined && a.lastSeen == b.lastSeen && a.sessions == b.sessions
    && a.transcripts == b.transcripts
  }

  lemma ListFrame(t: Step, input: Input)
    requires t.ch == NOTHING && (input.ComputersLoaded? || input.ProjectsLoaded? || input.TeamLoaded?)
    ensures var u := Taken(t.c, input).c; SameSessions(t.c, u) && u.connection == t.c.connection
  {
    match input {
      case ComputersLoaded(_) =>
      case ProjectsLoaded(list) => ProjectsFrame(t, list, Project("", 0, []));
      case TeamLoaded(id, team) => TeamTakenFrame(t, id, team);
    }
  }

  lemma PushFrame(t: Step, push: Push)
    ensures var u := OnPush(t, push);
            u.c.open == t.c.open && u.c.baselined == t.c.baselined && u.c.connection == t.c.connection
  {
    match push {
      case SessionCreated(rec) => CreatedFrame(t, rec);
      case Event(status, ev) => OnEventFrame(t, Some(status), ev);
      case Lagged(_) =>
      case SessionUpdated(other) =>
      case ProjectUpdated(project) => ProjectsFrame(t, [], project);
      case TeamUpdated(team) =>
    }
  }

  lemma CreatedFrame(t: Step, rec: SessionRecord)
    ensures var u := Created(t, rec); u.c == t.c.(sessions := u.c.sessions, lastSeen := u.c.lastSeen)
  {
    var c := if rec.id !in t.c.sessions && rec.id !in t.c.lastSeen
             then t.c.(lastSeen := t.c.lastSeen[rec.id := 0]) else t.c;
    UpsertedFrame(t.(c := c), rec);
  }

  // ---- teams ---------------------------------------------------------------------------------

  /** The team an input brings. */
  function TeamOf(input: Input): Option<TeamView> {
    match input
    case Pushed(TeamUpdated(team)) => Some(team)
    case TeamLoaded(_, team) => team
    case _ => None
  }

  /** Is it said of this session that it is in no team, or in one that does not list it? */
  predicate SaidTeamless(input: Input, id: string) {
    input.TeamLoaded? && input.sessionId == id && (input.team.None? || id !in Members(input.team.value))
  }

  /** The team view of a session after an input: a team that came new or changed is the view of all its members and of
      no one else; a session said to be in none has none; all others keep theirs. */
  function TeamAfter(c: Client, input: Input, id: string): Option<TeamView> {
    var team := TeamOf(input);
    if team.Some? && TeamById(c.teams, team.value.id) != team && id in Members(team.value) then team
    else if SaidTeamless(input, id) then None
    else if team.Some? && TeamById(c.teams, team.value.id) != team && id in c.teamOf && c.teamOf[id] == team.value.id
    then None
    else TeamFor(c, id)
  }

  lemma TeamPutSeen(t: Step, team: TeamView, id: string)
    requires TeamsLinked(t.c.teams, t.c.teamOf)
    ensures var u := TeamPut(t, team).c;
            && TeamFor(u, id) == (if TeamById(t.c.teams, team.id) == Some(team) then TeamFor(t.c, id)
                                  else if id in Members(team) then Some(team)
                                  else if id in t.c.teamOf && t.c.teamOf[id] == team.id then None
                                  else TeamFor(t.c, id))
            && TeamById(u.teams, team.id) == Some(team)
            && (forall x :: x != team.id ==> TeamById(u.teams, x) == TeamById(t.c.teams, x))
  {
  }

  lemma UnlinkedSeen(t: Step, sid: string, id: string)
    requires TeamsLinked(t.c.teams, t.c.teamOf)
    ensures var u := Unlinked(t, sid).c;
            && TeamFor(u, id) == (if id == sid then None else TeamFor(t.c, id))
            && u.teams == t.c.teams && TeamsLinked(u.teams, u.teamOf)
            && (id != sid ==> (id in u.teamOf <==> id in t.c.teamOf))
            && (id != sid && id in u.teamOf ==> u.teamOf[id] == t.c.teamOf[id])
            && (id == sid ==> id !in u.teamOf)
  {
    UnlinkedIs(t, sid);
    LinksStay(t.c.teams, t.c.teamOf, sid);
  }

  lemma UnlinkedIs(t: Step, sid: string)
    ensures Unlinked(t, sid).c == t.c.(teamOf := t.c.teamOf - {sid})
  {
    if sid !in t.c.teamOf {
      assert t.c.teamOf - {sid} == t.c.teamOf;
    }
  }

  lemma LinksStay(teams: map<string, TeamView>, teamOf: map<string, string>, sid: string)
    requires TeamsLinked(teams, teamOf)
    ensures TeamsLinked(teams, teamOf - {sid})
  {
  }

  lemma TeamTakenSeen(t: Step, sid: string, team: Option<TeamView>, id: string)
    requires TeamsLinked(t.c.teams, t.c.teamOf)
    ensures TeamFor(TeamTaken(t, sid, team).c, id) == TeamAfter(t.c, TeamLoaded(sid, team), id)
  {
    UnlinkedSeen(t, sid, id);
    if team.Some? {
      TeamPutSeen(if sid in Members(team.value) then t else Unlinked(t, sid), team.value, id);
    }
  }

  lemma SameTeamsSeen(c: Client, input: Input)
    requires !input.TeamLoaded? && !(input.Pushed? && input.push.TeamUpdated?)
    ensures var u := Taken(c, input).c; u.teams == c.teams && u.teamOf == c.teamOf
  {
    var t := Step(c, NOTHING);
    match input {
      case SessionsLoaded(list) => UpsertedAllFrame(t, list);
      case SessionLoaded(rec) => UpsertedFrame(t, rec);
      case Pushed(push) => SameTeamsPushed(t, push);
      case EventsFetched(sid, events) => FetchedFrame(t, sid, events);
      case Opened(id) => ViewFrame(t, id);
      case Closed(id) => ViewFrame(t, id);
      case ConnectionIs(k) => ConnectionSet(t, k);
      case ComputersLoaded(list) => ComputersFrame(t, list);
      case ProjectsLoaded(list) => ProjectsFrame(t, list, Project("", 0, []));
    }
  }

  lemma ComputersFrame(t: Step, list: seq<Computer>)
    ensures var u := ComputersTaken(t, list).c; u == t.c.(computers := u.computers)
  {
    DerivedFrame(t.c.(computers := list));
  }

  lemma DerivedFrame(c: Client)
    ensures var u := WithDerived(c); u == c.(computers := u.computers)
  {
  }

  lemma SameTeamsPushed(t: Step, push: Push)
    requires !push.TeamUpdated?
    ensures var u := OnPush(t, push).c; u.teams == t.c.teams && u.teamOf == t.c.teamOf
  {
    match push {
      case SessionCreated(rec) => CreatedFrame(t, rec);
      case Event(status, ev) => OnEventFrame(t, Some(status), ev);
      case Lagged(_) =>
      case SessionUpdated(other) => MetaFrame(t, other);
      case ProjectUpdated(project) => ProjectsFrame(t, [], project);
    }
  }

  lemma MetaFrame(t: Step, other: SessionRecord)
    ensures var u := MetaTaken(t, other).c; u == t.c.(sessions := u.sessions)
  {
  }

  /** After any run, each input leaves every session's team view, and every stored team, as the server last said. */
  lemma TeamsSeen(acts: seq<Act>, input: Input, id: string)
    requires SaneRun(acts)
    ensures TeamFor(ApplySpec(After(acts), input).c, id) == TeamAfter(After(acts), input, id)
    ensures var team, stored := TeamOf(input), TeamById(ApplySpec(After(acts), input).c.teams, id);
            stored == if team.Some? && team.value.id == id then team else TeamById(After(acts).teams, id)
  {
    RunKeeps(acts);
    TeamsTaken(After(acts), input, id);
  }

  lemma TeamsTaken(c: Client, input: Input, id: string)
    requires TeamsLinked(c.teams, c.teamOf)
    ensures var u, team := Taken(c, input).c, TeamOf(input);
            && TeamFor(u, id) == TeamAfter(c, input, id)
            && TeamById(u.teams, id) == if team.Some? && team.value.id == id then team else TeamById(c.teams, id)
  {
    if input.TeamLoaded? {
      TeamLoadedSeen(c, input.sessionId, input.team, id);
    } else if input.Pushed? && input.push.TeamUpdated? {
      TeamUpdatedSeen(c, input.push.team, id);
    } else {
      SameTeamsSeen(c, input);
      assert TeamOf(input).None? && !SaidTeamless(input, id);
    }
  }

  lemma TeamUpdatedSeen(c: Client, team: TeamView, id: string)
    requires TeamsLinked(c.teams, c.teamOf)
    ensures var u := TeamPut(Step(c, NOTHING), team).c;
            && TeamFor(u, id) == TeamAfter(c, Pushed(TeamUpdated(team)), id)
            && TeamById(u.teams, id) == if team.id == id then Some(team) else TeamById(c.teams, id)
  {
    TeamPutSeen(Step(c, NOTHING), team, id);
  }

  lemma TeamLoadedSeen(c: Client, sid: string, team: Option<TeamView>, id: string)
    requires TeamsLinked(c.teams, c.teamOf)
    ensures var u := TeamTaken(Step(c, NOTHING), sid, team).c;
            && TeamFor(u, id) == TeamAfter(c, TeamLoaded(sid, team), id)
            && TeamById(u.teams, id) == if team.Some? && team.value.id == id then team else TeamById(c.teams, id)
  {
    var t := Step(c, NOTHING);
    TeamTakenSeen(t, sid, team, id);
    UnlinkedSeen(t, sid, id);
    if team.Some? {
      TeamPutSeen(if sid in Members(team.value) then t else Unlinked(t, sid), team.value, id);
    }
  }

  // ---- projects and computers ----------------------------------------------------------------

  /** The last project of this name in a list. */
  function LastNamed(list: seq<Project>, name: string): Option<Project> {
    if list == [] then None
    else
      var n := |list| - 1;
      if list[n].name == name then Some(list[n]) else LastNamed(list[..n], name)
  }

  lemma {:induction false} ByNameIs(list: seq<Project>, name: string)
    ensures ProjectNamed(ByName(list), name) == LastNamed(list, name)
  {
    if list == [] {
    } else {
      ByNameIs(list[..|list| - 1], name);
    }
  }

  /** A project after an input: the one pushed, the one of a list that came, none if the list lacks it. */
  function ProjectAfter(c: Client, input: Input, name: string): Option<Project> {
    match input
    case Pushed(ProjectUpdated(project)) =>
      if project.name == name then Some(project) else ProjectNamed(c.projectRecords, name)
    case ProjectsLoaded(list) => LastNamed(list, name)
    case _ => ProjectNamed(c.projectRecords, name)
  }

  /** The computers after an input, whatever projects they are given. */
  function ComputersAfter(c: Client, input: Input): seq<Computer> {
    if input.ComputersLoaded? then input.computers else c.computers
  }

  predicate SameComputers(a: seq<Computer>, b: seq<Computer>) {
    |a| == |b| && forall i :: 0 <= i < |a| ==> a[i] == b[i].(projects := a[i].projects)
  }

  lemma WithDerivedSame(c: Client)
    ensures SameComputers(WithDerived(c).computers, c.computers)
  {
  }

  lemma ProjectTakenSeen(t: Step, project: Project, name: string)
    ensures var u := ProjectTaken(t, project).c;
            && ProjectNamed(u.projectRecords, name)
                 == (if project.name == name then Some(project) else ProjectNamed(t.c.projectRecords, name))
            && u.projectsKnown && SameComputers(u.computers, t.c.computers)
  {
    var c := t.c.(projectsKnown := true);
    WithDerivedSame(c.(projectRecords := c.projectRecords[project.name := project]));
  }

  lemma ProjectsTakenSeen(t: Step, list: seq<Project>, name: string)
    ensures var u := ProjectsTaken(t, list).c;
            && ProjectNamed(u.projectRecords, name) == LastNamed(list, name)
            && u.projectsKnown && SameComputers(u.computers, t.c.computers)
  {
    ByNameIs(list, name);
    WithDerivedSame(t.c.(projectsKnown := true, projectRecords := ByName(list)));
  }

  lemma ComputersTakenSeen(t: Step, list: seq<Computer>)
    ensures var u := ComputersTaken(t, list).c;
            && u.projectRecords == t.c.projectRecords && u.projectsKnown == t.c.projectsKnown
            && SameComputers(u.computers, list)
            && (!u.projectsKnown ==> u.computers == list)
  {
    WithDerivedSame(t.c.(computers := list));
  }

  predicate AboutProjects(input: Input) {
    || input.ComputersLoaded? || input.ProjectsLoaded? || (input.Pushed? && input.push.ProjectUpdated?)
  }

  lemma SameProjectsSeen(c: Client, input: Input)
    requires !AboutProjects(input)
    ensures var u := Taken(c, input).c;
            u.projectRecords == c.projectRecords && u.projectsKnown == c.projectsKnown && u.computers == c.computers
  {
    var t := Step(c, NOTHING);
    match input {
      case SessionsLoaded(list) => UpsertedAllFrame(t, list);
      case SessionLoaded(rec) => UpsertedFrame(t, rec);
      case Pushed(push) => SameProjectsPushed(t, push);
      case EventsFetched(sid, events) => FetchedFrame(t, sid, events);
      case Opened(id) => ViewFrame(t, id);
      case Closed(id) => ViewFrame(t, id);
      case ConnectionIs(k) => ConnectionSet(t, k);
      case TeamLoaded(sid, team) => TeamTakenFrame(t, sid, team);
    }
  }

  lemma SameProjectsPushed(t: Step, push: Push)
    requires !push.ProjectUpdated?
    ensures var u := OnPush(t, push).c;
            && u.projectRecords == t.c.projectRecords && u.projectsKnown == t.c.projectsKnown
            && u.computers == t.c.computers
  {
    match push {
      case SessionCreated(rec) => CreatedFrame(t, rec);
      case Event(status, ev) => OnEventFrame(t, Some(status), ev);
      case Lagged(_) =>
      case SessionUpdated(other) => MetaFrame(t, other);
      case TeamUpdated(team) => TeamPutFrame(t, team);
    }
  }

  /** In every state, each input leaves the projects and the computers as the server last said, and what a computer is
      given of projects aside, changes nothing else of it. */
  lemma ProjectsSeen(c: Client, input: Input, name: string)
    ensures var u := ApplySpec(c, input).c;
            && ProjectNamed(u.projectRecords, name) == ProjectAfter(c, input, name)
            && SameComputers(u.computers, ComputersAfter(c, input))
            && (u.projectsKnown <==> c.projectsKnown || (AboutProjects(input) && !input.ComputersLoaded?))
            && (input.ComputersLoaded? && !c.projectsKnown ==> u.computers == input.computers)
  {
    var t := Step(c, NOTHING);
    if input.ComputersLoaded? {
      ComputersTakenSeen(t, input.computers);
    } else if input.ProjectsLoaded? {
      ProjectsTakenSeen(t, input.projects, name);
    } else if AboutProjects(input) {
      ProjectTakenSeen(t, input.push.project, name);
    } else {
      SameProjectsSeen(c, input);
    }
  }

  // ---- transcripts ---------------------------------------------------------------------------

  function TranscriptAt(c: Client, id: string): Option<Transcripts.State> {
    if id in c.transcripts then Some(c.transcripts[id]) else None
  }

  /** The events of a session that an input brings. */
  function EventsIn(input: Input, id: string): seq<(int, Transcripts.AgentEvent)> {
    match input
    case Pushed(Event(_, ev)) => if ev.sessionId == id then [(ev.no, ev.event)] else []
    case EventsFetched(sid, events) => if sid == id then OffersOf(events, id) else []
    case _ => []
  }

  /** A conversation once opened is kept, and is offered every event that comes. */
  function TranscriptAfter(c: Client, input: Input, id: string): Option<Transcripts.State> {
    match TranscriptAt(c, id)
    case None => if input == Opened(id) then Some(Transcripts.FRESH) else None
    case Some(t) => Some(Transcripts.Offered(t, EventsIn(input, id)))
  }

  lemma OnEventTranscripts(t: Step, status: Option<SessionStatus>, ev: StoredEvent, id: string)
    ensures TranscriptAt(OnEventSpec(t, status, ev).c, id)
         == if id == ev.sessionId && id in t.c.transcripts
            then Some(Transcripts.ApplySeq(t.c.transcripts[id], ev.no, ev.event).0)
            else TranscriptAt(t.c, id)
  {
    TranscribedAt(Recorded(t, status, ev), ev, id);
    MarkOnly(Transcribed(Recorded(t, status, ev), ev), ev.sessionId);
  }

  lemma TranscribedAt(t: Step, ev: StoredEvent, id: string)
    ensures TranscriptAt(Transcribed(t, ev).c, id)
         == if id == ev.sessionId && id in t.c.transcripts
            then Some(Transcripts.ApplySeq(t.c.transcripts[id], ev.no, ev.event).0)
            else TranscriptAt(t.c, id)
  {
  }

  lemma {:induction false} FetchedTranscripts(t: Step, sid: string, events: seq<StoredEvent>, id: string)
    requires id != sid || id !in t.c.transcripts
    ensures TranscriptAt(Fetched(t, sid, events).c, id) == TranscriptAt(t.c, id)
  {
    if events == [] {
    } else {
      var n := |events| - 1;
      FetchedTranscripts(t, sid, events[..n], id);
      OnEventTranscripts(Fetched(t, sid, events[..n]), None, events[n], id);
    }
  }

  lemma OneOffered(t: Transcripts.State, no: int, event: Transcripts.AgentEvent)
    ensures Transcripts.Offered(t, [(no, event)]) == Transcripts.ApplySeq(t, no, event).0
  {
    assert [(no, event)][..0] == [];
  }

  lemma PushedTranscripts(t: Step, push: Push, id: string)
    ensures TranscriptAt(OnPush(t, push).c, id)
         == if push.Event? && push.event.sessionId == id && id in t.c.transcripts
            then Some(Transcripts.ApplySeq(t.c.transcripts[id], push.event.no, push.event.event).0)
            else TranscriptAt(t.c, id)
  {
    match push {
      case SessionCreated(rec) => CreatedFrame(t, rec);
      case Event(status, ev) => OnEventTranscripts(t, Some(status), ev, id);
      case Lagged(_) =>
      case SessionUpdated(other) => MetaFrame(t, other);
      case ProjectUpdated(project) => ProjectsFrame(t, [], project);
      case TeamUpdated(team) => TeamPutFrame(t, team);
    }
  }

  lemma OpenedTranscripts(t: Step, sid: string, id: string)
    ensures TranscriptAt(ViewOpened(t, sid).c, id)
         == if id == sid && id !in t.c.transcripts then Some(Transcripts.FRESH) else TranscriptAt(t.c, id)
  {
    MarkOnly(Shown(t, sid), sid);
  }

  lemma TakenTranscripts(c: Client, input: Input, id: string)
    ensures TranscriptAt(Taken(c, input).c, id) == TranscriptAfter(c, input, id)
  {
    var t := Step(c, NOTHING);
    match input {
      case SessionsLoaded(list) => UpsertedAllFrame(t, list);
      case SessionLoaded(rec) => UpsertedFrame(t, rec);
      case Pushed(push) =>
        PushedTranscripts(t, push, id);
        if push.Event? && id in c.transcripts {
          OneOffered(c.transcripts[id], push.event.no, push.event.event);
        }
      case EventsFetched(sid, events) => FetchedOffers(t, sid, events, id);
      case Opened(sid) => OpenedTranscripts(t, sid, id);
      case Closed(sid) => ViewFrame(t, sid);
      case ConnectionIs(k) => ConnectionSet(t, k);
      case _ => ListFrame(t, input);
    }
  }

  lemma FetchedOffers(t: Step, sid: string, events: seq<StoredEvent>, id: string)
    ensures TranscriptAt(Fetched(t, sid, events).c, id) == TranscriptAfter(t.c, EventsFetched(sid, events), id)
  {
    if id == sid && id in t.c.transcripts {
      FetchedTranscript(t, sid, events);
    } else {
      FetchedTranscripts(t, sid, events, id);
    }
  }

  /** The events that came for a conversation since it was first opened after the last restart. */
  function HeardOf(acts: seq<Act>, id: string): Option<seq<(int, Transcripts.AgentEvent)>> {
    if acts == [] then None
    else
      var before, act := HeardOf(acts[..|acts| - 1], id), acts[|acts| - 1];
      match act
      case Restart => None
      case Feed(input) =>
        if before.Some? then Some(before.value + EventsIn(input, id))
        else if input == Opened(id) then Some([]) else None
  }

  lemma {:induction false} OfferedMore(t: Transcripts.State, a: seq<(int, Transcripts.AgentEvent)>,
                                       b: seq<(int, Transcripts.AgentEvent)>)
    ensures Transcripts.Offered(t, a + b) == Transcripts.Offered(Transcripts.Offered(t, a), b)
  {
    if b == [] {
      assert a + b == a;
    } else {
      var n := |b| - 1;
      OfferedMore(t, a, b[..n]);
      assert (a + b)[..|a| + n] == a + b[..n];
      assert (a + b)[|a| + n] == b[n];
    }
  }

  /** Over every run, a conversation is what it makes of the events that came since it was opened, offered one by
      one. */
  lemma {:induction false} TranscriptsHear(acts: seq<Act>, id: string)
    ensures TranscriptAt(After(acts), id)
         == if HeardOf(acts, id).Some? then
              Some(Transcripts.Offered(Transcripts.FRESH, HeardOf(acts, id).value))
            else None
  {
    if acts == [] {
    } else {
      var n := |acts| - 1;
      var c := After(acts[..n]);
      TranscriptsHear(acts[..n], id);
      match acts[n] {
        case Restart =>
        case Feed(input) =>
          TakenTranscripts(c, input, id);
          assert TranscriptAt(After(acts), id) == TranscriptAfter(c, input, id);
          if HeardOf(acts[..n], id).Some? {
            OfferedMore(Transcripts.FRESH, HeardOf(acts[..n], id).value, EventsIn(input, id));
          }
      }
    }
  }

  /** The events heard of are events of this log. */
  predicate OfLog(heard: seq<(int, Transcripts.AgentEvent)>, log: int -> Transcripts.AgentEvent) {
    forall i :: 0 <= i < |heard| ==> heard[i].1 == log(heard[i].0)
  }

  function NumbersIn(heard: seq<(int, Transcripts.AgentEvent)>): (r: seq<int>)
    ensures |r| == |heard| && forall i :: 0 <= i < |r| ==> r[i] == heard[i].0
  {
    seq(|heard|, i requires 0 <= i < |heard| => heard[i].0)
  }

  /** Over every run in which the events that came are those of one log, pushed and fetched in whatever order and
      however often, an opened conversation shows the log up to the first event that has not come. */
  lemma ViewShowsTheLog(acts: seq<Act>, id: string, log: int -> Transcripts.AgentEvent)
    requires HeardOf(acts, id).Some? && OfLog(HeardOf(acts, id).value, log)
    ensures var v := TranscriptOf(After(acts), id);
            && v.Some? && v.value.lastSeq >= 0
            && Transcripts.LongestPrefix(Came(HeardOf(acts, id).value), v.value.lastSeq)
            && v.value.items == Conversations.ShownUpTo(log, v.value.lastSeq)
            && v.value.usage == Transcripts.Usage(Conversations.InputTokens(log, v.value.lastSeq),
                                                  Conversations.OutputTokens(log, v.value.lastSeq))
  {
    var heard := HeardOf(acts, id).value;
    TranscriptsHear(acts, id);
    assert heard == Transcripts.FromLog(log, NumbersIn(heard));
    Conversations.ScheduleShows(log, NumbersIn(heard));
    Transcripts.ScheduleConverges(log, NumbersIn(heard));
    assert (set s | s in NumbersIn(heard) && s >= 1) == Came(heard) by {
      CameIs(heard);
    }
  }

  /** The numbers of the events that came, counted from 1. */
  function Came(heard: seq<(int, Transcripts.AgentEvent)>): set<int> {
    set o | o in heard && o.0 >= 1 :: o.0
  }

  lemma CameIs(heard: seq<(int, Transcripts.AgentEvent)>)
    ensures (set s | s in NumbersIn(heard) && s >= 1) == Came(heard)
  {
    forall no | no in Came(heard)
      ensures no in NumbersIn(heard)
    {
      var o :| o in heard && o.0 >= 1 && o.0 == no;
      var i :| 0 <= i < |heard| && heard[i] == o;
      assert NumbersIn(heard)[i] == no;
    }
    forall no | no in NumbersIn(heard) && no >= 1
      ensures no in Came(heard)
    {
      var i :| 0 <= i < |heard| && NumbersIn(heard)[i] == no;
      assert heard[i] in heard;
    }
  }
}
