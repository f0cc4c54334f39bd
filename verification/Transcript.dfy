/** One session's conversation reduced from its events (`ember/client/src/transcript.rs`). */
module Transcripts {
  import opened Wrappers

  /** A JSON value the reducer only stores. */
  datatype Json = Null | Json(text: string)

  datatype ApprovalDecision = AllowOnce | AllowAlways | Deny

  datatype TurnOutcome = Completed | Interrupted | Failed

  datatype AgentEvent =
    | NativeSession(nativeId: string)
    | UserMessage(text: string)
    | AssistantDelta(text: string)
    | AssistantMessage(text: string)
    | ToolCalled(callId: string, name: string, input: Json)
    | ToolResult(callId: string, output: string, isError: bool)
    | ApprovalRequested(approvalId: string, tool: string, input: Json)
    | ApprovalResolved(approvalId: string, decision: ApprovalDecision)
    | UsageReported(inputTokens: nat, outputTokens: nat)
    | TurnOver(outcome: TurnOutcome)
    | ErrorReported(message: string)
    | NoticePosted(message: string)
    | Unknown

  datatype ToolOutput = ToolOutput(output: string, isError: bool)

  datatype ApprovalState = Pending | Resolved(decision: ApprovalDecision) | Abandoned

  datatype Item =
    | User(no: int, text: string)
    | Assistant(no: int, text: string, streaming: bool)
    | ToolCall(no: int, callId: string, name: string, input: Json, result: Option<ToolOutput>)
    | Approval(no: int, approvalId: string, tool: string, input: Json, state: ApprovalState)
    | TurnEnded(no: int, outcome: TurnOutcome)
    | Error(no: int, message: string)
    | Notice(no: int, text: string)

  datatype Usage = Usage(inputTokens: nat, outputTokens: nat)

  /** The reduced conversation and its indexes. */
  datatype Conversation = Conversation(
    items: seq<Item>,
    usage: Usage,
    lastSeq: int,
    toolIndex: map<string, nat>,
    approvalIndex: map<string, nat>,
    streaming: Option<nat>)

  const EMPTY: Conversation := Conversation([], Usage(0, 0), 0, map[], map[], None)

  // ---- one event -----------------------------------------------------------------------------

  function EndStream(c: Conversation): Conversation {
    match c.streaming
    case Some(i) =>
      if i < |c.items| && c.items[i].Assistant?
      then c.(items := c.items[i := c.items[i].(streaming := false)], streaming := None)
      else c.(streaming := None)
    case None => c
  }

  function Push(c: Conversation, item: Item): Conversation {
    c.(items := c.items + [item])
  }

  function Abandon(item: Item): Item {
    if item.Approval? && item.state.Pending? then item.(state := Abandoned) else item
  }

  function AbandonAll(items: seq<Item>): (r: seq<Item>)
    ensures |r| == |items| && forall i :: 0 <= i < |items| ==> r[i] == Abandon(items[i])
  {
    seq(|items|, i requires 0 <= i < |items| => Abandon(items[i]))
  }

  /** The item an index entry leads to, if it is there. */
  function Indexed(items: seq<Item>, index: map<string, nat>, id: string): Option<nat> {
    if id in index && index[id] < |items| then Some(index[id]) else None
  }

  function TakeDelta(c: Conversation, no: int, text: string): Conversation {
    match c.streaming
    case Some(i) =>
      if i < |c.items| && c.items[i].Assistant?
      then c.(items := c.items[i := c.items[i].(text := c.items[i].text + text)])
      else c
    case None => Push(c.(streaming := Some(|c.items|)), Assistant(no, text, true))
  }

  function TakeMessage(c: Conversation, no: int, text: string): Conversation {
    match c.streaming
    case Some(i) =>
      if i < |c.items| then c.(items := c.items[i := Assistant(no, text, false)], streaming := None)
          else c.(streaming := None)
    case None => Push(c, Assistant(no, text, false))
  }

  function Reduce(c: Conversation, no: int, event: AgentEvent): Conversation {
    var c := c.(lastSeq := no);
    match event
    case UserMessage(text) => Push(EndStream(c), User(no, text))
    case AssistantDelta(text) => TakeDelta(c, no, text)
    case AssistantMessage(text) => TakeMessage(c, no, text)
    case ToolCalled(callId, name, input) =>
      var c := EndStream(c);
      Push(c.(toolIndex := c.toolIndex[callId := |c.items|]), ToolCall(no, callId, name, input, None))
    case ToolResult(callId, output, isError) =>
      var out := ToolOutput(output, isError);
      var i := Indexed(c.items, c.toolIndex, callId);
      if i.Some? && c.items[i.value].ToolCall?
      then c.(items := c.items[i.value := c.items[i.value].(result := Some(out))])
      else Push(c.(toolIndex := c.toolIndex[callId := |c.items|]), ToolCall(no, callId, "", Null, Some(out)))
    case ApprovalRequested(approvalId, tool, input) =>
      var c := EndStream(c);
      Push(c.(approvalIndex := c.approvalIndex[approvalId := |c.items|]),
          Approval(no, approvalId, tool, input, Pending))
    case ApprovalResolved(approvalId, decision) =>
      var i := Indexed(c.items, c.approvalIndex, approvalId);
      if i.Some? && c.items[i.value].Approval?
      then c.(items := c.items[i.value := c.items[i.value].(state := Resolved(decision))])
      else c
    case UsageReported(input, output) =>
      c.(usage := Usage(c.usage.inputTokens + input, c.usage.outputTokens + output))
    case TurnOver(outcome) =>
      var c := EndStream(c);
      Push(c.(items := AbandonAll(c.items)), TurnEnded(no, outcome))
    case ErrorReported(message) => Push(c, Error(no, message))
    case NoticePosted(message) => Push(c, Notice(no, message))
    case NativeSession(_) | Unknown => c
  }

  // ---- offering events -----------------------------------------------------------------------

  datatype State = State(core: Conversation, held: map<int, AgentEvent>)

  datatype Applied = Changed | Duplicate | Gap(expected: int)

  /** Apply held events for as long as the next one is there. */
  function DrainHeld(t: State): State
    decreases |t.held|
  {
    var next := t.core.lastSeq + 1;
    if next in t.held then
      Shrinks(t.held, next);
      DrainHeld(State(Reduce(t.core, next, t.held[next]), t.held - {next}))
    else t
  }

  lemma Shrinks(m: map<int, AgentEvent>, k: int)
    requires k in m
    ensures |m - {k}| < |m|
  {
    assert (m - {k}).Keys == m.Keys - {k};
    assert |m.Keys - {k}| < |m.Keys|;
  }

  function ApplySeq(t: State, no: int, event: AgentEvent): (State, Applied) {
    if no <= t.core.lastSeq || no in t.held then (t, Duplicate)
    else if no != t.core.lastSeq + 1 then (t.(held := t.held[no := event]), Gap(t.core.lastSeq + 1))
    else (DrainHeld(State(Reduce(t.core, no, event), t.held)), Changed)
  }

  // ---- index integrity -----------------------------------------------------------------------

  predicate IsTool(item: Item, id: string) {
    item.ToolCall? && item.callId == id
  }

  predicate IsApproval(item: Item, id: string) {
    item.Approval? && item.approvalId == id
  }

  predicate IsStreaming(item: Item) {
    item.Assistant? && item.streaming
  }

  /** At most one item is streaming, and `streaming` points at it. */
  predicate StreamSound(c: Conversation) {
    && (c.streaming.Some? ==> c.streaming.value < |c.items| && IsStreaming(c.items[c.streaming.value]))
    && (forall j :: 0 <= j < |c.items| && IsStreaming(c.items[j]) ==> c.streaming == Some(j))
  }

  /** `index` maps each id to the last item carrying it, and has no other ids. */
  ghost predicate IndexSound(items: seq<Item>, index: map<string, nat>, carries: (Item, string) -> bool) {
    && (forall id :: id in index ==> index[id] < |items| && carries(items[index[id]], id))
    && (forall id, j :: 0 <= j < |items| && carries(items[j], id) ==> id in index && j <= index[id])
  }

  ghost predicate Sound(c: Conversation) {
    && StreamSound(c)
    && IndexSound(c.items, c.toolIndex, IsTool)
    && IndexSound(c.items, c.approvalIndex, IsApproval)
  }

  /** Replacing an item by one of the same kind and ids. */
  predicate SameIds(a: Item, b: Item) {
    && (a.ToolCall? <==> b.ToolCall?) && (a.ToolCall? ==> a.callId == b.callId)
    && (a.Approval? <==> b.Approval?) && (a.Approval? ==> a.approvalId == b.approvalId)
  }

  lemma ReplacedItems(items: seq<Item>, items': seq<Item>, tools: map<string, nat>, approvals: map<string, nat>)
    requires |items'| == |items| && forall i :: 0 <= i < |items| ==> SameIds(items[i], items'[i])
    requires IndexSound(items, tools, IsTool) && IndexSound(items, approvals, IsApproval)
    ensures IndexSound(items', tools, IsTool) && IndexSound(items', approvals, IsApproval)
  {
    forall id, j | 0 <= j < |items'|
      ensures IsTool(items'[j], id) == IsTool(items[j], id) && IsApproval(items'[j], id) == IsApproval(items[j], id)
    {
      assert SameIds(items[j], items'[j]);
    }
  }

  lemma PushedPlain(items: seq<Item>, index: map<string, nat>, item: Item, carries: (Item, string) -> bool)
    requires IndexSound(items, index, carries) && forall id :: !carries(item, id)
    ensures IndexSound(items + [item], index, carries)
  {
  }

  lemma PushedIndexed(items: seq<Item>, index: map<string, nat>, item: Item, id: string,
                     carries: (Item, string) -> bool)
    requires IndexSound(items, index, carries) && forall other :: carries(item, other) <==> other == id
    ensures IndexSound(items + [item], index[id := |items|], carries)
  {
  }

  lemma PushedOther(c: Conversation, item: Item)
    requires Sound(c) && !item.ToolCall? && !item.Approval? && !IsStreaming(item)
    ensures Sound(Push(c, item))
  {
    PushedPlain(c.items, c.toolIndex, item, IsTool);
    PushedPlain(c.items, c.approvalIndex, item, IsApproval);
  }

  lemma PushedTool(c: Conversation, item: Item)
    requires Sound(c) && item.ToolCall?
    ensures Sound(Push(c.(toolIndex := c.toolIndex[item.callId := |c.items|]), item))
  {
    PushedIndexed(c.items, c.toolIndex, item, item.callId, IsTool);
    PushedPlain(c.items, c.approvalIndex, item, IsApproval);
  }

  lemma PushedApproval(c: Conversation, item: Item)
    requires Sound(c) && item.Approval?
    ensures Sound(Push(c.(approvalIndex := c.approvalIndex[item.approvalId := |c.items|]), item))
  {
    PushedPlain(c.items, c.toolIndex, item, IsTool);
    PushedIndexed(c.items, c.approvalIndex, item, item.approvalId, IsApproval);
  }

  /** A new message begins to stream while none does. */
  lemma PushedStream(c: Conversation, item: Item)
    requires Sound(c) && IsStreaming(item) && c.streaming.None?
    ensures Sound(Push(c.(streaming := Some(|c.items|)), item))
  {
    PushedPlain(c.items, c.toolIndex, item, IsTool);
    PushedPlain(c.items, c.approvalIndex, item, IsApproval);
  }

  /** One item replaced by another of the same kind and ids that streams no more than it did. */
  lemma ReplacedOne(c: Conversation, i: nat, item: Item)
    requires Sound(c) && i < |c.items| && SameIds(c.items[i], item) && !IsStreaming(c.items[i]) && !IsStreaming(item)
    ensures Sound(c.(items := c.items[i := item]))
  {
    ReplacedItems(c.items, c.items[i := item], c.toolIndex, c.approvalIndex);
  }

  lemma EndStreamSound(c: Conversation)
    requires Sound(c)
    ensures Sound(EndStream(c)) && EndStream(c).streaming.None?
  {
    ReplacedItems(c.items, EndStream(c).items, c.toolIndex, c.approvalIndex);
  }

  lemma DeltaSound(c: Conversation, no: int, text: string)
    requires Sound(c)
    ensures Sound(TakeDelta(c, no, text))
  {
    if c.streaming.Some? {
      ReplacedItems(c.items, TakeDelta(c, no, text).items, c.toolIndex, c.approvalIndex);
    } else {
      PushedStream(c, Assistant(no, text, true));
    }
  }

  lemma MessageSound(c: Conversation, no: int, text: string)
    requires Sound(c)
    ensures Sound(TakeMessage(c, no, text))
  {
    if c.streaming.Some? {
      ReplacedItems(c.items, TakeMessage(c, no, text).items, c.toolIndex, c.approvalIndex);
    } else {
      PushedOther(c, Assistant(no, text, false));
    }
  }

  lemma ToolResultSound(c: Conversation, no: int, callId: string, output: string, isError: bool)
    requires Sound(c)
    ensures Sound(Reduce(c, no, ToolResult(callId, output, isError)))
  {
    var c' := c.(lastSeq := no);
    var out := ToolOutput(output, isError);
    if callId in c.toolIndex {
      var i := c.toolIndex[callId];
      assert IsTool(c.items[i], callId);
      ReplacedOne(c', i, c.items[i].(result := Some(out)));
    } else {
      PushedTool(c', ToolCall(no, callId, "", Null, Some(out)));
    }
  }

  lemma ApprovalResolvedSound(c: Conversation, no: int, approvalId: string, decision: ApprovalDecision)
    requires Sound(c)
    ensures Sound(Reduce(c, no, ApprovalResolved(approvalId, decision)))
  {
    var c' := c.(lastSeq := no);
    if approvalId in c.approvalIndex {
      var i := c.approvalIndex[approvalId];
      assert IsApproval(c.items[i], approvalId);
      ReplacedOne(c', i, c.items[i].(state := Resolved(decision)));
    }
  }

  lemma AbandonSound(c: Conversation)
    requires Sound(c)
    ensures Sound(c.(items := AbandonAll(c.items)))
  {
    ReplacedItems(c.items, AbandonAll(c.items), c.toolIndex, c.approvalIndex);
  }

  lemma TurnOverSound(c: Conversation, no: int, outcome: TurnOutcome)
    requires Sound(c)
    ensures Sound(Reduce(c, no, TurnOver(outcome)))
  {
    var e := EndStream(c.(lastSeq := no));
    EndStreamSound(c.(lastSeq := no));
    AbandonSound(e);
    PushedOther(e.(items := AbandonAll(e.items)), TurnEnded(no, outcome));
  }

  /** Every event keeps the stream mark and both indexes exact. */
  lemma ReduceSound(c: Conversation, no: int, event: AgentEvent)
    requires Sound(c)
    ensures Sound(Reduce(c, no, event))
  {
    var c' := c.(lastSeq := no);
    match event {
      case UserMessage(text) =>
        EndStreamSound(c');
        PushedOther(EndStream(c'), User(no, text));
      case AssistantDelta(text) => DeltaSound(c', no, text);
      case AssistantMessage(text) => MessageSound(c', no, text);
      case ToolCalled(callId, name, input) =>
        EndStreamSound(c');
        PushedTool(EndStream(c'), ToolCall(no, callId, name, input, None));
      case ToolResult(callId, output, isError) => ToolResultSound(c, no, callId, output, isError);
      case ApprovalRequested(approvalId, tool, input) =>
        EndStreamSound(c');
        PushedApproval(EndStream(c'), Approval(no, approvalId, tool, input, Pending));
      case ApprovalResolved(approvalId, decision) => ApprovalResolvedSound(c, no, approvalId, decision);
      case TurnOver(outcome) => TurnOverSound(c, no, outcome);
      case ErrorReported(message) => PushedOther(c', Error(no, message));
      case NoticePosted(message) => PushedOther(c', Notice(no, message));
      case _ =>
    }
  }

  lemma {:induction false} DrainSound(t: State)
    requires Sound(t.core)
    ensures Sound(DrainHeld(t).core)
    decreases |t.held|
  {
    var next := t.core.lastSeq + 1;
    if next in t.held {
      Shrinks(t.held, next);
      ReduceSound(t.core, next, t.held[next]);
      DrainSound(State(Reduce(t.core, next, t.held[next]), t.held - {next}));
    }
  }

  lemma ApplySound(t: State, no: int, event: AgentEvent)
    requires Sound(t.core)
    ensures Sound(ApplySeq(t, no, event).0.core)
  {
    if no == t.core.lastSeq + 1 && no !in t.held {
      ReduceSound(t.core, no, event);
      DrainSound(State(Reduce(t.core, no, event), t.held));
    }
  }

  /** Held events are further ahead than the next one. */
  predicate Settled(t: State) {
    forall k :: k in t.held ==> k > t.core.lastSeq + 1
  }

  /** Applying held events takes them in order or keeps them. */
  lemma {:induction false} DrainSettles(t: State)
    requires forall k :: k in t.held ==> k > t.core.lastSeq
    ensures var r := DrainHeld(t);
            && Settled(r) && t.core.lastSeq <= r.core.lastSeq && r.held.Keys <= t.held.Keys
            && forall k :: k in t.held ==> k <= r.core.lastSeq || k in r.held
    decreases |t.held|
  {
    var next := t.core.lastSeq + 1;
    if next in t.held {
      Shrinks(t.held, next);
      LastSeqIs(t.core, next, t.held[next]);
      DrainSettles(State(Reduce(t.core, next, t.held[next]), t.held - {next}));
    }
  }

  /** An event offered is taken or held, and nothing already held is lost. */
  lemma ApplySettles(t: State, no: int, event: AgentEvent)
    requires Settled(t)
    ensures var r := ApplySeq(t, no, event).0;
            && Settled(r) && t.core.lastSeq <= r.core.lastSeq && r.held.Keys <= t.held.Keys + {no}
            && (no <= r.core.lastSeq || no in r.held)
            && forall k :: k in t.held ==> k <= r.core.lastSeq || k in r.held
  {
    if no == t.core.lastSeq + 1 && no !in t.held {
      LastSeqIs(t.core, no, event);
      DrainSettles(State(Reduce(t.core, no, event), t.held));
    }
  }

  function NumbersOf(offers: seq<(int, AgentEvent)>): set<int> {
    set o | o in offers :: o.0
  }

  lemma {:induction false} OfferedSettles(t: State, offers: seq<(int, AgentEvent)>)
    requires Settled(t)
    ensures var r := Offered(t, offers);
            && Settled(r) && t.core.lastSeq <= r.core.lastSeq && r.held.Keys <= t.held.Keys + NumbersOf(offers)
            && forall k :: k in t.held.Keys + NumbersOf(offers) ==> k <= r.core.lastSeq || k in r.held
  {
    if offers == [] {
    } else {
      var n := |offers| - 1;
      OfferedSettles(t, offers[..n]);
      ApplySettles(Offered(t, offers[..n]), offers[n].0, offers[n].1);
      assert offers == offers[..n] + [offers[n]];
      assert NumbersOf(offers) == NumbersOf(offers[..n]) + {offers[n].0};
    }
  }

  /** Offering every event up to `end` leaves none of them missing or held. */
  lemma OfferedCatchesUp(t: State, offers: seq<(int, AgentEvent)>, end: int)
    requires Settled(t) && forall no :: t.core.lastSeq < no <= end ==> no in NumbersOf(offers)
    ensures var r := Offered(t, offers); r.core.lastSeq >= end && forall k :: k in r.held ==> k > end
  {
    OfferedSettles(t, offers);
    var r := Offered(t, offers);
    assert r.core.lastSeq < end ==> r.core.lastSeq + 1 in NumbersOf(offers);
  }

  /** Index integrity over every run, whatever is offered and in whatever order. */
  lemma {:induction false} RunSound(t: State, offers: seq<(int, AgentEvent)>)
    requires Sound(t.core)
    ensures Sound(Offered(t, offers).core)
  {
    if offers == [] {
    } else {
      var n := |offers| - 1;
      RunSound(t, offers[..n]);
      ApplySound(Offered(t, offers[..n]), offers[n].0, offers[n].1);
    }
  }

  /** The state after offering events one by one. */
  function Offered(t: State, offers: seq<(int, AgentEvent)>): State {
    if offers == [] then t
    else
      var n := |offers| - 1;
      ApplySeq(Offered(t, offers[..n]), offers[n].0, offers[n].1).0
  }

  predicate IsPending(item: Item) {
    item.Approval? && item.state.Pending?
  }

  /** Right after a turn ends nothing waits for an answer and nothing streams. */
  lemma NothingPendingAfterTurn(c: Conversation, no: int, outcome: TurnOutcome)
    requires Sound(c)
    ensures var r := Reduce(c, no, TurnOver(outcome));
            forall j :: 0 <= j < |r.items| ==> !IsPending(r.items[j]) && !IsStreaming(r.items[j])
  {
    TurnOverSound(c, no, outcome);
    EndStreamSound(c.(lastSeq := no));
  }

  // ---- convergence ---------------------------------------------------------------------------

  /** The log reduced in order up to event `k`. */
  function InOrder(log: int -> AgentEvent, k: nat): Conversation {
    if k == 0 then EMPTY else Reduce(InOrder(log, k - 1), k, log(k))
  }

  lemma LastSeqIs(c: Conversation, no: int, event: AgentEvent)
    ensures Reduce(c, no, event).lastSeq == no
  {
  }

  lemma InOrderStep(log: int -> AgentEvent, k: nat)
    ensures Reduce(InOrder(log, k), k + 1, log(k + 1)) == InOrder(log, k + 1)
    ensures InOrder(log, k + 1).lastSeq == k + 1
  {
    LastSeqIs(InOrder(log, k), k + 1, log(k + 1));
  }

  /** Every event up to `k` is among the offered, and the next is not. */
  predicate LongestPrefix(offered: set<int>, k: nat) {
    (forall j :: 1 <= j <= k ==> j in offered) && k + 1 !in offered
  }

  lemma PrefixUnique(offered: set<int>, k: nat, l: nat)
    requires LongestPrefix(offered, k) && LongestPrefix(offered, l)
    ensures k == l
  {
  }

  ghost predicate HeldBeyond(held: map<int, AgentEvent>, log: int -> AgentEvent, offered: set<int>, k: nat) {
    held == map s | s in offered && s > k :: log(s)
  }

  /** The transcript of a set of offered events of one log. */
  ghost predicate Converged(t: State, log: int -> AgentEvent, offered: set<int>) {
    && t.core.lastSeq >= 0
    && LongestPrefix(offered, t.core.lastSeq)
    && t.core == InOrder(log, t.core.lastSeq)
    && HeldBeyond(t.held, log, offered, t.core.lastSeq)
  }

  lemma HeldStep(held: map<int, AgentEvent>, log: int -> AgentEvent, offered: set<int>, k: nat)
    requires HeldBeyond(held, log, offered, k) && k + 1 in held
    ensures held[k + 1] == log(k + 1) && k + 1 in offered
    ensures HeldBeyond(held - {k + 1}, log, offered, k + 1)
  {
  }

  lemma DrainOne(log: int -> AgentEvent, k: nat, held: map<int, AgentEvent>)
    requires InOrder(log, k).lastSeq == k
    ensures k + 1 !in held ==> DrainHeld(State(InOrder(log, k), held)) == State(InOrder(log, k), held)
    ensures k + 1 in held && held[k + 1] == log(k + 1) ==>
              DrainHeld(State(InOrder(log, k), held)) == DrainHeld(State(InOrder(log, k + 1), held - {k + 1}))
  {
    InOrderStep(log, k);
  }

  /** What `DrainConverges` begins with: everything up to `k` reduced in order, the rest held. */
  ghost predicate Draining(k: nat, held: map<int, AgentEvent>, log: int -> AgentEvent, offered: set<int>) {
    && InOrder(log, k).lastSeq == k
    && (forall j :: 1 <= j <= k ==> j in offered)
    && HeldBeyond(held, log, offered, k)
  }

  lemma NoneNext(k: nat, held: map<int, AgentEvent>, log: int -> AgentEvent, offered: set<int>)
    requires HeldBeyond(held, log, offered, k) && k + 1 !in held
    ensures k + 1 !in offered
  {
  }

  lemma DrainedAlready(k: nat, held: map<int, AgentEvent>, log: int -> AgentEvent, offered: set<int>)
    requires Draining(k, held, log, offered) && k + 1 !in held
    ensures Converged(State(InOrder(log, k), held), log, offered)
  {
    NoneNext(k, held, log, offered);
  }

  lemma DrainingNext(k: nat, held: map<int, AgentEvent>, log: int -> AgentEvent, offered: set<int>)
    requires Draining(k, held, log, offered) && k + 1 in held
    ensures Draining(k + 1, held - {k + 1}, log, offered) && held[k + 1] == log(k + 1)
  {
    HeldStep(held, log, offered, k);
    InOrderStep(log, k);
  }

  lemma {:induction false} DrainConverges(k: nat, held: map<int, AgentEvent>, log: int -> AgentEvent, offered: set<int>)
    requires Draining(k, held, log, offered)
    ensures Converged(DrainHeld(State(InOrder(log, k), held)), log, offered)
    decreases |held|
  {
    DrainOne(log, k, held);
    if k + 1 in held {
      Shrinks(held, k + 1);
      DrainingNext(k, held, log, offered);
      DrainConverges(k + 1, held - {k + 1}, log, offered);
    } else {
      DrainedAlready(k, held, log, offered);
    }
  }

  lemma HeldMore(held: map<int, AgentEvent>, log: int -> AgentEvent, offered: set<int>, k: nat, no: int)
    requires HeldBeyond(held, log, offered, k)
    ensures no <= k || no in held ==> HeldBeyond(held, log, offered + {no}, k)
    ensures no > k ==> HeldBeyond(held[no := log(no)], log, offered + {no}, k)
    ensures no == k + 1 && no !in held ==> HeldBeyond(held, log, offered + {no}, no)
  {
  }

  lemma KeptConverges(t: State, log: int -> AgentEvent, offered: set<int>, no: int)
    requires Converged(t, log, offered) && (no <= t.core.lastSeq || no in t.held) && no >= 1
    ensures Converged(t, log, offered + {no})
  {
    HeldMore(t.held, log, offered, t.core.lastSeq, no);
    assert no in offered;
    assert offered + {no} == offered;
  }

  lemma GapConverges(t: State, log: int -> AgentEvent, offered: set<int>, no: int)
    requires Converged(t, log, offered) && no > t.core.lastSeq + 1
    ensures Converged(t.(held := t.held[no := log(no)]), log, offered + {no})
  {
    HeldMore(t.held, log, offered, t.core.lastSeq, no);
  }

  /** The three outcomes of offering an event. */
  lemma ApplyIs(t: State, no: int, event: AgentEvent)
    ensures var r, k := ApplySeq(t, no, event).0, t.core.lastSeq;
            r == if no <= k || no in t.held then t
                 else if no > k + 1 then t.(held := t.held[no := event])
                 else DrainHeld(State(Reduce(t.core, no, event), t.held))
  {
  }

  lemma NextDraining(k: nat, held: map<int, AgentEvent>, log: int -> AgentEvent, offered: set<int>)
    requires LongestPrefix(offered, k) && HeldBeyond(held, log, offered, k) && k + 1 !in held
    ensures Draining(k + 1, held, log, offered + {k + 1})
  {
    HeldMore(held, log, offered, k, k + 1);
    InOrderStep(log, k);
  }

  lemma NextConverges(t: State, log: int -> AgentEvent, offered: set<int>, no: nat)
    requires Converged(t, log, offered) && no == t.core.lastSeq + 1 && no !in t.held
    ensures Converged(DrainHeld(State(Reduce(t.core, no, log(no)), t.held)), log, offered + {no})
  {
    NextDraining(t.core.lastSeq, t.held, log, offered);
    InOrderStep(log, t.core.lastSeq);
    DrainConverges(no, t.held, log, offered + {no});
  }

  lemma ApplyConverges(t: State, log: int -> AgentEvent, offered: set<int>, no: int)
    requires Converged(t, log, offered) && no >= 1
    ensures Converged(ApplySeq(t, no, log(no)).0, log, offered + {no})
  {
    ApplyIs(t, no, log(no));
    if no <= t.core.lastSeq || no in t.held {
      KeptConverges(t, log, offered, no);
    } else if no > t.core.lastSeq + 1 {
      GapConverges(t, log, offered, no);
    } else {
      NextConverges(t, log, offered, no);
    }
  }

  /** Offer the log's events with these numbers. */
  function FromLog(log: int -> AgentEvent, schedule: seq<int>): (offers: seq<(int, AgentEvent)>)
    ensures |offers| == |schedule| && forall i :: 0 <= i < |schedule| ==> offers[i] == (schedule[i], log(schedule[i]))
  {
    seq(|schedule|, i requires 0 <= i < |schedule| => (schedule[i], log(schedule[i])))
  }

  const FRESH: State := State(EMPTY, map[])

  /** Any order, any duplication: the transcript is the in-order reduction of the longest contiguous prefix offered,
      and exactly the rest is held. */
  lemma {:induction false} ScheduleConverges(log: int -> AgentEvent, schedule: seq<int>)
    ensures Converged(Offered(FRESH, FromLog(log, schedule)), log, set s | s in schedule && s >= 1)
  {
    if schedule == [] {
      assert (map s | s in {} && s > 0 :: log(s)) == map[];
    } else {
      var n := |schedule| - 1;
      var before := schedule[..n];
      ScheduleConverges(log, before);
      assert FromLog(log, schedule)[..n] == FromLog(log, before);
      var t := Offered(FRESH, FromLog(log, before));
      var seen := set s | s in before && s >= 1;
      assert schedule == before + [schedule[n]];
      if schedule[n] >= 1 {
        ApplyConverges(t, log, seen, schedule[n]);
        assert (set s | s in schedule && s >= 1) == seen + {schedule[n]};
      } else {
        assert (set s | s in schedule && s >= 1) == seen;
      }
    }
  }

  /** Two delivery schedules of the same events end in the same transcript, indexes and held events included. */
  lemma SchedulesAgree(log: int -> AgentEvent, a: seq<int>, b: seq<int>)
    requires forall s :: s in a <==> s in b
    ensures Offered(FRESH, FromLog(log, a)) == Offered(FRESH, FromLog(log, b))
  {
    ScheduleConverges(log, a);
    ScheduleConverges(log, b);
    assert (set s | s in a && s >= 1) == (set s | s in b && s >= 1);
    var x, y := Offered(FRESH, FromLog(log, a)), Offered(FRESH, FromLog(log, b));
    PrefixUnique((set s | s in a && s >= 1), x.core.lastSeq, y.core.lastSeq);
  }

  // ---- the object itself ---------------------------------------------------------------------

  class Transcript {
    var items: seq<Item>
    var usage: Usage
    var lastSeq: int
    var held: map<int, AgentEvent>
    var toolIndex: map<string, nat>
    var approvalIndex: map<string, nat>
    var streaming: Option<nat>

    ghost function Core(): Conversation
      reads this
    {
      Conversation(items, usage, lastSeq, toolIndex, approvalIndex, streaming)
    }

    ghost function View(): State
      reads this
    {
      State(Core(), held)
    }

    constructor ()
      ensures View() == FRESH && Sound(Core())
    {
      items, usage, lastSeq, held := [], Usage(0, 0), 0, map[];
      toolIndex, approvalIndex, streaming := map[], map[], None;
    }

    method Apply(no: int, event: AgentEvent) returns (r: Applied)
      requires Sound(Core())
      modifies this
      ensures (View(), r) == ApplySeq(old(View()), no, event)
      ensures Sound(Core())
    {
      ApplySound(View(), no, event);
      if no <= lastSeq || no in held {
        return Duplicate;
      }
      if no != lastSeq + 1 {
        held := held[no := event];
        return Gap(lastSeq + 1);
      }
      ReduceSound(Core(), no, event);
      ReduceOne(no, event);
      Drain();
      r := Changed;
    }

    method Drain()
      requires Sound(Core())
      modifies this
      ensures View() == DrainHeld(old(View()))
    {
      while lastSeq + 1 in held
        invariant Sound(Core())
        invariant DrainHeld(View()) == DrainHeld(old(View()))
        decreases |held|
      {
        var no := lastSeq + 1;
        var next := held[no];
        Shrinks(held, no);
        ReduceSound(Core(), no, next);
        held := held - {no};
        ReduceOne(no, next);
      }
    }

    method EndStreaming()
      requires Sound(Core())
      modifies `items, `streaming
      ensures Core() == EndStream(old(Core()))
    {
      if streaming.Some? {
        var i := streaming.value;
        streaming := None;
        items := items[i := items[i].(streaming := false)];
      }
    }

    method AbandonPending()
      modifies `items
      ensures items == AbandonAll(old(items))
    {
      for i := 0 to |items|
        invariant |items| == |old(items)|
        invariant forall j :: 0 <= j < i ==> items[j] == Abandon(old(items)[j])
        invariant forall j :: i <= j < |items| ==> items[j] == old(items)[j]
      {
        if items[i].Approval? && items[i].state.Pending? {
          items := items[i := items[i].(state := Abandoned)];
        }
      }
    }

    method ReduceOne(no: int, event: AgentEvent)
      requires Sound(Core())
      modifies `items, `usage, `lastSeq, `toolIndex, `approvalIndex, `streaming
      ensures Core() == Reduce(old(Core()), no, event)
    {
      lastSeq := no;
      match event {
        case UserMessage(text) =>
          EndStreaming();
          items := items + [User(no, text)];
        case AssistantDelta(text) =>
          AppendDelta(no, text);
        case AssistantMessage(text) =>
          FinishMessage(no, text);
        case ToolCalled(callId, name, input) =>
          CallTool(no, callId, name, input);
        case ToolResult(callId, output, isError) =>
          TakeResult(no, callId, ToolOutput(output, isError));
        case ApprovalRequested(approvalId, tool, input) =>
          RequestApproval(no, approvalId, tool, input);
        case ApprovalResolved(approvalId, decision) =>
          ResolveApproval(no, approvalId, decision);
        case UsageReported(input, output) =>
          usage := Usage(usage.inputTokens + input, usage.outputTokens + output);
        case TurnOver(outcome) =>
          EndTurn(no, outcome);
        case ErrorReported(message) =>
          items := items + [Error(no, message)];
        case NoticePosted(message) =>
          items := items + [Notice(no, message)];
        case NativeSession(_) | Unknown =>
      }
    }

    method CallTool(no: int, callId: string, name: string, input: Json)
      requires Sound(Core()) && lastSeq == no
      modifies `items, `streaming, `toolIndex
      ensures Core() == Reduce(old(Core()), no, ToolCalled(callId, name, input))
    {
      EndStreaming();
      toolIndex := toolIndex[callId := |items|];
      items := items + [ToolCall(no, callId, name, input, None)];
    }

    method RequestApproval(no: int, approvalId: string, tool: string, input: Json)
      requires Sound(Core()) && lastSeq == no
      modifies `items, `streaming, `approvalIndex
      ensures Core() == Reduce(old(Core()), no, ApprovalRequested(approvalId, tool, input))
    {
      EndStreaming();
      approvalIndex := approvalIndex[approvalId := |items|];
      items := items + [Approval(no, approvalId, tool, input, Pending)];
    }

    method EndTurn(no: int, outcome: TurnOutcome)
      requires Sound(Core()) && lastSeq == no
      modifies `items, `streaming
      ensures Core() == Reduce(old(Core()), no, TurnOver(outcome))
    {
      EndStreaming();
      AbandonPending();
      items := items + [TurnEnded(no, outcome)];
    }

    method AppendDelta(no: int, text: string)
      requires Sound(Core())
      modifies `items, `streaming
      ensures Core() == TakeDelta(old(Core()), no, text)
    {
      if streaming.Some? {
        var i := streaming.value;
        items := items[i := items[i].(text := items[i].text + text)];
      } else {
        streaming := Some(|items|);
        items := items + [Assistant(no, text, true)];
      }
    }

    method FinishMessage(no: int, text: string)
      requires Sound(Core())
      modifies `items, `streaming
      ensures Core() == TakeMessage(old(Core()), no, text)
    {
      if streaming.Some? {
        var i := streaming.value;
        streaming := None;
        items := items[i := Assistant(no, text, false)];
      } else {
        items := items + [Assistant(no, text, false)];
      }
    }

    method ResolveApproval(no: int, approvalId: string, decision: ApprovalDecision)
      requires Sound(Core()) && lastSeq == no
      modifies `items
      ensures Core() == Reduce(old(Core()), no, ApprovalResolved(approvalId, decision))
    {
      if approvalId in approvalIndex {
        var i := approvalIndex[approvalId];
        assert IsApproval(items[i], approvalId);
        items := items[i := items[i].(state := Resolved(decision))];
      }
    }

    method TakeResult(no: int, callId: string, out: ToolOutput)
      requires Sound(Core()) && lastSeq == no
      modifies `items, `toolIndex
      ensures Core() == Reduce(old(Core()), no, ToolResult(callId, out.output, out.isError))
    {
      if callId in toolIndex {
        var i := toolIndex[callId];
        assert IsTool(items[i], callId);
        items := items[i := items[i].(result := Some(out))];
      } else {
        toolIndex := toolIndex[callId := |items|];
        items := items + [ToolCall(no, callId, "", Null, Some(out))];
      }
    }
  }
}
