/** What a conversation shows of its log (`ember/client/src/transcript.rs`), said without indexes. */
module Conversations {
  import opened Wrappers
  import opened Transcripts

  // ---- finding an item without an index ------------------------------------------------------

  /** The last item that is `good`. */
  function LastThat(items: seq<Item>, good: Item -> bool): (r: Option<nat>)
    ensures r.Some? ==> r.value < |items| && good(items[r.value])
    ensures forall j :: 0 <= j < |items| && good(items[j]) ==> r.Some? && j <= r.value
  {
    if items == [] then None
    else
      var n := |items| - 1;
      if good(items[n]) then Some(n) else LastThat(items[..n], good)
  }

  function LastTool(items: seq<Item>, id: string): (r: Option<nat>)
    ensures r.Some? ==> r.value < |items| && IsTool(items[r.value], id)
  {
    LastThat(items, (x: Item) => IsTool(x, id))
  }

  function LastApproval(items: seq<Item>, id: string): (r: Option<nat>)
    ensures r.Some? ==> r.value < |items| && IsApproval(items[r.value], id)
  {
    LastThat(items, (x: Item) => IsApproval(x, id))
  }

  function LastStream(items: seq<Item>): (r: Option<nat>)
    ensures r.Some? ==> r.value < |items| && IsStreaming(items[r.value])
  {
    LastThat(items, (x: Item) => IsStreaming(x))
  }

  // ---- what each event does to the items -----------------------------------------------------

  function Finished(item: Item): Item {
    if item.Assistant? then item.(streaming := false) else item
  }

  /** No message streams on. */
  function Quiet(items: seq<Item>): (r: seq<Item>)
    ensures |r| == |items| && forall i :: 0 <= i < |r| ==> r[i] == Finished(items[i])
  {
    seq(|items|, i requires 0 <= i < |items| => Finished(items[i]))
  }

  /** The items after event `no`: one item appended or one replaced, with at most the streaming mark or pending
      approvals changed in the others. */
  function Shown(items: seq<Item>, no: int, event: AgentEvent): seq<Item> {
    match event
    case UserMessage(text) => Quiet(items) + [User(no, text)]
    case AssistantDelta(text) =>
      var i := LastStream(items);
      if i.Some? then items[i.value := Assistant(items[i.value].no, items[i.value].text + text, true)]
      else items + [Assistant(no, text, true)]
    case AssistantMessage(text) =>
      var i := LastStream(items);
      if i.Some? then items[i.value := Assistant(no, text, false)] else items + [Assistant(no, text, false)]
    case ToolCalled(callId, name, input) => Quiet(items) + [ToolCall(no, callId, name, input, None)]
    case ToolResult(callId, output, isError) =>
      var i := LastTool(items, callId);
      if i.Some? then items[i.value := items[i.value].(result := Some(ToolOutput(output, isError)))]
      else items + [ToolCall(no, callId, "", Null, Some(ToolOutput(output, isError)))]
    case ApprovalRequested(approvalId, tool, input) =>
      Quiet(items) + [Approval(no, approvalId, tool, input, Pending)]
    case ApprovalResolved(approvalId, decision) =>
      var i := LastApproval(items, approvalId);
      if i.Some? then items[i.value := items[i.value].(state := Resolved(decision))] else items
    case TurnOver(outcome) => AbandonAll(Quiet(items)) + [TurnEnded(no, outcome)]
    case ErrorReported(message) => items + [Error(no, message)]
    case NoticePosted(message) => items + [Notice(no, message)]
    case _ => items
  }

  lemma StreamFound(c: Conversation)
    requires Sound(c)
    ensures LastStream(c.items) == c.streaming
  {
    var r := LastStream(c.items);
    if c.streaming.Some? {
      assert IsStreaming(c.items[c.streaming.value]);
    }
  }

  lemma ToolFound(c: Conversation, id: string)
    requires Sound(c)
    ensures LastTool(c.items, id) == Indexed(c.items, c.toolIndex, id)
  {
    var r := LastTool(c.items, id);
    if id in c.toolIndex {
      assert IsTool(c.items[c.toolIndex[id]], id);
    }
  }

  lemma ApprovalFound(c: Conversation, id: string)
    requires Sound(c)
    ensures LastApproval(c.items, id) == Indexed(c.items, c.approvalIndex, id)
  {
    var r := LastApproval(c.items, id);
    if id in c.approvalIndex {
      assert IsApproval(c.items[c.approvalIndex[id]], id);
    }
  }

  lemma EndStreamQuiet(c: Conversation)
    requires Sound(c)
    ensures EndStream(c).items == Quiet(c.items)
  {
  }

  /** With exact indexes, an event does to the items what it does to them without any. */
  lemma ReduceShows(c: Conversation, no: int, event: AgentEvent)
    requires Sound(c)
    ensures Reduce(c, no, event).items == Shown(c.items, no, event)
  {
    var c' := c.(lastSeq := no);
    EndStreamQuiet(c');
    StreamFound(c');
    match event {
      case ToolResult(callId, _, _) => ToolFound(c', callId);
      case ApprovalResolved(approvalId, _) => ApprovalFound(c', approvalId);
      case _ =>
    }
  }

  // ---- the items of a whole log --------------------------------------------------------------

  function ShownUpTo(log: int -> AgentEvent, k: nat): seq<Item> {
    if k == 0 then [] else Shown(ShownUpTo(log, k - 1), k, log(k))
  }

  lemma {:induction false} InOrderSound(log: int -> AgentEvent, k: nat)
    ensures Sound(InOrder(log, k))
  {
    if k == 0 {
    } else {
      InOrderSound(log, k - 1);
      ReduceSound(InOrder(log, k - 1), k, log(k));
    }
  }

  lemma {:induction false} InOrderShows(log: int -> AgentEvent, k: nat)
    ensures InOrder(log, k).items == ShownUpTo(log, k)
  {
    if k == 0 {
    } else {
      InOrderShows(log, k - 1);
      InOrderSound(log, k - 1);
      ReduceShows(InOrder(log, k - 1), k, log(k));
    }
  }

  // ---- the streamed text ---------------------------------------------------------------------

  /** An event after which nothing streams. */
  predicate Ends(event: AgentEvent) {
    event.UserMessage? || event.AssistantMessage? || event.ToolCalled? || event.ApprovalRequested? || event.TurnOver?
  }

  /** The last event up to `k` after which nothing streams. */
  function LastEnd(log: int -> AgentEvent, k: nat): (r: nat)
    ensures r <= k
  {
    if k == 0 || Ends(log(k)) then k else LastEnd(log, k - 1)
  }

  /** The first delta after `from`, up to `k`. */
  function FirstDelta(log: int -> AgentEvent, from: nat, k: nat): Option<nat>
    requires from <= k
  {
    if k == from then None
    else
      var before := FirstDelta(log, from, k - 1);
      if before.Some? then before else if log(k).AssistantDelta? then Some(k) else None
  }

  /** The texts of the deltas after `from` up to `k`, one after another. */
  function Typed(log: int -> AgentEvent, from: nat, k: nat): string
    requires from <= k
  {
    if k == from then ""
    else Typed(log, from, k - 1) + if log(k).AssistantDelta? then log(k).text else ""
  }

  lemma {:induction false} NothingTyped(log: int -> AgentEvent, from: nat, k: nat)
    requires from <= k && FirstDelta(log, from, k).None?
    ensures Typed(log, from, k) == ""
  {
    if k == from {
    } else {
      NothingTyped(log, from, k - 1);
    }
  }

  /** What streams after event `k`: the deltas since the last event that ended a stream, numbered as the first. */
  ghost predicate Streams(c: Conversation, log: int -> AgentEvent, k: nat) {
    var from := LastEnd(log, k);
    var first := FirstDelta(log, from, k);
    if first.None? then c.streaming.None?
    else
      && c.streaming.Some? && c.streaming.value < |c.items|
      && c.items[c.streaming.value] == Assistant(first.value, Typed(log, from, k), true)
  }

  lemma EndedStream(c: Conversation, no: int, event: AgentEvent)
    requires Ends(event)
    ensures Reduce(c, no, event).streaming.None?
  {
  }

  lemma DeltaStreams(c: Conversation, log: int -> AgentEvent, k: nat)
    requires Streams(c, log, k) && log(k + 1).AssistantDelta?
    ensures Streams(Reduce(c, k + 1, log(k + 1)), log, k + 1)
  {
    var from := LastEnd(log, k);
    if FirstDelta(log, from, k).None? {
      NothingTyped(log, from, k);
    }
  }

  lemma OtherStreams(c: Conversation, log: int -> AgentEvent, k: nat)
    requires Sound(c) && Streams(c, log, k) && !log(k + 1).AssistantDelta? && !Ends(log(k + 1))
    ensures Streams(Reduce(c, k + 1, log(k + 1)), log, k + 1)
  {
    StreamUntouched(c, k + 1, log(k + 1));
    NoDelta(log, k);
  }

  lemma NoDelta(log: int -> AgentEvent, k: nat)
    requires !log(k + 1).AssistantDelta? && !Ends(log(k + 1))
    ensures LastEnd(log, k + 1) == LastEnd(log, k)
    ensures Typed(log, LastEnd(log, k), k + 1) == Typed(log, LastEnd(log, k), k)
    ensures FirstDelta(log, LastEnd(log, k), k + 1) == FirstDelta(log, LastEnd(log, k), k)
  {
  }

  /** An event that neither adds to nor ends the streamed message leaves it as it is, where it is. */
  lemma StreamUntouched(c: Conversation, no: int, event: AgentEvent)
    requires Sound(c) && !event.AssistantDelta? && !Ends(event)
    ensures var d := Reduce(c, no, event);
            && d.streaming == c.streaming
            && (c.streaming.Some? ==>
                  c.streaming.value < |d.items| && d.items[c.streaming.value] == c.items[c.streaming.value])
  {
  }

  /** Over every log, the message being streamed is all its deltas in order, numbered as the first of them; nothing
      streams once a message, a call, a request or the end of the turn has come. */
  lemma {:induction false} StreamedText(log: int -> AgentEvent, k: nat)
    ensures Streams(InOrder(log, k), log, k)
  {
    if k == 0 {
    } else {
      StreamedText(log, k - 1);
      InOrderSound(log, k - 1);
      if Ends(log(k)) {
        EndedStream(InOrder(log, k - 1), k, log(k));
      } else if log(k).AssistantDelta? {
        DeltaStreams(InOrder(log, k - 1), log, k - 1);
      } else {
        OtherStreams(InOrder(log, k - 1), log, k - 1);
      }
    }
  }

  /** The final message takes the place of what was streamed, or comes last if nothing was. */
  lemma FinalReplaces(log: int -> AgentEvent, k: nat, text: string)
    requires log(k + 1) == AssistantMessage(text)
    ensures var c, d := InOrder(log, k), InOrder(log, k + 1);
            if FirstDelta(log, LastEnd(log, k), k).Some?
            then c.streaming.Some? && c.streaming.value < |c.items|
                 && d.items == c.items[c.streaming.value := Assistant(k + 1, text, false)]
            else d.items == c.items + [Assistant(k + 1, text, false)]
  {
    StreamedText(log, k);
  }

  // ---- what is said once ---------------------------------------------------------------------

  /** What the user said, errors, notices and the ends of turns: items that never change. */
  function Lasting(items: seq<Item>): seq<Item> {
    if items == [] then []
    else
      var n := |items| - 1;
      Lasting(items[..n])
        + if items[n].User? || items[n].Error? || items[n].Notice? || items[n].TurnEnded? then [items[n]] else []
  }

  /** What an event itself says. */
  function SaidBy(no: int, event: AgentEvent): seq<Item> {
    match event
    case UserMessage(text) => [User(no, text)]
    case ErrorReported(message) => [Error(no, message)]
    case NoticePosted(message) => [Notice(no, message)]
    case TurnOver(outcome) => [TurnEnded(no, outcome)]
    case _ => []
  }

  /** The same, read off the log. */
  function Said(log: int -> AgentEvent, k: nat): seq<Item> {
    if k == 0 then [] else Said(log, k - 1) + SaidBy(k, log(k))
  }

  lemma LastingMore(items: seq<Item>, item: Item)
    ensures Lasting(items + [item])
         == Lasting(items) + if item.User? || item.Error? || item.Notice? || item.TurnEnded? then [item] else []
  {
    assert (items + [item])[..|items|] == items;
  }

  /** The same items but for some that may change. */
  predicate SameLasting(a: Item, b: Item) {
    a == b || (Changeable(a) && Changeable(b))
  }

  predicate Changeable(x: Item) {
    x.Assistant? || x.ToolCall? || x.Approval?
  }

  lemma {:induction false} LastingKept(a: seq<Item>, b: seq<Item>)
    requires |a| == |b| && forall i :: 0 <= i < |a| ==> SameLasting(a[i], b[i])
    ensures Lasting(a) == Lasting(b)
  {
    if a == [] {
    } else {
      var n := |a| - 1;
      LastingKept(a[..n], b[..n]);
      assert SameLasting(a[n], b[n]);
    }
  }

  lemma QuietLasting(items: seq<Item>)
    ensures Lasting(Quiet(items)) == Lasting(items) && Lasting(AbandonAll(Quiet(items))) == Lasting(items)
  {
    LastingKept(Quiet(items), items);
    LastingKept(AbandonAll(Quiet(items)), items);
  }

  lemma ReplacedLasting(items: seq<Item>, i: nat, item: Item)
    requires i < |items| && Changeable(items[i]) && Changeable(item)
    ensures Lasting(items[i := item]) == Lasting(items)
  {
    LastingKept(items[i := item], items);
  }

  lemma MessageLasting(items: seq<Item>, no: int, event: AgentEvent)
    requires event.AssistantDelta? || event.AssistantMessage?
    ensures Lasting(Shown(items, no, event)) == Lasting(items)
  {
    var i, text := LastStream(items), event.text;
    var streaming := event.AssistantDelta?;
    LastingMore(items, Assistant(no, text, streaming));
    if i.Some? {
      ReplacedLasting(items, i.value, Assistant(items[i.value].no, items[i.value].text + text, true));
      ReplacedLasting(items, i.value, Assistant(no, text, false));
    }
  }

  lemma ToolLasting(items: seq<Item>, no: int, event: AgentEvent)
    requires event.ToolCalled? || event.ToolResult?
    ensures Lasting(Shown(items, no, event)) == Lasting(items)
  {
    if event.ToolCalled? {
      QuietLasting(items);
      LastingMore(Quiet(items), ToolCall(no, event.callId, event.name, event.input, None));
    } else {
      var i, out := LastTool(items, event.callId), Some(ToolOutput(event.output, event.isError));
      LastingMore(items, ToolCall(no, event.callId, "", Null, out));
      if i.Some? {
        ReplacedLasting(items, i.value, items[i.value].(result := out));
      }
    }
  }

  lemma ApprovalLasting(items: seq<Item>, no: int, event: AgentEvent)
    requires event.ApprovalRequested? || event.ApprovalResolved?
    ensures Lasting(Shown(items, no, event)) == Lasting(items)
  {
    if event.ApprovalRequested? {
      QuietLasting(items);
      LastingMore(Quiet(items), Approval(no, event.approvalId, event.tool, event.input, Pending));
    } else {
      var i := LastApproval(items, event.approvalId);
      if i.Some? {
        ReplacedLasting(items, i.value, items[i.value].(state := Resolved(event.decision)));
      }
    }
  }

  lemma PlainLasting(items: seq<Item>, no: int, event: AgentEvent)
    requires event.UserMessage? || event.TurnOver? || event.ErrorReported? || event.NoticePosted?
    ensures Lasting(Shown(items, no, event)) == Lasting(items) + SaidBy(no, event)
  {
    QuietLasting(items);
    match event {
      case UserMessage(text) => LastingMore(Quiet(items), User(no, text));
      case TurnOver(outcome) => LastingMore(AbandonAll(Quiet(items)), TurnEnded(no, outcome));
      case ErrorReported(message) => LastingMore(items, Error(no, message));
      case NoticePosted(message) => LastingMore(items, Notice(no, message));
    }
  }

  lemma ShownLasting(items: seq<Item>, no: int, event: AgentEvent)
    ensures Lasting(Shown(items, no, event)) == Lasting(items) + SaidBy(no, event)
  {
    match event {
      case AssistantDelta(_) => MessageLasting(items, no, event);
      case AssistantMessage(_) => MessageLasting(items, no, event);
      case ToolCalled(_, _, _) => ToolLasting(items, no, event);
      case ToolResult(_, _, _) => ToolLasting(items, no, event);
      case ApprovalRequested(_, _, _) => ApprovalLasting(items, no, event);
      case ApprovalResolved(_, _) => ApprovalLasting(items, no, event);
      case UsageReported(_, _) =>
      case NativeSession(_) =>
      case Unknown =>
      case _ => PlainLasting(items, no, event);
    }
  }

  lemma {:induction false} ShownSaid(log: int -> AgentEvent, k: nat)
    ensures Lasting(ShownUpTo(log, k)) == Said(log, k)
  {
    if k == 0 {
    } else {
      ShownSaid(log, k - 1);
      ShownLasting(ShownUpTo(log, k - 1), k, log(k));
    }
  }

  /** Over every log, what the user said, errors, notices and ends of turns are shown exactly once each, in order,
      with their number and text. */
  lemma SaidOnce(log: int -> AgentEvent, k: nat)
    ensures Lasting(InOrder(log, k).items) == Said(log, k)
  {
    InOrderShows(log, k);
    ShownSaid(log, k);
  }

  // ---- tool cards and approvals --------------------------------------------------------------

  lemma {:induction false} LastSame(a: seq<Item>, b: seq<Item>, good: Item -> bool)
    requires |a| == |b| && forall i :: 0 <= i < |a| ==> good(a[i]) == good(b[i])
    ensures LastThat(a, good) == LastThat(b, good)
  {
    if a == [] {
    } else {
      LastSame(a[..|a| - 1], b[..|b| - 1], good);
    }
  }

  lemma LastMore(items: seq<Item>, item: Item, good: Item -> bool)
    ensures LastThat(items + [item], good) == if good(item) then Some(|items|) else LastThat(items, good)
  {
    assert (items + [item])[..|items|] == items;
  }

  /** The last card of a call, or the last approval of an id. */
  function CardShown(items: seq<Item>, id: string): Option<Item> {
    var i := LastTool(items, id);
    if i.Some? then Some(items[i.value]) else None
  }

  function ApprovalShown(items: seq<Item>, id: string): Option<Item> {
    var i := LastApproval(items, id);
    if i.Some? then Some(items[i.value]) else None
  }

  /** Items changed in place, but no card or approval of this id. */
  predicate SameFor(a: seq<Item>, b: seq<Item>, id: string) {
    |a| == |b|
    && forall i :: 0 <= i < |a| ==> a[i] == b[i] || !(Concerns(a[i], id) || Concerns(b[i], id))
  }

  predicate Concerns(x: Item, id: string) {
    IsTool(x, id) || IsApproval(x, id)
  }

  lemma SameShown(a: seq<Item>, b: seq<Item>, id: string)
    requires SameFor(a, b, id)
    ensures CardShown(a, id) == CardShown(b, id) && ApprovalShown(a, id) == ApprovalShown(b, id)
  {
    LastSame(a, b, (x: Item) => IsTool(x, id));
    LastSame(a, b, (x: Item) => IsApproval(x, id));
    var i, j := LastTool(a, id), LastApproval(a, id);
    assert LastTool(b, id) == i && LastApproval(b, id) == j;
  }

  lemma MoreShown(items: seq<Item>, item: Item, id: string)
    ensures CardShown(items + [item], id) == if IsTool(item, id) then Some(item) else CardShown(items, id)
    ensures ApprovalShown(items + [item], id) == if IsApproval(item, id) then Some(item) else ApprovalShown(items, id)
  {
    LastMore(items, item, (x: Item) => IsTool(x, id));
    LastMore(items, item, (x: Item) => IsApproval(x, id));
  }

  lemma QuietShown(items: seq<Item>, item: Item, id: string)
    ensures var r := Quiet(items) + [item];
            && CardShown(r, id) == (if IsTool(item, id) then Some(item) else CardShown(items, id))
            && ApprovalShown(r, id) == (if IsApproval(item, id) then Some(item) else ApprovalShown(items, id))
  {
    SameShown(Quiet(items), items, id);
    MoreShown(Quiet(items), item, id);
  }

  /** A pending approval that is not answered when the turn ends is abandoned; an answered one stays answered. */
  function AfterTurn(x: Option<Item>): Option<Item> {
    if x.Some? && x.value.Approval? && x.value.state == Pending then Some(x.value.(state := Abandoned)) else x
  }

  lemma TurnShown(items: seq<Item>, no: int, outcome: TurnOutcome, id: string)
    ensures var r := AbandonAll(Quiet(items)) + [TurnEnded(no, outcome)];
            CardShown(r, id) == CardShown(items, id) && ApprovalShown(r, id) == AfterTurn(ApprovalShown(items, id))
  {
    SameShown(Quiet(items), items, id);
    AbandonShown(Quiet(items), id);
    MoreShown(AbandonAll(Quiet(items)), TurnEnded(no, outcome), id);
  }

  lemma AbandonShown(items: seq<Item>, id: string)
    ensures var r := AbandonAll(items);
            CardShown(r, id) == CardShown(items, id) && ApprovalShown(r, id) == AfterTurn(ApprovalShown(items, id))
  {
    var r := AbandonAll(items);
    LastSame(r, items, (x: Item) => IsTool(x, id));
    LastSame(r, items, (x: Item) => IsApproval(x, id));
    assert LastTool(r, id) == LastTool(items, id) && LastApproval(r, id) == LastApproval(items, id);
  }

  lemma MessageShown(items: seq<Item>, no: int, event: AgentEvent, id: string)
    requires event.AssistantDelta? || event.AssistantMessage?
    ensures var r := Shown(items, no, event);
            CardShown(r, id) == CardShown(items, id) && ApprovalShown(r, id) == ApprovalShown(items, id)
  {
    MoreShown(items, Assistant(no, event.text, event.AssistantDelta?), id);
    if LastStream(items).Some? {
      SameShown(Shown(items, no, event), items, id);
    }
  }

  lemma ResultShown(items: seq<Item>, no: int, event: AgentEvent, id: string)
    requires event.ToolResult?
    ensures var r, was := Shown(items, no, event), CardShown(items, id);
            var out := Some(ToolOutput(event.output, event.isError));
            && ApprovalShown(r, id) == ApprovalShown(items, id)
            && CardShown(r, id)
                 == if event.callId != id then was
                    else if was.Some? then Some(was.value.(result := out))
                    else Some(ToolCall(no, id, "", Null, out))
  {
    var i, out := LastTool(items, event.callId), Some(ToolOutput(event.output, event.isError));
    MoreShown(items, ToolCall(no, event.callId, "", Null, out), id);
    if i.Some? {
      var r := items[i.value := items[i.value].(result := out)];
      LastSame(r, items, (x: Item) => IsTool(x, id));
      LastSame(r, items, (x: Item) => IsApproval(x, id));
      assert LastTool(r, id) == LastTool(items, id) && LastApproval(r, id) == LastApproval(items, id);
    }
  }

  lemma AnswerShown(items: seq<Item>, no: int, event: AgentEvent, id: string)
    requires event.ApprovalResolved?
    ensures var r, was := Shown(items, no, event), ApprovalShown(items, id);
            && CardShown(r, id) == CardShown(items, id)
            && ApprovalShown(r, id)
                 == if event.approvalId == id && was.Some? then Some(was.value.(state := Resolved(event.decision)))
                    else was
  {
    var i := LastApproval(items, event.approvalId);
    if i.Some? {
      var r := items[i.value := items[i.value].(state := Resolved(event.decision))];
      LastSame(r, items, (x: Item) => IsTool(x, id));
      LastSame(r, items, (x: Item) => IsApproval(x, id));
      assert LastTool(r, id) == LastTool(items, id) && LastApproval(r, id) == LastApproval(items, id);
    }
  }

  /** The card of a call: what the last call of that id said, with the last result after it; or the result alone. */
  function CardOf(log: int -> AgentEvent, id: string, k: nat): Option<Item> {
    if k == 0 then None
    else
      var before := CardOf(log, id, k - 1);
      match log(k)
      case ToolCalled(callId, name, input) => if callId == id then Some(ToolCall(k, id, name, input, None)) else before
      case ToolResult(callId, output, isError) =>
        if callId != id then before
        else if before.Some? && before.value.ToolCall? then
          Some(before.value.(result := Some(ToolOutput(output, isError))))
        else Some(ToolCall(k, id, "", Null, Some(ToolOutput(output, isError))))
      case _ => before
  }

  /** The approval of an id: what the last request asked, and the last answer after it; if there was none when the
      turn ended, it is abandoned. */
  function ApprovalOf(log: int -> AgentEvent, id: string, k: nat): Option<Item> {
    if k == 0 then None
    else
      var before := ApprovalOf(log, id, k - 1);
      match log(k)
      case ApprovalRequested(approvalId, tool, input) =>
        if approvalId == id then Some(Approval(k, id, tool, input, Pending)) else before
      case ApprovalResolved(approvalId, decision) =>
        if approvalId == id && before.Some? && before.value.Approval?
        then Some(before.value.(state := Resolved(decision))) else before
      case TurnOver(_) => AfterTurn(before)
      case _ => before
  }

  lemma EventShown(items: seq<Item>, log: int -> AgentEvent, k: nat, id: string)
    requires CardShown(items, id) == CardOf(log, id, k) && ApprovalShown(items, id) == ApprovalOf(log, id, k)
    ensures var r := Shown(items, k + 1, log(k + 1));
            CardShown(r, id) == CardOf(log, id, k + 1) && ApprovalShown(r, id) == ApprovalOf(log, id, k + 1)
  {
    var no, event := k + 1, log(k + 1);
    match event {
      case AssistantDelta(_) => MessageShown(items, no, event, id);
      case AssistantMessage(_) => MessageShown(items, no, event, id);
      case ToolResult(_, _, _) => ResultShown(items, no, event, id);
      case ApprovalResolved(_, _) => AnswerShown(items, no, event, id);
      case TurnOver(outcome) => TurnShown(items, no, outcome, id);
      case _ => OtherShown(items, no, event, id);
    }
  }

  lemma OtherShown(items: seq<Item>, no: int, event: AgentEvent, id: string)
    requires !event.AssistantDelta? && !event.AssistantMessage? && !event.ToolResult?
    requires !event.ApprovalResolved? && !event.TurnOver?
    ensures var r := Shown(items, no, event);
            && CardShown(r, id)
                 == (if event.ToolCalled? && event.callId == id then
                       Some(ToolCall(no, id, event.name, event.input, None))
                     else CardShown(items, id))
            && ApprovalShown(r, id)
                 == (if event.ApprovalRequested? && event.approvalId == id then
                       Some(Approval(no, id, event.tool, event.input, Pending))
                     else ApprovalShown(items, id))
  {
    match event {
      case UserMessage(text) => QuietShown(items, User(no, text), id);
      case ToolCalled(callId, name, input) => QuietShown(items, ToolCall(no, callId, name, input, None), id);
      case ApprovalRequested(approvalId, tool, input) =>
        QuietShown(items, Approval(no, approvalId, tool, input, Pending), id);
      case ErrorReported(message) => MoreShown(items, Error(no, message), id);
      case NoticePosted(message) => MoreShown(items, Notice(no, message), id);
      case _ =>
    }
  }

  lemma {:induction false} ShownCards(log: int -> AgentEvent, k: nat, id: string)
    ensures CardShown(ShownUpTo(log, k), id) == CardOf(log, id, k)
    ensures ApprovalShown(ShownUpTo(log, k), id) == ApprovalOf(log, id, k)
  {
    if k == 0 {
    } else {
      ShownCards(log, k - 1, id);
      EventShown(ShownUpTo(log, k - 1), log, k - 1, id);
    }
  }

  /** Over every log, the last card of each call and the last approval of each id are what the log says of them. */
  lemma CardsAndApprovals(log: int -> AgentEvent, k: nat, id: string)
    ensures CardShown(InOrder(log, k).items, id) == CardOf(log, id, k)
    ensures ApprovalShown(InOrder(log, k).items, id) == ApprovalOf(log, id, k)
  {
    InOrderShows(log, k);
    ShownCards(log, k, id);
  }

  // ---- usage ---------------------------------------------------------------------------------

  function InputTokens(log: int -> AgentEvent, k: nat): nat {
    if k == 0 then 0 else InputTokens(log, k - 1) + if log(k).UsageReported? then log(k).inputTokens else 0
  }

  function OutputTokens(log: int -> AgentEvent, k: nat): nat {
    if k == 0 then 0 else OutputTokens(log, k - 1) + if log(k).UsageReported? then log(k).outputTokens else 0
  }

  lemma UsageStep(c: Conversation, no: int, event: AgentEvent)
    ensures var u := Reduce(c, no, event).usage;
            && u.inputTokens == c.usage.inputTokens + (if event.UsageReported? then event.inputTokens else 0)
            && u.outputTokens == c.usage.outputTokens + (if event.UsageReported? then event.outputTokens else 0)
  {
  }

  /** Usage is the sum of all reports. */
  lemma {:induction false} UsageSums(log: int -> AgentEvent, k: nat)
    ensures InOrder(log, k).usage == Usage(InputTokens(log, k), OutputTokens(log, k))
  {
    if k == 0 {
    } else {
      UsageSums(log, k - 1);
      UsageStep(InOrder(log, k - 1), k, log(k));
    }
  }

  // ---- whatever order events come in ---------------------------------------------------------

  /** After events of one log were offered in any order and with any repetition, the conversation shows the log up to
      the first event missing: its items, its streaming text, its usage. */
  lemma ScheduleShows(log: int -> AgentEvent, schedule: seq<int>)
    ensures var c := Offered(FRESH, FromLog(log, schedule)).core;
            && c.lastSeq >= 0 && c.items == ShownUpTo(log, c.lastSeq) && Streams(c, log, c.lastSeq)
            && c.usage == Usage(InputTokens(log, c.lastSeq), OutputTokens(log, c.lastSeq))
  {
    ScheduleConverges(log, schedule);
    var k := Offered(FRESH, FromLog(log, schedule)).core.lastSeq;
    InOrderShows(log, k);
    StreamedText(log, k);
    UsageSums(log, k);
  }

  /** An event offered after others of the log is a duplicate if it came before, is taken if it is the first that had
      not come, and else reports that one as missing. */
  lemma OfferAnswered(log: int -> AgentEvent, schedule: seq<int>, no: int, k: nat)
    requires no >= 1 && LongestPrefix((set s | s in schedule && s >= 1), k)
    ensures ApplySeq(Offered(FRESH, FromLog(log, schedule)), no, log(no)).1
         == if no in schedule then Duplicate else if no == k + 1 then Changed else Gap(k + 1)
  {
    var offered := set s | s in schedule && s >= 1;
    ScheduleConverges(log, schedule);
    var t := Offered(FRESH, FromLog(log, schedule));
    PrefixUnique(offered, k, t.core.lastSeq);
    assert no in schedule <==> no in offered;
    assert no in t.held <==> no in offered && no > k;
  }
}
