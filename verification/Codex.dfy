/**
 The Codex session of internal/codex/session.go over an abstract message stream: the handshake, the turn loop
 and the replies to approvals, input requests and tool calls.

 `trace` records in order what the session read, wrote and emitted. A failed read or write is part of the
 stream: `incoming` holds None where ReadLine fails, `writeFails` says which writes fail.
 */
module Codex {
  import opened Text
  import opened Domain

  datatype Id = Absent | Number(value: real) | Name(text: string)

  /** sameID for the session's own numbers: numbers are truncated, strings compared as decimals. */
  predicate SameId(id: Id, n: nat)
    requires 0 < n < 10
  {
    match id
    case Absent => false
    case Number(value) => value.Floor == n
    case Name(text) => text == [('0' as int + n) as char]
  }

  /** A response is the session's own where its ID is the number, apart from a fraction, or the number as a text. */
  lemma OwnNumber(value: real, text: string, n: nat)
    requires 0 < n < 10
    ensures SameId(Number(value), n) <==> n as real <= value < (n + 1) as real
    ensures SameId(Name(text), n) <==> |text| == 1 && text[0] as int == 48 + n
    ensures !SameId(Absent, n)
  {
    assert value.Floor as real <= value < (value.Floor + 1) as real;
  }

  datatype Question = Question(id: string, labels: seq<string>)

  /** A line as it arrives: JSON with the parts the session looks at, or anything else. `tool` is "" without a tool name. */
  datatype Raw =
    | NotJson
    | Object(verb: string, id: Id, isError: bool, result: Option<Payload>, questions: seq<Question>, tool: string)

  /** The same line with its method classified. */
  datatype Line =
    | Malformed
    | Message(purpose: Purpose, id: Id, isError: bool, result: Option<Payload>, questions: seq<Question>, tool: string)

  datatype Purpose = Ends(status: TurnStatus) | Approval(decision: Approved) | Input | Tool | Other

  /** The two approvals that last for the session: the texts acceptForSession and approved_for_session. */
  datatype Approved = AcceptForSession | ApprovedForSession

  function Classify(verb: string): Purpose {
    match verb
    case "turn/completed" => Ends(TurnStatus.TurnCompleted)
    case "turn/failed" => Ends(TurnFailed)
    case "turn/cancelled" => Ends(TurnCancelled)
    case "item/commandExecution/requestApproval" => Approval(AcceptForSession)
    case "item/fileChange/requestApproval" => Approval(AcceptForSession)
    case "execCommandApproval" => Approval(ApprovedForSession)
    case "applyPatchApproval" => Approval(ApprovedForSession)
    case "item/tool/requestUserInput" => Input
    case "item/tool/call" => Tool
    case _ => Other
  }

  function Decode(raw: Raw): Line {
    if raw.NotJson? then Malformed
    else Message(Classify(raw.verb), raw.id, raw.isError, raw.result, raw.questions, raw.tool)
  }

  datatype Payload = Payload(threadId: string, turnId: string)

  datatype TurnStatus = TurnCompleted | TurnFailed | TurnCancelled

  datatype Sent =
    | Initialize | Initialized | ThreadStart
    | TurnStart(threadId: string)
    | Decision(id: Id, decision: Approved)
    | Answers(id: Id, answers: map<string, string>)
    | ToolResult(id: Id, success: bool, error: ToolError)

  datatype Event =
    | SessionStarted | TurnEnded(status: TurnStatus)
    | ToolCallCompleted | ToolCallFailed | UnsupportedToolCall
    | ApprovalAnswered | ToolInputAnswered
    | MalformedMessage | UnknownMessage

  datatype Act = Read(line: Line) | Wrote(message: Sent) | Emitted(event: Event)

  /** What a tool handler returns: its own result, ErrUnsupportedTool, or another error. */
  datatype ToolAnswer = Handled(success: bool, error: string) | Unsupported | HandlerFailed(message: string)

  /** The error text of a tool result; `UnsupportedTool` is the text unsupported_tool_call. */
  datatype ToolError = UnsupportedTool | ErrorText(text: string)

  function ToolReply(id: Id, answer: ToolAnswer): Sent {
    match answer
    case Handled(success, error) => ToolResult(id, success, ErrorText(error))
    case Unsupported => ToolResult(id, false, UnsupportedTool)
    case HandlerFailed(message) => ToolResult(id, false, ErrorText(message))
  }

  function ToolEvent(answer: ToolAnswer): Event {
    match answer
    case Handled(success, _) => if success then ToolCallCompleted else ToolCallFailed
    case Unsupported => UnsupportedToolCall
    case HandlerFailed(_) => ToolCallFailed
  }

  /** A tool call succeeds exactly when its handler says so; the reply and the event both tell why it does not. */
  lemma ToolOutcome(id: Id, answer: ToolAnswer)
    ensures answer.Handled? ==>
              && ToolReply(id, answer) == ToolResult(id, answer.success, ErrorText(answer.error))
              && ToolEvent(answer) == if answer.success then ToolCallCompleted else ToolCallFailed
    ensures answer.Unsupported? ==>
              ToolReply(id, answer) == ToolResult(id, false, UnsupportedTool) && ToolEvent(answer) == UnsupportedToolCall
    ensures answer.HandlerFailed? ==>
              && ToolReply(id, answer) == ToolResult(id, false, ErrorText(answer.message))
              && ToolEvent(answer) == ToolCallFailed
  {
  }

  datatype Failure =
    | SessionClosed | WriteFailed | ReadFailed | ResponseError | InvalidPayload | ApprovalRequired

  datatype Outcome<T> = Good(value: T) | Bad(failure: Failure)

  const INITIALIZE_ID := 1
  const THREAD_START_ID := 2
  const TURN_START_ID := 3

  /** The fixed texts of input requests: labels taken as they are, beginnings of others, and the refusal. */
  datatype Wording = Wording(exact: set<string>, openings: set<string>, refusal: string, lower: string -> string)

  function StandardWording(lower: string -> string): Wording {
    Wording({"Approve this Session", "Approve Once"}, {"approve", "allow"},
            "This is a non-interactive session. Operator input is unavailable.", lower)
  }

  // ----- what a line asks for -----

  function PurposeOf(line: Line): Purpose {
    if line.Malformed? then Other else line.purpose
  }

  predicate IsRequest(line: Line) {
    PurposeOf(line).Approval? || PurposeOf(line).Input? || PurposeOf(line).Tool?
  }

  ghost function QuestionIds(questions: seq<Question>): set<string> {
    set q | q in questions :: q.id
  }

  /** The acts of one handled line that does not end the turn: a request is answered once, under its own ID. */
  ghost predicate IsExchange(acts: seq<Act>) {
    && |acts| >= 2 && acts[0].Read?
    && var line := acts[0].line;
       match PurposeOf(line)
       case Ends(_) => false
       case Approval(decision) => acts[1..] == [Wrote(Decision(line.id, decision)), Emitted(ApprovalAnswered)]
       case Input =>
         |acts| == 3 && acts[1].Wrote? && acts[1].message.Answers? && acts[1].message.id == line.id
         && acts[1].message.answers.Keys == QuestionIds(line.questions) && acts[2] == Emitted(ToolInputAnswered)
       case Tool =>
         |acts| == 3 && acts[1].Wrote? && acts[1].message.ToolResult? && acts[1].message.id == line.id
         && acts[2].Emitted? && (acts[2].event.ToolCallCompleted? <==> acts[1].message.success)
         && (acts[2].event.ToolCallCompleted? || acts[2].event.ToolCallFailed? || acts[2].event.UnsupportedToolCall?)
       case Other => acts[1..] == [Emitted(if line.Malformed? then MalformedMessage else UnknownMessage)]
  }

  ghost predicate AllExchanges(exchanges: seq<seq<Act>>) {
    forall k :: 0 <= k < |exchanges| ==> IsExchange(exchanges[k])
  }

  /** A line read while waiting for a response and not matching its ID: reported, never answered. */
  predicate IsSkip(acts: seq<Act>, id: nat)
    requires 0 < id < 10
  {
    && |acts| == 2 && acts[0].Read?
    && (if acts[0].line.Malformed? then acts[1] == Emitted(MalformedMessage)
        else !SameId(acts[0].line.id, id) && acts[1] == Emitted(UnknownMessage))
  }

  predicate AllSkips(skipped: seq<seq<Act>>, id: nat)
    requires 0 < id < 10
  {
    forall k :: 0 <= k < |skipped| ==> IsSkip(skipped[k], id)
  }

  lemma OneMoreSkip(start: seq<Act>, skipped: seq<seq<Act>>, next: seq<Act>, id: nat)
    requires 0 < id < 10 && AllSkips(skipped, id) && IsSkip(next, id)
    ensures AllSkips(skipped + [next], id)
    ensures start + Joined(skipped) + next == start + Joined(skipped + [next])
  {
    assert (skipped + [next])[..|skipped|] == skipped;
  }

  function Joined(parts: seq<seq<Act>>): seq<Act> {
    if parts == [] then [] else Joined(parts[..|parts| - 1]) + parts[|parts| - 1]
  }

  lemma OneMoreExchange(start: seq<Act>, exchanges: seq<seq<Act>>, next: seq<Act>)
    requires AllExchanges(exchanges) && IsExchange(next)
    ensures AllExchanges(exchanges + [next])
    ensures start + Joined(exchanges) + next == start + Joined(exchanges + [next])
  {
    assert (exchanges + [next])[..|exchanges|] == exchanges;
  }

  /** Waiting for the response to request id: skipped lines, and the response if it came. */
  ghost predicate Awaits(acts: seq<Act>, id: nat, answered: bool)
    requires 0 < id < 10
  {
    exists skipped: seq<seq<Act>> :: AwaitsWith(acts, id, answered, skipped)
  }

  ghost predicate AwaitsWith(acts: seq<Act>, id: nat, answered: bool, skipped: seq<seq<Act>>)
    requires 0 < id < 10
  {
    && AllSkips(skipped, id)
    && if answered then
         && acts != [] && acts[..|acts| - 1] == Joined(skipped)
         && acts[|acts| - 1].Read? && acts[|acts| - 1].line.Message? && SameId(acts[|acts| - 1].line.id, id)
       else acts == Joined(skipped)
  }

  // ----- turns -----

  /** `opening` up to the response to turn/start, the handled lines, and how the loop ended. */
  datatype Turn = Turn(opening: seq<Act>, exchanges: seq<seq<Act>>, ending: seq<Act>)

  function ActsOf(turn: Turn): seq<Act> {
    turn.opening + Joined(turn.exchanges) + turn.ending
  }

  /** turn/start in the session's thread, then the wait; nothing at all when that write failed. */
  ghost predicate IsOpening(acts: seq<Act>, threadId: string, answered: bool) {
    || (acts == [] && !answered)
    || (acts != [] && acts[0] == Wrote(TurnStart(threadId)) && Awaits(acts[1..], TURN_START_ID, answered))
  }

  /** A turn with a status: every line of the loop handled, the last one ending the turn. */
  ghost predicate IsComplete(turn: Turn, threadId: string, status: TurnStatus) {
    && IsOpening(turn.opening, threadId, true)
    && AllExchanges(turn.exchanges)
    && |turn.ending| == 2 && turn.ending[0].Read? && PurposeOf(turn.ending[0].line) == Ends(status)
    && turn.ending[1] == Emitted(TurnEnded(status))
  }

  /** A turn with an error: at most the last line read, a request, is left without its answer. */
  ghost predicate IsBroken(turn: Turn, threadId: string) {
    && (exists answered :: IsOpening(turn.opening, threadId, answered)
                           && (!answered ==> turn.exchanges == [] && turn.ending == []))
    && AllExchanges(turn.exchanges)
    && (turn.ending == [] || (|turn.ending| == 1 && turn.ending[0].Read? && IsRequest(turn.ending[0].line)))
  }

  // ----- consequences for writes and events -----

  function Writes(acts: seq<Act>): seq<Sent> {
    if acts == [] then []
    else (if acts[0].Wrote? then [acts[0].message] else []) + Writes(acts[1..])
  }

  function Requested(acts: seq<Act>): seq<Id> {
    if acts == [] then []
    else (if acts[0].Read? && IsRequest(acts[0].line) then [acts[0].line.id] else []) + Requested(acts[1..])
  }

  predicate IsReply(message: Sent) {
    message.Decision? || message.Answers? || message.ToolResult?
  }

  function Replied(messages: seq<Sent>): seq<Id> {
    if messages == [] then []
    else (if IsReply(messages[0]) then [messages[0].id] else []) + Replied(messages[1..])
  }

  predicate EndsTurn(act: Act) {
    act.Emitted? && act.event.TurnEnded?
  }

  predicate AllReplies(messages: seq<Sent>) {
    forall k :: 0 <= k < |messages| ==> IsReply(messages[k])
  }

  predicate NoTurnEnd(acts: seq<Act>) {
    forall k :: 0 <= k < |acts| ==> !EndsTurn(acts[k])
  }

  lemma {:induction false} WritesAppend(a: seq<Act>, b: seq<Act>)
    ensures Writes(a + b) == Writes(a) + Writes(b)
    decreases |a|
  {
    if a == [] {
      assert a + b == b;
    } else {
      var first := if a[0].Wrote? then [a[0].message] else [];
      assert (a + b)[0] == a[0] && (a + b)[1..] == a[1..] + b;
      WritesAppend(a[1..], b);
      assert first + (Writes(a[1..]) + Writes(b)) == (first + Writes(a[1..])) + Writes(b);
    }
  }

  lemma {:induction false} RequestedAppend(a: seq<Act>, b: seq<Act>)
    ensures Requested(a + b) == Requested(a) + Requested(b)
    decreases |a|
  {
    if a == [] {
      assert a + b == b;
    } else {
      var first := if a[0].Read? && IsRequest(a[0].line) then [a[0].line.id] else [];
      assert (a + b)[0] == a[0] && (a + b)[1..] == a[1..] + b;
      RequestedAppend(a[1..], b);
      assert first + (Requested(a[1..]) + Requested(b)) == (first + Requested(a[1..])) + Requested(b);
    }
  }

  lemma {:induction false} RepliedAppend(a: seq<Sent>, b: seq<Sent>)
    ensures Replied(a + b) == Replied(a) + Replied(b)
    decreases |a|
  {
    if a == [] {
      assert a + b == b;
    } else {
      var first := if IsReply(a[0]) then [a[0].id] else [];
      assert (a + b)[0] == a[0] && (a + b)[1..] == a[1..] + b;
      RepliedAppend(a[1..], b);
      assert first + (Replied(a[1..]) + Replied(b)) == (first + Replied(a[1..])) + Replied(b);
    }
  }

  lemma ThreeActs(acts: seq<Act>)
    requires |acts| == 3
    ensures Writes(acts) == Writes([acts[0]]) + Writes([acts[1]]) + Writes([acts[2]])
    ensures Requested(acts) == Requested([acts[0]]) + Requested([acts[1]]) + Requested([acts[2]])
  {
    assert acts == [acts[0]] + [acts[1]] + [acts[2]];
    WritesAppend([acts[0]] + [acts[1]], [acts[2]]);
    WritesAppend([acts[0]], [acts[1]]);
    RequestedAppend([acts[0]] + [acts[1]], [acts[2]]);
    RequestedAppend([acts[0]], [acts[1]]);
  }

  /** One exchange answers its request, if it is one, exactly once and with the request's ID. */
  lemma ExchangeAnswers(acts: seq<Act>)
    requires IsExchange(acts)
    ensures Replied(Writes(acts)) == Requested(acts) && AllReplies(Writes(acts)) && NoTurnEnd(acts)
  {
    if IsRequest(acts[0].line) {
      RequestAnswered(acts);
    } else {
      assert acts == [acts[0]] + acts[1..] && acts[1] == acts[1..][0];
      WritesAppend([acts[0]], acts[1..]);
      RequestedAppend([acts[0]], acts[1..]);
    }
  }

  lemma RequestAnswered(acts: seq<Act>)
    requires IsExchange(acts) && IsRequest(acts[0].line)
    ensures Replied(Writes(acts)) == Requested(acts) && AllReplies(Writes(acts)) && NoTurnEnd(acts)
  {
    assert acts[1] == acts[1..][0] && acts[2] == acts[1..][1];
    ThreeActs(acts);
    LastRequest(acts[0]);
    assert Writes(acts) == [acts[1].message];
  }

  /** Over any number of exchanges the reply IDs are the request IDs, in order and one for one. */
  lemma {:induction false} ExchangesAnswer(exchanges: seq<seq<Act>>)
    requires AllExchanges(exchanges)
    ensures var acts := Joined(exchanges);
            Replied(Writes(acts)) == Requested(acts) && AllReplies(Writes(acts)) && NoTurnEnd(acts)
    decreases |exchanges|
  {
    if exchanges != [] {
      var n := |exchanges| - 1;
      ExchangesAnswer(exchanges[..n]);
      ExchangeAnswers(exchanges[n]);
      WritesAppend(Joined(exchanges[..n]), exchanges[n]);
      RequestedAppend(Joined(exchanges[..n]), exchanges[n]);
      RepliedAppend(Writes(Joined(exchanges[..n])), Writes(exchanges[n]));
    }
  }

  lemma {:induction false} SkipsAreSilent(skipped: seq<seq<Act>>, id: nat)
    requires 0 < id < 10 && AllSkips(skipped, id)
    ensures Writes(Joined(skipped)) == [] && NoTurnEnd(Joined(skipped))
    decreases |skipped|
  {
    if skipped != [] {
      var n := |skipped| - 1;
      SkipsAreSilent(skipped[..n], id);
      WritesAppend(Joined(skipped[..n]), skipped[n]);
      assert skipped[n] == [skipped[n][0]] + [skipped[n][1]];
      WritesAppend([skipped[n][0]], [skipped[n][1]]);
    }
  }

  /** Nothing is written while a response is awaited. */
  lemma AwaitingIsSilent(acts: seq<Act>, id: nat, answered: bool)
    requires 0 < id < 10 && Awaits(acts, id, answered)
    ensures Writes(acts) == [] && NoTurnEnd(acts)
  {
    var skipped :| AwaitsWith(acts, id, answered, skipped);
    SkipsAreSilent(skipped, id);
    if answered {
      assert acts == acts[..|acts| - 1] + [acts[|acts| - 1]];
      WritesAppend(acts[..|acts| - 1], [acts[|acts| - 1]]);
    }
  }

  lemma OpeningWrites(acts: seq<Act>, threadId: string, answered: bool)
    requires IsOpening(acts, threadId, answered)
    ensures Writes(acts) == if acts == [] then [] else [TurnStart(threadId)]
    ensures NoTurnEnd(acts)
  {
    if acts != [] {
      AwaitingIsSilent(acts[1..], TURN_START_ID, answered);
      assert acts == [acts[0]] + acts[1..];
    }
  }

  /** What a turn writes: its start, if that write succeeded, and what its loop wrote. */
  function WritesOf(turn: Turn, threadId: string): seq<Sent> {
    (if turn.opening == [] then [] else [TurnStart(threadId)]) + Writes(Joined(turn.exchanges))
  }

  /** A turn that returns a status wrote turn/start and then only what its loop wrote. */
  lemma CompleteTurnWrites(turn: Turn, threadId: string, status: TurnStatus)
    requires IsComplete(turn, threadId, status)
    ensures turn.opening != [] && Writes(ActsOf(turn)) == WritesOf(turn, threadId)
  {
    var loop := Joined(turn.exchanges);
    OpeningWrites(turn.opening, threadId, true);
    TerminalIsSilent(turn.ending);
    WritesAppend(turn.opening, loop);
    WritesAppend(turn.opening + loop, turn.ending);
  }

  /** The IDs of its replies are, in order and one for one, the IDs of the requests read in the loop. */
  lemma CompleteTurnAnswers(turn: Turn, threadId: string, status: TurnStatus)
    requires IsComplete(turn, threadId, status)
    ensures var loop := Joined(turn.exchanges);
            Replied(Writes(loop)) == Requested(loop + turn.ending) && AllReplies(Writes(loop))
  {
    ExchangesAnswer(turn.exchanges);
    TerminalIsSilent(turn.ending);
    RequestedAppend(Joined(turn.exchanges), turn.ending);
  }

  /** Exactly one terminal event is emitted, as the very last act, with the turn's status. */
  lemma CompleteTurnEndsOnce(turn: Turn, threadId: string, status: TurnStatus)
    requires IsComplete(turn, threadId, status)
    ensures var acts := ActsOf(turn);
            |acts| > 0 && acts[|acts| - 1] == Emitted(TurnEnded(status)) && NoTurnEnd(acts[..|acts| - 1])
  {
    OpeningWrites(turn.opening, threadId, true);
    ExchangesAnswer(turn.exchanges);
    EndsOnce(turn.opening, Joined(turn.exchanges), turn.ending);
  }

  lemma TerminalIsSilent(ending: seq<Act>)
    requires |ending| == 2 && ending[0].Read? && PurposeOf(ending[0].line).Ends? && EndsTurn(ending[1])
    ensures Writes(ending) == [] && Requested(ending) == []
  {
    assert ending == [ending[0]] + [ending[1]];
    WritesAppend([ending[0]], [ending[1]]);
    RequestedAppend([ending[0]], [ending[1]]);
  }

  lemma EndsOnce(opening: seq<Act>, loop: seq<Act>, ending: seq<Act>)
    requires NoTurnEnd(opening) && NoTurnEnd(loop)
    requires |ending| == 2 && !EndsTurn(ending[0]) && EndsTurn(ending[1])
    ensures var acts := opening + loop + ending;
            acts[|acts| - 1] == ending[1] && NoTurnEnd(acts[..|acts| - 1])
  {
    var acts := opening + loop + ending;
    assert acts[..|acts| - 1] == opening + loop + [ending[0]];
  }

  lemma UnansweredIsSilent(ending: seq<Act>)
    requires ending == [] || (|ending| == 1 && ending[0].Read?)
    ensures Writes(ending) == [] && NoTurnEnd(ending)
  {
  }

  lemma BrokenTurnWrites(turn: Turn, threadId: string)
    requires IsBroken(turn, threadId)
    ensures Writes(ActsOf(turn)) == WritesOf(turn, threadId)
    ensures AllReplies(Writes(Joined(turn.exchanges)))
  {
    var loop := Joined(turn.exchanges);
    var answered :| IsOpening(turn.opening, threadId, answered);
    OpeningWrites(turn.opening, threadId, answered);
    ExchangesAnswer(turn.exchanges);
    UnansweredIsSilent(turn.ending);
    WritesAppend(turn.opening, loop);
    WritesAppend(turn.opening + loop, turn.ending);
    assert WritesOf(turn, threadId) + [] == WritesOf(turn, threadId);
  }

  /** A turn that fails emits no terminal event. */
  lemma BrokenTurnNeverEnds(turn: Turn, threadId: string)
    requires IsBroken(turn, threadId)
    ensures NoTurnEnd(ActsOf(turn))
  {
    var answered :| IsOpening(turn.opening, threadId, answered);
    OpeningWrites(turn.opening, threadId, answered);
    ExchangesAnswer(turn.exchanges);
    UnansweredIsSilent(turn.ending);
  }

  /** A turn that fails has answered every request it read in the loop, except possibly the last line. */
  lemma BrokenTurnAnswers(turn: Turn, threadId: string)
    requires IsBroken(turn, threadId)
    ensures var loop := Joined(turn.exchanges);
            Requested(loop + turn.ending)
            == Replied(Writes(loop)) + (if turn.ending == [] then [] else [turn.ending[0].line.id])
  {
    ExchangesAnswer(turn.exchanges);
    RequestedAppend(Joined(turn.exchanges), turn.ending);
    if turn.ending != [] {
      LastRequest(turn.ending[0]);
      assert turn.ending == [turn.ending[0]];
    }
  }

  lemma LastRequest(act: Act)
    requires act.Read? && IsRequest(act.line)
    ensures Requested([act]) == [act.line.id]
  {
    assert [act][1..] == [];
  }

  // ----- said of the lines as they arrive -----

  /** The method that ends a turn with a status. */
  function EndingVerb(status: TurnStatus): string {
    match status
    case TurnCompleted => "turn/completed"
    case TurnFailed => "turn/failed"
    case TurnCancelled => "turn/cancelled"
  }

  /** The line ends its turn with the status. */
  predicate EndsWith(raw: Raw, status: TurnStatus) {
    raw.Object? && raw.verb == EndingVerb(status)
  }

  /** The line asks for something: one of the four approvals, an input request or a tool call. */
  predicate Asks(raw: Raw) {
    raw.Object?
    && (raw.verb == "item/commandExecution/requestApproval" || raw.verb == "item/fileChange/requestApproval"
        || raw.verb == "execCommandApproval" || raw.verb == "applyPatchApproval"
        || raw.verb == "item/tool/requestUserInput" || raw.verb == "item/tool/call")
  }

  /** The message answers the line: under its ID, and for an approval with the decision its method calls for. */
  ghost predicate IsReplyTo(raw: Raw, message: Sent) {
    raw.Object?
    && if raw.verb == "item/tool/call" then message.ToolResult? && message.id == raw.id
       else if raw.verb == "item/tool/requestUserInput" then
         message.Answers? && message.id == raw.id && message.answers.Keys == QuestionIds(raw.questions)
       else if raw.verb == "execCommandApproval" || raw.verb == "applyPatchApproval" then
         message == Decision(raw.id, ApprovedForSession)
       else message == Decision(raw.id, AcceptForSession)
  }

  /** The messages answer, in order and one for one, those of the lines that ask for something. */
  ghost predicate Answered(raws: seq<Raw>, messages: seq<Sent>)
    decreases |raws|
  {
    if raws == [] then messages == []
    else
      var before, last := raws[..|raws| - 1], raws[|raws| - 1];
      if Asks(last) then
        messages != [] && IsReplyTo(last, messages[|messages| - 1]) && Answered(before, messages[..|messages| - 1])
      else Answered(before, messages)
  }

  lemma EndingByVerb(raw: Raw, status: TurnStatus)
    ensures PurposeOf(Decode(raw)) == Ends(status) <==> EndsWith(raw, status)
  {
  }

  /** What a line asks for, by its method. */
  lemma RequestByVerb(raw: Raw)
    ensures IsRequest(Decode(raw)) <==> Asks(raw)
    ensures PurposeOf(Decode(raw)) == Tool <==> raw.Object? && raw.verb == "item/tool/call"
    ensures PurposeOf(Decode(raw)) == Input <==> raw.Object? && raw.verb == "item/tool/requestUserInput"
    ensures PurposeOf(Decode(raw)) == Approval(ApprovedForSession)
            <==> raw.Object? && (raw.verb == "execCommandApproval" || raw.verb == "applyPatchApproval")
  {
  }

  /** The lines that arrived from a position on, where all of them could be read. */
  ghost predicate Arrived(incoming: seq<Option<Raw>>, from: nat, raws: seq<Raw>) {
    && from + |raws| <= |incoming|
    && forall k :: 0 <= k < |raws| ==> incoming[from + k] == Some(raws[k])
  }

  /** The exchanges are about these lines. */
  ghost predicate About(exchanges: seq<seq<Act>>, raws: seq<Raw>) {
    && |exchanges| == |raws|
    && forall k :: 0 <= k < |raws| ==> exchanges[k] != [] && exchanges[k][0] == Read(Decode(raws[k]))
  }

  /** An exchange writes the reply its line asks for, or nothing; and its line does not end the turn. */
  lemma ExchangeByVerb(acts: seq<Act>, raw: Raw)
    requires IsExchange(acts) && acts[0] == Read(Decode(raw))
    ensures if Asks(raw) then |Writes(acts)| == 1 && IsReplyTo(raw, Writes(acts)[0]) else Writes(acts) == []
    ensures forall status :: !EndsWith(raw, status)
  {
    forall status ensures !EndsWith(raw, status) { EndingByVerb(raw, status); }
    RequestByVerb(raw);
    if Asks(raw) {
      assert acts[1] == acts[1..][0] && acts[2] == acts[1..][1];
      ThreeActs(acts);
      assert Writes(acts) == [acts[1].message];
    } else {
      assert acts == [acts[0]] + [acts[1]] && acts[1] == acts[1..][0];
      WritesAppend([acts[0]], [acts[1]]);
    }
  }

  lemma AnsweredOnceMore(raws: seq<Raw>, messages: seq<Sent>, raw: Raw, more: seq<Sent>)
    requires Answered(raws, messages)
    requires if Asks(raw) then |more| == 1 && IsReplyTo(raw, more[0]) else more == []
    ensures Answered(raws + [raw], messages + more)
  {
    assert (raws + [raw])[..|raws|] == raws;
    if Asks(raw) {
      assert (messages + more)[..|messages|] == messages;
    } else {
      assert messages + more == messages;
    }
  }

  /** The loop of a turn answered exactly the lines that ask for something, and none of them ends a turn. */
  lemma {:induction false} LoopByVerbs(exchanges: seq<seq<Act>>, raws: seq<Raw>)
    requires AllExchanges(exchanges) && About(exchanges, raws)
    ensures Answered(raws, Writes(Joined(exchanges)))
    ensures forall k, status :: 0 <= k < |raws| ==> !EndsWith(raws[k], status)
    decreases |raws|
  {
    if raws != [] {
      var n := |raws| - 1;
      LoopByVerbs(exchanges[..n], raws[..n]);
      ExchangeByVerb(exchanges[n], raws[n]);
      WritesAppend(Joined(exchanges[..n]), exchanges[n]);
      AnsweredOnceMore(raws[..n], Writes(Joined(exchanges[..n])), raws[n], Writes(exchanges[n]));
      assert raws == raws[..n] + [raws[n]];
      assert forall k :: 0 <= k < n ==> raws[k] == raws[..n][k];
    }
  }

  /**
   A turn over the lines of its loop: with a status, the line after them has the method of that status; and
   each line that asks for something has been answered, no other, while none ends the turn.
   */
  ghost predicate TurnOver(
    incoming: seq<Option<Raw>>, from: nat, end: nat, raws: seq<Raw>, turn: Turn, result: Outcome<TurnStatus>)
  {
    && Arrived(incoming, from, raws)
    && Answered(raws, Writes(Joined(turn.exchanges)))
    && (forall k, status :: 0 <= k < |raws| ==> !EndsWith(raws[k], status))
    && (result.Good? ==>
          end == from + |raws| + 1 && end <= |incoming|
          && incoming[end - 1].Some? && EndsWith(incoming[end - 1].value, result.value))
  }

  // ----- whole sessions -----

  /** A turn and what RunTurn returned. */
  datatype TurnRecord = TurnRecord(turn: Turn, result: Outcome<TurnStatus>)

  ghost predicate IsRecorded(entry: TurnRecord, threadId: string) {
    if entry.result.Good? then IsComplete(entry.turn, threadId, entry.result.value) else IsBroken(entry.turn, threadId)
  }

  function SessionActs(preamble: seq<Act>, turns: seq<TurnRecord>): seq<Act> {
    if turns == [] then preamble
    else SessionActs(preamble, turns[..|turns| - 1]) + ActsOf(turns[|turns| - 1].turn)
  }

  lemma SessionOneMore(preamble: seq<Act>, turns: seq<TurnRecord>, entry: TurnRecord)
    ensures SessionActs(preamble, turns + [entry]) == SessionActs(preamble, turns) + ActsOf(entry.turn)
  {
    assert (turns + [entry])[..|turns|] == turns;
  }

  function SessionWritesOf(threadId: string, turns: seq<TurnRecord>): seq<Sent> {
    if turns == [] then [Initialize, Initialized, ThreadStart]
    else SessionWritesOf(threadId, turns[..|turns| - 1]) + WritesOf(turns[|turns| - 1].turn, threadId)
  }

  lemma RecordedWrites(entry: TurnRecord, threadId: string)
    requires IsRecorded(entry, threadId)
    ensures Writes(ActsOf(entry.turn)) == WritesOf(entry.turn, threadId)
    ensures AllReplies(Writes(Joined(entry.turn.exchanges)))
  {
    if entry.result.Good? {
      CompleteTurnWrites(entry.turn, threadId, entry.result.value);
      ExchangesAnswer(entry.turn.exchanges);
    } else {
      BrokenTurnWrites(entry.turn, threadId);
    }
  }

  /** The whole session writes initialize, initialized, thread/start and then turn after turn: a start and its replies. */
  lemma {:induction false} SessionWrites(preamble: seq<Act>, threadId: string, turns: seq<TurnRecord>)
    requires Writes(preamble) == [Initialize, Initialized, ThreadStart]
    requires forall k :: 0 <= k < |turns| ==> IsRecorded(turns[k], threadId)
    ensures Writes(SessionActs(preamble, turns)) == SessionWritesOf(threadId, turns)
    ensures forall k :: 0 <= k < |turns| ==> AllReplies(Writes(Joined(turns[k].turn.exchanges)))
    decreases |turns|
  {
    forall k | 0 <= k < |turns| ensures AllReplies(Writes(Joined(turns[k].turn.exchanges))) {
      RecordedWrites(turns[k], threadId);
    }
    if turns != [] {
      var n := |turns| - 1;
      SessionWrites(preamble, threadId, turns[..n]);
      RecordedWrites(turns[n], threadId);
      WritesAppend(SessionActs(preamble, turns[..n]), ActsOf(turns[n].turn));
    }
  }

  // ----- answers to questions -----

  predicate IsApproving(w: Wording, choice: string) {
    choice != "" && exists opening :: opening in w.openings && opening <= w.lower(Trim(choice))
  }

  function FirstExact(w: Wording, labels: seq<string>): string {
    if labels == [] then "" else if labels[0] in w.exact then labels[0] else FirstExact(w, labels[1..])
  }

  function FirstApproving(w: Wording, labels: seq<string>): string {
    if labels == [] then "" else if IsApproving(w, labels[0]) then labels[0] else FirstApproving(w, labels[1..])
  }

  /** The first label with one of the exact texts, or else the first that begins with approve or allow. */
  function OptionLabel(w: Wording, labels: seq<string>): string {
    if exists choice :: choice in labels && choice in w.exact then FirstExact(w, labels) else FirstApproving(w, labels)
  }

  method ApprovalOptionLabel(w: Wording, labels: seq<string>) returns (choice: string)
    ensures choice == OptionLabel(w, labels)
  {
    var fallback := "";
    for i := 0 to |labels|
      invariant forall k :: 0 <= k < i ==> labels[k] !in w.exact
      invariant FirstExact(w, labels) == FirstExact(w, labels[i..])
      invariant FirstApproving(w, labels) == if fallback != "" then fallback else FirstApproving(w, labels[i..])
    {
      assert labels[i..][0] == labels[i] && labels[i..][1..] == labels[i + 1..];
      if labels[i] in w.exact {
        assert labels[i] in labels;
        return labels[i];
      }
      if fallback == "" && IsApproving(w, labels[i]) {
        fallback := labels[i];
      }
    }
    choice := fallback;
  }

  /** The label is one of the two the session takes as they are. */
  predicate IsExactLabel(choice: string) {
    choice == "Approve this Session" || choice == "Approve Once"
  }

  /** The label begins, apart from blanks and case, with approve or allow. */
  predicate SoundsApproving(lower: string -> string, choice: string) {
    choice != "" && ("approve" <= lower(Trim(choice)) || "allow" <= lower(Trim(choice)))
  }

  /** The first label taken as it is wins, wherever it stands. */
  lemma {:induction false} ExactLabelWins(lower: string -> string, labels: seq<string>, i: nat)
    requires i < |labels| && IsExactLabel(labels[i]) && forall k :: 0 <= k < i ==> !IsExactLabel(labels[k])
    ensures OptionLabel(StandardWording(lower), labels) == labels[i]
    decreases |labels|
  {
    assert labels[i] in labels && labels[i] in StandardWording(lower).exact;
    FirstExactIs(lower, labels, i);
  }

  lemma {:induction false} FirstExactIs(lower: string -> string, labels: seq<string>, i: nat)
    requires i < |labels| && IsExactLabel(labels[i]) && forall k :: 0 <= k < i ==> !IsExactLabel(labels[k])
    ensures FirstExact(StandardWording(lower), labels) == labels[i]
    decreases |labels|
  {
    if i > 0 {
      assert !IsExactLabel(labels[0]);
      FirstExactIs(lower, labels[1..], i - 1);
    }
  }

  /** Without one, the first that sounds approving; and without one of these, none. */
  lemma ApprovingLabelElse(lower: string -> string, labels: seq<string>, i: nat)
    requires i <= |labels| && forall k :: 0 <= k < |labels| ==> !IsExactLabel(labels[k])
    requires forall k :: 0 <= k < i ==> !SoundsApproving(lower, labels[k])
    requires i < |labels| ==> SoundsApproving(lower, labels[i])
    ensures OptionLabel(StandardWording(lower), labels) == if i < |labels| then labels[i] else ""
  {
    forall choice | choice in labels ensures choice !in StandardWording(lower).exact {
      var k :| 0 <= k < |labels| && labels[k] == choice;
    }
    FirstApprovingIs(lower, labels, i);
  }

  lemma ApprovingByText(lower: string -> string, choice: string)
    ensures IsApproving(StandardWording(lower), choice) <==> SoundsApproving(lower, choice)
  {
    var openings := StandardWording(lower).openings;
    assert "approve" in openings && "allow" in openings;
  }

  lemma {:induction false} FirstApprovingIs(lower: string -> string, labels: seq<string>, i: nat)
    requires i <= |labels| && forall k :: 0 <= k < i ==> !SoundsApproving(lower, labels[k])
    requires i < |labels| ==> SoundsApproving(lower, labels[i])
    ensures FirstApproving(StandardWording(lower), labels) == if i < |labels| then labels[i] else ""
    decreases |labels|
  {
    if labels != [] {
      ApprovingByText(lower, labels[0]);
      if i > 0 {
        assert !SoundsApproving(lower, labels[0]);
        FirstApprovingIs(lower, labels[1..], i - 1);
      }
    }
  }

  predicate Answerable(questions: seq<Question>) {
    questions != [] && forall k :: 0 <= k < |questions| ==> questions[k].id != ""
  }

  predicate Approvable(w: Wording, questions: seq<Question>) {
    Answerable(questions) && forall k :: 0 <= k < |questions| ==> OptionLabel(w, questions[k].labels) != ""
  }

  function ReplyTo(w: Wording, approve: bool, question: Question): string {
    if approve then OptionLabel(w, question.labels) else w.refusal
  }

  /** Every question approved, or refused; a later question overrides an earlier one with its ID. */
  function AnswerMap(w: Wording, approve: bool, questions: seq<Question>): map<string, string> {
    if questions == [] then map[]
    else
      var last := questions[|questions| - 1];
      AnswerMap(w, approve, questions[..|questions| - 1])[last.id := ReplyTo(w, approve, last)]
  }

  /** Exactly the questions' IDs are answered. */
  lemma {:induction false} AnswersEveryQuestion(w: Wording, approve: bool, questions: seq<Question>)
    ensures AnswerMap(w, approve, questions).Keys == QuestionIds(questions)
  {
    if questions != [] {
      var n := |questions| - 1;
      AnswersEveryQuestion(w, approve, questions[..n]);
      assert questions == questions[..n] + [questions[n]];
      assert QuestionIds(questions) == QuestionIds(questions[..n]) + {questions[n].id};
    }
  }

  /** A question gets its own reply, unless a later one has its ID. */
  lemma {:induction false} OwnReply(w: Wording, approve: bool, questions: seq<Question>, i: nat)
    requires i < |questions| && forall j :: i < j < |questions| ==> questions[j].id != questions[i].id
    ensures var answers, question := AnswerMap(w, approve, questions), questions[i];
            question.id in answers && answers[question.id] == ReplyTo(w, approve, question)
  {
    var n := |questions| - 1;
    if i < n {
      assert questions[n].id != questions[i].id;
      forall j | i < j < n ensures questions[..n][j].id != questions[..n][i].id {
        assert questions[j].id != questions[i].id;
      }
      OwnReply(w, approve, questions[..n], i);
    }
  }

  /** Questions that are not all approved are all refused in these words. */
  lemma RefusedInWords(lower: string -> string, questions: seq<Question>, i: nat)
    requires i < |questions| && forall j :: i < j < |questions| ==> questions[j].id != questions[i].id
    ensures var answers := AnswerMap(StandardWording(lower), false, questions);
            && questions[i].id in answers
            && answers[questions[i].id] == "This is a non-interactive session. Operator input is unavailable."
  {
    OwnReply(StandardWording(lower), false, questions, i);
  }

  /** An approval is found exactly where some label is one of the two, or sounds approving. */
  lemma OfferedExactly(lower: string -> string, labels: seq<string>)
    ensures OptionLabel(StandardWording(lower), labels) != ""
            <==> exists k :: 0 <= k < |labels| && (IsExactLabel(labels[k]) || SoundsApproving(lower, labels[k]))
  {
    if k :| 0 <= k < |labels| && IsExactLabel(labels[k]) {
      var i := FirstIndex(labels, choice => IsExactLabel(choice));
      ExactLabelWins(lower, labels, i);
    } else {
      var i := FirstIndex(labels, choice => SoundsApproving(lower, choice));
      ApprovingLabelElse(lower, labels, i);
    }
  }

  /** Where the first label with the property stands, or the end. */
  lemma FirstIndex(labels: seq<string>, wanted: string -> bool) returns (i: nat)
    ensures i <= |labels| && (forall k :: 0 <= k < i ==> !wanted(labels[k])) && (i < |labels| ==> wanted(labels[i]))
  {
    i := 0;
    while i < |labels| && !wanted(labels[i])
      invariant i <= |labels| && forall k :: 0 <= k < i ==> !wanted(labels[k])
    {
      i := i + 1;
    }
  }

  method ApprovalAnswers(w: Wording, questions: seq<Question>) returns (answers: Option<map<string, string>>)
    ensures answers.Some? <==> Approvable(w, questions)
    ensures answers.Some? ==> answers.value == AnswerMap(w, true, questions)
  {
    if questions == [] {
      return None;
    }
    var given: map<string, string> := map[];
    for n := 0 to |questions|
      invariant forall k :: 0 <= k < n ==> questions[k].id != "" && OptionLabel(w, questions[k].labels) != ""
      invariant given == AnswerMap(w, true, questions[..n])
    {
      var choice := ApprovalOptionLabel(w, questions[n].labels);
      if questions[n].id == "" || choice == "" {
        return None;
      }
      assert questions[..n + 1][..n] == questions[..n];
      given := given[questions[n].id := choice];
    }
    assert questions[..|questions|] == questions;
    answers := Some(given);
  }

  method UnavailableAnswers(w: Wording, questions: seq<Question>) returns (answers: Option<map<string, string>>)
    ensures answers.Some? <==> Answerable(questions)
    ensures answers.Some? ==> answers.value == AnswerMap(w, false, questions)
  {
    if questions == [] {
      return None;
    }
    var given: map<string, string> := map[];
    for n := 0 to |questions|
      invariant forall k :: 0 <= k < n ==> questions[k].id != ""
      invariant given == AnswerMap(w, false, questions[..n])
    {
      if questions[n].id == "" {
        return None;
      }
      assert questions[..n + 1][..n] == questions[..n];
      given := given[questions[n].id := w.refusal];
    }
    assert questions[..|questions|] == questions;
    answers := Some(given);
  }
}
