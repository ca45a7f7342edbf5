/** The mutable session of internal/codex/session.go: bootstrap, the wait for responses, turns, and close. */
module CodexObject {
  import opened Domain
  import opened Codex

  /** How a turn's loop ends: with a terminal line and its event, or with an error and at most one unanswered request. */
  predicate IsEnding(acts: seq<Act>, result: Outcome<TurnStatus>) {
    if result.Good? then
      && |acts| == 2 && acts[0].Read? && PurposeOf(acts[0].line) == Ends(result.value)
      && acts[1] == Emitted(TurnEnded(result.value))
    else acts == [] || (|acts| == 1 && acts[0].Read? && IsRequest(acts[0].line))
  }

  /** The line is JSON that carries the session's own number n, as a number or as a text. */
  predicate Responds(raw: Raw, n: nat)
    requires 0 < n < 10
  {
    raw.Object? && SameId(raw.id, n)
  }

  /** Of the lines from `start` to `end` only the last carries the number n. */
  ghost predicate FirstAnswer(incoming: seq<Option<Raw>>, start: nat, end: nat, n: nat)
    requires 0 < n < 10
  {
    && start < end <= |incoming| && incoming[end - 1].Some? && Responds(incoming[end - 1].value, n)
    && NoAnswer(incoming, start, end - 1, n)
  }

  ghost predicate NoAnswer(incoming: seq<Option<Raw>>, start: nat, end: nat, n: nat)
    requires 0 < n < 10
  {
    start <= end <= |incoming| && forall k :: start <= k < end ==> incoming[k].Some? && !Responds(incoming[k].value, n)
  }

  class Session {
    const never: bool                          // the approval policy is "never"
    const nonInteractive: bool
    const wording: Wording
    const incoming: seq<Option<Raw>>          // what each read attempt yields; beyond the end every attempt fails
    const writeFails: nat -> bool
    const handler: (nat, string) -> ToolAnswer

    var pos: nat
    var attempts: nat
    var calls: nat
    var trace: seq<Act>
    var threadId: string
    var closed: bool
    var transportCloses: nat
    ghost var preamble: seq<Act>
    ghost var turns: seq<TurnRecord>

    ghost predicate Valid()
      reads this
    {
      pos <= |incoming|
    }

    /** A bootstrapped session: the trace is the handshake followed by the recorded turns. */
    ghost predicate Started()
      reads this
    {
      && Valid()
      && threadId != "" && Writes(preamble) == [Initialize, Initialized, ThreadStart]
      && trace == SessionActs(preamble, turns)
      && (forall k :: 0 <= k < |turns| ==> IsRecorded(turns[k], threadId))
      && transportCloses == (if closed then 1 else 0)
    }

    // ----- why a turn fails -----

    /** The line asks for what the session's policy does not let it answer. */
    predicate Refuses(raw: Raw) {
      Asks(raw) &&
      if raw.verb == "item/tool/requestUserInput" then !nonInteractive || !Answerable(raw.questions)
      else raw.verb != "item/tool/call" && !never
    }

    /** The lines are all permitted, and the writes from attempt `tries` on succeed. */
    ghost predicate Unhindered(raws: seq<Raw>, tries: nat, written: nat) {
      && (forall k :: 0 <= k < |raws| ==> !Refuses(raws[k]))
      && (forall attempt :: tries <= attempt < tries + written ==> !writeFails(attempt))
    }

    predicate ReadFails(at: nat) {
      |incoming| <= at || incoming[at].None?
    }

    /** What comes at `at` stops the loop so: nothing readable, a refused request, or a reply that cannot be written. */
    predicate StopsLoop(at: nat, attempt: nat, failure: Failure) {
      if failure == ReadFailed then ReadFails(at)
      else
        && !ReadFails(at) && Asks(incoming[at].value)
        && if failure == ApprovalRequired then Refuses(incoming[at].value)
           else failure == WriteFailed && !Refuses(incoming[at].value) && writeFails(attempt)
    }

    /** The outcome of a request with the number n, from the lines after it: its first response, or a failed read. */
    ghost predicate WasAnswered(start: nat, end: nat, n: nat, result: Outcome<Payload>)
      requires 0 < n < 10
    {
      if result == Bad(ReadFailed) then exists at: nat :: NoAnswer(incoming, start, at, n) && ReadFails(at)
      else
        && FirstAnswer(incoming, start, end, n)
        && var answer := incoming[end - 1].value;
           result == if answer.isError || answer.result.None? then Bad(ResponseError) else Good(answer.result.value)
    }

    /** turn/start cannot be written, gets no result, or one without a turn ID. */
    ghost predicate OpeningFails(start: nat, end: nat, attempt: nat, failure: Failure) {
      match failure
      case WriteFailed => writeFails(attempt)
      case InvalidPayload =>
        !writeFails(attempt)
        && exists payload: Payload :: WasAnswered(start, end, 3, Good(payload)) && payload.turnId == ""
      case _ => !writeFails(attempt) && WasAnswered(start, end, 3, Bad(failure))
    }

    /** A turn goes wrong only where its opening does or something stops its loop; up to there all was permitted. */
    ghost predicate Explained(
      start: nat, from: nat, end: nat, tries: nat, turn: Turn, raws: seq<Raw>, result: Outcome<TurnStatus>)
    {
      var written := |Writes(Joined(turn.exchanges))|;
      || (result.Bad? && raws == [] && OpeningFails(start, end, tries, result.failure))
      || (!writeFails(tries) && FirstAnswer(incoming, start, from, 3) && Unhindered(raws, tries + 1, written)
          && (result.Bad? ==> StopsLoop(from + |raws|, tries + 1 + written, result.failure)))
    }

    predicate Denied(line: Line) {
      match PurposeOf(line)
      case Approval(_) => !never
      case Input => !nonInteractive || !Answerable(line.questions)
      case _ => false
    }

    /** What handling the line comes to, its reply being write attempt `attempt`. */
    function FailureOn(line: Line, attempt: nat): Option<Failure> {
      if Denied(line) then Some(ApprovalRequired)
      else if IsRequest(line) && writeFails(attempt) then Some(WriteFailed)
      else None
    }

    function AttemptsAfter(line: Line, attempt: nat): nat {
      if IsRequest(line) && !Denied(line) then attempt + 1 else attempt
    }

    lemma DeniedByVerb(raw: Raw)
      ensures Denied(Decode(raw)) <==> Refuses(raw)
    {
      RequestByVerb(raw);
    }

    constructor (never: bool, nonInteractive: bool, lower: string -> string, incoming: seq<Option<Raw>>,
                 writeFails: nat -> bool, handler: (nat, string) -> ToolAnswer)
      ensures Valid() && trace == [] && threadId == "" && !closed && transportCloses == 0 && turns == []
      ensures wording == StandardWording(lower)
    {
      this.never, this.nonInteractive, this.wording := never, nonInteractive, StandardWording(lower);
      this.incoming, this.writeFails, this.handler := incoming, writeFails, handler;
      pos, attempts, calls, trace, threadId, closed, transportCloses := 0, 0, 0, [], "", false, 0;
      preamble, turns := [], [];
    }

    /** The next line of the stream, decoded; nothing else reads the stream, so the trace shows every line. */
    method ReadLine() returns (line: Option<Line>)
      requires Valid()
      modifies this`pos, this`trace
      ensures Valid() && pos == (if old(pos) < |incoming| then old(pos) + 1 else old(pos))
      ensures line == if old(pos) < |incoming| && incoming[old(pos)].Some? then Some(Decode(incoming[old(pos)].value)) else None
      ensures trace == old(trace) + (if line.Some? then [Read(line.value)] else [])
    {
      if pos == |incoming| {
        return None;
      }
      var raw := incoming[pos];
      pos := pos + 1;
      if raw.None? {
        return None;
      }
      line := Some(Decode(raw.value));
      trace := trace + [Read(line.value)];
    }

    method Write(message: Sent) returns (ok: bool)
      requires Valid()
      modifies this`attempts, this`trace
      ensures Valid() && trace == old(trace) + (if ok then [Wrote(message)] else [])
      ensures attempts == old(attempts) + 1 && (ok <==> !writeFails(old(attempts)))
    {
      ok := !writeFails(attempts);
      attempts := attempts + 1;
      if ok {
        trace := trace + [Wrote(message)];
      }
    }

    method Emit(event: Event)
      requires Valid()
      modifies this`trace
      ensures Valid() && trace == old(trace) + [Emitted(event)]
    {
      trace := trace + [Emitted(event)];
    }

    /** Reads up to the response with the ID; what is read before it is reported but not handled. */
    method AwaitResponse(id: nat) returns (result: Outcome<Payload>, ghost acts: seq<Act>, ghost answered: bool)
      requires Valid() && 0 < id < 10
      modifies this`pos, this`trace
      ensures Valid() && trace == old(trace) + acts && Awaits(acts, id, answered)
      ensures result.Good? ==>
                answered && !acts[|acts| - 1].line.isError && acts[|acts| - 1].line.result == Some(result.value)
      ensures result.Bad? ==> result.failure == if answered then ResponseError else ReadFailed
      ensures old(pos) <= pos && WasAnswered(old(pos), pos, id, result)
    {
      ghost var skipped: seq<seq<Act>> := [];
      while true
        invariant Valid() && trace == old(trace) + Joined(skipped)
        invariant AllSkips(skipped, id)
        invariant NoAnswer(incoming, old(pos), pos, id)
        decreases |incoming| - pos
      {
        ghost var at := pos;
        var line := ReadLine();
        if line.None? {
          assert NoAnswer(incoming, old(pos), at, id) && ReadFails(at);
          assert AwaitsWith(Joined(skipped), id, false, skipped);
          return Bad(ReadFailed), Joined(skipped), false;
        }
        if line.value.Malformed? || !SameId(line.value.id, id) {
          var event := if line.value.Malformed? then MalformedMessage else UnknownMessage;
          Emit(event);
          OneMoreSkip(old(trace), skipped, [Read(line.value), Emitted(event)], id);
          skipped := skipped + [[Read(line.value), Emitted(event)]];
        } else {
          acts, answered := Joined(skipped) + [Read(line.value)], true;
          assert acts[..|acts| - 1] == Joined(skipped);
          assert AwaitsWith(acts, id, true, skipped);
          if line.value.isError || line.value.result.None? {
            return Bad(ResponseError), acts, answered;
          }
          return Good(line.value.result.value), acts, answered;
        }
      }
    }

    method Notify(message: Sent) returns (ok: bool)
      requires Valid()
      modifies this`attempts, this`trace
      ensures Valid() && Writes(trace) == Writes(old(trace)) + (if ok then [message] else [])
      ensures NoTurnEnd(old(trace)) ==> NoTurnEnd(trace)
      ensures attempts == old(attempts) + 1 && (ok <==> !writeFails(old(attempts)))
    {
      ok := Write(message);
      HandshakeWrite(old(trace), message);
      assert old(trace) + [] == old(trace);
    }

    /** A request of the handshake and the wait for its response. */
    method Ask(message: Sent, id: nat) returns (result: Outcome<Payload>)
      requires Valid() && 0 < id < 10
      modifies this`pos, this`attempts, this`trace
      ensures Valid() && (NoTurnEnd(old(trace)) ==> NoTurnEnd(trace))
      ensures result.Good? || result.failure.ReadFailed? || result.failure.ResponseError? ==>
                Writes(trace) == Writes(old(trace)) + [message]
      ensures result.Bad? && result.failure.WriteFailed? ==> Writes(trace) == Writes(old(trace))
      ensures result.Bad? ==> result.failure.WriteFailed? || result.failure.ReadFailed? || result.failure.ResponseError?
      ensures attempts == old(attempts) + 1 && old(pos) <= pos
      ensures if writeFails(old(attempts)) then result == Bad(WriteFailed) else WasAnswered(old(pos), pos, id, result)
    {
      var ok := Notify(message);
      if !ok {
        return Bad(WriteFailed);
      }
      ghost var asked := trace;
      ghost var acts, answered;
      result, acts, answered := AwaitResponse(id);
      HandshakeStep(asked, acts, id, answered);
    }

    /** The outcome of the handshake whose first write is attempt `tries`; `mid` is where initialize was answered. */
    ghost predicate Greeted(start: nat, mid: nat, end: nat, tries: nat, result: Outcome<Payload>) {
      if writeFails(tries) then result == Bad(WriteFailed)
      else if !FirstAnswer(incoming, start, mid, 1) || IsError(mid) then
        result.Bad? && WasAnswered(start, end, 1, result)
      else if writeFails(tries + 1) || writeFails(tries + 2) then result == Bad(WriteFailed)
      else WasAnswered(mid, end, 2, result)
    }

    /** The answer before `mid` is an error or carries no result. */
    predicate IsError(mid: nat)
      requires 0 < mid <= |incoming| && incoming[mid - 1].Some? && incoming[mid - 1].value.Object?
    {
      incoming[mid - 1].value.isError || incoming[mid - 1].value.result.None?
    }

    method Handshake() returns (result: Outcome<Payload>, ghost mid: nat)
      requires Valid() && trace == []
      modifies this`pos, this`attempts, this`trace
      ensures Valid() && NoTurnEnd(trace)
      ensures Greeted(old(pos), mid, pos, old(attempts), result)
      ensures result.Good? ==> Writes(trace) == [Initialize, Initialized, ThreadStart]
      ensures result.Bad? ==> Writes(trace) <= [Initialize, Initialized, ThreadStart]
    {
      result := Ask(Initialize, INITIALIZE_ID);
      mid := pos;
      if result.Bad? {
        return;
      }
      var ok := Notify(Initialized);
      if !ok {
        return Bad(WriteFailed), mid;
      }
      result := Ask(ThreadStart, THREAD_START_ID);
    }

    method Bootstrap() returns (failure: Option<Failure>, ghost mid: nat, ghost reply: Outcome<Payload>)
      requires Valid() && trace == [] && threadId == "" && turns == [] && !closed && transportCloses == 0
      modifies this
      ensures Valid() && !closed && transportCloses == 0 && NoTurnEnd(trace)
      ensures failure.None? ==> Started() && turns == [] && trace != [] && trace[|trace| - 1] == Emitted(SessionStarted)
      ensures failure.Some? ==> threadId == "" && Writes(trace) <= [Initialize, Initialized, ThreadStart]
      ensures Greeted(old(pos), mid, pos, old(attempts), reply)
      ensures if reply.Bad? then failure == Some(reply.failure)
              else threadId == reply.value.threadId && failure == if threadId == "" then Some(InvalidPayload) else None
    {
      var thread, initialized := Handshake();
      mid, reply := initialized, thread;
      if thread.Bad? {
        return Some(thread.failure), mid, reply;
      }
      if thread.value.threadId == "" {
        return Some(InvalidPayload), mid, reply;
      }
      threadId := thread.value.threadId;
      WritesAppend(trace, [Emitted(SessionStarted)]);
      Emit(SessionStarted);
      preamble := trace;
      failure := None;
    }

    /** StartSession after the transport is there: a failed bootstrap closes it. */
    method Start() returns (failure: Option<Failure>, ghost mid: nat, ghost reply: Outcome<Payload>)
      requires Valid() && trace == [] && threadId == "" && turns == [] && !closed && transportCloses == 0
      modifies this
      ensures failure.None? ==> Started() && !closed && turns == []
      ensures failure.Some? ==> transportCloses == 1
      ensures Greeted(old(pos), mid, pos, old(attempts), reply)
      ensures failure.None? <==> reply.Good? && reply.value.threadId != ""
      ensures failure.None? ==> threadId == reply.value.threadId
    {
      failure, mid, reply := Bootstrap();
      if failure.Some? {
        transportCloses := transportCloses + 1;
      }
    }

    /** However often it is called, the transport is closed once. */
    method Close()
      requires Started()
      modifies this`closed, this`transportCloses
      ensures Started() && closed && transportCloses == 1
    {
      if closed {
        return;
      }
      closed := true;
      transportCloses := transportCloses + 1;
    }

    method HandleApproval(line: Line, decision: Approved) returns (failure: Option<Failure>, ghost acts: seq<Act>)
      requires Valid() && PurposeOf(line) == Approval(decision)
      modifies this`attempts, this`trace
      ensures Valid() && trace == old(trace) + acts
      ensures failure.None? ==> IsExchange([Read(line)] + acts)
      ensures failure.Some? ==> acts == []
      ensures failure == FailureOn(line, old(attempts)) && attempts == AttemptsAfter(line, old(attempts))
    {
      if !never {
        return Some(ApprovalRequired), [];
      }
      var ok := Write(Decision(line.id, decision));
      if !ok {
        return Some(WriteFailed), [];
      }
      Emit(ApprovalAnswered);
      acts := [Wrote(Decision(line.id, decision)), Emitted(ApprovalAnswered)];
      assert ([Read(line)] + acts)[1..] == acts;
      failure := None;
    }

    method ChooseAnswers(questions: seq<Question>) returns (answers: Option<map<string, string>>)
      ensures answers.Some? <==> Answerable(questions)
      ensures answers.Some? ==> answers.value == AnswerMap(wording, Approvable(wording, questions), questions)
    {
      answers := ApprovalAnswers(wording, questions);
      if answers.None? {
        answers := UnavailableAnswers(wording, questions);
      }
    }

    /** Approvals where every question offers one, else the standard refusal for every question. */
    method HandleUserInput(line: Line) returns (failure: Option<Failure>, ghost acts: seq<Act>)
      requires Valid() && PurposeOf(line) == Input
      modifies this`attempts, this`trace
      ensures Valid() && trace == old(trace) + acts
      ensures failure.None? ==>
                && IsExchange([Read(line)] + acts)
                && var approve := Approvable(wording, line.questions);
                   acts[0] == Wrote(Answers(line.id, AnswerMap(wording, approve, line.questions)))
      ensures failure.Some? ==> acts == []
      ensures failure == FailureOn(line, old(attempts)) && attempts == AttemptsAfter(line, old(attempts))
    {
      if !nonInteractive {
        return Some(ApprovalRequired), [];
      }
      var answers := ChooseAnswers(line.questions);
      if answers.None? {
        return Some(ApprovalRequired), [];
      }
      AnswersEveryQuestion(wording, Approvable(wording, line.questions), line.questions);
      var ok := Write(Answers(line.id, answers.value));
      if !ok {
        return Some(WriteFailed), [];
      }
      Emit(ToolInputAnswered);
      acts := [Wrote(Answers(line.id, answers.value)), Emitted(ToolInputAnswered)];
      assert ([Read(line)] + acts)[1..] == acts;
      failure := None;
    }

    /** Every tool call is answered, also an unsupported or a failing one. */
    method HandleToolCall(line: Line) returns (failure: Option<Failure>, ghost acts: seq<Act>)
      requires Valid() && PurposeOf(line) == Tool
      modifies this`attempts, this`trace, this`calls
      ensures Valid() && trace == old(trace) + acts
      ensures failure.None? ==> IsExchange([Read(line)] + acts)
      ensures calls == old(calls) + if line.tool == "" then 0 else 1
      ensures failure.None? ==>
                var answer := if line.tool == "" then Unsupported else handler(old(calls), line.tool);
                acts == [Wrote(ToolReply(line.id, answer)), Emitted(ToolEvent(answer))]
      ensures failure.Some? ==> acts == []
      ensures failure == FailureOn(line, old(attempts)) && attempts == AttemptsAfter(line, old(attempts))
    {
      var answer := Unsupported;
      if line.tool != "" {
        answer := handler(calls, line.tool);
        calls := calls + 1;
      }
      var message, event := ToolReply(line.id, answer), ToolEvent(answer);
      var ok := Write(message);
      if !ok {
        return Some(WriteFailed), [];
      }
      Emit(event);
      acts := [Wrote(message), Emitted(event)];
      assert ([Read(line)] + acts)[1..] == acts;
      failure := None;
    }

    method HandleLine(line: Line) returns (failure: Option<Failure>, ghost acts: seq<Act>)
      requires Valid() && !PurposeOf(line).Ends?
      modifies this`attempts, this`trace, this`calls
      ensures Valid() && trace == old(trace) + acts
      ensures failure.None? ==> IsExchange([Read(line)] + acts)
      ensures failure.Some? ==> acts == [] && IsRequest(line)
      ensures failure == FailureOn(line, old(attempts)) && attempts == AttemptsAfter(line, old(attempts))
    {
      var purpose := PurposeOf(line);
      if purpose.Approval? {
        failure, acts := HandleApproval(line, purpose.decision);
      } else if purpose.Input? {
        failure, acts := HandleUserInput(line);
      } else if purpose.Tool? {
        failure, acts := HandleToolCall(line);
      } else {
        var event := if line.Malformed? then MalformedMessage else UnknownMessage;
        Emit(event);
        acts, failure := [Emitted(event)], None;
        assert ([Read(line)] + acts)[1..] == acts;
      }
    }

    /** The acts are about the one line read since. */
    ghost predicate HeardOne(at: nat, acts: seq<Act>)
      reads this
    {
      pos == at + 1 <= |incoming| && incoming[at].Some? && acts != [] && acts[0] == Read(Decode(incoming[at].value))
    }

    /** One round of the turn loop: None if it goes on. */
    method NextLine() returns (result: Option<Outcome<TurnStatus>>, ghost acts: seq<Act>)
      requires Valid()
      modifies this`pos, this`attempts, this`trace, this`calls
      ensures Valid() && trace == old(trace) + acts
      ensures result.None? ==> IsExchange(acts) && HeardOne(old(pos), acts)
      ensures result.Some? ==> IsEnding(acts, result.value) && (result.value.Good? ==> HeardOne(old(pos), acts))
      ensures old(pos) <= pos
      ensures result.None? ==>
                && !Refuses(incoming[old(pos)].value) && attempts == old(attempts) + |Writes(acts)|
                && (forall attempt :: old(attempts) <= attempt < attempts ==> !writeFails(attempt))
      ensures result.Some? && result.value.Bad? ==> StopsLoop(old(pos), old(attempts), result.value.failure)
    {
      ghost var at := pos;
      var line := ReadLine();
      if line.None? {
        return Some(Bad(ReadFailed)), [];
      }
      if PurposeOf(line.value).Ends? {
        var status := PurposeOf(line.value).status;
        Emit(TurnEnded(status));
        return Some(Good(status)), [Read(line.value), Emitted(TurnEnded(status))];
      }
      DeniedByVerb(incoming[at].value);
      RequestByVerb(incoming[at].value);
      var failure, reply := HandleLine(line.value);
      if failure.Some? {
        return Some(Bad(failure.value)), [Read(line.value)];
      }
      result, acts := None, [Read(line.value)] + reply;
      ExchangeByVerb(acts, incoming[at].value);
    }

    lemma OneMoreRound(from: nat, tries: nat, exchanges: seq<seq<Act>>, raws: seq<Raw>, acts: seq<Act>, raw: Raw)
      requires Arrived(incoming, from, raws) && About(exchanges, raws)
      requires Unhindered(raws, tries, |Writes(Joined(exchanges))|)
      requires from + |raws| < |incoming| && incoming[from + |raws|] == Some(raw) && !Refuses(raw)
      requires acts != [] && acts[0] == Read(Decode(raw))
      requires var tried := tries + |Writes(Joined(exchanges))|;
               forall attempt :: tried <= attempt < tried + |Writes(acts)| ==> !writeFails(attempt)
      ensures Arrived(incoming, from, raws + [raw]) && About(exchanges + [acts], raws + [raw])
      ensures |Writes(Joined(exchanges + [acts]))| == |Writes(Joined(exchanges))| + |Writes(acts)|
      ensures Unhindered(raws + [raw], tries, |Writes(Joined(exchanges + [acts]))|)
    {
      JoinedWrites(exchanges, acts);
    }

    /** The loop of RunTurn: handle line after line until one ends the turn or something fails. */
    method TurnLoop()
      returns (result: Outcome<TurnStatus>, ghost exchanges: seq<seq<Act>>, ghost ending: seq<Act>, ghost raws: seq<Raw>)
      requires Valid()
      modifies this`pos, this`attempts, this`trace, this`calls
      ensures Valid() && trace == old(trace) + Joined(exchanges) + ending
      ensures AllExchanges(exchanges)
      ensures IsEnding(ending, result)
      ensures old(pos) <= pos && TurnOver(incoming, old(pos), pos, raws, Turn([], exchanges, ending), result)
      ensures Unhindered(raws, old(attempts), |Writes(Joined(exchanges))|)
      ensures result.Bad? ==>
                StopsLoop(old(pos) + |raws|, old(attempts) + |Writes(Joined(exchanges))|, result.failure)
    {
      exchanges, raws := [], [];
      while true
        invariant Valid() && trace == old(trace) + Joined(exchanges)
        invariant AllExchanges(exchanges)
        invariant pos == old(pos) + |raws| && Arrived(incoming, old(pos), raws) && About(exchanges, raws)
        invariant attempts == old(attempts) + |Writes(Joined(exchanges))|
        invariant Unhindered(raws, old(attempts), |Writes(Joined(exchanges))|)
        decreases |incoming| - pos
      {
        ghost var at := pos;
        var outcome, acts := NextLine();
        if outcome.Some? {
          LoopByVerbs(exchanges, raws);
          if outcome.value.Good? { EndingByVerb(incoming[at].value, outcome.value.value); }
          return outcome.value, exchanges, acts, raws;
        }
        OneMoreExchange(old(trace), exchanges, acts);
        OneMoreRound(old(pos), old(attempts), exchanges, raws, acts, incoming[at].value);
        exchanges, raws := exchanges + [acts], raws + [incoming[at].value];
      }
    }

    /** Writes turn/start and waits for the turn's ID. */
    method OpenTurn() returns (failure: Option<Failure>, ghost acts: seq<Act>, ghost answered: bool)
      requires Valid()
      modifies this`pos, this`attempts, this`trace
      ensures Valid() && trace == old(trace) + acts && IsOpening(acts, threadId, answered) && old(pos) <= pos
      ensures failure.None? ==> FirstAnswer(incoming, old(pos), pos, 3)
      ensures failure.None? ==>
                answered && acts[|acts| - 1].line.result.Some? && acts[|acts| - 1].line.result.value.turnId != ""
      ensures attempts == old(attempts) + 1
      ensures failure.None? ==> !writeFails(old(attempts))
      ensures failure.Some? ==> OpeningFails(old(pos), pos, old(attempts), failure.value)
    {
      var ok := Write(TurnStart(threadId));
      if !ok {
        return Some(WriteFailed), [], false;
      }
      var result, waited, came := AwaitResponse(TURN_START_ID);
      acts, answered := [Wrote(TurnStart(threadId))] + waited, came;
      assert acts[1..] == waited;
      if result.Bad? {
        return Some(result.failure), acts, answered;
      }
      if result.value.turnId == "" {
        return Some(InvalidPayload), acts, answered;
      }
      failure := None;
    }

    /** A turn of an open session. */
    method TakeTurn() returns (result: Outcome<TurnStatus>, ghost turn: Turn, ghost from: nat, ghost raws: seq<Raw>)
      requires Valid()
      modifies this`pos, this`attempts, this`trace, this`calls
      ensures Valid() && trace == old(trace) + ActsOf(turn) && IsRecorded(TurnRecord(turn, result), threadId)
      ensures old(pos) <= from <= pos && TurnOver(incoming, from, pos, raws, turn, result)
      ensures result.Good? ==> FirstAnswer(incoming, old(pos), from, 3)
      ensures Explained(old(pos), from, pos, old(attempts), turn, raws, result)
    {
      var failure, opening, answered := OpenTurn();
      from, raws := pos, [];
      if failure.Some? {
        turn := Turn(opening, [], []);
        assert ActsOf(turn) == opening;
        assert IsOpening(turn.opening, threadId, answered);
        return Bad(failure.value), turn, from, raws;
      }
      ghost var exchanges, ending;
      result, exchanges, ending, raws := TurnLoop();
      turn := Turn(opening, exchanges, ending);
      EndedIsRecorded(turn, result, threadId);
      assert old(trace) + opening + Joined(exchanges) + ending == old(trace) + ActsOf(turn);
    }

    /** One turn, recorded with its result; a closed session is left alone. */
    method RunTurn() returns (result: Outcome<TurnStatus>, ghost turn: Turn, ghost from: nat, ghost raws: seq<Raw>)
      requires Started()
      modifies this`pos, this`attempts, this`trace, this`calls, this`turns
      ensures Started()
      ensures closed ==> result == Bad(SessionClosed) && trace == old(trace) && turns == old(turns)
      ensures !closed ==> turns == old(turns) + [TurnRecord(turn, result)] && trace == old(trace) + ActsOf(turn)
      ensures !closed ==> old(pos) <= from <= pos && TurnOver(incoming, from, pos, raws, turn, result)
      ensures !closed && result.Good? ==> FirstAnswer(incoming, old(pos), from, 3)
      ensures !closed ==> Explained(old(pos), from, pos, old(attempts), turn, raws, result)
    {
      turn, from, raws := Turn([], [], []), pos, [];
      if closed {
        return Bad(SessionClosed), turn, from, raws;
      }
      result, turn, from, raws := TakeTurn();
      SessionOneMore(preamble, turns, TurnRecord(turn, result));
      turns := turns + [TurnRecord(turn, result)];
    }
  }

  lemma JoinedWrites(exchanges: seq<seq<Act>>, next: seq<Act>)
    ensures Writes(Joined(exchanges + [next])) == Writes(Joined(exchanges)) + Writes(next)
  {
    assert (exchanges + [next])[..|exchanges|] == exchanges;
    WritesAppend(Joined(exchanges), next);
  }

  lemma EndedIsRecorded(turn: Turn, result: Outcome<TurnStatus>, threadId: string)
    requires IsOpening(turn.opening, threadId, true) && AllExchanges(turn.exchanges) && IsEnding(turn.ending, result)
    ensures IsRecorded(TurnRecord(turn, result), threadId)
  {
  }

  lemma HandshakeWrite(acts: seq<Act>, message: Sent)
    ensures Writes(acts + [Wrote(message)]) == Writes(acts) + [message]
    ensures NoTurnEnd(acts) ==> NoTurnEnd(acts + [Wrote(message)])
  {
    WritesAppend(acts, [Wrote(message)]);
  }

  lemma HandshakeStep(acts: seq<Act>, waited: seq<Act>, id: nat, answered: bool)
    requires 0 < id < 10 && Awaits(waited, id, answered)
    ensures Writes(acts + waited) == Writes(acts) && (NoTurnEnd(acts) ==> NoTurnEnd(acts + waited))
  {
    AwaitingIsSilent(waited, id, answered);
    WritesAppend(acts, waited);
  }
}
