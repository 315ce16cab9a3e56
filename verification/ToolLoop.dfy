/**
 * The bounded tool loop of agents/tool_protocol.py.
 *
 * The loop is given twice.  RunBoundedToolLoop is the loop itself, with the provider, the
 * tool executor and the checkpoint callback as arbitrary oracles.  Step is the automaton that
 * says what one visible event does to the loop's local state; the method is proved to be a run
 * of that automaton, and every property below is a property of all runs of it.  The automaton
 * is also what a worker executes inside the shared system of DispatchRuns.
 */
module ToolLoop {
  import opened Results

  datatype ToolCall = ToolCall(id: string, name: string, arguments: string)

  datatype Observation = Observation(callId: string, name: string, ok: bool, errorCode: Option<string>)

  datatype Message =
    | System(text: string)
    | User(text: string)
    | Assistant(content: string, reasoning: Option<string>, calls: seq<ToolCall>)
    | ToolResult(observation: Observation)

  // What one provider request gives back.
  datatype Reply =
    | ProtocolError(reason: string)
    | ProviderFailure
    | Turn(content: string, reasoning: Option<string>, calls: seq<ToolCall>)

  datatype Config = Config(
    messages: seq<Message>,
    maxTurns: int,
    allowedTools: set<string>,
    finalTurnTools: Option<set<string>>,
    batchReadTools: set<string>)

  // The durable dictionary: `turns` and `history` default to 0 and to the initial messages.
  datatype Progress = Progress(turns: nat, history: seq<Message>, output: Option<string>)

  datatype Outcome =
    | Returned(output: string)
    | MissingToolCall
    | ForbiddenTool(name: string)
    | TurnsExhausted
    | ProviderRaised
    | ToolRaised
    | CheckpointRefused

  datatype Event =
    | Saved(progress: Progress)
    | SaveRefused(progress: Progress)
    | Called(turn: nat, reply: Reply)
    | Ran(call: ToolCall, observation: Observation, output: Option<string>)
    | Broke(call: ToolCall)
    | GaveUp

  datatype Local =
    | Top(progress: Progress)
    | Waiting(progress: Progress)
    | Executing(progress: Progress, turn: Reply, done: seq<Observation>)
    | Unsaved(progress: Progress, output: Option<string>)
    | Finished(progress: Progress, outcome: Outcome)

  const READ_BATCH_LIMIT: nat := 16

  // ---------------------------------------------------------------- one turn

  function Start(cfg: Config, checkpoint: Progress): Local {
    Top(checkpoint.(history := if checkpoint.history == [] then cfg.messages else checkpoint.history))
  }

  function AllowedAt(cfg: Config, turn: nat): set<string> {
    if cfg.finalTurnTools.Some? && turn == cfg.maxTurns - 1 then cfg.finalTurnTools.value else cfg.allowedTools
  }

  // The first proposed call, in call order, whose tool is not open on this turn.
  function FirstForbidden(calls: seq<ToolCall>, allowed: set<string>): (r: Option<string>)
    ensures r.None? <==> forall k :: 0 <= k < |calls| ==> calls[k].name in allowed
  {
    if calls == [] then None
    else if calls[0].name !in allowed then Some(calls[0].name)
    else FirstForbidden(calls[1..], allowed)
  }

  predicate AllBatchReads(cfg: Config, calls: seq<ToolCall>) {
    forall k :: 0 <= k < |calls| ==> calls[k].name in cfg.batchReadTools
  }

  function ExecutedCount(cfg: Config, calls: seq<ToolCall>): nat {
    if AllBatchReads(cfg, calls) then
      if |calls| < READ_BATCH_LIMIT then |calls| else READ_BATCH_LIMIT
    else 1
  }

  function Deferred(call: ToolCall): Observation {
    Observation(call.id, call.name, false, Some("TOOL_CALL_DEFERRED"))
  }

  // One assistant message with every proposed call, then one result for each of them.
  function Exchange(turn: Reply, done: seq<Observation>): seq<Message>
    requires turn.Turn? && |done| <= |turn.calls|
  {
    [Assistant(turn.content, turn.reasoning, turn.calls)] +
    seq(|turn.calls|, k requires 0 <= k < |turn.calls| =>
      ToolResult(if k < |done| then done[k] else Deferred(turn.calls[k])))
  }

  function Correction(reason: string): Message {
    User("protocol error, no tool ran: " + reason)
  }

  function AfterReply(cfg: Config, p: Progress, reply: Reply): Local
    requires p.turns > 0
  {
    match reply
    case ProtocolError(reason) => Unsaved(p.(history := p.history + [Correction(reason)]), None)
    case ProviderFailure => Finished(p, ProviderRaised)
    case Turn(_, _, calls) =>
      if calls == [] then Finished(p, MissingToolCall)
      else
        var forbidden := FirstForbidden(calls, AllowedAt(cfg, p.turns - 1));
        if forbidden.Some? then Finished(p, ForbiddenTool(forbidden.value)) else Executing(p, reply, [])
  }

  function AfterRun(cfg: Config, p: Progress, turn: Reply, done: seq<Observation>, output: Option<string>): Local
    requires turn.Turn? && |done| <= |turn.calls|
  {
    if |done| < ExecutedCount(cfg, turn.calls) then Executing(p, turn, done)
    else
      Unsaved(p.(history := p.history + Exchange(turn, done),
                 output := if output.Some? then output else p.output), output)
  }

  // What one event does to the loop; None when the loop cannot do that here.
  function Step(cfg: Config, s: Local, e: Event): Option<Local> {
    match s
    case Top(p) =>
      var reserved := p.(turns := p.turns + 1);
      if p.turns >= cfg.maxTurns then (if e.GaveUp? then Some(Finished(p, TurnsExhausted)) else None)
      else if e == Saved(reserved) then Some(Waiting(reserved))
      else if e == SaveRefused(reserved) then Some(Finished(p, CheckpointRefused))
      else None
    case Waiting(p) =>
      if e.Called? && p.turns > 0 && e.turn == p.turns - 1 then Some(AfterReply(cfg, p, e.reply)) else None
    case Executing(p, turn, done) =>
      if e.Ran? && turn.Turn? && |done| < |turn.calls| && e.call == turn.calls[|done|]
         && e.observation.callId == e.call.id && e.observation.name == e.call.name
      then Some(AfterRun(cfg, p, turn, done + [e.observation], e.output))
      else if turn.Turn? && |done| < |turn.calls| && e == Broke(turn.calls[|done|]) then Some(Finished(p, ToolRaised))
      else None
    case Unsaved(p, output) =>
      if e == Saved(p) then Some(if output.Some? then Finished(p, Returned(output.value)) else Top(p))
      else if e == SaveRefused(p) then Some(Finished(p, CheckpointRefused))
      else None
    case Finished(_, _) => None
  }

  function Run(cfg: Config, s: Local, trace: seq<Event>): Option<Local>
    decreases |trace|
  {
    if trace == [] then Some(s)
    else
      var before := Run(cfg, s, trace[..|trace| - 1]);
      if before.None? then None else Step(cfg, before.value, trace[|trace| - 1])
  }

  lemma {:induction false} RunSnoc(cfg: Config, s: Local, trace: seq<Event>, e: Event)
    ensures Run(cfg, s, trace + [e]) ==
            var before := Run(cfg, s, trace); if before.None? then None else Step(cfg, before.value, e)
  {
    assert (trace + [e])[..|trace|] == trace;
  }

  // ---------------------------------------------------------------- the loop itself

  // What a tool does with a call: it answers with success, error code and output, or it raises.
  datatype ToolAnswer = Answer(ok: bool, errorCode: Option<string>, output: Option<string>) | Raise

  // What the outside world answers at each point of time, counted in events: the provider its
  // reply, a tool its answer, and the checkpoint callback whether it saved.
  datatype World = World(
    reply: nat -> Reply,
    execute: (nat, ToolCall) -> ToolAnswer,
    accepts: nat -> bool)

  // Every event of the trace is what the outside world answered at that point.
  ghost predicate AnsweredBy(world: World, trace: seq<Event>) {
    forall i :: 0 <= i < |trace| ==> AnsweredAt(world, i, trace[i])
  }

  ghost predicate AnsweredAt(world: World, i: nat, e: Event) {
    match e
    case Saved(_) => world.accepts(i)
    case SaveRefused(_) => !world.accepts(i)
    case Called(_, reply) => reply == world.reply(i)
    case Ran(call, observation, output) =>
      world.execute(i, call) == Answer(observation.ok, observation.errorCode, output)
    case Broke(call) => world.execute(i, call).Raise?
    case GaveUp => true
  }

  // The trace is a run to the local state and the outside world answered all of it.
  ghost predicate Played(cfg: Config, start: Local, world: World, trace: seq<Event>, s: Local) {
    Run(cfg, start, trace) == Some(s) && AnsweredBy(world, trace)
  }

  lemma {:induction false} PlaysOn(cfg: Config, start: Local, world: World, trace: seq<Event>, s: Local, e: Event)
    requires Played(cfg, start, world, trace, s)
    requires Step(cfg, s, e).Some? && AnsweredAt(world, |trace|, e)
    ensures Played(cfg, start, world, trace + [e], Step(cfg, s, e).value)
  {
    RunSnoc(cfg, start, trace, e);
  }

  ghost predicate PlayedToEnd(cfg: Config, checkpoint: Progress, world: World, trace: seq<Event>, outcome: Outcome) {
    exists p :: Played(cfg, Start(cfg, checkpoint), world, trace, Finished(p, outcome))
  }

  // The save that reserves a turn, and what follows from the answer to it.
  lemma {:induction false} PlaysReservation(cfg: Config, checkpoint: Progress, world: World, trace: seq<Event>, p: Progress)
    requires Played(cfg, Start(cfg, checkpoint), world, trace, Top(p)) && p.turns < cfg.maxTurns
    ensures var reserved := p.(turns := p.turns + 1);
            if world.accepts(|trace|) then Played(cfg, Start(cfg, checkpoint), world, trace + [Saved(reserved)], Waiting(reserved))
            else PlayedToEnd(cfg, checkpoint, world, trace + [SaveRefused(reserved)], CheckpointRefused)
  {
    var reserved := p.(turns := p.turns + 1);
    PlaysOn(cfg, Start(cfg, checkpoint), world, trace, Top(p),
            if world.accepts(|trace|) then Saved(reserved) else SaveRefused(reserved));
  }

  // The save that ends a turn.
  lemma {:induction false} PlaysSave(
      cfg: Config, checkpoint: Progress, world: World, trace: seq<Event>, p: Progress, output: Option<string>)
    requires Played(cfg, Start(cfg, checkpoint), world, trace, Unsaved(p, output))
    ensures !world.accepts(|trace|) ==> PlayedToEnd(cfg, checkpoint, world, trace + [SaveRefused(p)], CheckpointRefused)
    ensures world.accepts(|trace|) && output.None? ==> Played(cfg, Start(cfg, checkpoint), world, trace + [Saved(p)], Top(p))
    ensures world.accepts(|trace|) && output.Some? ==>
              PlayedToEnd(cfg, checkpoint, world, trace + [Saved(p)], Returned(output.value))
  {
    PlaysOn(cfg, Start(cfg, checkpoint), world, trace, Unsaved(p, output),
            if world.accepts(|trace|) then Saved(p) else SaveRefused(p));
  }

  /**
   * Runs the loop and returns its result with everything it did, in order.  The trace is a
   * complete run of the automaton against the answers of the outside world.
   */
  method RunBoundedToolLoop(cfg: Config, checkpoint: Progress, world: World)
    returns (outcome: Outcome, trace: seq<Event>)
    ensures PlayedToEnd(cfg, checkpoint, world, trace, outcome)
  {
    trace := [];
    var start := Start(cfg, checkpoint);
    var progress := start.progress;
    while progress.turns < cfg.maxTurns
      invariant Played(cfg, start, world, trace, Top(progress))
      decreases cfg.maxTurns - progress.turns
    {
      var turn := progress.turns;
      var reserved := progress.(turns := turn + 1);
      PlaysReservation(cfg, checkpoint, world, trace, progress);
      if !world.accepts(|trace|) {
        return CheckpointRefused, trace + [SaveRefused(reserved)];
      }
      trace := trace + [Saved(reserved)];
      progress := reserved;
      var result, stop;
      trace, progress, result, stop := TakeTurn(cfg, start, progress, trace, world);
      if stop.Some? {
        return stop.value, trace;
      }
      PlaysSave(cfg, checkpoint, world, trace, progress, result);
      if !world.accepts(|trace|) {
        return CheckpointRefused, trace + [SaveRefused(progress)];
      }
      trace := trace + [Saved(progress)];
      if result.Some? {
        return Returned(result.value), trace;
      }
    }
    PlaysOn(cfg, start, world, trace, Top(progress), GaveUp);
    trace := trace + [GaveUp];
    return TurnsExhausted, trace;
  }

  // One paid call and what follows from its reply, up to the save that ends the turn.
  method TakeTurn(cfg: Config, start: Local, reserved: Progress, before: seq<Event>, world: World)
    returns (trace: seq<Event>, progress: Progress, result: Option<string>, stop: Option<Outcome>)
    requires reserved.turns > 0 && Played(cfg, start, world, before, Waiting(reserved))
    ensures stop.Some? ==> Played(cfg, start, world, trace, Finished(reserved, stop.value))
    ensures stop.None? ==> Played(cfg, start, world, trace, Unsaved(progress, result)) && progress.turns == reserved.turns
  {
    var turn, reply := reserved.turns - 1, world.reply(|before|);
    PlaysOn(cfg, start, world, before, Waiting(reserved), Called(turn, reply));
    trace, progress, result, stop := before + [Called(turn, reply)], reserved, None, None;
    match reply {
      case ProviderFailure =>
        stop := Some(ProviderRaised);
      case ProtocolError(reason) =>
        progress := progress.(history := progress.history + [Correction(reason)]);
      case Turn(_, _, calls) =>
        if calls == [] {
          stop := Some(MissingToolCall);
          return;
        }
        var forbidden := FirstForbidden(calls, AllowedAt(cfg, turn));
        if forbidden.Some? {
          stop := Some(ForbiddenTool(forbidden.value));
          return;
        }
        var done, broken;
        done, trace, result, broken := ExecuteBatch(cfg, start, progress, reply, trace, world);
        if broken {
          stop := Some(ToolRaised);
          return;
        }
        progress := progress.(history := progress.history + Exchange(reply, done));
        if result.Some? {
          progress := progress.(output := result);
        }
    }
  }

  // The inner loop: executes the calls that this turn may execute, in call order, until one raises.
  method ExecuteBatch(cfg: Config, start: Local, progress: Progress, reply: Reply, before: seq<Event>, world: World)
    returns (done: seq<Observation>, trace: seq<Event>, output: Option<string>, broken: bool)
    requires reply.Turn? && reply.calls != []
    requires Played(cfg, start, world, before, Executing(progress, reply, []))
    ensures |done| <= ExecutedCount(cfg, reply.calls) <= |reply.calls|
    ensures broken <==> |done| < ExecutedCount(cfg, reply.calls)
    ensures Played(cfg, start, world, trace,
                   if broken then Finished(progress, ToolRaised) else AfterRun(cfg, progress, reply, done, output))
  {
    done, trace, output, broken := [], before, None, false;
    var count := ExecutedCount(cfg, reply.calls);
    ghost var s := Executing(progress, reply, []);
    while |done| < count
      invariant |done| <= count <= |reply.calls|
      invariant s == if |done| < count then Executing(progress, reply, done) else AfterRun(cfg, progress, reply, done, output)
      invariant Played(cfg, start, world, trace, s)
    {
      var call := reply.calls[|done|];
      var answer := world.execute(|trace|, call);
      if answer.Raise? {
        PlaysOn(cfg, start, world, trace, s, Broke(call));
        return done, trace + [Broke(call)], None, true;
      }
      var observation := Observation(call.id, call.name, answer.ok, answer.errorCode);
      output := answer.output;
      PlaysOn(cfg, start, world, trace, s, Ran(call, observation, output));
      s := Step(cfg, s, Ran(call, observation, output)).value;
      trace := trace + [Ran(call, observation, output)];
      done := done + [observation];
    }
  }

  // ---------------------------------------------------------------- history shape

  // Every assistant message with n calls is followed by exactly n results, one for each call,
  // with the call's id and name and in call order; no result stands anywhere else.
  ghost predicate WellPaired(h: seq<Message>)
    decreases |h|
  {
    h == [] ||
    match h[0]
    case System(_) => WellPaired(h[1..])
    case User(_) => WellPaired(h[1..])
    case ToolResult(_) => false
    case Assistant(_, _, calls) =>
      |calls| < |h| &&
      (forall k :: 0 <= k < |calls| ==> Answers(h[1 + k], calls[k])) &&
      WellPaired(h[1 + |calls|..])
  }

  predicate Answers(m: Message, call: ToolCall) {
    m.ToolResult? && m.observation.callId == call.id && m.observation.name == call.name
  }

  lemma {:induction false} WellPairedAppend(a: seq<Message>, b: seq<Message>)
    requires WellPaired(a) && WellPaired(b)
    ensures WellPaired(a + b)
    decreases |a|
  {
    if a == [] {
      assert a + b == b;
    } else {
      var n := if a[0].Assistant? then 1 + |a[0].calls| else 1;
      WellPairedAppend(a[n..], b);
      assert (a + b)[n..] == a[n..] + b;
    }
  }

  lemma {:induction false} ExchangeWellPaired(turn: Reply, done: seq<Observation>)
    requires turn.Turn? && |done| <= |turn.calls|
    requires forall k :: 0 <= k < |done| ==> done[k].callId == turn.calls[k].id && done[k].name == turn.calls[k].name
    ensures WellPaired(Exchange(turn, done))
  {
    var h := Exchange(turn, done);
    assert h[1 + |turn.calls|..] == [];
    assert forall k :: 0 <= k < |turn.calls| ==> Answers(h[1 + k], turn.calls[k]);
  }

  // What holds of the local state between any two events.
  ghost predicate Sound(cfg: Config, s: Local) {
    && WellPaired(s.progress.history)
    && (s.Waiting? || s.Executing? ==> 0 < s.progress.turns <= cfg.maxTurns)
    && (s.Executing? ==>
          && s.turn.Turn?
          && |s.done| < ExecutedCount(cfg, s.turn.calls) <= |s.turn.calls|
          && forall k :: 0 <= k < |s.done| ==>
               s.done[k].callId == s.turn.calls[k].id && s.done[k].name == s.turn.calls[k].name)
  }

  lemma {:induction false} StepKeepsSound(cfg: Config, s: Local, e: Event)
    requires Sound(cfg, s) && Step(cfg, s, e).Some?
    ensures Sound(cfg, Step(cfg, s, e).value)
    ensures s.progress.history <= Step(cfg, s, e).value.progress.history
    ensures s.progress.turns <= Step(cfg, s, e).value.progress.turns
    ensures e.Saved? ==> e.progress == Step(cfg, s, e).value.progress
  {
    match s
    case Waiting(p) =>
      if e.reply.ProtocolError? {
        assert WellPaired([Correction(e.reply.reason)]);
        WellPairedAppend(p.history, [Correction(e.reply.reason)]);
      }
    case Executing(p, turn, done) =>
      if e.Ran? && |done| + 1 >= ExecutedCount(cfg, turn.calls) {
        ExchangeWellPaired(turn, done + [e.observation]);
        WellPairedAppend(p.history, Exchange(turn, done + [e.observation]));
      }
    case _ =>
  }

  // ---------------------------------------------------------------- properties of every run

  ghost predicate SavesChain(trace: seq<Event>, from: Progress, to: Progress) {
    && (forall i :: 0 <= i < |trace| && trace[i].Saved? ==>
          && WellPaired(trace[i].progress.history)
          && from.history <= trace[i].progress.history <= to.history
          && from.turns <= trace[i].progress.turns <= to.turns)
    && (forall i, j :: 0 <= i <= j < |trace| && trace[i].Saved? && trace[j].Saved? ==>
          && trace[i].progress.history <= trace[j].progress.history
          && trace[i].progress.turns <= trace[j].progress.turns)
  }

  /**
   * Every checkpoint a run saves is well paired, and the saved histories form one chain of
   * prefixes that starts at the history the run started from.
   */
  lemma {:induction false} SavedHistoriesChain(cfg: Config, s: Local, trace: seq<Event>)
    requires Sound(cfg, s) && Run(cfg, s, trace).Some?
    ensures Sound(cfg, Run(cfg, s, trace).value)
    ensures s.progress.history <= Run(cfg, s, trace).value.progress.history
    ensures s.progress.turns <= Run(cfg, s, trace).value.progress.turns
    ensures SavesChain(trace, s.progress, Run(cfg, s, trace).value.progress)
    decreases |trace|
  {
    if trace != [] {
      var n := |trace| - 1;
      SavedHistoriesChain(cfg, s, trace[..n]);
      var m := Run(cfg, s, trace[..n]).value;
      StepKeepsSound(cfg, m, trace[n]);
      SavesChainSnoc(trace[..n], trace[n], s.progress, m.progress, Step(cfg, m, trace[n]).value.progress);
      assert trace == trace[..n] + [trace[n]];
    }
  }

  lemma {:induction false} SavesChainSnoc(trace: seq<Event>, e: Event, from: Progress, mid: Progress, to: Progress)
    requires SavesChain(trace, from, mid)
    requires from.history <= mid.history && from.turns <= mid.turns
    requires mid.history <= to.history && mid.turns <= to.turns
    requires e.Saved? ==> e.progress == to && WellPaired(to.history)
    ensures SavesChain(trace + [e], from, to)
  {
  }

  // The turn numbers of the paid provider calls, in order.
  function CallTurns(trace: seq<Event>): seq<nat>
    decreases |trace|
  {
    if trace == [] then []
    else
      var init, e := trace[..|trace| - 1], trace[|trace| - 1];
      if e.Called? then CallTurns(init) + [e.turn] else CallTurns(init)
  }

  /**
   * The paid calls of a run are exactly the turns from its starting count upwards, none skipped
   * and none repeated, all below the limit.  The turn count is ahead of the calls by one exactly
   * while a reservation is waiting for its call.
   */
  lemma {:induction false} CallsAreConsecutiveTurns(cfg: Config, checkpoint: Progress, trace: seq<Event>)
    requires Run(cfg, Start(cfg, checkpoint), trace).Some?
    ensures var calls, end := CallTurns(trace), Run(cfg, Start(cfg, checkpoint), trace).value;
            && (forall k :: 0 <= k < |calls| ==> calls[k] == checkpoint.turns + k && calls[k] < cfg.maxTurns)
            && end.progress.turns == checkpoint.turns + |calls| + (if end.Waiting? then 1 else 0)
            && (end.Waiting? ==> end.progress.turns <= cfg.maxTurns)
    decreases |trace|
  {
    if trace != [] {
      CallsAreConsecutiveTurns(cfg, checkpoint, trace[..|trace| - 1]);
    }
  }

  /** The number of paid calls of one run never exceeds what the limit leaves over. */
  lemma {:induction false} RunStaysInBudget(cfg: Config, checkpoint: Progress, trace: seq<Event>)
    requires Run(cfg, Start(cfg, checkpoint), trace).Some?
    ensures |CallTurns(trace)| <= if checkpoint.turns < cfg.maxTurns then cfg.maxTurns - checkpoint.turns else 0
  {
    CallsAreConsecutiveTurns(cfg, checkpoint, trace);
    var calls := CallTurns(trace);
    if calls != [] {
      assert calls[|calls| - 1] < cfg.maxTurns;
    }
  }

  /** Every paid call comes directly after the durable save that reserved its turn number. */
  lemma {:induction false} CallsAreReserved(cfg: Config, checkpoint: Progress, trace: seq<Event>, i: nat)
    requires Run(cfg, Start(cfg, checkpoint), trace).Some?
    requires i < |trace| && trace[i].Called?
    ensures i > 0 && trace[i - 1].Saved? && trace[i - 1].progress.turns == trace[i].turn + 1
    decreases |trace|
  {
    var start, n := Start(cfg, checkpoint), |trace| - 1;
    if i < n {
      CallsAreReserved(cfg, checkpoint, trace[..n], i);
    } else {
      var init := trace[..n];
      assert Run(cfg, start, init).value.Waiting?;
      assert init != [];
      assert Step(cfg, Run(cfg, start, init[..n - 1]).value, init[n - 1]).value.Waiting?;
    }
  }

  // The calls that a batch of events executed, in order.
  function RanCalls(events: seq<Event>): seq<ToolCall>
    requires forall i :: 0 <= i < |events| ==> events[i].Ran?
  {
    seq(|events|, i requires 0 <= i < |events| => events[i].call)
  }

  /**
   * From an accepted reply to the save that ends its turn: the first calls are executed, each once
   * and in order, up to 16 of them when all proposed calls are batch reads and one otherwise; the
   * saved history grew by one assistant message with all proposed calls and one result for each,
   * the executor's for the executed ones and a deferral for the rest.
   */
  lemma {:induction false} TurnExecutesPrefixAndDefersRest(
      cfg: Config, p: Progress, turn: Reply, events: seq<Event>, end: Event)
    requires turn.Turn? && turn.calls != [] && 0 < p.turns
    requires forall i :: 0 <= i < |events| ==> events[i].Ran?
    requires end.Saved? && Run(cfg, Executing(p, turn, []), events + [end]).Some?
    ensures |events| == if (forall k :: 0 <= k < |turn.calls| ==> turn.calls[k].name in cfg.batchReadTools)
                        then (if |turn.calls| < 16 then |turn.calls| else 16)
                        else 1
    ensures RanCalls(events) == turn.calls[..|events|]
    ensures |end.progress.history| == |p.history| + 1 + |turn.calls| && p.history <= end.progress.history
    ensures end.progress.history[|p.history|] == Assistant(turn.content, turn.reasoning, turn.calls)
    ensures forall k :: 0 <= k < |turn.calls| ==>
              end.progress.history[|p.history| + 1 + k] ==
              ToolResult(if k < |events| then events[k].observation
                         else Observation(turn.calls[k].id, turn.calls[k].name, false, Some("TOOL_CALL_DEFERRED")))
    ensures end.progress.turns == p.turns
    ensures var output := events[|events| - 1].output;
            end.progress.output == if output.Some? then output else p.output
  {
    RunSnoc(cfg, Executing(p, turn, []), events, end);
    BatchRuns(cfg, p, turn, events);
  }

  lemma {:induction false} BatchRuns(cfg: Config, p: Progress, turn: Reply, events: seq<Event>)
    requires turn.Turn? && turn.calls != []
    requires forall i :: 0 <= i < |events| ==> events[i].Ran?
    requires Run(cfg, Executing(p, turn, []), events).Some?
    ensures |events| <= ExecutedCount(cfg, turn.calls) <= |turn.calls|
    ensures RanCalls(events) == turn.calls[..|events|]
    ensures var done := seq(|events|, i requires 0 <= i < |events| => events[i].observation);
            Run(cfg, Executing(p, turn, []), events).value ==
            if events == [] then Executing(p, turn, []) else AfterRun(cfg, p, turn, done, events[|events| - 1].output)
    decreases |events|
  {
    if events != [] {
      var n := |events| - 1;
      var init := events[..n];
      BatchRuns(cfg, p, turn, init);
      var done := seq(n, i requires 0 <= i < n => init[i].observation);
      assert seq(|events|, i requires 0 <= i < |events| => events[i].observation) == done + [events[n].observation];
      assert RanCalls(events) == RanCalls(init) + [events[n].call];
    }
  }
}
