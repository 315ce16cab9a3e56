/**
 * What a run of the bounded tool loop may do, read off its events alone: which tools run on which
 * turn, what each reply leads to, and how a run can end.  Nothing here asks the loop's own tests.
 */
module ToolLoopRuns {
  import opened Results
  import opened ToolLoop

  // The tools open on a turn: the last turn of the budget may have its own set.
  predicate MayRun(cfg: Config, turn: nat, name: string) {
    if cfg.finalTurnTools.Some? && turn + 1 == cfg.maxTurns then name in cfg.finalTurnTools.value else name in cfg.allowedTools
  }

  // The event that answered the paid call of the turn the trace stands in.
  ghost function LastCalled(trace: seq<Event>): Option<Event>
    decreases |trace|
  {
    if trace == [] then None
    else if trace[|trace| - 1].Called? then Some(trace[|trace| - 1])
    else LastCalled(trace[..|trace| - 1])
  }

  // How many calls ran since then.
  ghost function RanSince(trace: seq<Event>): nat
    decreases |trace|
  {
    if trace == [] || trace[|trace| - 1].Called? then 0
    else RanSince(trace[..|trace| - 1]) + if trace[|trace| - 1].Ran? then 1 else 0
  }

  // The calls of this turn come from a reply whose calls are all open on it.
  ghost predicate Permitted(cfg: Config, called: Option<Event>, done: nat, calls: seq<ToolCall>) {
    && called.Some? && called.value.Called? && called.value.reply.Turn? && called.value.reply.calls == calls
    && done < |calls| && (forall k :: 0 <= k < |calls| ==> MayRun(cfg, called.value.turn, calls[k].name))
    && done < 16 && (done > 0 ==> forall k :: 0 <= k < |calls| ==> calls[k].name in cfg.batchReadTools)
  }

  lemma {:induction false} LastCalledSnoc(trace: seq<Event>, e: Event)
    ensures LastCalled(trace + [e]) == if e.Called? then Some(e) else LastCalled(trace)
    ensures RanSince(trace + [e]) == if e.Called? then 0 else RanSince(trace) + if e.Ran? then 1 else 0
  {
    assert (trace + [e])[..|trace|] == trace;
  }

  ghost predicate Open(cfg: Config, trace: seq<Event>, s: Local) {
    && (s.Waiting? ==> 0 < s.progress.turns <= cfg.maxTurns)
    && (s.Executing? ==>
          s.turn.Turn? && RanSince(trace) == |s.done| && Permitted(cfg, LastCalled(trace), |s.done|, s.turn.calls))
  }

  // The same, of a loop's state alone: its batch is open on its turn.
  ghost predicate LocallyOpen(cfg: Config, s: Local) {
    && (s.Waiting? ==> 0 < s.progress.turns <= cfg.maxTurns)
    && (s.Executing? ==>
          && 0 < s.progress.turns && s.turn.Turn? && |s.done| < |s.turn.calls|
          && (forall k :: 0 <= k < |s.turn.calls| ==> MayRun(cfg, s.progress.turns - 1, s.turn.calls[k].name))
          && (|s.done| > 0 ==> forall k :: 0 <= k < |s.turn.calls| ==> s.turn.calls[k].name in cfg.batchReadTools))
  }

  lemma {:induction false} StepKeepsLocallyOpen(cfg: Config, s: Local, e: Event)
    requires LocallyOpen(cfg, s) && Step(cfg, s, e).Some?
    ensures LocallyOpen(cfg, Step(cfg, s, e).value)
  {
  }

  lemma {:induction false} StepKeepsOpen(cfg: Config, trace: seq<Event>, s: Local, e: Event)
    requires Open(cfg, trace, s) && Step(cfg, s, e).Some?
    ensures Open(cfg, trace + [e], Step(cfg, s, e).value)
  {
    LastCalledSnoc(trace, e);
  }

  lemma {:induction false} RunIsOpen(cfg: Config, checkpoint: Progress, trace: seq<Event>)
    requires Run(cfg, Start(cfg, checkpoint), trace).Some?
    ensures Open(cfg, trace, Run(cfg, Start(cfg, checkpoint), trace).value)
    decreases |trace|
  {
    if trace != [] {
      var front, e := trace[..|trace| - 1], trace[|trace| - 1];
      RunIsOpen(cfg, checkpoint, front);
      StepKeepsOpen(cfg, front, Run(cfg, Start(cfg, checkpoint), front).value, e);
      assert trace == front + [e];
    }
  }

  lemma {:induction false} RunPrefix(cfg: Config, s: Local, trace: seq<Event>, i: nat)
    requires i <= |trace| && Run(cfg, s, trace).Some?
    ensures Run(cfg, s, trace[..i]).Some?
    decreases |trace|
  {
    if i < |trace| {
      assert trace[..|trace| - 1][..i] == trace[..i];
      RunPrefix(cfg, s, trace[..|trace| - 1], i);
    } else {
      assert trace[..i] == trace;
    }
  }

  /**
   * Every tool call that a run executes was proposed by the reply of its turn, in call order, at
   * most 16 in a turn and a second one only among batch reads; and every call of that reply, run or
   * not, is open on the turn: from the final set on the last turn if there is one, else allowed.
   */
  lemma {:induction false} OnlyOpenToolsRun(cfg: Config, checkpoint: Progress, trace: seq<Event>, i: nat)
    requires Run(cfg, Start(cfg, checkpoint), trace).Some? && i < |trace| && (trace[i].Ran? || trace[i].Broke?)
    ensures var called, n := LastCalled(trace[..i]), RanSince(trace[..i]);
            && called.Some? && called.value.Called? && called.value.reply.Turn?
            && n < |called.value.reply.calls| && trace[i].call == called.value.reply.calls[n]
            && n < 16 && (n > 0 ==> forall c :: c in called.value.reply.calls ==> c.name in cfg.batchReadTools)
            && forall c :: c in called.value.reply.calls ==> MayRun(cfg, called.value.turn, c.name)
  {
    RunPrefix(cfg, Start(cfg, checkpoint), trace, i + 1);
    assert trace[..i + 1][..i] == trace[..i];
    RunIsOpen(cfg, checkpoint, trace[..i]);
    OpenStepRuns(cfg, trace[..i], Run(cfg, Start(cfg, checkpoint), trace[..i]).value, trace[i]);
  }

  lemma {:induction false} OpenStepRuns(cfg: Config, before: seq<Event>, s: Local, e: Event)
    requires Open(cfg, before, s) && Step(cfg, s, e).Some? && (e.Ran? || e.Broke?)
    ensures var called, n := LastCalled(before), RanSince(before);
            && called.Some? && called.value.Called? && called.value.reply.Turn?
            && n < |called.value.reply.calls| && e.call == called.value.reply.calls[n]
            && n < 16 && (n > 0 ==> forall c :: c in called.value.reply.calls ==> c.name in cfg.batchReadTools)
            && forall c :: c in called.value.reply.calls ==> MayRun(cfg, called.value.turn, c.name)
  {
  }

  // The first proposed call that is not open on the turn.
  ghost predicate FirstNotOpen(cfg: Config, turn: nat, calls: seq<ToolCall>, name: string) {
    exists k :: 0 <= k < |calls| && NotOpenAt(cfg, turn, calls, k) && calls[k].name == name
  }

  ghost predicate NotOpenAt(cfg: Config, turn: nat, calls: seq<ToolCall>, k: int)
    requires 0 <= k < |calls|
  {
    !MayRun(cfg, turn, calls[k].name) && forall j :: 0 <= j < k ==> MayRun(cfg, turn, calls[j].name)
  }

  lemma {:induction false} ForbiddenIsFirst(cfg: Config, turn: nat, calls: seq<ToolCall>)
    ensures var r := FirstForbidden(calls, AllowedAt(cfg, turn));
            && (r.None? <==> forall k :: 0 <= k < |calls| ==> MayRun(cfg, turn, calls[k].name))
            && (forall name :: r == Some(name) <==> FirstNotOpen(cfg, turn, calls, name))
    decreases |calls|
  {
    if calls != [] {
      ForbiddenIsFirst(cfg, turn, calls[1..]);
      if !MayRun(cfg, turn, calls[0].name) {
        assert NotOpenAt(cfg, turn, calls, 0);
      } else {
        forall name
          ensures FirstNotOpen(cfg, turn, calls, name) <==> FirstNotOpen(cfg, turn, calls[1..], name)
        {
          ShiftedFirst(cfg, turn, calls, name);
        }
      }
    }
  }

  lemma {:induction false} ShiftedFirst(cfg: Config, turn: nat, calls: seq<ToolCall>, name: string)
    requires calls != [] && MayRun(cfg, turn, calls[0].name)
    ensures FirstNotOpen(cfg, turn, calls, name) <==> FirstNotOpen(cfg, turn, calls[1..], name)
  {
    var rest := calls[1..];
    if k :| 0 <= k < |calls| && NotOpenAt(cfg, turn, calls, k) && calls[k].name == name {
      assert rest[k - 1] == calls[k] && NotOpenAt(cfg, turn, rest, k - 1);
    }
    if k :| 0 <= k < |rest| && NotOpenAt(cfg, turn, rest, k) && rest[k].name == name {
      assert forall j :: 1 <= j <= k ==> calls[j] == rest[j - 1];
      assert calls[k + 1] == rest[k] && NotOpenAt(cfg, turn, calls, k + 1);
    }
  }

  /**
   * What a reply leads to.  A provider failure and an empty or partly closed batch end the run before
   * any tool runs, the last one naming the first closed tool; a protocol error adds one user message
   * and goes on to the save; any other batch is executed.
   */
  lemma {:induction false} ReplyDecides(cfg: Config, s: Local, turn: nat, reply: Reply)
    requires Step(cfg, s, Called(turn, reply)).Some?
    ensures var p, end := s.progress, Step(cfg, s, Called(turn, reply)).value;
            && (end.Finished? ==> end.progress == p)
            && match reply
               case ProviderFailure => end == Finished(p, ProviderRaised)
               case ProtocolError(_) =>
                 && end.Unsaved? && end.output == None && end.progress.turns == p.turns && end.progress.output == p.output
                 && |end.progress.history| == |p.history| + 1 && p.history <= end.progress.history
                 && end.progress.history[|p.history|].User?
               case Turn(_, _, calls) =>
                 && (calls == [] <==> end == Finished(p, MissingToolCall))
                 && (forall name :: end == Finished(p, ForbiddenTool(name)) <==> FirstNotOpen(cfg, turn, calls, name))
                 && (calls != [] && (forall k :: 0 <= k < |calls| ==> MayRun(cfg, turn, calls[k].name)) <==>
                       end == Executing(p, reply, []))
  {
    if reply.Turn? {
      ForbiddenIsFirst(cfg, turn, reply.calls);
    }
  }

  /** A run starts by reserving the next turn on the saved history, or on the messages if there is none. */
  lemma {:induction false} FirstReservation(cfg: Config, checkpoint: Progress, e: Event)
    requires Run(cfg, Start(cfg, checkpoint), [e]).Some?
    ensures var history := if checkpoint.history == [] then cfg.messages else checkpoint.history;
            var reserved := Progress(checkpoint.turns + 1, history, checkpoint.output);
            if checkpoint.turns < cfg.maxTurns then e == Saved(reserved) || e == SaveRefused(reserved) else e.GaveUp?
  {
    assert [e][..0] == [];
  }

  // The last event of a run that ended this way.
  ghost predicate EndsWith(cfg: Config, e: Event, p: Progress, outcome: Outcome) {
    match outcome
    case Returned(output) => e == Saved(p) && p.output == Some(output)
    case MissingToolCall => e.Called? && e.reply.Turn? && e.reply.calls == []
    case ForbiddenTool(name) => e.Called? && e.reply.Turn? && FirstNotOpen(cfg, e.turn, e.reply.calls, name)
    case TurnsExhausted => e.GaveUp? && p.turns >= cfg.maxTurns
    case ProviderRaised => e.Called? && e.reply.ProviderFailure?
    case ToolRaised => e.Broke?
    case CheckpointRefused => e.SaveRefused?
  }

  // A tool's output stands in the progress that is saved next.
  ghost predicate OutputKept(s: Local) {
    s.Unsaved? && s.output.Some? ==> s.progress.output == s.output
  }

  lemma {:induction false} RunKeepsOutput(cfg: Config, checkpoint: Progress, trace: seq<Event>)
    requires Run(cfg, Start(cfg, checkpoint), trace).Some?
    ensures OutputKept(Run(cfg, Start(cfg, checkpoint), trace).value)
  {
  }

  /**
   * A run ends in each way exactly on its own event: a closed tool on the reply that proposes it, and
   * so on.  In particular it gives up only when the saved count has used up the turns.
   */
  lemma {:induction false} HowRunsEnd(cfg: Config, checkpoint: Progress, trace: seq<Event>, e: Event, outcome: Outcome)
    requires Run(cfg, Start(cfg, checkpoint), trace + [e]).Some?
    ensures var end := Run(cfg, Start(cfg, checkpoint), trace + [e]).value;
            && (end.Finished? && end.outcome == outcome ==> EndsWith(cfg, e, end.progress, outcome))
            && (e.Called? && EndsWith(cfg, e, end.progress, outcome) ==> end.Finished? && end.outcome == outcome)
            && ((e.Broke? || e.SaveRefused? || e.GaveUp?) ==> end.Finished?)
  {
    RunSnoc(cfg, Start(cfg, checkpoint), trace, e);
    RunKeepsOutput(cfg, checkpoint, trace);
    var s := Run(cfg, Start(cfg, checkpoint), trace).value;
    if e.Called? {
      ReplyDecides(cfg, s, e.turn, e.reply);
    }
  }
}
