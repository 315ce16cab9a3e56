/**
 * Call budgets of the engineering loop, orchestration/code_engineer.py.
 *
 * Checkpoint functions say what each transaction does to the durable counters.  EngineeringRun is
 * the loop of one execution over them.  The transition system lets executions replace each other at
 * any moment: every transaction checks that its execution is still the current one, a paid model
 * call does not.
 */
module EngineerBudget {
  import opened Results

  datatype Outcome = Running | Generated | Blocked(reason: string)

  // What the model may ask for, as far as budgets are concerned.
  datatype Call =
    | Malformed
    | CompleteItem(current: bool)
    | ReportBlocked
    | SourceTool
    | OtherTool

  datatype Budget = Budget(maxModelTurns: nat, maxToolCalls: nat)

  datatype Checkpoint = Checkpoint(
    modelTurns: nat, toolCalls: nat, planningTurns: nat, needsPlan: bool, pending: Option<Call>, outcome: Outcome)

  const FIRST := Checkpoint(0, 0, 0, true, None, Running)

  // ---------------------------------------------------------------- the transactions

  function WithOutcome(c: Checkpoint, outcome: Outcome): Checkpoint {
    c.(outcome := outcome)
  }

  // The checks before a step; the step goes on exactly when the outcome is still running.
  function Loaded(c: Checkpoint, b: Budget, hasWork: bool): Checkpoint {
    if c.outcome != Running then c
    else if c.modelTurns >= b.maxModelTurns then WithOutcome(c, Blocked("MODEL_BUDGET_EXHAUSTED"))
    else if c.toolCalls >= b.maxToolCalls then WithOutcome(c, Blocked("TOOL_BUDGET_EXHAUSTED"))
    else if !hasWork then WithOutcome(c, Blocked("INVALID_DELIVERY_PLAN"))
    else c
  }

  // Pays for the model call before it is made.
  function Reserved(c: Checkpoint): Checkpoint {
    c.(modelTurns := c.modelTurns + 1, planningTurns := c.planningTurns + if c.needsPlan then 1 else 0)
  }

  function Needed(call: Call): nat {
    if call.CompleteItem? then 2 else 1
  }

  // Takes one unit, having checked that all units of the call are there.
  function Charged(c: Checkpoint, call: Call, b: Budget): Checkpoint {
    if c.toolCalls + Needed(call) > b.maxToolCalls then WithOutcome(c, Blocked("TOOL_BUDGET_EXHAUSTED"))
    else c.(toolCalls := c.toolCalls + 1, pending := Some(call))
  }

  predicate Affordable(c: Checkpoint, call: Call, b: Budget) {
    c.toolCalls + Needed(call) <= b.maxToolCalls
  }

  // The observation of a call is stored; it may adopt a plan or block the run.
  function Recorded(c: Checkpoint, adopted: bool, outcome: Outcome): Checkpoint {
    c.(pending := None, needsPlan := c.needsPlan && !adopted, outcome := outcome)
  }

  // The check that completes a work item takes the second unit.
  function Checked(c: Checkpoint, outcome: Outcome): Checkpoint {
    c.(toolCalls := c.toolCalls + 1, pending := None, outcome := outcome)
  }

  // Without an accepted plan no source tool runs and nothing is completed.
  predicate NeedsPlanFirst(c: Checkpoint, call: Call) {
    c.needsPlan && (call.SourceTool? || call.CompleteItem?)
  }

  datatype Decision = Calls(calls: seq<Call>) | Rejected | Fault | ProviderDown

  // Everything an execution meets on its way: one answer for every step it takes.
  datatype Input = Input(hasWork: bool, decision: Decision, adopted: bool, outcome: Outcome)

  datatype Phase =
    | Loading
    | Reserving
    | Deciding
    | Calling(calls: seq<Call>)
    | Recording(rest: seq<Call>)
    | Verifying(rest: seq<Call>)
    | Failing
    | Stopped

  function Onward(c: Checkpoint, rest: seq<Call>): Phase {
    if c.outcome != Running then Stopped else if rest == [] then Loading else Calling(rest)
  }

  function AfterCharge(c: Checkpoint, call: Call, rest: seq<Call>): Phase {
    if NeedsPlanFirst(c, call) then Recording(rest)
    else if call == CompleteItem(true) then Verifying(rest)
    else if call.ReportBlocked? then Failing
    else Recording(rest)
  }

  // One transaction, or the model call, of an execution that is still the current one.
  function Advance(c: Checkpoint, phase: Phase, b: Budget, input: Input): (Checkpoint, Phase) {
    match phase
    case Loading =>
      var loaded := Loaded(c, b, input.hasWork);
      (loaded, if loaded.outcome == Running then Reserving else Stopped)
    case Reserving => (Reserved(c), Deciding)
    case Deciding => (c, AfterDecision(input.decision))
    case Calling(calls) =>
      if calls == [] then (c, Loading)
      else if calls[0].Malformed? then (c, Recording(calls[1..]))
      else
        (Charged(c, calls[0], b),
         if Affordable(c, calls[0], b) then AfterCharge(c, calls[0], calls[1..]) else Stopped)
    case Recording(rest) =>
      var next := Recorded(c, input.adopted, input.outcome);
      (next, Onward(next, rest))
    case Verifying(rest) =>
      var next := Checked(c, input.outcome);
      (next, Onward(next, rest))
    case Failing => (WithOutcome(c, Blocked("REPORTED")).(pending := None), Stopped)
    case Stopped => (c, Stopped)
  }

  // A rejected decision is recorded, a fault blocks the run, and a provider failure ends the execution.
  function AfterDecision(decision: Decision): Phase {
    match decision
    case Calls(calls) => Calling(calls)
    case Rejected => Recording([])
    case Fault => Failing
    case ProviderDown => Stopped
  }

  // ---------------------------------------------------------------- one execution

  // How far a step still has to go within the turn that is paid for.
  function Stage(phase: Phase): nat {
    match phase
    case Deciding => 4
    case Calling(_) => 3
    case Recording(_) => 3
    case Verifying(_) => 3
    case Failing => 3
    case Loading => 2
    case Reserving => 1
    case Stopped => 0
  }

  function Left(phase: Phase): nat {
    match phase
    case Calling(calls) => 2 * |calls|
    case Recording(rest) => 2 * |rest| + 1
    case Verifying(rest) => 2 * |rest| + 1
    case _ => 0
  }

  // What a phase may rely on while its execution is the current one.
  predicate Covered(c: Checkpoint, phase: Phase, b: Budget) {
    && c.modelTurns <= b.maxModelTurns && c.toolCalls <= b.maxToolCalls
    && (phase.Reserving? ==> c.modelTurns < b.maxModelTurns)
    && (phase.Verifying? ==> c.toolCalls < b.maxToolCalls)
  }

  lemma {:induction false} AdvanceStaysCovered(c: Checkpoint, phase: Phase, b: Budget, input: Input)
    requires Covered(c, phase, b)
    ensures var (next, to) := Advance(c, phase, b, input); Covered(next, to, b)
  {
  }

  // Turns left, then the stage within the turn, then the calls left: every step lowers this.
  predicate Lower(c: Checkpoint, phase: Phase, next: Checkpoint, to: Phase, b: Budget) {
    || b.maxModelTurns - next.modelTurns < b.maxModelTurns - c.modelTurns
    || (next.modelTurns == c.modelTurns
        && (Stage(to) < Stage(phase) || (Stage(to) == Stage(phase) && Left(to) < Left(phase))))
  }

  lemma {:induction false} AdvanceIsLower(c: Checkpoint, phase: Phase, b: Budget, input: Input)
    requires Covered(c, phase, b) && phase != Stopped
    ensures var (next, to) := Advance(c, phase, b, input); Lower(c, phase, next, to, b)
  {
  }

  class EngineeringRun {
    const budget: Budget
    var checkpoint: Checkpoint
    var phase: Phase

    ghost predicate Valid()
      reads this
    {
      Covered(checkpoint, phase, budget)
    }

    constructor (budget: Budget, checkpoint: Checkpoint)
      requires checkpoint.modelTurns <= budget.maxModelTurns && checkpoint.toolCalls <= budget.maxToolCalls
      ensures Valid() && this.checkpoint == checkpoint && this.budget == budget && phase == Loading
    {
      this.budget, this.checkpoint, this.phase := budget, checkpoint, Loading;
    }

    method LoadStep(hasWork: bool)
      requires Valid() && phase == Loading
      modifies this
      ensures (checkpoint, phase) == Advance(old(checkpoint), old(phase), budget, Input(hasWork, ProviderDown, false, Running))
      ensures phase == Reserving || phase == Stopped
      ensures phase == Reserving <==>
                && old(checkpoint.outcome) == Running && hasWork
                && old(checkpoint.modelTurns) < budget.maxModelTurns && old(checkpoint.toolCalls) < budget.maxToolCalls
      ensures phase == Reserving ==> checkpoint == old(checkpoint)
      ensures checkpoint.modelTurns == old(checkpoint.modelTurns) && checkpoint.toolCalls == old(checkpoint.toolCalls)
    {
      if checkpoint.outcome != Running {
        phase := Stopped;
        return;
      }
      if checkpoint.modelTurns >= budget.maxModelTurns {
        checkpoint, phase := checkpoint.(outcome := Blocked("MODEL_BUDGET_EXHAUSTED")), Stopped;
        return;
      }
      if checkpoint.toolCalls >= budget.maxToolCalls {
        checkpoint, phase := checkpoint.(outcome := Blocked("TOOL_BUDGET_EXHAUSTED")), Stopped;
        return;
      }
      if !hasWork {
        checkpoint, phase := checkpoint.(outcome := Blocked("INVALID_DELIVERY_PLAN")), Stopped;
        return;
      }
      phase := Reserving;
    }

    method ExecuteCall()
      requires Valid() && phase.Calling? && phase.calls != []
      modifies this
      ensures (checkpoint, phase) == Advance(old(checkpoint), old(phase), budget, Input(true, ProviderDown, false, Running))
      ensures var call := old(phase).calls[0];
              var spent := old(checkpoint.toolCalls);
              && checkpoint.modelTurns == old(checkpoint.modelTurns)
              && (call.Malformed? ==> checkpoint == old(checkpoint))
              && (!call.Malformed? && spent + Needed(call) > budget.maxToolCalls ==>
                    phase == Stopped && checkpoint.outcome.Blocked? && checkpoint.toolCalls == spent)
              && (!call.Malformed? && spent + Needed(call) <= budget.maxToolCalls ==>
                    checkpoint == old(checkpoint).(toolCalls := spent + 1, pending := Some(call)))
      ensures phase.Verifying? ==> checkpoint.toolCalls + 1 <= budget.maxToolCalls
    {
      var call, rest := phase.calls[0], phase.calls[1..];
      if call.Malformed? {
        phase := Recording(rest);
        return;
      }
      var needed := if call.CompleteItem? then 2 else 1;
      if checkpoint.toolCalls + needed > budget.maxToolCalls {
        checkpoint, phase := checkpoint.(outcome := Blocked("TOOL_BUDGET_EXHAUSTED")), Stopped;
        return;
      }
      var needsPlan := checkpoint.needsPlan;
      checkpoint := checkpoint.(toolCalls := checkpoint.toolCalls + 1, pending := Some(call));
      if needsPlan && (call.SourceTool? || call.CompleteItem?) {
        phase := Recording(rest);
      } else if call == CompleteItem(true) {
        phase := Verifying(rest);
      } else if call.ReportBlocked? {
        phase := Failing;
      } else {
        phase := Recording(rest);
      }
    }

    /**
     * Steps until the run ends or the execution is replaced, whatever the world answers.  It always
     * ends, and both budgets hold when it does.
     */
    method RunEngineeringWorkflow(world: nat -> Input, current: nat -> bool) returns (steps: nat)
      requires Valid()
      modifies this
      ensures Valid() && checkpoint.modelTurns >= old(checkpoint.modelTurns)
      ensures phase == Stopped || !current(steps)
    {
      steps := 0;
      while phase != Stopped && current(steps)
        invariant Valid() && checkpoint.modelTurns >= old(checkpoint.modelTurns)
        decreases budget.maxModelTurns - checkpoint.modelTurns, Stage(phase), Left(phase)
      {
        var input := world(steps);
        AdvanceStaysCovered(checkpoint, phase, budget, input);
        AdvanceIsLower(checkpoint, phase, budget, input);
        match phase {
          case Loading => LoadStep(input.hasWork);
          case Reserving => checkpoint, phase := Reserved(checkpoint), Deciding;
          case Deciding => phase := AfterDecision(input.decision);
          case Calling(calls) =>
            if calls == [] {
              phase := Loading;
            } else {
              ExecuteCall();
            }
          case Recording(rest) =>
            checkpoint := Recorded(checkpoint, input.adopted, input.outcome);
            phase := Onward(checkpoint, rest);
          case Verifying(rest) =>
            checkpoint := Checked(checkpoint, input.outcome);
            phase := Onward(checkpoint, rest);
          case Failing => checkpoint, phase := checkpoint.(outcome := Blocked("REPORTED"), pending := None), Stopped;
          case Stopped =>
        }
        steps := steps + 1;
      }
    }
  }

  // ---------------------------------------------------------------- executions that replace each other

  // `asked` counts the paid model calls of all executions, and `retries` the ones a user asked for.
  datatype State = State(
    checkpoint: Checkpoint, budget: Budget, holder: Option<nat>, phases: map<nat, Phase>, used: set<nat>, asked: nat, retries: nat)

  datatype Move =
    | TakeOver(id: nat, resume: bool, needsPlan: bool)
    | Retry(id: nat, needsPlan: bool)
    | Go(id: nat, input: Input)
    | Crash(id: nat)

  const RETRY_MODEL_TURNS: nat := 80
  const RETRY_TOOL_CALLS: nat := 120

  function Start(b: Budget): State {
    State(FIRST, b, None, map[], {}, 0, 0)
  }

  function Resumed(c: Checkpoint, resume: bool): Checkpoint {
    if resume && c.outcome.Blocked? then WithOutcome(c, Running) else c
  }

  // A new execution prepares the checkpoint: it decides again whether a plan is needed first.
  function Entered(s: State, id: nat, needsPlan: bool): State {
    s.(checkpoint := s.checkpoint.(needsPlan := needsPlan), holder := Some(id),
       phases := s.phases[id := Loading], used := s.used + {id})
  }

  // What a retry that the user asks for may spend on top of what is spent.
  function Raised(c: Checkpoint): Budget {
    Budget(c.modelTurns + RETRY_MODEL_TURNS, c.toolCalls + RETRY_TOOL_CALLS)
  }

  /**
   * A new execution takes the place of the old one, with the same budget or, when the user asks to
   * retry a blocked run, with a raised one.  A current execution takes its next step, one that was
   * replaced is paused at its next transaction, but a model call it had reserved is made.
   */
  function Apply(s: State, move: Move): State {
    match move
    case TakeOver(id, resume, needsPlan) =>
      if id in s.used then s else Entered(s.(checkpoint := Resumed(s.checkpoint, resume)), id, needsPlan)
    case Retry(id, needsPlan) =>
      if id in s.used || !s.checkpoint.outcome.Blocked? then s
      else
        Entered(s.(checkpoint := WithOutcome(s.checkpoint, Running), budget := Raised(s.checkpoint), retries := s.retries + 1),
                id, needsPlan)
    case Go(id, input) =>
      if id !in s.phases then s
      else if s.phases[id].Deciding? then
        s.(phases := s.phases[id := AfterDecision(input.decision)], asked := s.asked + 1)
      else if s.holder != Some(id) then s.(phases := s.phases[id := Stopped])
      else
        var (next, to) := Advance(s.checkpoint, s.phases[id], s.budget, input);
        s.(checkpoint := next, phases := s.phases[id := to])
    case Crash(id) => s.(phases := s.phases - {id})
  }

  function After(b: Budget, moves: seq<Move>): State
    decreases |moves|
  {
    if moves == [] then Start(b) else Apply(After(b, moves[..|moves| - 1]), moves[|moves| - 1])
  }

  function Undecided(s: State): set<nat> {
    set id | id in s.phases && s.phases[id].Deciding?
  }

  // What the first budget and the retries together allow.
  ghost predicate Within(s: State, b: Budget) {
    && s.checkpoint.modelTurns <= s.budget.maxModelTurns <= b.maxModelTurns + RETRY_MODEL_TURNS * s.retries
    && s.checkpoint.toolCalls <= s.budget.maxToolCalls <= b.maxToolCalls + RETRY_TOOL_CALLS * s.retries
  }

  ghost predicate Inv(s: State, b: Budget) {
    && Within(s, b)
    && s.phases.Keys <= s.used && (s.holder.Some? ==> s.holder.value in s.used)
    && (s.holder.Some? && s.holder.value in s.phases ==> Covered(s.checkpoint, s.phases[s.holder.value], s.budget))
    && s.asked + |Undecided(s)| <= s.checkpoint.modelTurns
  }

  lemma {:induction false} UndecidedAfter(s: State, id: nat, phase: Phase)
    ensures var t := s.(phases := s.phases[id := phase]);
            Undecided(t) == if phase.Deciding? then Undecided(s) + {id} else Undecided(s) - {id}
  {
  }

  lemma {:induction false} CrashUndecided(s: State, id: nat)
    ensures |Undecided(s.(phases := s.phases - {id}))| <= |Undecided(s)|
  {
    assert Undecided(s.(phases := s.phases - {id})) == Undecided(s) - {id};
    assert |Undecided(s) - {id}| <= |Undecided(s)|;
  }

  lemma {:induction false} EnteredUndecided(s: State, id: nat, needsPlan: bool)
    requires id !in s.phases
    ensures Undecided(Entered(s, id, needsPlan)) == Undecided(s)
  {
  }

  lemma {:induction false} ApplyKeepsInv(s: State, b: Budget, move: Move)
    requires Inv(s, b)
    ensures Inv(Apply(s, move), b)
  {
    match move
    case TakeOver(id, resume, needsPlan) =>
      if id !in s.used {
        EnteredUndecided(s.(checkpoint := Resumed(s.checkpoint, resume)), id, needsPlan);
      }
    case Retry(id, needsPlan) =>
      if Apply(s, move) != s {
        EnteredUndecided(s.(checkpoint := WithOutcome(s.checkpoint, Running), budget := Raised(s.checkpoint), retries := s.retries + 1),
                         id, needsPlan);
      }
    case Go(id, input) =>
      if id in s.phases {
        GoKeepsInv(s, b, id, input);
      }
    case Crash(id) => CrashUndecided(s, id);
  }

  lemma {:induction false} GoKeepsInv(s: State, b: Budget, id: nat, input: Input)
    requires Inv(s, b) && id in s.phases
    ensures Inv(Apply(s, Go(id, input)), b)
  {
    var t := Apply(s, Go(id, input));
    UndecidedAfter(s, id, t.phases[id]);
    assert Undecided(t) == Undecided(s.(phases := t.phases));
    if s.phases[id].Deciding? {
      assert id in Undecided(s) && |Undecided(s) - {id}| == |Undecided(s)| - 1;
    } else if s.holder == Some(id) {
      AdvanceStaysCovered(s.checkpoint, s.phases[id], s.budget, input);
    }
  }

  lemma {:induction false} ReachableHasInv(b: Budget, moves: seq<Move>)
    ensures Inv(After(b, moves), b)
    decreases |moves|
  {
    if moves != [] {
      ReachableHasInv(b, moves[..|moves| - 1]);
      ApplyKeepsInv(After(b, moves[..|moves| - 1]), b, moves[|moves| - 1]);
    }
  }

  /**
   * However executions crash, resume, retry and replace each other, the model calls made by all of
   * them together and every checkpoint stay within the budget of the time, including the second unit
   * of completing an item, which is taken in a transaction of its own without a check; and each retry
   * adds at most 80 model turns and 120 tool calls to the first budget.
   */
  lemma {:induction false} BudgetsHold(b: Budget, moves: seq<Move>)
    ensures var s := After(b, moves);
            && s.asked <= s.checkpoint.modelTurns <= s.budget.maxModelTurns <= b.maxModelTurns + 80 * s.retries
            && s.checkpoint.toolCalls <= s.budget.maxToolCalls <= b.maxToolCalls + 120 * s.retries
            && (s.retries == 0 ==> s.budget == b)
  {
    ReachableHasInv(b, moves);
    FirstBudgetStays(b, moves);
  }

  lemma {:induction false} FirstBudgetStays(b: Budget, moves: seq<Move>)
    ensures After(b, moves).retries == 0 ==> After(b, moves).budget == b
    decreases |moves|
  {
    if moves != [] {
      FirstBudgetStays(b, moves[..|moves| - 1]);
    }
  }
}
