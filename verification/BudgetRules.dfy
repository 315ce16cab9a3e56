/** What one step of the engineering loop costs and where it leads, in numbers and names. */
module BudgetRules {
  import opened Results
  import opened EngineerBudget

  // A run that goes on has an outcome still open and something left of both budgets.
  predicate MayGoOn(c: Checkpoint, b: Budget, hasWork: bool) {
    c.outcome == Running && c.modelTurns < b.maxModelTurns && c.toolCalls < b.maxToolCalls && hasWork
  }

  /** Before a paid turn: a run that may not go on stops, and its reason is recorded unless it had ended. */
  lemma {:induction false} LoadingMeans(c: Checkpoint, b: Budget, input: Input)
    ensures var (next, to) := Advance(c, Loading, b, input);
            && (to == Reserving <==> MayGoOn(c, b, input.hasWork)) && (to != Reserving ==> to == Stopped)
            && next == c.(outcome :=
                 if c.outcome != Running || MayGoOn(c, b, input.hasWork) then c.outcome
                 else if c.modelTurns >= b.maxModelTurns then Blocked("MODEL_BUDGET_EXHAUSTED")
                 else if c.toolCalls >= b.maxToolCalls then Blocked("TOOL_BUDGET_EXHAUSTED")
                 else Blocked("INVALID_DELIVERY_PLAN"))
  {
  }

  /** A turn is paid for before it is made, and counts as planning while there is no accepted plan. */
  lemma {:induction false} TurnMeans(c: Checkpoint, b: Budget, input: Input)
    ensures Advance(c, Reserving, b, input) ==
            (c.(modelTurns := c.modelTurns + 1, planningTurns := if c.needsPlan then c.planningTurns + 1 else c.planningTurns), Deciding)
    ensures Advance(c, Deciding, b, input) ==
            (c, match input.decision
                case Calls(calls) => Calling(calls)
                case Rejected => Recording([])
                case Fault => Failing
                case ProviderDown => Stopped)
    ensures Advance(c, Failing, b, input) == (c.(outcome := Blocked("REPORTED"), pending := None), Stopped)
  {
  }

  /**
   * A call takes one unit if there is room for it, or for both units when it completes an item; without
   * an accepted plan it is only recorded when it would touch the source or complete something, and a
   * malformed call costs nothing.
   */
  lemma {:induction false} CallMeans(c: Checkpoint, b: Budget, input: Input, call: Call, rest: seq<Call>)
    ensures var (next, to) := Advance(c, Calling([call] + rest), b, input);
            if call == Malformed then next == c && to == Recording(rest)
            else if c.toolCalls + (if call.CompleteItem? then 2 else 1) > b.maxToolCalls then
              next == c.(outcome := Blocked("TOOL_BUDGET_EXHAUSTED")) && to == Stopped
            else
              && next == c.(toolCalls := c.toolCalls + 1, pending := Some(call))
              && (to == Verifying(rest) <==> call == CompleteItem(true) && !c.needsPlan)
              && (to == Failing <==> call == ReportBlocked)
              && (to != Verifying(rest) && to != Failing ==> to == Recording(rest))
    ensures Advance(c, Calling([]), b, input) == (c, Loading)
  {
    assert ([call] + rest)[1..] == rest;
  }

  /**
   * Recording a result adopts a plan or leaves the need for one, completing an item takes the second
   * unit, and after either the run stops if its outcome is decided, else it goes on with the next call
   * of the turn, or with the next turn when there is none.
   */
  lemma {:induction false} ResultMeans(c: Checkpoint, b: Budget, input: Input, rest: seq<Call>)
    ensures var to := if input.outcome != Running then Stopped else if rest == [] then Loading else Calling(rest);
            && Advance(c, Recording(rest), b, input) ==
               (c.(pending := None, needsPlan := c.needsPlan && !input.adopted, outcome := input.outcome), to)
            && Advance(c, Verifying(rest), b, input) ==
               (c.(toolCalls := c.toolCalls + 1, pending := None, outcome := input.outcome), to)
  {
  }

  /** A retry of a blocked run adds exactly 80 turns and 120 calls to what is spent. */
  lemma {:induction false} RetryMeans(s: State, id: nat, needsPlan: bool)
    requires id !in s.used && s.checkpoint.outcome.Blocked?
    ensures var t := Apply(s, Retry(id, needsPlan));
            && t.budget == Budget(s.checkpoint.modelTurns + 80, s.checkpoint.toolCalls + 120)
            && t.checkpoint == s.checkpoint.(outcome := Running, needsPlan := needsPlan) && t.holder == Some(id)
            && t.retries == s.retries + 1
  {
  }

  /** A new execution reopens the checkpoint only of a blocked run, and only when it is asked to. */
  lemma {:induction false} TakeOverMeans(s: State, id: nat, resume: bool, needsPlan: bool)
    requires id !in s.used
    ensures var t := Apply(s, TakeOver(id, resume, needsPlan));
            && t.checkpoint == s.checkpoint.(needsPlan := needsPlan,
                 outcome := if resume && s.checkpoint.outcome.Blocked? then Running else s.checkpoint.outcome)
            && t.budget == s.budget && t.retries == s.retries && t.asked == s.asked
            && t.holder == Some(id) && t.phases == s.phases[id := Loading]
  {
  }

  /** An execution that was replaced pauses at its next step, and a reply it still gets is not recorded. */
  lemma {:induction false} ReplacedIsPaused(s: State, id: nat, input: Input)
    requires id in s.phases && s.holder != Some(id)
    ensures var t := Apply(s, Go(id, input));
            && t.checkpoint == s.checkpoint && t.budget == s.budget && t.holder == s.holder
            && (!s.phases[id].Deciding? ==> id in t.phases && t.phases[id] == Stopped && t.asked == s.asked)
            && (s.phases[id].Deciding? ==> t.asked == s.asked + 1)
  {
  }
}
