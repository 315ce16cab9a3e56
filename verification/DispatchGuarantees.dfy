/**
 * What the runs of DispatchRuns guarantee, in the numbers and names of the source: who may commit
 * and when, how long a lease lasts, when the Leader gives up, and which tools it runs.
 */
module DispatchGuarantees {
  import opened Results
  import opened ToolLoop
  import opened ToolLoopRuns
  import opened LeaderDispatch
  import opened DispatchRuns

  // ---------------------------------------------------------------- the turns

  // The turn count has come to the end of what the frozen input pays for.
  predicate Spent(turns: int, frozen: Frozen) {
    turns >= 1 && (turns >= frozen.maxTurns || turns >= 16)
  }

  lemma {:induction false} BudgetIsSpent(frozen: Frozen, turns: nat)
    ensures turns >= Budget(frozen) <==> Spent(turns, frozen)
  {
  }

  /**
   * No worker gives up early: when a loop ends for want of turns, the row has saved at least one turn
   * and as many as the frozen input names, or 16.
   */
  lemma {:induction false} GivesUpOnlyWhenSpent(accepts: string -> bool, moves: seq<Move>, owner: Owner)
    requires After(START, accepts, moves).Some?
    requires Apply(After(START, accepts, moves).value, accepts, Loop(owner, GaveUp)).Some?
    ensures var s := After(START, accepts, moves).value;
            && s.row.Some? && Spent(s.row.value.toolLoop.turns, s.row.value.frozen)
            && owner in s.workers && s.workers[owner].phase.Deciding?
            && s.workers[owner].phase.local.progress.turns == s.row.value.toolLoop.turns
  {
    var s := After(START, accepts, moves).value;
    ReachableHasInv(accepts, moves);
    assert WorkerSound(s, owner);
    BudgetIsSpent(s.row.value.frozen, s.workers[owner].phase.local.progress.turns);
  }

  // ---------------------------------------------------------------- the tools

  ghost predicate LeaderOpen(s: State) {
    s.row.Some? ==> forall o :: o in s.workers && s.workers[o].phase.Deciding? ==> OpenBatch(s, o)
  }

  // The batch that a worker executes was open on its turn.
  ghost predicate OpenBatch(s: State, o: Owner)
    requires s.row.Some? && o in s.workers && s.workers[o].phase.Deciding?
  {
    LocallyOpen(LeaderConfig(s.row.value.frozen), s.workers[o].phase.local)
  }

  lemma {:induction false} MoveKeepsOpen(s: State, accepts: string -> bool, move: Move)
    requires Inv(s, accepts) && LeaderOpen(s) && Apply(s, accepts, move).Some?
    ensures LeaderOpen(Apply(s, accepts, move).value)
  {
    var t := Apply(s, accepts, move).value;
    if t.row.Some? {
      forall o | o in t.workers && t.workers[o].phase.Deciding?
        ensures OpenBatch(t, o)
      {
        WorkerKeepsOpen(s, accepts, move, o);
      }
    }
  }

  lemma {:induction false} WorkerKeepsOpen(s: State, accepts: string -> bool, move: Move, o: Owner)
    requires Inv(s, accepts) && LeaderOpen(s) && Apply(s, accepts, move).Some?
    requires var t := Apply(s, accepts, move).value; t.row.Some? && o in t.workers && t.workers[o].phase.Deciding?
    ensures OpenBatch(Apply(s, accepts, move).value, o)
  {
    if s.row.Some? && o in s.workers && s.workers[o].phase.Deciding? {
      assert OpenBatch(s, o);
      if move.Loop? && move.owner == o {
        StepKeepsLocallyOpen(LeaderConfig(s.row.value.frozen), s.workers[o].phase.local, move.event);
      }
    }
  }

  lemma {:induction false} ReachableIsOpen(accepts: string -> bool, moves: seq<Move>)
    requires After(START, accepts, moves).Some?
    ensures LeaderOpen(After(START, accepts, moves).value)
    decreases |moves|
  {
    if moves != [] {
      var front := moves[..|moves| - 1];
      ReachableIsOpen(accepts, front);
      ReachableHasInv(accepts, front);
      MoveKeepsOpen(After(START, accepts, front).value, accepts, moves[|moves| - 1]);
    }
  }

  // The Leader's tools; when the turn it stands in is the last one paid for, those that end the round.
  predicate LeaderMayRun(turns: int, frozen: Frozen, name: string) {
    if Spent(turns, frozen) then name in {"request_user_input", "finish_turn"}
    else name in {"read_project_context", "classify_intent", "read_plan", "create_plan", "update_plan",
                  "dispatch_task", "read_task_result", "request_user_input", "finish_turn"}
  }

  /**
   * Over all runs the Leader executes one call per turn and only its own tools, and on the last turn
   * that the frozen input pays for only the two that end the round.
   */
  lemma {:induction false} LeaderRunsItsTools(
      accepts: string -> bool, moves: seq<Move>, owner: Owner, call: ToolCall, observation: Observation, output: Option<string>)
    requires After(START, accepts, moves).Some?
    requires Apply(After(START, accepts, moves).value, accepts, Loop(owner, Ran(call, observation, output))).Some?
    ensures var s := After(START, accepts, moves).value;
            && owner in s.workers && s.workers[owner].phase.Deciding? && s.row.Some?
            && var local := s.workers[owner].phase.local;
            && local.Executing? && local.done == []
            && LeaderMayRun(local.progress.turns, s.row.value.frozen, call.name)
  {
    var s := After(START, accepts, moves).value;
    ReachableIsOpen(accepts, moves);
    ReachableHasInv(accepts, moves);
    assert OpenBatch(s, owner) && WorkerSound(s, owner);
    var local := s.workers[owner].phase.local;
    assert call == local.turn.calls[|local.done|];
    BudgetIsSpent(s.row.value.frozen, local.progress.turns);
  }

  /** And a batch of calls is taken up exactly when there is one and every tool in it is open. */
  lemma {:induction false} LeaderTakesBatchIff(
      accepts: string -> bool, moves: seq<Move>, owner: Owner, turn: nat, reply: Reply)
    requires After(START, accepts, moves).Some? && reply.Turn?
    requires Apply(After(START, accepts, moves).value, accepts, Loop(owner, Called(turn, reply))).Some?
    ensures var s := After(START, accepts, moves).value;
            var t := Apply(s, accepts, Loop(owner, Called(turn, reply))).value;
            && owner in s.workers && s.workers[owner].phase.Deciding? && owner in t.workers && s.row.Some?
            && var p := s.workers[owner].phase.local.progress;
            (t.workers[owner].phase == Deciding(Executing(p, reply, [])) <==>
               reply.calls != [] && forall k :: 0 <= k < |reply.calls| ==>
                                      LeaderMayRun(p.turns, s.row.value.frozen, reply.calls[k].name))
  {
    var s := After(START, accepts, moves).value;
    ReachableHasInv(accepts, moves);
    assert WorkerSound(s, owner);
    var cfg, p := LeaderConfig(s.row.value.frozen), s.workers[owner].phase.local.progress;
    ReplyDecides(cfg, s.workers[owner].phase.local, turn, reply);
    forall name
      ensures MayRun(cfg, turn, name) <==> LeaderMayRun(p.turns, s.row.value.frozen, name)
    {
      BudgetIsSpent(s.row.value.frozen, p.turns);
    }
  }

  // ---------------------------------------------------------------- the lease

  // The owner's lease on the row stands, in a run that waits for its dispatch.
  predicate LeaseStands(s: State, owner: Owner) {
    && owner in s.workers && s.workers[owner].runId in s.runs
    && s.runs[s.workers[owner].runId] == BuildRun("running", Some(1), "pm", false)
    && s.row.Some? && s.row.value.runId == s.workers[owner].runId
    && s.row.value.leaseOwner == Some(owner) && s.row.value.leaseExpires.Some? && s.row.value.leaseExpires.value > s.now
  }

  predicate Commits(s: State, t: State) {
    t.saves != s.saves || t.handoffs != s.handoffs
  }

  /**
   * Whatever is committed, a save or a handoff, is committed by the owner whose lease stands, and a
   * save renews it for 600 seconds; that owner is never refused.
   */
  lemma {:induction false} OnlyALiveLeaseCommits(s: State, accepts: string -> bool, move: Move)
    requires Apply(s, accepts, move).Some?
    ensures var t := Apply(s, accepts, move).value;
            && (Commits(s, t) ==> (move.Loop? || move.Save? || move.Assign?) && LeaseStands(s, move.owner))
            && (t.saves != s.saves ==>
                  t.row.Some? && t.row.value.leaseOwner == Some(move.owner) && t.row.value.leaseExpires == Some(s.now + 600)
                  && t.saves == s.saves + [t.row.value.toolLoop])
            && (move.Save? && LeaseStands(s, move.owner) ==> t.saves != s.saves)
            && (move.Assign? && LeaseStands(s, move.owner) ==> t.handoffs != s.handoffs)
            && (move.Loop? && move.event.SaveRefused? ==> !LeaseStands(s, move.owner))
  {
  }

  /** A claim is granted exactly for an eligible run whose row is new, or its own without a live lease. */
  lemma {:induction false} ClaimGrantedIff(s: State, accepts: string -> bool, runId: RunId, frozen: Frozen, owner: Owner)
    requires owner !in s.used && (s.row.Some? && s.row.value.leaseOwner.Some? ==> s.row.value.leaseOwner.value in s.used)
    ensures Apply(s, accepts, Claim(runId, frozen, owner)).Some?
    ensures var t := Apply(s, accepts, Claim(runId, frozen, owner)).value;
            (t.row.Some? && t.row.value.leaseOwner == Some(owner) <==>
               && runId in s.runs && s.runs[runId] == BuildRun("running", Some(1), "pm", false)
               && (s.row.Some? ==>
                     && s.row.value.runId == runId
                     && (s.row.value.leaseOwner.None? || s.row.value.leaseExpires.None? || s.row.value.leaseExpires.value <= s.now)))
            && (t.row != s.row ==> t.row.Some? && t.row.value.leaseExpires == Some(s.now + 600))
            && (t.row != s.row && s.row.None? ==>
                  t.row.value.frozen == frozen && t.row.value.toolLoop == Progress(0, [], None) && t.row.value.runId == runId)
  {
  }

  // The owner's lease runs at least until then.
  ghost predicate LeasedUntil(s: State, owner: Owner, until: nat) {
    && owner in s.used && s.row.Some? && s.row.value.leaseOwner == Some(owner)
    && s.row.value.leaseExpires.Some? && until <= s.row.value.leaseExpires.value && until <= s.now + 600
  }

  lemma {:induction false} MoveKeepsLease(s: State, accepts: string -> bool, move: Move, owner: Owner, until: nat)
    requires LeasedUntil(s, owner, until) && Apply(s, accepts, move).Some? && move != Release(owner) && s.now < until
    ensures LeasedUntil(Apply(s, accepts, move).value, owner, until)
  {
  }

  /**
   * For 600 seconds after an owner took or renewed its lease nobody else gets it, whatever happens in
   * between, unless the owner itself gives it back.
   */
  lemma {:induction false} LeaseLasts(accepts: string -> bool, s: State, moves: seq<Move>, owner: Owner)
    requires owner in s.used && s.row.Some? && s.row.value.leaseOwner == Some(owner)
    requires s.row.value.leaseExpires == Some(s.now + 600) && Release(owner) !in moves
    requires After(s, accepts, moves).Some? && After(s, accepts, moves).value.now < s.now + 600
    ensures var t := After(s, accepts, moves).value;
            t.row.Some? && t.row.value.leaseOwner == Some(owner) && LeasedUntil(t, owner, s.now + 600)
    decreases |moves|
  {
    if moves != [] {
      var front, move := moves[..|moves| - 1], moves[|moves| - 1];
      var before := After(s, accepts, front).value;
      assert before.now <= Apply(before, accepts, move).value.now;
      LeaseLasts(accepts, s, front, owner);
      assert move in moves;
      MoveKeepsLease(before, accepts, move, owner, s.now + 600);
    }
  }

  // ---------------------------------------------------------------- decisions

  /**
   * A rejected decision is saved as one more user message without an output, and an accepted one with
   * its output; neither spends a turn, and only the accepted one goes on to the handoff.
   */
  lemma {:induction false} JudgedThenSaved(s: State, accepts: string -> bool, owner: Owner)
    requires owner in s.workers && s.workers[owner].phase.Judging? && LeaseStands(s, owner)
    ensures Apply(s, accepts, Judge(owner)).Some?
    ensures var judged := Apply(s, accepts, Judge(owner)).value;
            var Judging(p, decision) := s.workers[owner].phase;
            && judged.row == s.row
            && Apply(judged, accepts, Save(owner)).Some?
            && var t := Apply(judged, accepts, Save(owner)).value;
            && t.saves == s.saves + [t.row.value.toolLoop] && t.row.value.toolLoop.turns == p.turns
            && t.row.value.toolLoop.output == (if accepts(decision) then Some(decision) else None)
            && p.history <= t.row.value.toolLoop.history
            && |t.row.value.toolLoop.history| == |p.history| + (if accepts(decision) then 0 else 1)
            && (!accepts(decision) ==> t.row.value.toolLoop.history[|p.history|].User? && t.workers[owner].phase == Ending)
            && (accepts(decision) ==> t.workers[owner].phase == Recording(t.row.value.toolLoop, decision))
  {
  }

  /** A finished round is judged, and a saved decision goes on to its handoff only under a standing lease. */
  lemma {:induction false} DecisionsGoOn(s: State, accepts: string -> bool, owner: Owner)
    requires owner in s.workers
    ensures var phase := s.workers[owner].phase;
            && (phase.Deciding? && phase.local.Unsaved? && phase.local.output.Some? && LeaseStands(s, owner) ==>
                  var t := Apply(s, accepts, Loop(owner, Saved(phase.local.progress)));
                  t.Some? && owner in t.value.workers
                  && t.value.workers[owner].phase == Judging(phase.local.progress, phase.local.output.value))
            && (phase.Recording? ==>
                  var t := Apply(s, accepts, Record(owner));
                  t.Some? && owner in t.value.workers
                  && t.value.workers[owner].phase ==
                     if LeaseStands(s, owner) then Assigning(phase.progress, phase.decision) else Ending)
            && (phase.Assigning? ==>
                  var t := Apply(s, accepts, Assign(owner));
                  t.Some? && t.value.handoffs == s.handoffs + if LeaseStands(s, owner) then [phase.decision] else [])
  {
  }
}
