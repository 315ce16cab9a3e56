/**
 * Whole runs of dispatch_approved_requirements (services/leader.py) for one approved item.
 *
 * Any number of workers claim, run the tool loop, save, hand off, fail and release; workers
 * crash at any point, the clock moves, and the build run changes state, all interleaved in any
 * order.  A step is one transaction or one event of a worker's own loop.
 */
module DispatchRuns {
  import opened Results
  import opened ToolLoop
  import opened LeaderDispatch

  const LEADER_TURN_CEILING: int := 16

  const LEADER_TOOLS: set<string> := {
    "read_project_context", "classify_intent", "read_plan", "create_plan", "update_plan",
    "dispatch_task", "read_task_result", "request_user_input", "finish_turn"}

  // The model calls that a frozen input pays for.
  function Budget(frozen: Frozen): nat {
    if frozen.maxTurns < 1 then 1
    else if frozen.maxTurns < LEADER_TURN_CEILING then frozen.maxTurns
    else LEADER_TURN_CEILING
  }

  function LeaderConfig(frozen: Frozen): Config {
    Config([System("leader"), User(frozen.context + frozen.instruction)], Budget(frozen), LEADER_TOOLS,
           Some({"request_user_input", "finish_turn"}), {})
  }

  // Where a worker stands after it was granted its lease.
  datatype Phase =
    | Deciding(local: Local)
    | Judging(progress: Progress, decision: string)
    | Correcting(progress: Progress)
    | Confirming(progress: Progress, decision: string)
    | Recording(progress: Progress, decision: string)
    | Assigning(progress: Progress, decision: string)
    | Ending

  datatype Worker = Worker(runId: RunId, phase: Phase)

  // `saves`, `calls` and `handoffs` record every committed save, every paid model call by its
  // turn number, and every handoff by its decision.
  datatype State = State(
    now: nat,
    runs: map<RunId, BuildRun>,
    row: Option<Checkpoint>,
    used: set<Owner>,
    workers: map<Owner, Worker>,
    saves: seq<Progress>,
    calls: seq<nat>,
    handoffs: seq<string>)

  datatype Move =
    | Tick(seconds: nat)
    | SetRun(runId: RunId, run: BuildRun)
    | Claim(claimRun: RunId, frozen: Frozen, owner: Owner)
    | Loop(owner: Owner, event: Event)
    | Judge(owner: Owner)
    | Save(owner: Owner)
    | Record(owner: Owner)
    | Assign(owner: Owner)
    | Fail(owner: Owner)
    | Release(owner: Owner)
    | Crash(owner: Owner)

  const START := State(0, map[], None, {}, map[], [], [], [])

  function HoldsNow(s: State, owner: Owner): bool {
    owner in s.workers && Holds(Find(s.runs, s.workers[owner].runId), s.row, s.workers[owner].runId, owner, s.now)
  }

  function Enter(s: State, owner: Owner, phase: Phase): State
    requires owner in s.workers
  {
    s.(workers := s.workers[owner := s.workers[owner].(phase := phase)])
  }

  function CommitSave(s: State, owner: Owner, progress: Progress): State
    requires HoldsNow(s, owner)
  {
    s.(row := Some(SavedRow(s.row.value, owner, progress, s.now)), saves := s.saves + [progress])
  }

  function PhaseOf(local: Local): Phase {
    if local.Finished? then
      if local.outcome.Returned? then Judging(local.progress, local.outcome.output) else Ending
    else Deciding(local)
  }

  // A rejected decision: drop it, tell the model why, and keep the spent turns.
  function Corrected(progress: Progress): Progress {
    progress.(output := None, history := progress.history + [User("decision was not applied")])
  }

  function ClaimStep(s: State, runId: RunId, frozen: Frozen, owner: Owner): Option<State> {
    if owner in s.used then None
    else if ClaimRefusal(Find(s.runs, runId), s.row, runId, s.now).Some? then Some(s)
    else
      var row := ClaimedRow(s.row, runId, frozen, owner, s.now);
      var phase :=
        if row.toolLoop.output.Some? then Judging(row.toolLoop, row.toolLoop.output.value)
        else Deciding(Start(LeaderConfig(row.frozen), row.toolLoop));
      Some(s.(row := Some(row), used := s.used + {owner}, workers := s.workers[owner := Worker(runId, phase)]))
  }

  function LoopStep(s: State, owner: Owner, event: Event): Option<State> {
    if owner !in s.workers || !s.workers[owner].phase.Deciding? || s.row.None? then None
    else
      var next := Step(LeaderConfig(s.row.value.frozen), s.workers[owner].phase.local, event);
      if next.None? || (event.Saved? && !HoldsNow(s, owner)) || (event.SaveRefused? && HoldsNow(s, owner)) then None
      else
        var s1 := if event.Saved? then CommitSave(s, owner, event.progress) else s;
        var s2 := if event.Called? then s1.(calls := s1.calls + [event.turn]) else s1;
        Some(Enter(s2, owner, PhaseOf(next.value)))
  }

  /**
   * One move of the system.  Fail is any exception after the claim: whatever the worker was doing is
   * rolled back and it goes on to release its lease.  None when the move is not possible in the
   * state.
   */
  function Apply(s: State, accepts: string -> bool, move: Move): Option<State> {
    match move
    case Tick(seconds) => Some(s.(now := s.now + seconds))
    case SetRun(runId, run) => Some(s.(runs := s.runs[runId := run]))
    case Claim(runId, frozen, owner) => ClaimStep(s, runId, frozen, owner)
    case Loop(owner, event) => LoopStep(s, owner, event)
    case Judge(owner) =>
      if owner in s.workers && s.workers[owner].phase.Judging? then
        var Judging(p, d) := s.workers[owner].phase;
        Some(Enter(s, owner, if accepts(d) then Confirming(p.(output := Some(d)), d) else Correcting(Corrected(p))))
      else None
    case Save(owner) =>
      if owner !in s.workers || !(s.workers[owner].phase.Correcting? || s.workers[owner].phase.Confirming?) then None
      else if !HoldsNow(s, owner) then Some(Enter(s, owner, Ending))
      else
        var phase := s.workers[owner].phase;
        Some(Enter(CommitSave(s, owner, phase.progress), owner,
                   if phase.Confirming? then Recording(phase.progress, phase.decision) else Ending))
    case Record(owner) =>
      if owner !in s.workers || !s.workers[owner].phase.Recording? then None
      else
        var Recording(p, d) := s.workers[owner].phase;
        Some(Enter(s, owner, if HoldsNow(s, owner) then Assigning(p, d) else Ending))
    case Assign(owner) =>
      if owner !in s.workers || !s.workers[owner].phase.Assigning? then None
      else if !HoldsNow(s, owner) then Some(Enter(s, owner, Ending))
      else Some(Enter(s, owner, Ending).(handoffs := s.handoffs + [s.workers[owner].phase.decision]))
    case Fail(owner) => if owner in s.workers then Some(Enter(s, owner, Ending)) else None
    case Release(owner) =>
      if owner !in s.workers || !s.workers[owner].phase.Ending? then None
      else
        Some(s.(row := if s.row.Some? then Some(ReleasedRow(s.row.value, owner)) else None, workers := s.workers - {owner}))
    case Crash(owner) => if owner in s.workers then Some(s.(workers := s.workers - {owner})) else None
  }

  function After(s: State, accepts: string -> bool, moves: seq<Move>): Option<State>
    decreases |moves|
  {
    if moves == [] then Some(s)
    else
      var before := After(s, accepts, moves[..|moves| - 1]);
      if before.None? then None else Apply(before.value, accepts, moves[|moves| - 1])
  }

  // ---------------------------------------------------------------- the invariant

  // The loop state of any worker, whether or not its lease still stands.
  ghost predicate WorkerSound(s: State, owner: Owner)
    requires owner in s.workers && s.row.Some?
  {
    var phase := s.workers[owner].phase;
    phase.Deciding? ==>
      && Sound(LeaderConfig(s.row.value.frozen), phase.local)
      && !phase.local.Finished?
      && phase.local.progress.turns <= s.row.value.toolLoop.turns
      && (phase.local.Waiting? ==> phase.local.progress.turns - 1 !in s.calls)
  }

  // What the row knows about the worker that holds it.
  ghost predicate HolderSynced(s: State, accepts: string -> bool, phase: Phase)
    requires s.row.Some?
  {
    var saved := s.row.value.toolLoop;
    match phase
    case Deciding(local) =>
      && local.progress.turns == saved.turns && saved.history <= local.progress.history
      && saved.output == None
      && local.progress.output == if local.Unsaved? then local.output else None
    case Judging(p, d) => p == saved && p.output == Some(d)
    case Correcting(p) =>
      && p.turns == saved.turns && saved.history <= p.history && WellPaired(p.history) && p.output == None
      && (saved.output.Some? ==> !accepts(saved.output.value))
    case Confirming(p, d) => p == saved && accepts(d) && saved.output == Some(d)
    case Recording(p, d) => accepts(d) && saved.output == Some(d)
    case Assigning(p, d) => accepts(d) && saved.output == Some(d)
    case Ending => true
  }

  ghost predicate SavedChain(saves: seq<Progress>, last: Progress) {
    && (forall i :: 0 <= i < |saves| ==>
          WellPaired(saves[i].history) && saves[i].history <= last.history && saves[i].turns <= last.turns)
    && (forall i, j :: 0 <= i <= j < |saves| ==> saves[i].history <= saves[j].history && saves[i].turns <= saves[j].turns)
  }

  ghost predicate Waits(s: State, owner: Owner) {
    owner in s.workers && s.workers[owner].phase.Deciding? && s.workers[owner].phase.local.Waiting?
  }

  ghost function PendingTurn(s: State, owner: Owner): nat
    requires Waits(s, owner)
  {
    s.workers[owner].phase.local.progress.turns
  }

  ghost predicate CallsBelow(calls: seq<nat>, bound: nat) {
    && (forall i :: 0 <= i < |calls| ==> calls[i] < bound)
    && (forall i, j :: 0 <= i < j < |calls| ==> calls[i] != calls[j])
  }

  ghost predicate RowInv(s: State) {
    && (s.row.None? ==> s.workers == map[] && s.saves == [] && s.calls == [] && s.used == {})
    && (s.row.Some? ==>
          var row := s.row.value;
          && WellPaired(row.toolLoop.history)
          && row.toolLoop.turns <= Budget(row.frozen)
          && SavedChain(s.saves, row.toolLoop)
          && CallsBelow(s.calls, row.toolLoop.turns)
          && (row.leaseOwner.Some? ==> row.leaseOwner.value in s.used))
  }

  ghost predicate Inv(s: State, accepts: string -> bool) {
    && RowInv(s)
    && s.workers.Keys <= s.used
    && (s.row.Some? ==>
          && (forall o :: o in s.workers ==> WorkerSound(s, o))
          && (forall o :: o in s.workers && s.row.value.leaseOwner == Some(o) ==>
                HolderSynced(s, accepts, s.workers[o].phase)))
    && (forall a, b :: Waits(s, a) && Waits(s, b) && a != b ==> PendingTurn(s, a) != PendingTurn(s, b))
  }

  lemma {:induction false} StartHasInv(accepts: string -> bool)
    ensures Inv(START, accepts)
  {
  }

  lemma {:induction false} SavedChainSnoc(saves: seq<Progress>, last: Progress, next: Progress)
    requires SavedChain(saves, last)
    requires last.history <= next.history && last.turns <= next.turns && WellPaired(next.history)
    ensures SavedChain(saves + [next], next)
  {
  }

  lemma {:induction false} FirstMessagesArePaired(frozen: Frozen)
    ensures WellPaired(LeaderConfig(frozen).messages)
  {
    var messages := LeaderConfig(frozen).messages;
    assert messages[1..][1..] == [];
  }

  lemma {:induction false} ClaimKeepsInv(s: State, accepts: string -> bool, runId: RunId, frozen: Frozen, owner: Owner)
    requires Inv(s, accepts) && ClaimStep(s, runId, frozen, owner).Some?
    ensures Inv(ClaimStep(s, runId, frozen, owner).value, accepts)
  {
    var t := ClaimStep(s, runId, frozen, owner).value;
    if t != s {
      FirstMessagesArePaired(t.row.value.frozen);
      forall o | o in t.workers && o != owner
        ensures WorkerSound(t, o)
      {
        ClaimKeepsOther(s, accepts, runId, frozen, owner, o);
      }
      ClaimKeepsApart(s, t, owner);
    }
  }

  lemma {:induction false} ClaimKeepsOther(
      s: State, accepts: string -> bool, runId: RunId, frozen: Frozen, owner: Owner, o: Owner)
    requires Inv(s, accepts) && ClaimStep(s, runId, frozen, owner).Some? && ClaimStep(s, runId, frozen, owner).value != s
    requires o in s.workers && o != owner
    ensures WorkerSound(ClaimStep(s, runId, frozen, owner).value, o)
  {
    assert WorkerSound(s, o);
  }

  // A new worker that waits for no reply leaves the reserved turns distinct.
  lemma {:induction false} ClaimKeepsApart(s: State, t: State, owner: Owner)
    requires forall a, b :: Waits(s, a) && Waits(s, b) && a != b ==> PendingTurn(s, a) != PendingTurn(s, b)
    requires !Waits(t, owner) && forall o :: o in t.workers && o != owner ==> o in s.workers && t.workers[o] == s.workers[o]
    ensures forall a, b :: Waits(t, a) && Waits(t, b) && a != b ==> PendingTurn(t, a) != PendingTurn(t, b)
  {
    forall a, b | Waits(t, a) && Waits(t, b) && a != b
      ensures PendingTurn(t, a) != PendingTurn(t, b)
    {
      assert Waits(s, a) && Waits(s, b);
    }
  }

  // A committed save moves the row forward and leaves every other worker's facts in place.
  lemma {:induction false} CommitKeepsRow(s: State, accepts: string -> bool, owner: Owner, progress: Progress)
    requires Inv(s, accepts) && HoldsNow(s, owner)
    requires s.row.value.toolLoop.history <= progress.history && s.row.value.toolLoop.turns <= progress.turns
    requires WellPaired(progress.history) && progress.turns <= Budget(s.row.value.frozen)
    ensures var t := CommitSave(s, owner, progress);
            && RowInv(t) && t.row.value.frozen == s.row.value.frozen
            && forall o :: o in t.workers ==> WorkerSound(t, o)
  {
    var t := CommitSave(s, owner, progress);
    SavedChainSnoc(s.saves, s.row.value.toolLoop, progress);
    forall o | o in t.workers
      ensures WorkerSound(t, o)
    {
      assert WorkerSound(s, o);
    }
  }

  lemma {:induction false} LoopKeepsRow(s: State, accepts: string -> bool, owner: Owner, event: Event)
    requires Inv(s, accepts) && LoopStep(s, owner, event).Some?
    ensures RowInv(LoopStep(s, owner, event).value)
  {
    var cfg, local := LeaderConfig(s.row.value.frozen), s.workers[owner].phase.local;
    assert WorkerSound(s, owner);
    StepKeepsSound(cfg, local, event);
    if event.Saved? {
      assert HolderSynced(s, accepts, s.workers[owner].phase);
      CommitKeepsRow(s, accepts, owner, event.progress);
    } else if event.Called? {
      CallsExtend(s, owner);
    }
  }

  lemma {:induction false} LoopKeepsWorkers(s: State, accepts: string -> bool, owner: Owner, event: Event, o: Owner)
    requires Inv(s, accepts) && LoopStep(s, owner, event).Some? && o in s.workers
    ensures WorkerSound(LoopStep(s, owner, event).value, o)
  {
    if o == owner {
      assert WorkerSound(s, owner);
      if event.Saved? {
        assert HolderSynced(s, accepts, s.workers[owner].phase);
      }
      StepKeepsSound(LeaderConfig(s.row.value.frozen), s.workers[owner].phase.local, event);
    } else {
      LoopKeepsOther(s, accepts, owner, event, o);
    }
  }

  lemma {:induction false} LoopKeepsOther(s: State, accepts: string -> bool, owner: Owner, event: Event, o: Owner)
    requires Inv(s, accepts) && LoopStep(s, owner, event).Some? && o in s.workers && o != owner
    ensures WorkerSound(LoopStep(s, owner, event).value, o)
  {
    LoopSparesOther(s, accepts, owner, event, o);
    IdleStaysSound(s, LoopStep(s, owner, event).value, o);
  }

  lemma {:induction false} LoopSparesOther(s: State, accepts: string -> bool, owner: Owner, event: Event, o: Owner)
    requires Inv(s, accepts) && LoopStep(s, owner, event).Some? && o in s.workers && o != owner
    ensures var t := LoopStep(s, owner, event).value;
            && WorkerSound(s, o) && t.row.Some? && o in t.workers && t.workers[o] == s.workers[o]
            && t.row.value.frozen == s.row.value.frozen && s.row.value.toolLoop.turns <= t.row.value.toolLoop.turns
            && (Waits(s, o) ==> PendingTurn(s, o) - 1 !in t.calls)
  {
    assert WorkerSound(s, owner) && WorkerSound(s, o);
    if event.Saved? {
      assert HolderSynced(s, accepts, s.workers[owner].phase);
    } else if event.Called? && Waits(s, o) {
      assert PendingTurn(s, o) != PendingTurn(s, owner);
    }
  }

  // What a worker that does not move needs of the rest of the state.
  lemma {:induction false} IdleStaysSound(s: State, t: State, o: Owner)
    requires s.row.Some? && o in s.workers && WorkerSound(s, o)
    requires t.row.Some? && o in t.workers && t.workers[o] == s.workers[o] && t.row.value.frozen == s.row.value.frozen
    requires s.row.value.toolLoop.turns <= t.row.value.toolLoop.turns
    requires Waits(s, o) ==> PendingTurn(s, o) - 1 !in t.calls
    ensures WorkerSound(t, o)
  {
  }

  lemma {:induction false} LoopKeepsHolder(s: State, accepts: string -> bool, owner: Owner, event: Event, o: Owner)
    requires Inv(s, accepts) && LoopStep(s, owner, event).Some? && o in s.workers
    requires LoopStep(s, owner, event).value.row.value.leaseOwner == Some(o)
    ensures var t := LoopStep(s, owner, event).value; HolderSynced(t, accepts, t.workers[o].phase)
  {
    assert s.row.value.leaseOwner == Some(o);
    assert HolderSynced(s, accepts, s.workers[o].phase);
    if o == owner {
      var cfg, local := LeaderConfig(s.row.value.frozen), s.workers[owner].phase.local;
      assert WorkerSound(s, owner);
      StepKeepsSound(cfg, local, event);
    }
  }

  lemma {:induction false} LoopKeepsPending(s: State, accepts: string -> bool, owner: Owner, event: Event, other: Owner)
    requires Inv(s, accepts) && LoopStep(s, owner, event).Some?
    requires var t := LoopStep(s, owner, event).value; other != owner && Waits(t, owner) && Waits(t, other)
    ensures var t := LoopStep(s, owner, event).value; PendingTurn(t, owner) != PendingTurn(t, other)
  {
    assert WorkerSound(s, owner) && WorkerSound(s, other);
    assert HolderSynced(s, accepts, s.workers[owner].phase);
  }

  lemma {:induction false} LoopKeepsInv(s: State, accepts: string -> bool, owner: Owner, event: Event)
    requires Inv(s, accepts) && LoopStep(s, owner, event).Some?
    ensures Inv(LoopStep(s, owner, event).value, accepts)
  {
    var t := LoopStep(s, owner, event).value;
    LoopKeepsRow(s, accepts, owner, event);
    assert t.workers.Keys == s.workers.Keys && t.row.Some?;
    forall o | o in t.workers
      ensures WorkerSound(t, o)
    {
      LoopKeepsWorkers(s, accepts, owner, event, o);
    }
    forall o | o in t.workers && t.row.value.leaseOwner == Some(o)
      ensures HolderSynced(t, accepts, t.workers[o].phase)
    {
      LoopKeepsHolder(s, accepts, owner, event, o);
    }
    LoopKeepsApart(s, accepts, owner, event);
  }

  lemma {:induction false} LoopKeepsApart(s: State, accepts: string -> bool, owner: Owner, event: Event)
    requires Inv(s, accepts) && LoopStep(s, owner, event).Some?
    ensures var t := LoopStep(s, owner, event).value;
            forall a, b :: Waits(t, a) && Waits(t, b) && a != b ==> PendingTurn(t, a) != PendingTurn(t, b)
  {
    var t := LoopStep(s, owner, event).value;
    forall a, b | Waits(t, a) && Waits(t, b) && a != b
      ensures PendingTurn(t, a) != PendingTurn(t, b)
    {
      if a == owner {
        LoopKeepsPending(s, accepts, owner, event, b);
      } else if b == owner {
        LoopKeepsPending(s, accepts, owner, event, a);
      } else {
        assert Waits(s, a) && Waits(s, b);
      }
    }
  }

  // A reserved turn that is called now was called by nobody before.
  lemma {:induction false} CallsExtend(s: State, owner: Owner)
    requires RowInv(s) && Waits(s, owner) && s.row.Some? && WorkerSound(s, owner)
    ensures CallsBelow(s.calls + [PendingTurn(s, owner) - 1], s.row.value.toolLoop.turns)
  {
  }

  lemma {:induction false} SaveKeepsInv(s: State, accepts: string -> bool, owner: Owner)
    requires Inv(s, accepts) && Apply(s, accepts, Save(owner)).Some?
    ensures Inv(Apply(s, accepts, Save(owner)).value, accepts)
  {
    var t := Apply(s, accepts, Save(owner)).value;
    if HoldsNow(s, owner) {
      assert HolderSynced(s, accepts, s.workers[owner].phase);
      CommitKeepsRow(s, accepts, owner, s.workers[owner].phase.progress);
    }
    OthersKeep(s, t, owner);
  }

  // Facts about the workers that a move of another worker does not touch.
  lemma {:induction false} OthersKeep(s: State, t: State, owner: Owner)
    requires s.row.Some? && t.row.Some? && s.row.value.frozen == t.row.value.frozen
    requires s.row.value.toolLoop.turns <= t.row.value.toolLoop.turns && s.calls == t.calls
    requires forall o :: o in t.workers && o != owner ==> o in s.workers && t.workers[o] == s.workers[o]
    requires forall o :: o in s.workers ==> WorkerSound(s, o)
    requires forall a, b :: Waits(s, a) && Waits(s, b) && a != b ==> PendingTurn(s, a) != PendingTurn(s, b)
    requires !Waits(t, owner)
    ensures forall o :: o in t.workers && o != owner ==> WorkerSound(t, o)
    ensures forall a, b :: Waits(t, a) && Waits(t, b) && a != b ==> PendingTurn(t, a) != PendingTurn(t, b)
  {
    forall o | o in t.workers && o != owner
      ensures WorkerSound(t, o)
    {
      assert WorkerSound(s, o);
    }
    forall a, b | Waits(t, a) && Waits(t, b) && a != b
      ensures PendingTurn(t, a) != PendingTurn(t, b)
    {
      assert Waits(s, a) && Waits(s, b);
    }
  }

  lemma {:induction false} JudgeKeepsInv(s: State, accepts: string -> bool, owner: Owner)
    requires Inv(s, accepts) && Apply(s, accepts, Judge(owner)).Some?
    ensures Inv(Apply(s, accepts, Judge(owner)).value, accepts)
  {
    var t := Apply(s, accepts, Judge(owner)).value;
    var p := s.workers[owner].phase.progress;
    if s.row.value.leaseOwner == Some(owner) {
      assert HolderSynced(s, accepts, s.workers[owner].phase);
      assert WellPaired([User("decision was not applied")]);
      WellPairedAppend(p.history, [User("decision was not applied")]);
    }
    OthersKeep(s, t, owner);
  }

  lemma {:induction false} ApplyKeepsInv(s: State, accepts: string -> bool, move: Move)
    requires Inv(s, accepts) && Apply(s, accepts, move).Some?
    ensures Inv(Apply(s, accepts, move).value, accepts)
  {
    var t := Apply(s, accepts, move).value;
    match move
    case Tick(_) => Untouched(s, t, accepts);
    case SetRun(_, _) => Untouched(s, t, accepts);
    case Claim(runId, frozen, owner) => ClaimKeepsInv(s, accepts, runId, frozen, owner);
    case Loop(owner, event) => LoopKeepsInv(s, accepts, owner, event);
    case Judge(owner) => JudgeKeepsInv(s, accepts, owner);
    case Save(owner) => SaveKeepsInv(s, accepts, owner);
    case Record(owner) => HandoffKeepsInv(s, accepts, move, owner);
    case Assign(owner) => HandoffKeepsInv(s, accepts, move, owner);
    case Fail(owner) => LeavingKeepsInv(s, accepts, move, owner);
    case Release(owner) => LeavingKeepsInv(s, accepts, move, owner);
    case Crash(owner) => LeavingKeepsInv(s, accepts, move, owner);
  }

  lemma {:induction false} HandoffKeepsInv(s: State, accepts: string -> bool, move: Move, owner: Owner)
    requires Inv(s, accepts) && (move == Record(owner) || move == Assign(owner)) && Apply(s, accepts, move).Some?
    ensures Inv(Apply(s, accepts, move).value, accepts)
  {
    if s.row.value.leaseOwner == Some(owner) {
      assert HolderSynced(s, accepts, s.workers[owner].phase);
    }
    HandoffKeepsOthers(s, accepts, move, owner);
  }

  lemma {:induction false} HandoffKeepsOthers(s: State, accepts: string -> bool, move: Move, owner: Owner)
    requires Inv(s, accepts) && (move == Record(owner) || move == Assign(owner)) && Apply(s, accepts, move).Some?
    ensures var t := Apply(s, accepts, move).value;
            && RowInv(t) && (forall o :: o in t.workers && o != owner ==> WorkerSound(t, o))
            && forall a, b :: Waits(t, a) && Waits(t, b) && a != b ==> PendingTurn(t, a) != PendingTurn(t, b)
  {
    OthersKeep(s, Apply(s, accepts, move).value, owner);
  }

  lemma {:induction false} LeavingKeepsInv(s: State, accepts: string -> bool, move: Move, owner: Owner)
    requires Inv(s, accepts) && (move == Fail(owner) || move == Release(owner) || move == Crash(owner)) && Apply(s, accepts, move).Some?
    ensures Inv(Apply(s, accepts, move).value, accepts)
  {
    var t := Apply(s, accepts, move).value;
    OthersKeep(s, t, owner);
  }

  lemma {:induction false} Untouched(s: State, t: State, accepts: string -> bool)
    requires Inv(s, accepts)
    requires t == s.(now := t.now, runs := t.runs)
    ensures Inv(t, accepts)
  {
    forall o | o in t.workers
      ensures WorkerSound(t, o)
    {
      assert WorkerSound(s, o);
    }
    forall a, b | Waits(t, a) && Waits(t, b) && a != b
      ensures PendingTurn(t, a) != PendingTurn(t, b)
    {
      assert Waits(s, a) && Waits(s, b);
    }
  }

  /** The invariant holds in every state that any interleaving reaches. */
  lemma {:induction false} ReachableHasInv(accepts: string -> bool, moves: seq<Move>)
    requires After(START, accepts, moves).Some?
    ensures Inv(After(START, accepts, moves).value, accepts)
    decreases |moves|
  {
    if moves == [] {
      StartHasInv(accepts);
    } else {
      var init := moves[..|moves| - 1];
      ReachableHasInv(accepts, init);
      ApplyKeepsInv(After(START, accepts, init).value, accepts, moves[|moves| - 1]);
    }
  }

  // ---------------------------------------------------------------- theorems about whole runs

  // Distinct numbers below a bound are no more than the bound.
  lemma {:induction false} DistinctBelow(calls: seq<nat>, bound: nat)
    requires CallsBelow(calls, bound)
    ensures |calls| <= bound
    decreases bound
  {
    if calls != [] {
      assert calls[0] < bound;
      if k :| 0 <= k < |calls| && calls[k] == bound - 1 {
        DistinctBelow(calls[..k] + calls[k + 1..], bound - 1);
      } else {
        DistinctBelow(calls, bound - 1);
      }
    }
  }

  /**
   * However claims, crashes, expiries, takeovers and rejected decisions interleave, all owners
   * together never pay for more model calls than the turns in the frozen input (at least one, at
   * most 16), and no two calls share a turn number.
   */
  lemma {:induction false} ModelCallsStayInBudget(accepts: string -> bool, moves: seq<Move>)
    requires After(START, accepts, moves).Some?
    ensures var s := After(START, accepts, moves).value;
            && (forall i, j :: 0 <= i < j < |s.calls| ==> s.calls[i] != s.calls[j])
            && |s.calls| <= 16 && (s.row.None? ==> s.calls == [])
            && (s.row.Some? ==> |s.calls| <= 1 || |s.calls| <= s.row.value.frozen.maxTurns)
  {
    ReachableHasInv(accepts, moves);
    var s := After(START, accepts, moves).value;
    if s.row.Some? {
      DistinctBelow(s.calls, s.row.value.toolLoop.turns);
    }
  }

  /**
   * The committed checkpoints of all owners form one chain: each history is a prefix of the next
   * and of the history the row holds now, turn counts never fall, and each history is well paired.
   */
  lemma {:induction false} CheckpointsFormOneChain(accepts: string -> bool, moves: seq<Move>, i: nat, j: nat)
    requires After(START, accepts, moves).Some?
    requires i <= j < |After(START, accepts, moves).value.saves|
    ensures var s := After(START, accepts, moves).value;
            && s.row.Some?
            && WellPaired(s.saves[i].history)
            && s.saves[i].history <= s.saves[j].history <= s.row.value.toolLoop.history
            && s.saves[i].turns <= s.saves[j].turns <= s.row.value.toolLoop.turns
  {
    ReachableHasInv(accepts, moves);
  }

  // The owner on whose behalf a move is made.
  predicate IsBy(move: Move, owner: Owner) {
    match move
    case Tick(_) => false
    case SetRun(_, _) => false
    case Claim(_, _, _) => false
    case Loop(o, _) => o == owner
    case Judge(o) => o == owner
    case Save(o) => o == owner
    case Record(o) => o == owner
    case Assign(o) => o == owner
    case Fail(o) => o == owner
    case Release(o) => o == owner
    case Crash(o) => o == owner
  }

  // The owner had its turn and holds the lease no more.
  ghost predicate FencedOff(s: State, owner: Owner) {
    owner in s.used && s.row.Some? && s.row.value.leaseOwner != Some(owner)
  }

  lemma {:induction false} MoveKeepsFence(s: State, accepts: string -> bool, move: Move, owner: Owner)
    requires FencedOff(s, owner) && Apply(s, accepts, move).Some?
    ensures FencedOff(Apply(s, accepts, move).value, owner)
    ensures Apply(s, accepts, move).value.row.value.frozen == s.row.value.frozen
    ensures IsBy(move, owner) ==>
              var t := Apply(s, accepts, move).value;
              t.row == s.row && t.saves == s.saves && t.handoffs == s.handoffs
  {
  }

  /**
   * Fencing over all runs: once an owner has lost the lease it never gets it back.  From then on
   * every guard refuses it, and none of its moves changes the row, commits a save or hands off,
   * whatever the other workers do; the frozen input stays what it was.
   */
  lemma {:induction false} LostLeaseIsLostForever(
      accepts: string -> bool, moves: seq<Move>, i: nat, owner: Owner, runId: RunId, now: nat, move: Move)
    requires i <= |moves| && After(START, accepts, moves).Some?
    requires After(START, accepts, moves[..i]).Some? && FencedOff(After(START, accepts, moves[..i]).value, owner)
    ensures var s, t := After(START, accepts, moves[..i]).value, After(START, accepts, moves).value;
            && FencedOff(t, owner)
            && t.row.value.frozen == s.row.value.frozen
            && !Holds(Find(t.runs, runId), t.row, runId, owner, now)
            && ReleasedRow(t.row.value, owner) == t.row.value
            && (IsBy(move, owner) && Apply(t, accepts, move).Some? ==>
                  var u := Apply(t, accepts, move).value;
                  u.row == t.row && u.saves == t.saves && u.handoffs == t.handoffs)
    decreases |moves|
  {
    var n := |moves| - 1;
    if i == |moves| {
      assert moves[..i] == moves;
    } else {
      assert moves[..n][..i] == moves[..i];
      LostLeaseIsLostForever(accepts, moves[..n], i, owner, runId, now, move);
      MoveKeepsFence(After(START, accepts, moves[..n]).value, accepts, moves[n], owner);
    }
    if IsBy(move, owner) && Apply(After(START, accepts, moves).value, accepts, move).Some? {
      MoveKeepsFence(After(START, accepts, moves).value, accepts, move, owner);
    }
  }

  /** A granted claim fences off every earlier owner and keeps the frozen input and the progress. */
  lemma {:induction false} ClaimFencesEarlierOwners(s: State, accepts: string -> bool, runId: RunId, frozen: Frozen, owner: Owner, earlier: Owner)
    requires Inv(s, accepts) && earlier in s.used
    requires Apply(s, accepts, Claim(runId, frozen, owner)).Some?
    requires owner in Apply(s, accepts, Claim(runId, frozen, owner)).value.used
    ensures var t := Apply(s, accepts, Claim(runId, frozen, owner)).value;
            && FencedOff(t, earlier) && s.row.Some?
            && t.row.value.frozen == s.row.value.frozen && t.row.value.toolLoop == s.row.value.toolLoop
            && t.saves == s.saves && t.calls == s.calls
  {
  }

  // An accepted decision stands in the row.
  ghost predicate Decided(s: State, accepts: string -> bool, decision: string) {
    s.row.Some? && s.row.value.toolLoop.output == Some(decision) && accepts(decision)
  }

  lemma {:induction false} MoveKeepsDecision(s: State, accepts: string -> bool, move: Move, decision: string)
    requires Inv(s, accepts) && Decided(s, accepts, decision) && Apply(s, accepts, move).Some?
    ensures var t := Apply(s, accepts, move).value;
            && Decided(t, accepts, decision) && t.row.value.toolLoop == s.row.value.toolLoop
            && (t.handoffs == s.handoffs || t.handoffs == s.handoffs + [decision])
  {
    if (move.Loop? || move.Save? || move.Assign?) && HoldsNow(s, move.owner) {
      assert HolderSynced(s, accepts, s.workers[move.owner].phase);
    }
  }

  /**
   * Every handoff carries an accepted decision that stands in the row, so all handoffs of the item
   * carry the same decision; and once it stands, no later move reserves a turn or rewrites it.
   */
  lemma {:induction false} HandoffsAgree(accepts: string -> bool, moves: seq<Move>)
    requires After(START, accepts, moves).Some?
    ensures var s := After(START, accepts, moves).value;
            forall i :: 0 <= i < |s.handoffs| ==> Decided(s, accepts, s.handoffs[i])
    decreases |moves|
  {
    if moves != [] {
      var n := |moves| - 1;
      var move := moves[n];
      HandoffsAgree(accepts, moves[..n]);
      ReachableHasInv(accepts, moves[..n]);
      var s, t := After(START, accepts, moves[..n]).value, After(START, accepts, moves).value;
      if s.handoffs != [] {
        MoveKeepsDecision(s, accepts, move, s.handoffs[0]);
      } else if move.Assign? && HoldsNow(s, move.owner) {
        assert HolderSynced(s, accepts, s.workers[move.owner].phase);
      }
    }
  }

  lemma {:induction false} DecisionIsFinal(accepts: string -> bool, moves: seq<Move>, i: nat, decision: string)
    requires i <= |moves| && After(START, accepts, moves).Some?
    requires After(START, accepts, moves[..i]).Some? && Decided(After(START, accepts, moves[..i]).value, accepts, decision)
    ensures var s, t := After(START, accepts, moves[..i]).value, After(START, accepts, moves).value;
            Decided(t, accepts, decision) && t.row.value.toolLoop == s.row.value.toolLoop
    decreases |moves|
  {
    var n := |moves| - 1;
    if i == |moves| {
      assert moves[..i] == moves;
    } else {
      assert moves[..n][..i] == moves[..i];
      DecisionIsFinal(accepts, moves[..n], i, decision);
      ReachableHasInv(accepts, moves[..n]);
      MoveKeepsDecision(After(START, accepts, moves[..n]).value, accepts, moves[n], decision);
    }
  }
}
