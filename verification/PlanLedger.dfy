/**
 * The plans of one build run and its deterministic handoffs, services/plan.py and
 * services/leader.py.
 *
 * PlanLedger holds the rows of the run; each method is one transaction.  A plan's definition stands
 * for its hash (equal hash, equal definition), and its version identifies it within the run.
 */
module PlanLedger {
  import opened Results

  datatype Role = Engineering | Quality | Other

  datatype TaskDef = TaskDef(role: Role, inputs: seq<string>, text: string)

  datatype Definition = Definition(version: nat, cause: nat, tasks: seq<TaskDef>)

  datatype Status = Pending | Running | Succeeded | Failed | Cancelled

  // `result` names the artifact that the task published.
  datatype Task = Task(def: TaskDef, status: Status, result: Option<string>)

  datatype Plan = Plan(definition: Definition, status: Status, tasks: seq<Task>)

  datatype Conclusion = Passed | Defective | BlockedByEvidence

  datatype Report = Report(conclusion: Conclusion, challenged: bool, codeId: string, samePlan: bool)

  datatype Artifact =
    | Code(usable: bool, upstream: seq<string>)
    | TestReport(usable: bool, upstream: seq<string>, report: Report)
    | TestPlan(usable: bool)
    | Document(usable: bool)

  datatype Run = Run(status: string, stage: string, activeSlot: Option<int>, error: bool)

  datatype State = State(run: Run, plans: seq<Plan>, artifacts: map<string, Artifact>, messages: map<nat, bool>)

  datatype Conflict =
    | OtherContent | RunNotActive | NoMessage | NotUserMessage | NoInput | UnusableInput
    | NoArtifact | NotReady | NotEligible | NotLatest | CyclesSpent | OtherRunning | PlanOver | NothingToDo

  // What the failure routing answers to a failed report that may be repaired.
  datatype NextAction = RetryInfrastructure | AwaitUserChallenge | Answer | DispatchCodeEngineer

  const MAX_QUALITY_CYCLES: nat := 3

  // ---------------------------------------------------------------- looking things up

  function FindVersion(plans: seq<Plan>, version: nat): (k: Option<nat>)
    ensures k.Some? ==> k.value < |plans| && plans[k.value].definition.version == version
    ensures k.None? ==> forall i :: 0 <= i < |plans| ==> plans[i].definition.version != version
  {
    if plans == [] then None
    else
      var n := |plans| - 1;
      if plans[n].definition.version == version then Some(n) else FindVersion(plans[..n], version)
  }

  // The plan with the highest version.
  function Latest(plans: seq<Plan>): (k: Option<nat>)
    ensures k.None? <==> plans == []
    ensures k.Some? ==> k.value < |plans| && forall i :: 0 <= i < |plans| ==> plans[i].definition.version <= plans[k.value].definition.version
  {
    if plans == [] then None
    else
      var n := |plans| - 1;
      var rest := Latest(plans[..n]);
      if rest.None? || plans[rest.value].definition.version < plans[n].definition.version then Some(n) else rest
  }

  predicate Publishes(plan: Plan, id: string) {
    exists t :: 0 <= t < |plan.tasks| && plan.tasks[t].result == Some(id)
  }

  function PublishingTask(plan: Plan, id: string): (t: nat)
    requires Publishes(plan, id)
    ensures t < |plan.tasks| && plan.tasks[t].result == Some(id)
  {
    FirstPublishing(plan.tasks, id)
  }

  function FirstPublishing(tasks: seq<Task>, id: string): (t: nat)
    requires exists t :: 0 <= t < |tasks| && tasks[t].result == Some(id)
    ensures t < |tasks| && tasks[t].result == Some(id)
  {
    if tasks[0].result == Some(id) then 0 else 1 + FirstPublishing(tasks[1..], id)
  }

  function FindPublisher(plans: seq<Plan>, id: string): (k: Option<nat>)
    ensures k.Some? ==> k.value < |plans| && Publishes(plans[k.value], id)
  {
    if plans == [] then None
    else
      var n := |plans| - 1;
      if Publishes(plans[n], id) then Some(n) else FindPublisher(plans[..n], id)
  }

  predicate Hands(plan: Plan, role: Role, id: string) {
    exists t :: 0 <= t < |plan.definition.tasks| && plan.definition.tasks[t].role == role && id in plan.definition.tasks[t].inputs
  }

  // The earliest plan that already hands the artifact to the role.
  function FindDispatched(plans: seq<Plan>, role: Role, id: string): (k: Option<nat>)
    ensures k.Some? ==> k.value < |plans| && Hands(plans[k.value], role, id)
    ensures k.None? ==> forall i :: 0 <= i < |plans| ==> !Hands(plans[i], role, id)
  {
    if plans == [] then None
    else
      var n := |plans| - 1;
      var rest := FindDispatched(plans[..n], role, id);
      if rest.Some? then rest else if Hands(plans[n], role, id) then Some(n) else None
  }

  function QualityTasks(tasks: seq<TaskDef>): nat {
    if tasks == [] then 0 else QualityTasks(tasks[..|tasks| - 1]) + if tasks[|tasks| - 1].role == Quality then 1 else 0
  }

  // How many quality tasks the run has.
  function QualityCycles(plans: seq<Plan>): nat {
    if plans == [] then 0 else QualityCycles(plans[..|plans| - 1]) + QualityTasks(plans[|plans| - 1].definition.tasks)
  }

  // ---------------------------------------------------------------- staging a plan

  predicate RunActive(run: Run) {
    (run.status == "queued" || run.status == "running") && run.activeSlot == Some(1)
  }

  predicate InputsExist(s: State, def: Definition) {
    forall t, i :: 0 <= t < |def.tasks| && 0 <= i < |def.tasks[t].inputs| ==> def.tasks[t].inputs[i] in s.artifacts
  }

  predicate InputsUsable(s: State, def: Definition)
    requires InputsExist(s, def)
  {
    forall t, i :: 0 <= t < |def.tasks| && 0 <= i < |def.tasks[t].inputs| ==> s.artifacts[def.tasks[t].inputs[i]].usable
  }

  function NewTasks(defs: seq<TaskDef>): (tasks: seq<Task>)
    ensures |tasks| == |defs| && forall i :: 0 <= i < |defs| ==> tasks[i] == Task(defs[i], Pending, None)
  {
    seq(|defs|, i requires 0 <= i < |defs| => Task(defs[i], Pending, None))
  }

  function NewPlan(def: Definition): Plan {
    Plan(def, Pending, NewTasks(def.tasks))
  }

  // The index of the staged plan and the ledger afterwards.
  function StageOn(s: State, def: Definition): Result<(nat, State), Conflict> {
    var existing := FindVersion(s.plans, def.version);
    if existing.Some? then
      if s.plans[existing.value].definition == def then Ok((existing.value, s)) else Err(OtherContent)
    else if !RunActive(s.run) then Err(RunNotActive)
    else if def.cause !in s.messages then Err(NoMessage)
    else if !s.messages[def.cause] then Err(NotUserMessage)
    else if !InputsExist(s, def) then Err(NoInput)
    else if !InputsUsable(s, def) then Err(UnusableInput)
    else Ok((|s.plans|, s.(plans := s.plans + [NewPlan(def)])))
  }

  // The later ledger has the same definitions and perhaps more.
  ghost predicate Extends(a: seq<Plan>, b: seq<Plan>) {
    |a| <= |b| && forall i :: 0 <= i < |a| ==> a[i].definition == b[i].definition
  }

  ghost predicate DistinctVersions(plans: seq<Plan>) {
    forall i, j :: 0 <= i < j < |plans| ==> plans[i].definition.version != plans[j].definition.version
  }

  /**
   * Staging an identical definition again gives back the stored plan and leaves the ledger as it is,
   * whatever happened to the run, its tasks and its inputs in between.
   */
  lemma {:induction false} StagingIsIdempotent(s: State, def: Definition, t: State)
    requires StageOn(s, def).Ok?
    requires Extends(StageOn(s, def).value.1.plans, t.plans) && DistinctVersions(t.plans)
    ensures StageOn(t, def) == Ok((StageOn(s, def).value.0, t))
  {
    var k := StageOn(s, def).value.0;
    assert t.plans[k].definition == def;
  }

  // ---------------------------------------------------------------- plan states

  predicate AnotherRuns(plans: seq<Plan>, k: nat) {
    exists i :: 0 <= i < |plans| && i != k && plans[i].status == Running
  }

  function StartError(plans: seq<Plan>, k: nat): Option<Conflict>
    requires k < |plans|
  {
    if plans[k].status != Pending && plans[k].status != Running then Some(PlanOver)
    else if AnotherRuns(plans, k) then Some(OtherRunning)
    else None
  }

  predicate AllSucceeded(tasks: seq<Task>) {
    forall i :: 0 <= i < |tasks| ==> tasks[i].status == Succeeded
  }

  ghost predicate OneRunning(plans: seq<Plan>) {
    forall i, j :: 0 <= i < j < |plans| ==> plans[i].status != Running || plans[j].status != Running
  }

  // ---------------------------------------------------------------- the handoffs

  predicate InRun(run: Run, stage: string) {
    run.status == "running" && run.stage == stage && run.activeSlot == Some(1)
  }

  // The plan whose succeeded engineering task published this usable code.
  predicate ReadyCode(s: State, id: string) {
    var k := FindPublisher(s.plans, id);
    && k.Some? && id in s.artifacts && s.artifacts[id].Code? && s.artifacts[id].usable
    && 1 <= |s.artifacts[id].upstream| <= 3
    && s.plans[k.value].status == Succeeded
    && (var t := s.plans[k.value].tasks[PublishingTask(s.plans[k.value], id)];
        t.def.role == Engineering && t.status == Succeeded)
  }

  // The plan whose succeeded quality task published this usable report.
  predicate ReadyReport(s: State, id: string) {
    var k := FindPublisher(s.plans, id);
    && k.Some? && id in s.artifacts && s.artifacts[id].TestReport? && s.artifacts[id].usable
    && s.plans[k.value].status == Succeeded
    && (var t := s.plans[k.value].tasks[PublishingTask(s.plans[k.value], id)];
        t.def.role == Quality && t.status == Succeeded)
  }

  function QualityPlan(version: nat, cause: nat, codeId: string, text: string): Definition {
    Definition(version, cause, [TaskDef(Quality, [codeId], text)])
  }

  function RepairPlan(version: nat, cause: nat, inputs: seq<string>): Definition {
    Definition(version, cause, [TaskDef(Engineering, inputs, "repair")])
  }

  // The outcome of a handoff: the plan it hands over to, if any.
  function Handed(staged: Result<(nat, State), Conflict>): Result<(Option<nat>, State), Conflict> {
    if staged.Err? then Err(staged.error) else Ok((Some(staged.value.0), staged.value.1))
  }

  function DispatchCode(s: State, codeId: string): Result<(Option<nat>, State), Conflict> {
    if !ReadyCode(s, codeId) then Err(NotReady)
    else
      var replay, latest := FindDispatched(s.plans, Quality, codeId), Latest(s.plans);
      if replay.Some? then Ok((replay, s))
      else if !InRun(s.run, "developer") then Err(NotEligible)
      else if latest.None? || latest != FindPublisher(s.plans, codeId) then Err(NotLatest)
      else
        var d := s.plans[latest.value].definition;
        Handed(StageOn(s, QualityPlan(d.version + 1, d.cause, codeId, "validate")))
  }

  function RetryQuality(s: State, reportId: string): Result<(Option<nat>, State), Conflict> {
    if !InRun(s.run, "qa") then Err(NotEligible)
    else if !ReadyReport(s, reportId) then Err(NotReady)
    else
      var report, latest := s.artifacts[reportId].report, Latest(s.plans);
      if report.conclusion != BlockedByEvidence || report.challenged then Err(NotReady)
      else if !ReadyCode(s, report.codeId) || !report.samePlan then Err(NotReady)
      else if latest.None? || latest != FindPublisher(s.plans, reportId) then Err(NotLatest)
      else if QualityCycles(s.plans) >= MAX_QUALITY_CYCLES then Err(CyclesSpent)
      else
        var d := s.plans[latest.value].definition;
        Handed(StageOn(s.(run := s.run.(error := false)), QualityPlan(d.version + 1, d.cause, report.codeId, "retry")))
  }

  predicate RunOver(run: Run) {
    run.status == "failed" || run.status == "cancelled" || run.status == "succeeded"
  }

  function RepairInputs(s: State, reportId: string): seq<string>
    requires ReadyReport(s, reportId) && ReadyCode(s, s.artifacts[reportId].report.codeId)
  {
    var code := s.artifacts[s.artifacts[reportId].report.codeId];
    var planned :=
      |code.upstream| >= 2 && code.upstream[1] in s.artifacts && s.artifacts[code.upstream[1]].TestPlan?;
    [code.upstream[0]] + (if planned then [code.upstream[1]] else []) + [reportId]
  }

  function RepairQuality(s: State, reportId: string, action: NextAction): Result<(Option<nat>, State), Conflict> {
    if !ReadyReport(s, reportId) || !(1 <= |s.artifacts[reportId].upstream| <= 2) then Err(NotReady)
    else
      var report, replay, latest := s.artifacts[reportId].report, FindDispatched(s.plans, Engineering, reportId), Latest(s.plans);
      if replay.Some? then Ok((replay, s))
      else if RunOver(s.run) then Ok((None, s))
      else if !InRun(s.run, "qa") then Err(NotEligible)
      else if report.conclusion == Passed then Err(NothingToDo)
      else if s.artifacts[reportId].upstream[0] != report.codeId || !ReadyCode(s, report.codeId) || !report.samePlan then Err(NotReady)
      else if latest.None? || latest != FindPublisher(s.plans, reportId) then Err(NotLatest)
      else if QualityCycles(s.plans) >= MAX_QUALITY_CYCLES then
        Ok((None, s.(run := s.run.(status := "failed", activeSlot := None, error := true))))
      else if action != DispatchCodeEngineer then Ok((None, s.(run := s.run.(error := true))))
      else
        var d := s.plans[latest.value].definition;
        var staged := Handed(StageOn(s, RepairPlan(d.version + 1, d.cause, RepairInputs(s, reportId))));
        if staged.Err? then staged
        else Ok((staged.value.0, staged.value.1.(run := staged.value.1.run.(error := false))))
  }

  class PlanLedger {
    var run: Run
    var plans: seq<Plan>
    var artifacts: map<string, Artifact>
    var messages: map<nat, bool>

    ghost function View(): State
      reads this
    {
      State(run, plans, artifacts, messages)
    }

    constructor (run: Run, artifacts: map<string, Artifact>, messages: map<nat, bool>)
      ensures View() == State(run, [], artifacts, messages)
    {
      this.run, this.plans, this.artifacts, this.messages := run, [], artifacts, messages;
    }

    /** Adds a new version, or gives back the stored one when it has the same definition. */
    method StagePlan(def: Definition) returns (r: Result<nat, Conflict>)
      modifies this`plans
      ensures var staged := StageOn(old(View()), def);
              if staged.Ok? then r == Ok(staged.value.0) && View() == staged.value.1
              else r == Err(staged.error) && View() == old(View())
    {
      var existing := FindVersion(plans, def.version);
      if existing.Some? {
        return if plans[existing.value].definition == def then Ok(existing.value) else Err(OtherContent);
      }
      if !RunActive(run) { return Err(RunNotActive); }
      if def.cause !in messages { return Err(NoMessage); }
      if !messages[def.cause] { return Err(NotUserMessage); }
      var s := State(run, plans, artifacts, messages);
      if !InputsExist(s, def) { return Err(NoInput); }
      if !InputsUsable(s, def) { return Err(UnusableInput); }
      plans := plans + [NewPlan(def)];
      return Ok(|plans| - 1);
    }

    /** Claims a plan as the only running one of its run. */
    method StageRunning(k: nat) returns (error: Option<Conflict>)
      requires k < |plans| && OneRunning(plans)
      modifies this`plans
      ensures error == StartError(old(plans), k) && OneRunning(plans)
      ensures plans == if error.None? then old(plans)[k := old(plans)[k].(status := Running)] else old(plans)
    {
      if plans[k].status != Pending && plans[k].status != Running { return Some(PlanOver); }
      if AnotherRuns(plans, k) { return Some(OtherRunning); }
      plans := plans[k := plans[k].(status := Running)];
      return None;
    }

    /** Ends a plan exactly when all of its tasks have succeeded; a plan without tasks is refused. */
    method StageSucceededIfTasksComplete(k: nat) returns (done: Option<bool>)
      requires k < |plans| && OneRunning(plans)
      modifies this`plans
      ensures done.None? <==> old(plans)[k].tasks == []
      ensures done.Some? ==>
                (done.value <==> forall t :: 0 <= t < |old(plans)[k].tasks| ==> old(plans)[k].tasks[t].status == Succeeded)
      ensures OneRunning(plans)
      ensures plans == if done == Some(true) then old(plans)[k := old(plans)[k].(status := Succeeded)] else old(plans)
    {
      if plans[k].tasks == [] { return None; }
      if AllSucceeded(plans[k].tasks) {
        plans := plans[k := plans[k].(status := Succeeded)];
        return Some(true);
      }
      return Some(false);
    }

    /** Cancels a plan that nobody has claimed yet. */
    method StageCancelled(k: nat) returns (cancelled: bool)
      requires k < |plans| && OneRunning(plans)
      modifies this`plans
      ensures cancelled == (old(plans)[k].status == Pending) && OneRunning(plans)
      ensures plans == if cancelled then old(plans)[k := old(plans)[k].(status := Cancelled)] else old(plans)
    {
      if plans[k].status != Pending { return false; }
      plans := plans[k := plans[k].(status := Cancelled)];
      return true;
    }

    /** Code to quality validation: replays the earliest handoff, or continues the latest plan. */
    method DispatchCompletedCode(codeId: string) returns (r: Result<Option<nat>, Conflict>)
      modifies this`plans
      ensures var d := DispatchCode(old(View()), codeId);
              if d.Ok? then r == Ok(d.value.0) && View() == d.value.1 else r == Err(d.error) && View() == old(View())
    {
      var s := State(run, plans, artifacts, messages);
      if !ReadyCode(s, codeId) { return Err(NotReady); }
      var replay := FindDispatched(plans, Quality, codeId);
      if replay.Some? { return Ok(replay); }
      if !InRun(run, "developer") { return Err(NotEligible); }
      var latest := Latest(plans);
      if latest.None? || latest != FindPublisher(plans, codeId) { return Err(NotLatest); }
      var d := plans[latest.value].definition;
      var staged := StagePlan(QualityPlan(d.version + 1, d.cause, codeId, "validate"));
      return if staged.Ok? then Ok(Some(staged.value)) else Err(staged.error);
    }

    /** A report blocked by missing evidence: validates the same code again, within the cycle bound. */
    method RetryBlockedQualityValidation(reportId: string) returns (r: Result<Option<nat>, Conflict>)
      modifies this`plans, this`run
      ensures var d := RetryQuality(old(View()), reportId);
              if d.Ok? then r == Ok(d.value.0) && View() == d.value.1 else r == Err(d.error) && View() == old(View())
    {
      var s := State(run, plans, artifacts, messages);
      if !InRun(run, "qa") { return Err(NotEligible); }
      if !ReadyReport(s, reportId) { return Err(NotReady); }
      var report := artifacts[reportId].report;
      if report.conclusion != BlockedByEvidence || report.challenged { return Err(NotReady); }
      if !ReadyCode(s, report.codeId) || !report.samePlan { return Err(NotReady); }
      var latest := Latest(plans);
      if latest.None? || latest != FindPublisher(plans, reportId) { return Err(NotLatest); }
      if QualityCycles(plans) >= MAX_QUALITY_CYCLES { return Err(CyclesSpent); }
      var before := run;
      run := run.(error := false);
      var d := plans[latest.value].definition;
      var staged := StagePlan(QualityPlan(d.version + 1, d.cause, report.codeId, "retry"));
      if staged.Err? {
        run := before;
        return Err(staged.error);
      }
      return Ok(Some(staged.value));
    }

    /** A failed report: ends the run after the last cycle, otherwise opens a repair plan. */
    method DispatchQualityRepair(reportId: string, action: NextAction) returns (r: Result<Option<nat>, Conflict>)
      modifies this`plans, this`run
      ensures var d := RepairQuality(old(View()), reportId, action);
              if d.Ok? then r == Ok(d.value.0) && View() == d.value.1 else r == Err(d.error) && View() == old(View())
    {
      var s := State(run, plans, artifacts, messages);
      if !ReadyReport(s, reportId) || !(1 <= |artifacts[reportId].upstream| <= 2) { return Err(NotReady); }
      var report, replay := artifacts[reportId].report, FindDispatched(plans, Engineering, reportId);
      if replay.Some? { return Ok(replay); }
      if RunOver(run) { return Ok(None); }
      if !InRun(run, "qa") { return Err(NotEligible); }
      if report.conclusion == Passed { return Err(NothingToDo); }
      if artifacts[reportId].upstream[0] != report.codeId || !ReadyCode(s, report.codeId) || !report.samePlan {
        return Err(NotReady);
      }
      var latest := Latest(plans);
      if latest.None? || latest != FindPublisher(plans, reportId) { return Err(NotLatest); }
      if QualityCycles(plans) >= MAX_QUALITY_CYCLES {
        run := run.(status := "failed", activeSlot := None, error := true);
        return Ok(None);
      }
      if action != DispatchCodeEngineer {
        run := run.(error := true);
        return Ok(None);
      }
      var d := plans[latest.value].definition;
      var staged := StagePlan(RepairPlan(d.version + 1, d.cause, RepairInputs(s, reportId)));
      if staged.Err? { return Err(staged.error); }
      run := run.(error := false);
      return Ok(Some(staged.value));
    }
  }

  // ---------------------------------------------------------------- all runs of the handoffs

  // Anything but staging: tasks and plans change state, artifacts come and go, the run moves on.
  ghost predicate SameDefinitions(s: State, t: State) {
    |s.plans| == |t.plans| && forall i :: 0 <= i < |s.plans| ==> s.plans[i].definition == t.plans[i].definition
  }

  // A task row belongs to the definition it was created from.
  ghost predicate TasksMatch(plans: seq<Plan>) {
    forall i :: 0 <= i < |plans| ==>
      |plans[i].tasks| == |plans[i].definition.tasks|
      && forall t :: 0 <= t < |plans[i].tasks| ==> plans[i].tasks[t].def == plans[i].definition.tasks[t]
  }

  datatype Move =
    | HandCode(codeId: string)
    | Retry(reportId: string)
    | Repair(reportId: string, action: NextAction)
    | Work(after: State)

  function Kept(s: State, r: Result<(Option<nat>, State), Conflict>): State {
    if r.Ok? then r.value.1 else s
  }

  // One move; a refused handoff, and work that would rewrite a definition, change nothing.
  ghost function Apply(s: State, move: Move): State {
    match move
    case HandCode(id) => Kept(s, DispatchCode(s, id))
    case Retry(id) => Kept(s, RetryQuality(s, id))
    case Repair(id, action) => Kept(s, RepairQuality(s, id, action))
    case Work(after) => if SameDefinitions(s, after) && TasksMatch(after.plans) then after else s
  }

  ghost function After(start: State, moves: seq<Move>): State
    decreases |moves|
  {
    if moves == [] then start else Apply(After(start, moves[..|moves| - 1]), moves[|moves| - 1])
  }

  ghost predicate Consecutive(plans: seq<Plan>) {
    forall i :: 0 <= i < |plans| ==> plans[i].definition.version == plans[0].definition.version + i
  }

  // Quality tasks stand in plans of their own.
  ghost predicate Separate(plans: seq<Plan>) {
    forall i :: 0 <= i < |plans| ==>
      || QualityTasks(plans[i].definition.tasks) == 0
      || (|plans[i].definition.tasks| == 1 && plans[i].definition.tasks[0].role == Quality)
  }

  // The run as the handoffs find it: plans without quality tasks, in consecutive versions.
  ghost predicate Fresh(s: State) {
    && Consecutive(s.plans) && TasksMatch(s.plans)
    && forall i :: 0 <= i < |s.plans| ==> QualityTasks(s.plans[i].definition.tasks) == 0
  }

  ghost predicate Inv(s: State) {
    && Consecutive(s.plans) && TasksMatch(s.plans) && Separate(s.plans)
    && QualityCycles(s.plans) <= MAX_QUALITY_CYCLES
    && (s.plans != [] && QualityTasks(s.plans[|s.plans| - 1].definition.tasks) == 0 ==>
          QualityCycles(s.plans) < MAX_QUALITY_CYCLES)
  }

  lemma {:induction false} SameDefinitionsSameCycles(a: seq<Plan>, b: seq<Plan>)
    requires |a| == |b| && Extends(a, b)
    ensures QualityCycles(a) == QualityCycles(b)
    decreases |a|
  {
    if a != [] {
      var n := |a| - 1;
      SameDefinitionsSameCycles(a[..n], b[..n]);
    }
  }

  lemma {:induction false} CyclesSnoc(plans: seq<Plan>, plan: Plan)
    ensures QualityCycles(plans + [plan]) == QualityCycles(plans) + QualityTasks(plan.definition.tasks)
  {
    assert (plans + [plan])[..|plans|] == plans;
  }

  lemma {:induction false} LatestIsLast(plans: seq<Plan>)
    requires plans != [] && Consecutive(plans)
    ensures Latest(plans) == Some(|plans| - 1)
  {
    var k := Latest(plans).value;
    assert plans[|plans| - 1].definition.version <= plans[k].definition.version;
  }

  lemma {:induction false} EngineeringPlanHasNoQuality(plans: seq<Plan>, k: nat, t: nat)
    requires TasksMatch(plans) && Separate(plans)
    requires k < |plans| && t < |plans[k].tasks| && plans[k].tasks[t].def.role == Engineering
    ensures QualityTasks(plans[k].definition.tasks) == 0
  {
    assert plans[k].definition.tasks[t].role == Engineering;
  }

  lemma {:induction false} OneTaskCount(def: TaskDef)
    ensures QualityTasks([def]) == if def.role == Quality then 1 else 0
  {
    assert [def][..0] == [];
  }

  // The next version is free, and a plan of one task that the bound allows keeps the invariant.
  lemma {:induction false} NextPlanKeepsInv(s: State, def: Definition)
    requires Inv(s) && s.plans != [] && |def.tasks| == 1
    requires def.version == s.plans[|s.plans| - 1].definition.version + 1
    requires QualityCycles(s.plans) < MAX_QUALITY_CYCLES
    ensures FindVersion(s.plans, def.version).None?
    ensures Inv(s.(plans := s.plans + [NewPlan(def)]))
  {
    assert forall i :: 0 <= i < |s.plans| ==> s.plans[i].definition.version < def.version;
    assert def.tasks == [def.tasks[0]];
    OneTaskCount(def.tasks[0]);
    CyclesSnoc(s.plans, NewPlan(def));
  }

  // What a handoff leaves behind: the ledger as it was, or one more plan that continues its last.
  ghost predicate Continues(s: State, t: State, id: string) {
    || t.plans == s.plans
    || (&& |t.plans| == |s.plans| + 1 && t.plans[..|s.plans|] == s.plans && s.plans != []
        && Publishes(s.plans[|s.plans| - 1], id)
        && t.plans[|s.plans|].definition.version == s.plans[|s.plans| - 1].definition.version + 1)
  }

  // Staging the next version on top of the plan that published the artifact.
  lemma {:induction false} StagingContinues(s: State, def: Definition, id: string)
    requires Inv(s) && s.plans != [] && |def.tasks| == 1 && StageOn(s, def).Ok?
    requires def.version == s.plans[|s.plans| - 1].definition.version + 1
    requires QualityCycles(s.plans) < MAX_QUALITY_CYCLES && Publishes(s.plans[|s.plans| - 1], id)
    ensures Inv(StageOn(s, def).value.1) && Continues(s, StageOn(s, def).value.1, id)
  {
    NextPlanKeepsInv(s, def);
    assert StageOn(s, def).value.1.plans == s.plans + [NewPlan(def)];
  }

  // A plan that published ready code is an engineering plan, so the bound leaves room for one more.
  lemma {:induction false} ReadyCodeLeavesRoom(s: State, id: string)
    requires Inv(s) && ReadyCode(s, id) && Latest(s.plans) == FindPublisher(s.plans, id)
    ensures Latest(s.plans) == Some(|s.plans| - 1)
    ensures Publishes(s.plans[|s.plans| - 1], id) && QualityCycles(s.plans) < MAX_QUALITY_CYCLES
  {
    LatestIsLast(s.plans);
    var k := |s.plans| - 1;
    EngineeringPlanHasNoQuality(s.plans, k, PublishingTask(s.plans[k], id));
  }

  // What a successful handoff stages, without its conditions.
  function CodeDefinition(s: State, id: string): Definition
    requires s.plans != []
  {
    var d := s.plans[|s.plans| - 1].definition;
    QualityPlan(d.version + 1, d.cause, id, "validate")
  }

  function RetryDefinition(s: State, codeId: string): Definition
    requires s.plans != []
  {
    var d := s.plans[|s.plans| - 1].definition;
    QualityPlan(d.version + 1, d.cause, codeId, "retry")
  }

  function RepairDefinition(s: State, inputs: seq<string>): Definition
    requires s.plans != []
  {
    var d := s.plans[|s.plans| - 1].definition;
    RepairPlan(d.version + 1, d.cause, inputs)
  }

  lemma {:induction false} CodeStages(s: State, id: string)
    requires Consecutive(s.plans) && DispatchCode(s, id).Ok? && FindDispatched(s.plans, Quality, id).None?
    ensures ReadyCode(s, id) && s.plans != [] && Latest(s.plans) == FindPublisher(s.plans, id)
    ensures StageOn(s, CodeDefinition(s, id)).Ok?
    ensures DispatchCode(s, id).value.1 == StageOn(s, CodeDefinition(s, id)).value.1
  {
    LatestIsLast(s.plans);
  }

  lemma {:induction false} RetryStages(s: State, id: string)
    requires Consecutive(s.plans) && RetryQuality(s, id).Ok?
    ensures ReadyReport(s, id) && s.plans != [] && Latest(s.plans) == FindPublisher(s.plans, id)
    ensures QualityCycles(s.plans) < MAX_QUALITY_CYCLES
    ensures var t, def := s.(run := s.run.(error := false)), RetryDefinition(s, s.artifacts[id].report.codeId);
            StageOn(t, def).Ok? && RetryQuality(s, id).value.1 == StageOn(t, def).value.1
  {
    LatestIsLast(s.plans);
  }

  lemma {:induction false} RepairStages(s: State, id: string, action: NextAction)
    requires Consecutive(s.plans) && RepairQuality(s, id, action).Ok?
    requires RepairQuality(s, id, action).value.1.plans != s.plans
    ensures s.plans != [] && Latest(s.plans) == FindPublisher(s.plans, id)
    ensures QualityCycles(s.plans) < MAX_QUALITY_CYCLES
    ensures ReadyReport(s, id) && ReadyCode(s, s.artifacts[id].report.codeId)
    ensures StageOn(s, RepairDefinition(s, RepairInputs(s, id))).Ok?
    ensures RepairQuality(s, id, action).value.1.plans == StageOn(s, RepairDefinition(s, RepairInputs(s, id))).value.1.plans
  {
    RepairAllowed(s, id, action);
    LatestIsLast(s.plans);
  }

  lemma {:induction false} RepairAllowed(s: State, id: string, action: NextAction)
    requires RepairQuality(s, id, action).Ok? && RepairQuality(s, id, action).value.1.plans != s.plans
    ensures ReadyReport(s, id) && ReadyCode(s, s.artifacts[id].report.codeId)
    ensures Latest(s.plans).Some? && Latest(s.plans) == FindPublisher(s.plans, id) && QualityCycles(s.plans) < MAX_QUALITY_CYCLES
    ensures var d := s.plans[Latest(s.plans).value].definition;
            var staged := StageOn(s, RepairPlan(d.version + 1, d.cause, RepairInputs(s, id)));
            staged.Ok? && RepairQuality(s, id, action).value.1.plans == staged.value.1.plans
  {
  }

  // The same facts for all three handoffs, with the ledger they leave behind.
  ghost predicate StagedBy(s: State, t: State, id: string) {
    && s.plans != [] && Publishes(s.plans[|s.plans| - 1], id)
    && exists u: State, def: Definition ::
         && u.plans == s.plans && |def.tasks| == 1 && def.version == s.plans[|s.plans| - 1].definition.version + 1
         && StageOn(u, def).Ok? && t.plans == StageOn(u, def).value.1.plans
  }

  lemma {:induction false} StagedKeepsInv(s: State, t: State, id: string)
    requires Inv(s) && StagedBy(s, t, id) && QualityCycles(s.plans) < MAX_QUALITY_CYCLES
    ensures Inv(t) && Continues(s, t, id)
  {
    var u: State, def: Definition :|
      && u.plans == s.plans && |def.tasks| == 1 && def.version == s.plans[|s.plans| - 1].definition.version + 1
      && StageOn(u, def).Ok? && t.plans == StageOn(u, def).value.1.plans;
    StagingContinues(u, def, id);
  }

  lemma {:induction false} PublisherIsLast(s: State, id: string)
    requires Consecutive(s.plans) && s.plans != [] && Latest(s.plans) == FindPublisher(s.plans, id)
    ensures Publishes(s.plans[|s.plans| - 1], id)
  {
    LatestIsLast(s.plans);
  }

  lemma {:induction false} HandCodeKeepsInv(s: State, id: string)
    requires Inv(s) && DispatchCode(s, id).Ok?
    ensures Inv(DispatchCode(s, id).value.1) && Continues(s, DispatchCode(s, id).value.1, id)
  {
    var t := DispatchCode(s, id).value.1;
    if t.plans != s.plans {
      CodeStages(s, id);
      ReadyCodeLeavesRoom(s, id);
      StagedKeepsInv(s, t, id);
    } else {
      SamePlansKeepInv(s, t);
    }
  }

  lemma {:induction false} RetryKeepsInv(s: State, id: string)
    requires Inv(s) && RetryQuality(s, id).Ok?
    ensures Inv(RetryQuality(s, id).value.1) && Continues(s, RetryQuality(s, id).value.1, id)
  {
    RetryStages(s, id);
    PublisherIsLast(s, id);
    StagedKeepsInv(s, RetryQuality(s, id).value.1, id);
  }

  lemma {:induction false} RepairKeepsInv(s: State, id: string, action: NextAction)
    requires Inv(s) && RepairQuality(s, id, action).Ok?
    ensures Inv(RepairQuality(s, id, action).value.1) && Continues(s, RepairQuality(s, id, action).value.1, id)
  {
    var t := RepairQuality(s, id, action).value.1;
    if t.plans != s.plans {
      RepairStages(s, id, action);
      PublisherIsLast(s, id);
      StagedKeepsInv(s, t, id);
    } else {
      SamePlansKeepInv(s, t);
    }
  }

  lemma {:induction false} SamePlansKeepInv(s: State, t: State)
    requires Inv(s) && t.plans == s.plans
    ensures Inv(t)
  {
  }

  lemma {:induction false} ApplyKeepsInv(s: State, move: Move)
    requires Inv(s)
    ensures Inv(Apply(s, move)) && Extends(s.plans, Apply(s, move).plans)
  {
    match move
    case HandCode(id) =>
      if DispatchCode(s, id).Ok? {
        HandCodeKeepsInv(s, id);
      }
    case Retry(id) =>
      if RetryQuality(s, id).Ok? {
        RetryKeepsInv(s, id);
      }
    case Repair(id, action) =>
      if RepairQuality(s, id, action).Ok? {
        RepairKeepsInv(s, id, action);
      }
    case Work(after) =>
      WorkKeepsInv(s, after);
  }

  lemma {:induction false} WorkKeepsInv(s: State, after: State)
    requires Inv(s)
    ensures Inv(Apply(s, Work(after))) && Extends(s.plans, Apply(s, Work(after)).plans)
  {
    if SameDefinitions(s, after) {
      SameDefinitionsSameCycles(s.plans, after.plans);
    }
  }

  lemma {:induction false} FreshHasInv(s: State)
    requires Fresh(s)
    ensures Inv(s)
  {
    NoQualityNoCycles(s.plans);
  }

  lemma {:induction false} NoQualityNoCycles(plans: seq<Plan>)
    requires forall i :: 0 <= i < |plans| ==> QualityTasks(plans[i].definition.tasks) == 0
    ensures QualityCycles(plans) == 0
    decreases |plans|
  {
    if plans != [] {
      NoQualityNoCycles(plans[..|plans| - 1]);
    }
  }

  lemma {:induction false} RunKeepsInv(start: State, moves: seq<Move>)
    requires Inv(start)
    ensures Inv(After(start, moves)) && Extends(start.plans, After(start, moves).plans)
    decreases |moves|
  {
    if moves != [] {
      RunKeepsInv(start, moves[..|moves| - 1]);
      ApplyKeepsInv(After(start, moves[..|moves| - 1]), moves[|moves| - 1]);
    }
  }

  // ---------------------------------------------------------------- theorems about whole runs

  /**
   * Whatever the workers publish and however handoffs, retries and repairs are repeated and
   * interleaved, the run never gets more than MAX_QUALITY_CYCLES quality tasks, although the
   * handoff from code to validation does not check the bound itself.
   */
  lemma {:induction false} QualityCyclesAreBounded(start: State, moves: seq<Move>)
    requires Fresh(start)
    ensures QualityCycles(After(start, moves).plans) <= MAX_QUALITY_CYCLES
  {
    FreshHasInv(start);
    RunKeepsInv(start, moves);
  }

  /** No definition is rewritten and every plan has at most one successor, its version plus one. */
  lemma {:induction false} PlansFormOneChain(start: State, moves: seq<Move>)
    requires Fresh(start)
    ensures Extends(start.plans, After(start, moves).plans)
    ensures Consecutive(After(start, moves).plans)
  {
    FreshHasInv(start);
    RunKeepsInv(start, moves);
  }

  // The first plan that hands over an artifact stays the first.
  lemma {:induction false} DispatchStays(a: seq<Plan>, b: seq<Plan>, role: Role, id: string)
    requires Extends(a, b) && FindDispatched(a, role, id).Some?
    ensures FindDispatched(b, role, id) == FindDispatched(a, role, id)
    decreases |b|
  {
    var n := |b| - 1;
    if |a| == |b| {
      SameDispatch(a, b, role, id);
    } else {
      DispatchStays(a, b[..n], role, id);
    }
  }

  lemma {:induction false} SameDispatch(a: seq<Plan>, b: seq<Plan>, role: Role, id: string)
    requires Extends(a, b) && |a| == |b|
    ensures FindDispatched(b, role, id) == FindDispatched(a, role, id)
    decreases |a|
  {
    if a != [] {
      SameDispatch(a[..|a| - 1], b[..|b| - 1], role, id);
    }
  }

  lemma {:induction false} NewPlanIsFirst(plans: seq<Plan>, plan: Plan, role: Role, id: string)
    requires FindDispatched(plans, role, id).None? && Hands(plan, role, id)
    ensures FindDispatched(plans + [plan], role, id) == Some(|plans|)
  {
    assert (plans + [plan])[..|plans|] == plans;
  }

  lemma {:induction false} HandedIsFound(s: State, id: string)
    requires Inv(s) && DispatchCode(s, id).Ok?
    ensures DispatchCode(s, id).value.0.Some?
    ensures FindDispatched(DispatchCode(s, id).value.1.plans, Quality, id) == DispatchCode(s, id).value.0
  {
    if FindDispatched(s.plans, Quality, id).None? {
      ReadyCodeLeavesRoom(s, id);
      var d := s.plans[|s.plans| - 1].definition;
      var def := QualityPlan(d.version + 1, d.cause, id, "validate");
      NextPlanKeepsInv(s, def);
      assert NewPlan(def).definition.tasks[0].role == Quality && id in NewPlan(def).definition.tasks[0].inputs;
      NewPlanIsFirst(s.plans, NewPlan(def), Quality, id);
    }
  }

  /**
   * A code handoff that succeeded is replayed for ever: in every later state it gives back the same
   * plan and changes nothing, unless the code is no longer fit to be handed over at all.
   */
  lemma {:induction false} CodeHandoffIsReplayed(s: State, id: string, moves: seq<Move>)
    requires Inv(s) && DispatchCode(s, id).Ok?
    ensures var (k, t) := DispatchCode(s, id).value;
            var u := After(t, moves);
            DispatchCode(u, id) == if ReadyCode(u, id) then Ok((k, u)) else Err(NotReady)
  {
    var (k, t) := DispatchCode(s, id).value;
    HandCodeKeepsInv(s, id);
    HandedIsFound(s, id);
    RunKeepsInv(t, moves);
    DispatchStays(t.plans, After(t, moves).plans, Quality, id);
  }
}
