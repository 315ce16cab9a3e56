/**
 * When a run passes from code to validation, from a blocked report to another validation, or from a
 * failed report to a repair, and what plan it then opens: said of the rows themselves.  The handoffs
 * of PlanLedger do exactly this, and a run gets at most three quality tasks.
 */
module QualityHandoffs {
  import opened Results
  import opened PlanLedger

  // Task t of plan k published the artifact; both have succeeded, and the task is of this role.
  ghost predicate MadeBy(s: State, id: string, role: Role, k: int, t: int) {
    && 0 <= k < |s.plans| && 0 <= t < |s.plans[k].tasks|
    && s.plans[k].tasks[t].result == Some(id) && s.plans[k].tasks[t].def.role == role
    && s.plans[k].tasks[t].status == Succeeded && s.plans[k].status == Succeeded
  }

  // An artifact is published by one task, as the foreign keys of the result rows make it.
  ghost predicate OnePublisher(s: State, id: string) {
    forall k, t, j, u :: Publishing(s, id, k, t) && Publishing(s, id, j, u) ==> k == j && t == u
  }

  ghost predicate Publishing(s: State, id: string, k: int, t: int) {
    0 <= k < |s.plans| && 0 <= t < |s.plans[k].tasks| && s.plans[k].tasks[t].result == Some(id)
  }

  ghost predicate CodeFit(s: State, id: string, k: int) {
    && id in s.artifacts && s.artifacts[id].Code? && s.artifacts[id].usable && 1 <= |s.artifacts[id].upstream| <= 3
    && exists t :: MadeBy(s, id, Engineering, k, t)
  }

  ghost predicate ReportFit(s: State, id: string, k: int) {
    && id in s.artifacts && s.artifacts[id].TestReport? && s.artifacts[id].usable
    && exists t :: MadeBy(s, id, Quality, k, t)
  }

  // No plan of the run has a higher version.
  ghost predicate Newest(plans: seq<Plan>, k: int) {
    0 <= k < |plans| && forall i :: 0 <= i < |plans| ==> plans[i].definition.version <= plans[k].definition.version
  }

  // Some plan has a task of this role with the artifact among its inputs.
  ghost predicate HandedAt(plans: seq<Plan>, role: Role, id: string, k: int) {
    && 0 <= k < |plans|
    && exists t :: 0 <= t < |plans[k].definition.tasks| && plans[k].definition.tasks[t].role == role
         && id in plans[k].definition.tasks[t].inputs
  }

  ghost predicate FirstHanded(plans: seq<Plan>, role: Role, id: string, k: int) {
    HandedAt(plans, role, id, k) && forall j :: 0 <= j < k ==> !HandedAt(plans, role, id, j)
  }

  ghost predicate NeverHanded(plans: seq<Plan>, role: Role, id: string) {
    forall k :: !HandedAt(plans, role, id, k)
  }

  // The run stands in this stage and holds the project's slot.
  ghost predicate StandsIn(run: Run, stage: string) {
    run.status == "running" && run.stage == stage && run.activeSlot == Some(1)
  }

  // The new plan goes back to the user message that caused this one.
  ghost predicate CauseStands(s: State, k: int)
    requires 0 <= k < |s.plans|
  {
    s.plans[k].definition.cause in s.messages && s.messages[s.plans[k].definition.cause]
  }

  // The ledger with one more plan: the next version, the same cause, one open task.
  ghost predicate Followed(s: State, t: State, k: int, task: TaskDef)
    requires 0 <= k < |s.plans|
  {
    var d := s.plans[k].definition;
    t.plans == s.plans + [Plan(Definition(d.version + 1, d.cause, [task]), Pending, [Task(task, Pending, None)])]
    && t.artifacts == s.artifacts && t.messages == s.messages
  }

  // All quality tasks of the run, by plan and place.
  ghost function QualityPlaces(plans: seq<Plan>): set<(int, int)> {
    set k, t | 0 <= k < |plans| && 0 <= t < |plans[k].definition.tasks| && plans[k].definition.tasks[t].role == Quality :: (k, t)
  }

  // ---------------------------------------------------------------- the lookups

  lemma {:induction false} PublisherFound(s: State, id: string, k: nat, t: nat)
    requires OnePublisher(s, id) && k < |s.plans| && t < |s.plans[k].tasks| && s.plans[k].tasks[t].result == Some(id)
    ensures FindPublisher(s.plans, id) == Some(k) && PublishingTask(s.plans[k], id) == t
  {
    assert Publishes(s.plans[k], id);
    SomePublisher(s.plans, id, k);
    var j := FindPublisher(s.plans, id).value;
    var u :| 0 <= u < |s.plans[j].tasks| && s.plans[j].tasks[u].result == Some(id);
    assert Publishing(s, id, k, t) && Publishing(s, id, j, u) && Publishing(s, id, k, PublishingTask(s.plans[k], id));
  }

  lemma {:induction false} SomePublisher(plans: seq<Plan>, id: string, k: nat)
    requires k < |plans| && Publishes(plans[k], id)
    ensures FindPublisher(plans, id).Some?
    decreases |plans|
  {
    if k < |plans| - 1 {
      SomePublisher(plans[..|plans| - 1], id, k);
    }
  }

  lemma {:induction false} CodeFitIff(s: State, id: string, k: nat)
    requires OnePublisher(s, id)
    ensures CodeFit(s, id, k) <==> ReadyCode(s, id) && FindPublisher(s.plans, id) == Some(k)
  {
    if CodeFit(s, id, k) {
      var t :| MadeBy(s, id, Engineering, k, t);
      PublisherFound(s, id, k, t);
    }
    if ReadyCode(s, id) && FindPublisher(s.plans, id) == Some(k) {
      assert MadeBy(s, id, Engineering, k, PublishingTask(s.plans[k], id));
    }
  }

  lemma {:induction false} ReportFitIff(s: State, id: string, k: nat)
    requires OnePublisher(s, id)
    ensures ReportFit(s, id, k) <==> ReadyReport(s, id) && FindPublisher(s.plans, id) == Some(k)
  {
    if ReportFit(s, id, k) {
      var t :| MadeBy(s, id, Quality, k, t);
      PublisherFound(s, id, k, t);
    }
    if ReadyReport(s, id) && FindPublisher(s.plans, id) == Some(k) {
      assert MadeBy(s, id, Quality, k, PublishingTask(s.plans[k], id));
    }
  }

  lemma {:induction false} NewestIff(plans: seq<Plan>, k: nat)
    requires DistinctVersions(plans)
    ensures Newest(plans, k) <==> Latest(plans) == Some(k)
  {
    if Newest(plans, k) {
      var j := Latest(plans).value;
      assert plans[j].definition.version == plans[k].definition.version;
    }
  }

  lemma {:induction false} HandedIff(plans: seq<Plan>, role: Role, id: string, k: nat)
    ensures FirstHanded(plans, role, id, k) <==> FindDispatched(plans, role, id) == Some(k)
    ensures NeverHanded(plans, role, id) <==> FindDispatched(plans, role, id).None?
    decreases |plans|
  {
    forall j | 0 <= j < |plans|
      ensures HandedAt(plans, role, id, j) <==> Hands(plans[j], role, id)
    {
    }
    if plans != [] {
      var front := plans[..|plans| - 1];
      HandedIff(front, role, id, k);
      forall j | 0 <= j < |front|
        ensures HandedAt(plans, role, id, j) <==> HandedAt(front, role, id, j)
      {
        assert front[j] == plans[j];
      }
      FirstInFront(plans, role, id, k);
    }
  }

  lemma {:induction false} FirstInFront(plans: seq<Plan>, role: Role, id: string, k: nat)
    requires plans != []
    requires var front := plans[..|plans| - 1];
             && (forall j :: 0 <= j < |front| ==> (HandedAt(plans, role, id, j) <==> HandedAt(front, role, id, j)))
             && (FirstHanded(front, role, id, k) <==> FindDispatched(front, role, id) == Some(k))
             && (NeverHanded(front, role, id) <==> FindDispatched(front, role, id).None?)
    requires forall j :: 0 <= j < |plans| ==> (HandedAt(plans, role, id, j) <==> Hands(plans[j], role, id))
    ensures FirstHanded(plans, role, id, k) <==> FindDispatched(plans, role, id) == Some(k)
    ensures NeverHanded(plans, role, id) <==> FindDispatched(plans, role, id).None?
  {
    var n := |plans| - 1;
    var front, found := plans[..n], FindDispatched(plans[..n], role, id);
    if found.Some? {
      assert Hands(front[found.value], role, id) && HandedAt(plans, role, id, found.value);
      assert FirstHanded(plans, role, id, k) ==> k < n;
    } else {
      assert forall j :: 0 <= j < n ==> !HandedAt(front, role, id, j);
    }
  }

  lemma {:induction false} PlacesCounted(plans: seq<Plan>)
    ensures QualityCycles(plans) == |QualityPlaces(plans)|
    decreases |plans|
  {
    if plans == [] {
      assert QualityPlaces(plans) == {};
    } else {
      var n := |plans| - 1;
      PlacesCounted(plans[..n]);
      var tasks := plans[n].definition.tasks;
      var last := PlacesIn(tasks, n);
      TasksCounted(tasks, n);
      assert QualityPlaces(plans) == QualityPlaces(plans[..n]) + last;
      assert QualityPlaces(plans[..n]) !! last;
    }
  }

  ghost function PlacesIn(tasks: seq<TaskDef>, k: int): set<(int, int)> {
    set t | 0 <= t < |tasks| && tasks[t].role == Quality :: (k, t)
  }

  lemma {:induction false} TasksCounted(tasks: seq<TaskDef>, k: int)
    ensures QualityTasks(tasks) == |PlacesIn(tasks, k)|
    decreases |tasks|
  {
    if tasks == [] {
      assert PlacesIn(tasks, k) == {};
    } else {
      var n := |tasks| - 1;
      TasksCounted(tasks[..n], k);
      assert PlacesIn(tasks, k) == PlacesIn(tasks[..n], k) + if tasks[n].role == Quality then {(k, n)} else {};
    }
  }

  // ---------------------------------------------------------------- staging the next plan

  lemma {:induction false} NextPlanStaged(s: State, k: nat, task: TaskDef)
    requires Newest(s.plans, k) && StandsInSomeStage(s.run)
    requires forall i :: 0 <= i < |task.inputs| ==> task.inputs[i] in s.artifacts && s.artifacts[task.inputs[i]].usable
    ensures var d := s.plans[k].definition;
            var staged := StageOn(s, Definition(d.version + 1, d.cause, [task]));
            && (staged.Ok? <==> CauseStands(s, k))
            && (staged.Ok? ==> staged.value.0 == |s.plans| && Followed(s, staged.value.1, k, task) && staged.value.1.run == s.run)
  {
    var d := s.plans[k].definition;
    var def := Definition(d.version + 1, d.cause, [task]);
    assert FindVersion(s.plans, def.version).None?;
    assert NewTasks(def.tasks) == [Task(task, Pending, None)];
  }

  ghost predicate StandsInSomeStage(run: Run) {
    run.status == "running" && run.activeSlot == Some(1)
  }

  // ---------------------------------------------------------------- code to validation

  // Plan k published this code, is the newest, and nobody validates the code yet.
  ghost predicate ValidationIsNext(s: State, id: string, k: int) {
    && CodeFit(s, id, k) && Newest(s.plans, k) && NeverHanded(s.plans, Quality, id)
    && StandsIn(s.run, "developer") && CauseStands(s, k)
  }

  /**
   * Fit code is handed to validation once: the first time a plan with one quality task on exactly this
   * code follows the plan that published it, and from then on that plan is given back unchanged.
   */
  lemma {:induction false} CodeHandoffMeans(s: State, id: string, k: nat)
    requires OnePublisher(s, id) && DistinctVersions(s.plans) && CodeFit(s, id, k)
    ensures var r := DispatchCode(s, id);
            && (forall j: nat :: FirstHanded(s.plans, Quality, id, j) ==> r == Ok((Some(j), s)))
            && (NeverHanded(s.plans, Quality, id) ==>
                  && (r.Ok? <==> ValidationIsNext(s, id, k))
                  && (r.Ok? ==> r.value.0 == Some(|s.plans|) && r.value.1.run == s.run
                                && Followed(s, r.value.1, k, TaskDef(Quality, [id], "validate"))))
  {
    CodeFitIff(s, id, k);
    NewestIff(s.plans, k);
    HandedIff(s.plans, Quality, id, k);
    forall j: nat
      ensures FirstHanded(s.plans, Quality, id, j) <==> FindDispatched(s.plans, Quality, id) == Some(j)
    {
      HandedIff(s.plans, Quality, id, j);
    }
    if Newest(s.plans, k) && StandsIn(s.run, "developer") {
      NextPlanStaged(s, k, TaskDef(Quality, [id], "validate"));
    }
  }

  /** And code that no succeeded engineering task has published in usable form is handed to nobody. */
  lemma {:induction false} UnfitCodeIsRefused(s: State, id: string)
    requires OnePublisher(s, id) && forall k :: !CodeFit(s, id, k)
    ensures DispatchCode(s, id) == Err(NotReady)
  {
    if ReadyCode(s, id) {
      CodeFitIff(s, id, FindPublisher(s.plans, id).value);
    }
  }

  // ---------------------------------------------------------------- validating again

  // Plan k published a report that blames missing evidence, on code that is still fit.
  ghost predicate RetryIsNext(s: State, id: string, k: int) {
    && ReportFit(s, id, k) && Newest(s.plans, k) && StandsIn(s.run, "qa") && CauseStands(s, k)
    && var report := s.artifacts[id].report;
       && report.conclusion == BlockedByEvidence && !report.challenged && report.samePlan
       && (exists j: nat :: CodeFit(s, report.codeId, j)) && |QualityPlaces(s.plans)| < 3
  }

  lemma {:induction false} SomeCodeFitIff(s: State, id: string)
    requires OnePublisher(s, id)
    ensures (exists j: nat :: CodeFit(s, id, j)) <==> ReadyCode(s, id)
  {
    if j: nat :| CodeFit(s, id, j) {
      CodeFitIff(s, id, j);
    }
    if ReadyCode(s, id) {
      CodeFitIff(s, id, FindPublisher(s.plans, id).value);
    }
  }

  /**
   * A validation is repeated exactly for an unchallenged block of the newest plan, at most until there
   * are three, and on the very code of the report.
   */
  lemma {:induction false} RetryMeans(s: State, id: string, k: nat)
    requires OnePublisher(s, id) && DistinctVersions(s.plans) && ReportFit(s, id, k)
    requires OnePublisher(s, s.artifacts[id].report.codeId)
    ensures var r, code := RetryQuality(s, id), s.artifacts[id].report.codeId;
            && (r.Ok? <==> RetryIsNext(s, id, k))
            && (r.Ok? ==> r.value.0 == Some(|s.plans|) && r.value.1.run == s.run.(error := false)
                          && Followed(s, r.value.1, k, TaskDef(Quality, [code], "retry")))
  {
    var report := s.artifacts[id].report;
    ReportFitIff(s, id, k);
    NewestIff(s.plans, k);
    SomeCodeFitIff(s, report.codeId);
    PlacesCounted(s.plans);
    if Newest(s.plans, k) && StandsIn(s.run, "qa") && ReadyCode(s, report.codeId) {
      NextPlanStaged(s.(run := s.run.(error := false)), k, TaskDef(Quality, [report.codeId], "retry"));
    }
  }

  // ---------------------------------------------------------------- repairing

  // The report of plan k failed on the code it was made for, and the run still waits for an answer.
  ghost predicate RepairIsDue(s: State, id: string, k: int) {
    && ReportFit(s, id, k) && Newest(s.plans, k) && StandsIn(s.run, "qa")
    && 1 <= |s.artifacts[id].upstream| <= 2
    && var report := s.artifacts[id].report;
       && report.conclusion != Passed && report.samePlan && s.artifacts[id].upstream[0] == report.codeId
       && (exists j: nat :: CodeFit(s, report.codeId, j))
  }

  // What a repair works from: the source of the code, its acceptance test plan if it has one, the report.
  ghost predicate RepairsFrom(s: State, id: string, inputs: seq<string>)
    requires id in s.artifacts && s.artifacts[id].TestReport?
  {
    var codeId := s.artifacts[id].report.codeId;
    && codeId in s.artifacts && s.artifacts[codeId].Code? && s.artifacts[codeId].upstream != []
    && var ups := s.artifacts[codeId].upstream;
       if |ups| > 1 && ups[1] in s.artifacts && s.artifacts[ups[1]].TestPlan? then inputs == [ups[0], ups[1], id]
       else inputs == [ups[0], id]
  }

  ghost predicate AllUsable(s: State, inputs: seq<string>) {
    forall i :: 0 <= i < |inputs| ==> inputs[i] in s.artifacts && s.artifacts[inputs[i]].usable
  }

  lemma {:induction false} RepairDueIff(s: State, id: string, k: nat)
    requires OnePublisher(s, id) && DistinctVersions(s.plans) && ReportFit(s, id, k)
    requires OnePublisher(s, s.artifacts[id].report.codeId)
    ensures ReadyReport(s, id) && FindPublisher(s.plans, id) == Some(k)
    ensures RepairIsDue(s, id, k) <==>
            && Latest(s.plans) == Some(k) && InRun(s.run, "qa") && 1 <= |s.artifacts[id].upstream| <= 2
            && var report := s.artifacts[id].report;
               report.conclusion != Passed && report.samePlan && s.artifacts[id].upstream[0] == report.codeId
               && ReadyCode(s, report.codeId)
  {
    ReportFitIff(s, id, k);
    NewestIff(s.plans, k);
    SomeCodeFitIff(s, s.artifacts[id].report.codeId);
  }

  /**
   * A failed report gets one answer.  If a repair was handed out already, that one; otherwise, when it
   * is due: after three validations the run ends as failed and frees its slot, an answer other than a
   * repair only marks the run, and a repair opens one engineering task on source, test plan and report.
   */
  lemma {:induction false} RepairMeans(s: State, id: string, k: nat, action: NextAction)
    requires OnePublisher(s, id) && DistinctVersions(s.plans) && RepairIsDue(s, id, k)
    requires OnePublisher(s, s.artifacts[id].report.codeId) && NeverHanded(s.plans, Engineering, id)
    ensures var r := RepairQuality(s, id, action);
            && (|QualityPlaces(s.plans)| >= 3 ==>
                  r == Ok((None, s.(run := Run("failed", s.run.stage, None, true)))))
            && (|QualityPlaces(s.plans)| < 3 && action != DispatchCodeEngineer ==>
                  r == Ok((None, s.(run := s.run.(error := true)))))
  {
    RepairDueIff(s, id, k);
    HandedIff(s.plans, Engineering, id, 0);
    PlacesCounted(s.plans);
  }

  lemma {:induction false} RepairOpens(s: State, id: string, k: nat, inputs: seq<string>)
    requires OnePublisher(s, id) && DistinctVersions(s.plans) && RepairIsDue(s, id, k)
    requires OnePublisher(s, s.artifacts[id].report.codeId) && NeverHanded(s.plans, Engineering, id)
    requires |QualityPlaces(s.plans)| < 3 && RepairsFrom(s, id, inputs) && AllUsable(s, inputs)
    ensures var r := RepairQuality(s, id, DispatchCodeEngineer);
            && (r.Ok? <==> CauseStands(s, k))
            && (r.Ok? ==> r.value.0 == Some(|s.plans|) && r.value.1.run == s.run.(error := false)
                          && Followed(s, r.value.1, k, TaskDef(Engineering, inputs, "repair")))
  {
    RepairDueIff(s, id, k);
    HandedIff(s.plans, Engineering, id, 0);
    PlacesCounted(s.plans);
    InputsAre(s, id, inputs);
    NextPlanStaged(s, k, TaskDef(Engineering, inputs, "repair"));
  }

  lemma {:induction false} InputsAre(s: State, id: string, inputs: seq<string>)
    requires ReadyReport(s, id) && ReadyCode(s, s.artifacts[id].report.codeId) && RepairsFrom(s, id, inputs)
    ensures RepairInputs(s, id) == inputs
  {
  }

  /** A report that is not due is answered by the earlier repair, by nothing in an ended run, or refused. */
  lemma {:induction false} RepairNotDue(s: State, id: string, k: nat, action: NextAction)
    requires OnePublisher(s, id) && DistinctVersions(s.plans) && ReportFit(s, id, k) && 1 <= |s.artifacts[id].upstream| <= 2
    requires OnePublisher(s, s.artifacts[id].report.codeId)
    ensures var r := RepairQuality(s, id, action);
            && (forall j: nat :: FirstHanded(s.plans, Engineering, id, j) ==> r == Ok((Some(j), s)))
            && (NeverHanded(s.plans, Engineering, id) ==>
                  && (s.run.status in {"failed", "cancelled", "succeeded"} ==> r == Ok((None, s)))
                  && (s.run.status !in {"failed", "cancelled", "succeeded"} ==> RepairIsDue(s, id, k) || r.Err?))
  {
    RepairDueIff(s, id, k);
    HandedIff(s.plans, Engineering, id, 0);
    forall j: nat
      ensures FirstHanded(s.plans, Engineering, id, j) <==> FindDispatched(s.plans, Engineering, id) == Some(j)
    {
      HandedIff(s.plans, Engineering, id, j);
    }
  }

  // ---------------------------------------------------------------- staging and the bound

  /** A plan under a new version is stored exactly for a live run, a user message and usable inputs. */
  lemma {:induction false} StagedIff(s: State, def: Definition)
    requires forall i :: 0 <= i < |s.plans| ==> s.plans[i].definition.version != def.version
    ensures StageOn(s, def).Ok? <==>
            && (s.run.status == "queued" || s.run.status == "running") && s.run.activeSlot == Some(1)
            && def.cause in s.messages && s.messages[def.cause]
            && forall t, i :: 0 <= t < |def.tasks| && 0 <= i < |def.tasks[t].inputs| ==>
                 def.tasks[t].inputs[i] in s.artifacts && s.artifacts[def.tasks[t].inputs[i]].usable
    ensures StageOn(s, def).Ok? ==>
              StageOn(s, def).value.0 == |s.plans|
              && StageOn(s, def).value.1 == s.(plans := s.plans + [Plan(def, Pending, NewTasks(def.tasks))])
  {
    assert FindVersion(s.plans, def.version).None?;
  }

  /** Over all runs there are never more than three quality tasks. */
  lemma {:induction false} AtMostThreeValidations(start: State, moves: seq<Move>)
    requires Fresh(start)
    ensures |QualityPlaces(After(start, moves).plans)| <= 3
  {
    QualityCyclesAreBounded(start, moves);
    PlacesCounted(After(start, moves).plans);
  }
}
