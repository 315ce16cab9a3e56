/** What may be registered in the artifact ledger, which inputs each kind takes, and with what reason. */
module LedgerRules {
  import opened Results
  import opened Texts
  import opened AppSpecs
  import opened ConfigurationLedger

  /** The kinds of direct inputs, in order, that an artifact of each kind may have. */
  lemma {:induction false} InputsMean(kind: Kind, ups: seq<Kind>)
    ensures TypesFit(kind, ups) <==>
            match kind
            case AppSpecItem => forall i :: 0 <= i < |ups| ==> ups[i] == AppSpecItem
            case SystemDesignItem => ups != [] && forall i :: 0 <= i < |ups| ==> ups[i] == AppSpecItem
            case TestPlanItem => ups in {[AppSpecItem], [SystemDesignItem]}
            case TestReportItem => ups in {[CodeItem], [CodeItem, TestPlanItem]}
            case CodeItem =>
              exists source :: source in {AppSpecItem, SystemDesignItem}
                && ups in {[source], [source, TestReportItem], [source, TestPlanItem], [source, TestPlanItem, TestReportItem]}
  {
    if kind == CodeItem && TypesFit(kind, ups) {
      var source := ups[0];
      assert ups == [source] || ups == [source, TestReportItem] || ups == [source, TestPlanItem]
             || ups == [source, TestPlanItem, TestReportItem];
    }
    if kind == TestPlanItem && TypesFit(kind, ups) {
      assert ups == [ups[0]];
    }
    if kind == TestReportItem && TypesFit(kind, ups) {
      assert ups == [CodeItem] || ups == [CodeItem, TestPlanItem];
    }
  }

  // The run is alive and holds the project's slot.
  predicate Producing(run: Run) {
    run.status == "running" && run.activeSlot == Some(1)
  }

  // The ids of the unusable inputs, in their order.
  ghost function BadInputs(ups: seq<Row>): seq<string> {
    if ups == [] then [] else (if ups[0].state == Unusable then [ups[0].id] else []) + BadInputs(ups[1..])
  }

  lemma {:induction false} BadInputsSnoc(ups: seq<Row>, row: Row)
    ensures BadInputs(ups + [row]) == BadInputs(ups) + if row.state == Unusable then [row.id] else []
  {
    if ups == [] {
      assert [row][1..] == [] && [] + [row] == [row];
    } else {
      BadInputsSnoc(ups[1..], row);
      assert (ups + [row])[1..] == ups[1..] + [row];
    }
  }

  lemma {:induction false} UnusableAreBad(ups: seq<Row>)
    ensures UnusableIds(ups) == BadInputs(ups)
    decreases |ups|
  {
    if ups != [] {
      var n := |ups| - 1;
      UnusableAreBad(ups[..n]);
      BadInputsSnoc(ups[..n], ups[n]);
      assert ups == ups[..n] + [ups[n]];
    }
  }

  // The first five ids, and how many more there are.
  ghost function BadInputsText(ids: seq<string>): string {
    "upstream_unusable:" + JoinWith(if |ids| > 5 then ids[..5] else ids, ",") + if |ids| > 5 then ":+" + Decimal(|ids| - 5) else ""
  }

  /** The reason names the run's state, the unusable inputs, or both; there is none when all is well. */
  lemma {:induction false} ReasonMeans(run: Run, ups: seq<Row>)
    ensures var ids := BadInputs(ups);
            UnusableReason(run, ups) ==
            if Producing(run) then (if ids == [] then None else Some(BadInputsText(ids)))
            else if ids == [] then Some("producer_run_not_eligible:" + run.status)
            else Some("producer_run_not_eligible:" + run.status + ";" + BadInputsText(ids))
  {
    UnusableAreBad(ups);
    var ids := BadInputs(ups);
    assert UpstreamReason(ids) == BadInputsText(ids);
    var a := "producer_run_not_eligible:" + run.status;
    Joined(a, BadInputsText(ids));
    var first := if RunEligible(run) then [] else [a];
    var second := if ids == [] then [] else [BadInputsText(ids)];
    assert UnusableReason(run, ups) == if first + second == [] then None else Some(JoinWith(first + second, ";"));
  }

  lemma {:induction false} Joined(a: string, b: string)
    ensures JoinWith([a] + [b], ";") == a + ";" + b && JoinWith([a] + [], ";") == a && JoinWith([] + [b], ";") == b
  {
    assert [a] + [b] == [a, b] && [a] + [] == [a] && [] + [b] == [b];
    assert [a, b][1..] == [b];
  }

  // The submission is in form: at most 50 different input ids of 1 to 40 characters.
  ghost predicate InForm(sub: Submission) {
    && sub.schemaVersion >= 1 && |sub.upstream| <= 50
    && (forall i :: 0 <= i < |sub.upstream| ==> 1 <= |Strip(sub.upstream[i])| <= 40)
    && (forall i, j :: 0 <= i < j < |sub.upstream| ==> Strip(sub.upstream[i]) != Strip(sub.upstream[j]))
  }

  ghost predicate Registered(rows: seq<Row>, projectId: int, id: string) {
    exists i :: 0 <= i < |rows| && rows[i].projectId == projectId && rows[i].id == id
  }

  lemma {:induction false} RegisteredIff(rows: seq<Row>, projectId: int, id: string)
    ensures Find(rows, projectId, id).Some? <==> Registered(rows, projectId, id)
  {
  }

  lemma {:induction false} InFormIff(sub: Submission)
    ensures WellFormed(sub) <==> InForm(sub)
  {
    if WellFormed(sub) {
      forall i, j | 0 <= i < j < |sub.upstream|
        ensures Strip(sub.upstream[i]) != Strip(sub.upstream[j])
      {
        assert Stripped(sub.upstream)[i] != Stripped(sub.upstream)[j];
      }
    }
  }

  /**
   * An artifact is registered exactly when project and run belong together, the submission is in form,
   * every input is registered in the project and of a kind that fits, and its own id is new.
   */
  lemma {:induction false} StagedMeans(s: State, projectId: int, runId: string, sub: Submission, token: string, now: nat)
    ensures StageOn(s, projectId, runId, sub, token, now).Ok? <==>
            && projectId in s.projects && InForm(sub) && runId in s.runs && s.runs[runId].projectId == projectId
            && (forall i :: 0 <= i < |sub.upstream| ==> Registered(s.rows, projectId, Strip(sub.upstream[i])))
            && AllFound(s.rows, projectId, Stripped(sub.upstream))
            && TypesFit(sub.kind, Kinds(Load(s.rows, projectId, Stripped(sub.upstream))))
            && sub.payload.Some? && forall i :: 0 <= i < |s.rows| ==> s.rows[i].id != token
  {
    InFormIff(sub);
    forall i | 0 <= i < |sub.upstream|
      ensures Find(s.rows, projectId, Stripped(sub.upstream)[i]).Some? <==> Registered(s.rows, projectId, Strip(sub.upstream[i]))
    {
      RegisteredIff(s.rows, projectId, Strip(sub.upstream[i]));
    }
  }

  // The highest version so far plus one.
  ghost predicate IsNextVersion(rows: seq<Row>, projectId: int, kind: Kind, version: nat) {
    && version >= 1
    && (forall i :: 0 <= i < |rows| && rows[i].projectId == projectId && rows[i].kind == kind ==> rows[i].version < version)
    && (version == 1 || exists i :: 0 <= i < |rows| && rows[i].projectId == projectId && rows[i].kind == kind && rows[i].version == version - 1)
  }

  lemma {:induction false} HighestIs(rows: seq<Row>, projectId: int, kind: Kind)
    ensures IsNextVersion(rows, projectId, kind, HighestVersion(rows, projectId, kind) + 1)
    decreases |rows|
  {
    if rows != [] {
      var n := |rows| - 1;
      HighestIs(rows[..n], projectId, kind);
      var v := HighestVersion(rows[..n], projectId, kind);
      if v > 0 {
        var i :| 0 <= i < n && rows[..n][i].projectId == projectId && rows[..n][i].kind == kind && rows[..n][i].version == v;
        assert rows[i].version == v;
      }
      forall i | 0 <= i < |rows| && rows[i].projectId == projectId && rows[i].kind == kind
        ensures rows[i].version < HighestVersion(rows, projectId, kind) + 1
      {
        if i < n {
          assert rows[..n][i] == rows[i];
        }
      }
    }
  }

  /** The new row has exactly what was submitted, the next version of its kind, and its reason from birth. */
  lemma {:induction false} RowMeans(s: State, projectId: int, runId: string, sub: Submission, token: string, now: nat)
    requires StageOn(s, projectId, runId, sub, token, now).Ok?
    ensures var row := StageOn(s, projectId, runId, sub, token, now).value;
            && row.id == token && row.projectId == projectId && row.runId == runId && row.kind == sub.kind
            && row.schemaVersion == sub.schemaVersion && Some(row.payload) == sub.payload
            && |row.upstream| == |sub.upstream| && (forall i :: 0 <= i < |sub.upstream| ==> row.upstream[i] == Strip(sub.upstream[i]))
            && IsNextVersion(s.rows, projectId, sub.kind, row.version)
            && row.reason == UnusableReason(s.runs[runId], Load(s.rows, projectId, row.upstream))
            && row.state == (if row.reason.Some? then Unusable else Usable) && row.at == (if row.reason.Some? then Some(now) else None)
  {
    HighestIs(s.rows, projectId, sub.kind);
  }
}
