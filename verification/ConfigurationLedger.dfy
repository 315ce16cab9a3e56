/**
 * The ledger of formal artifacts, services/configuration_manager.py and
 * models/configuration_item.py.
 *
 * Ledger is the table with its updates in place, one transaction per method.  The theorems are
 * about every sequence of stagings, markings and guarded row updates.
 */
module ConfigurationLedger {
  import opened Results
  import opened Texts
  import opened AppSpecs

  datatype Kind = AppSpecItem | SystemDesignItem | TestPlanItem | CodeItem | TestReportItem

  datatype Lifecycle = Usable | Unusable

  datatype Row = Row(
    id: string, projectId: int, runId: string, kind: Kind, version: nat, schemaVersion: int,
    payload: string, upstream: seq<string>,
    state: Lifecycle, reason: Option<string>, at: Option<nat>)

  datatype Run = Run(projectId: int, status: string, activeSlot: Option<int>)

  // `payload` is the canonical JSON text, or None when the payload cannot be written as JSON.
  datatype Submission = Submission(kind: Kind, schemaVersion: int, payload: Option<string>, upstream: seq<string>)

  datatype StageError =
    | ProjectNotFound | InvalidSubmission | RunNotFound | UpstreamNotFound | WrongUpstreamTypes | BadPayload | IdTaken
    | BadReason | RunStillActive

  const MAX_UPSTREAM: nat := 50
  const MAX_ID: nat := 40
  const MAX_REASON: nat := 500
  const MAX_STATUS: nat := 32

  // ---------------------------------------------------------------- staging a new version

  function Stripped(ids: seq<string>): (r: seq<string>)
    ensures |r| == |ids| && forall i :: 0 <= i < |ids| ==> r[i] == Strip(ids[i])
  {
    seq(|ids|, i requires 0 <= i < |ids| => Strip(ids[i]))
  }

  predicate WellFormed(sub: Submission) {
    && sub.schemaVersion >= 1 && |sub.upstream| <= MAX_UPSTREAM
    && (forall i :: 0 <= i < |sub.upstream| ==> 1 <= |Strip(sub.upstream[i])| <= MAX_ID)
    && Distinct(Stripped(sub.upstream))
  }

  function Find(rows: seq<Row>, projectId: int, id: string): (k: Option<nat>)
    ensures k.Some? ==> k.value < |rows| && rows[k.value].id == id && rows[k.value].projectId == projectId
    ensures k.None? ==> forall i :: 0 <= i < |rows| ==> rows[i].id != id || rows[i].projectId != projectId
  {
    if rows == [] then None
    else
      var n := |rows| - 1;
      if rows[n].id == id && rows[n].projectId == projectId then Some(n) else Find(rows[..n], projectId, id)
  }

  predicate AllFound(rows: seq<Row>, projectId: int, ids: seq<string>) {
    forall i :: 0 <= i < |ids| ==> Find(rows, projectId, ids[i]).Some?
  }

  function Load(rows: seq<Row>, projectId: int, ids: seq<string>): (r: seq<Row>)
    requires AllFound(rows, projectId, ids)
    ensures |r| == |ids| && forall i :: 0 <= i < |ids| ==> r[i] in rows && r[i].id == ids[i] && r[i].projectId == projectId
  {
    seq(|ids|, i requires 0 <= i < |ids| => rows[Find(rows, projectId, ids[i]).value])
  }

  function Kinds(rows: seq<Row>): (r: seq<Kind>)
    ensures |r| == |rows| && forall i :: 0 <= i < |rows| ==> r[i] == rows[i].kind
  {
    seq(|rows|, i requires 0 <= i < |rows| => rows[i].kind)
  }

  // Which direct inputs an artifact of each kind may name, in order.
  predicate TypesFit(kind: Kind, ups: seq<Kind>) {
    match kind
    case AppSpecItem => forall i :: 0 <= i < |ups| ==> ups[i] == AppSpecItem
    case CodeItem =>
      if ups == [] || (ups[0] != AppSpecItem && ups[0] != SystemDesignItem) then false
      else if |ups| == 1 then true
      else if |ups| != 2 && |ups| != 3 then false
      else if |ups| == 2 && ups[1] == TestReportItem then true
      else ups[1] == TestPlanItem && (|ups| == 3 ==> ups[2] == TestReportItem)
    case TestPlanItem => |ups| == 1 && (ups[0] == AppSpecItem || ups[0] == SystemDesignItem)
    case TestReportItem =>
      (|ups| == 1 && ups[0] == CodeItem) || (|ups| == 2 && ups[0] == CodeItem && ups[1] == TestPlanItem)
    case SystemDesignItem => ups != [] && forall i :: 0 <= i < |ups| ==> ups[i] == AppSpecItem
  }

  function HighestVersion(rows: seq<Row>, projectId: int, kind: Kind): nat {
    if rows == [] then 0
    else
      var n := |rows| - 1;
      var rest := HighestVersion(rows[..n], projectId, kind);
      if rows[n].projectId == projectId && rows[n].kind == kind && rows[n].version > rest then rows[n].version else rest
  }

  predicate RunEligible(run: Run) {
    run.status == "running" && run.activeSlot == Some(1)
  }

  function UnusableIds(ups: seq<Row>): (ids: seq<string>)
    ensures |ids| <= |ups|
    ensures forall i :: 0 <= i < |ids| ==> exists j :: 0 <= j < |ups| && ups[j].id == ids[i]
    ensures ids == [] <==> forall i :: 0 <= i < |ups| ==> ups[i].state == Usable
  {
    if ups == [] then []
    else
      var n := |ups| - 1;
      UnusableIds(ups[..n]) + if ups[n].state == Unusable then [ups[n].id] else []
  }

  function JoinWith(parts: seq<string>, sep: string): string {
    if parts == [] then "" else if |parts| == 1 then parts[0] else parts[0] + sep + JoinWith(parts[1..], sep)
  }

  // At most five ids are shown; the rest is only counted.
  function UpstreamReason(ids: seq<string>): string {
    var shown := if |ids| <= 5 then ids else ids[..5];
    "upstream_unusable:" + JoinWith(shown, ",") + if |ids| > 5 then ":+" + Decimal(|ids| - |shown|) else ""
  }

  function UnusableReason(run: Run, ups: seq<Row>): Option<string> {
    var a := if RunEligible(run) then [] else ["producer_run_not_eligible:" + run.status];
    var b := if UnusableIds(ups) == [] then [] else [UpstreamReason(UnusableIds(ups))];
    if a + b == [] then None else Some(JoinWith(a + b, ";"))
  }

  datatype State = State(projects: set<int>, runs: map<string, Run>, rows: seq<Row>)

  function StageOn(s: State, projectId: int, runId: string, sub: Submission, token: string, now: nat): Result<Row, StageError> {
    var ids := Stripped(sub.upstream);
    if projectId !in s.projects then Err(ProjectNotFound)
    else if !WellFormed(sub) then Err(InvalidSubmission)
    else if runId !in s.runs || s.runs[runId].projectId != projectId then Err(RunNotFound)
    else if !AllFound(s.rows, projectId, ids) then Err(UpstreamNotFound)
    else
      var ups := Load(s.rows, projectId, ids);
      if !TypesFit(sub.kind, Kinds(ups)) then Err(WrongUpstreamTypes)
      else if sub.payload.None? then Err(BadPayload)
      else if exists i :: 0 <= i < |s.rows| && s.rows[i].id == token then Err(IdTaken)
      else
        var reason := UnusableReason(s.runs[runId], ups);
        Ok(Row(token, projectId, runId, sub.kind, HighestVersion(s.rows, projectId, sub.kind) + 1, sub.schemaVersion,
               sub.payload.value, ids, if reason.Some? then Unusable else Usable, reason,
               if reason.Some? then Some(now) else None))
  }

  // ---------------------------------------------------------------- marking and guarding

  predicate Marks(row: Row, projectId: int, runId: string) {
    row.projectId == projectId && row.runId == runId && row.state == Usable
  }

  function Marked(row: Row, reason: string, now: nat): Row {
    row.(state := Unusable, reason := Some(reason), at := Some(now))
  }

  function MarkRows(rows: seq<Row>, projectId: int, runId: string, reason: string, now: nat): (r: seq<Row>)
    ensures |r| == |rows|
    ensures forall i :: 0 <= i < |rows| ==>
              r[i] == if Marks(rows[i], projectId, runId) then Marked(rows[i], reason, now) else rows[i]
  {
    seq(|rows|, i requires 0 <= i < |rows| => if Marks(rows[i], projectId, runId) then Marked(rows[i], reason, now) else rows[i])
  }

  function MarkError(s: State, projectId: int, runId: string, reason: string): Option<StageError> {
    if !(1 <= |Strip(reason)| <= MAX_REASON) then Some(BadReason)
    else if projectId !in s.projects then Some(ProjectNotFound)
    else if runId !in s.runs || s.runs[runId].projectId != projectId then Some(RunNotFound)
    else if s.runs[runId].status == "queued" || s.runs[runId].status == "running" then Some(RunStillActive)
    else None
  }

  predicate SameContent(before: Row, row: Row) {
    before.(state := row.state, reason := row.reason, at := row.at) == row
  }

  // The listener that runs before every UPDATE of a row.
  predicate GuardAllows(before: Row, row: Row) {
    if !SameContent(before, row) then false
    else if before.state == row.state && before.reason == row.reason && before.at == row.at then true
    else
      var previous := if before.state != row.state then Some(before.state) else None;
      previous == Some(Usable) && row.state == Unusable && row.reason.Some? && row.reason.value != "" && row.at.Some?
  }

  // The only update the guard lets through is from usable to unusable, with reason and time.
  lemma {:induction false} GuardIsOneWay(before: Row, row: Row)
    ensures GuardAllows(before, row) <==>
            || row == before
            || (&& before.state == Usable && row.state == Unusable && row.at.Some? && row.reason.Some? && row.reason.value != ""
                && row == Marked(before, row.reason.value, row.at.value))
  {
  }

  class Ledger {
    var projects: set<int>
    var runs: map<string, Run>
    var rows: seq<Row>

    ghost function View(): State
      reads this
    {
      State(projects, runs, rows)
    }

    constructor ()
      ensures View() == State({}, map[], [])
    {
      projects, runs, rows := {}, map[], [];
    }

    /** Adds the next version of its kind, born unusable when its run or an input is not eligible. */
    method StageConfigurationItem(projectId: int, runId: string, sub: Submission, token: string, now: nat)
      returns (r: Result<Row, StageError>)
      modifies this`rows
      ensures r == StageOn(old(View()), projectId, runId, sub, token, now)
      ensures rows == if r.Ok? then old(rows) + [r.value] else old(rows)
    {
      if projectId !in projects { return Err(ProjectNotFound); }
      if !WellFormed(sub) { return Err(InvalidSubmission); }
      if runId !in runs || runs[runId].projectId != projectId { return Err(RunNotFound); }
      var ids := Stripped(sub.upstream);
      var found := LoadUpstream(projectId, ids);
      if found.None? { return Err(UpstreamNotFound); }
      var ups := found.value;
      if !TypesFit(sub.kind, Kinds(ups)) { return Err(WrongUpstreamTypes); }
      if sub.payload.None? { return Err(BadPayload); }
      if exists i :: 0 <= i < |rows| && rows[i].id == token { return Err(IdTaken); }
      var reason := UnusableReason(runs[runId], ups);
      var version := NextVersion(projectId, sub.kind);
      var row := Row(token, projectId, runId, sub.kind, version, sub.schemaVersion, sub.payload.value, ids,
                     if reason.Some? then Unusable else Usable, reason, if reason.Some? then Some(now) else None);
      rows := rows + [row];
      return Ok(row);
    }

    method LoadUpstream(projectId: int, ids: seq<string>) returns (ups: Option<seq<Row>>)
      ensures ups.Some? <==> AllFound(rows, projectId, ids)
      ensures ups.Some? ==> ups.value == Load(rows, projectId, ids)
    {
      var loaded := [];
      for i := 0 to |ids|
        invariant AllFound(rows, projectId, ids[..i]) && loaded == Load(rows, projectId, ids[..i])
      {
        var k := Find(rows, projectId, ids[i]);
        if k.None? { return None; }
        loaded := loaded + [rows[k.value]];
        assert ids[..i + 1] == ids[..i] + [ids[i]];
      }
      assert ids[..|ids|] == ids;
      return Some(loaded);
    }

    method NextVersion(projectId: int, kind: Kind) returns (version: nat)
      ensures version == HighestVersion(rows, projectId, kind) + 1
    {
      var highest := 0;
      for i := 0 to |rows|
        invariant highest == HighestVersion(rows[..i], projectId, kind)
      {
        assert rows[..i + 1][..i] == rows[..i];
        if rows[i].projectId == projectId && rows[i].kind == kind && rows[i].version > highest {
          highest := rows[i].version;
        }
      }
      assert rows[..|rows|] == rows;
      return highest + 1;
    }

    /** Marks what an ended run produced and returns how many rows it changed. */
    method MarkRunConfigurationItemsUnusable(projectId: int, runId: string, reason: string, now: nat)
      returns (r: Result<nat, StageError>)
      modifies this`rows
      ensures r.Err? <==> MarkError(old(View()), projectId, runId, reason).Some?
      ensures r.Err? ==> rows == old(rows) && MarkError(old(View()), projectId, runId, reason) == Some(r.error)
      ensures r.Ok? ==> rows == MarkRows(old(rows), projectId, runId, Strip(reason), now)
    {
      var normalized := Strip(reason);
      if normalized == "" || |normalized| > MAX_REASON { return Err(BadReason); }
      if projectId !in projects { return Err(ProjectNotFound); }
      if runId !in runs || runs[runId].projectId != projectId { return Err(RunNotFound); }
      if runs[runId].status == "queued" || runs[runId].status == "running" { return Err(RunStillActive); }
      var count := 0;
      ghost var before := rows;
      ghost var after := MarkRows(before, projectId, runId, normalized, now);
      for i := 0 to |rows|
        invariant |rows| == |before| && rows[..i] == after[..i] && rows[i..] == before[i..]
      {
        assert rows[i] == rows[i..][0] == before[i];
        if Marks(rows[i], projectId, runId) {
          rows := rows[i := Marked(rows[i], normalized, now)];
          count := count + 1;
        }
        assert rows[..i + 1] == after[..i + 1];
      }
      assert rows == rows[..|rows|] && after == after[..|after|];
      return Ok(count);
    }
  }

  // ---------------------------------------------------------------- all step sequences

  datatype Move =
    | Stage(projectId: int, runId: string, sub: Submission, token: string, now: nat)
    | Mark(projectId: int, runId: string, reason: string, now: nat)
    | Update(index: nat, row: Row)
    | SetRun(runId: string, run: Run)
    | AddProject(projectId: int)

  // One transaction; a refused one changes nothing.  Any row update has to pass the guard.
  function Apply(s: State, move: Move): State {
    match move
    case Stage(projectId, runId, sub, token, now) =>
      var r := StageOn(s, projectId, runId, sub, token, now);
      if r.Ok? then s.(rows := s.rows + [r.value]) else s
    case Mark(projectId, runId, reason, now) =>
      if MarkError(s, projectId, runId, reason).Some? then s
      else s.(rows := MarkRows(s.rows, projectId, runId, Strip(reason), now))
    case Update(i, row) =>
      if i < |s.rows| && GuardAllows(s.rows[i], row) then s.(rows := s.rows[i := row]) else s
    case SetRun(runId, run) => s.(runs := s.runs[runId := run])
    case AddProject(projectId) => s.(projects := s.projects + {projectId})
  }

  function After(moves: seq<Move>): State
    decreases |moves|
  {
    if moves == [] then State({}, map[], []) else Apply(After(moves[..|moves| - 1]), moves[|moves| - 1])
  }

  // How many of the first n rows are of this project and kind.
  function Count(rows: seq<Row>, n: nat, projectId: int, kind: Kind): nat
    requires n <= |rows|
  {
    if n == 0 then 0
    else Count(rows, n - 1, projectId, kind) + if rows[n - 1].projectId == projectId && rows[n - 1].kind == kind then 1 else 0
  }

  // An earlier row of the same project with this id.
  ghost predicate Earlier(rows: seq<Row>, i: nat, id: string, j: nat)
    requires i < |rows|
  {
    j < i && rows[j].id == id && rows[j].projectId == rows[i].projectId
  }

  ghost predicate HasEarlier(rows: seq<Row>, i: nat, id: string)
    requires i < |rows|
  {
    exists j: nat :: Earlier(rows, i, id, j)
  }

  ghost predicate Linked(rows: seq<Row>, i: nat)
    requires i < |rows|
  {
    && (forall u :: 0 <= u < |rows[i].upstream| ==> HasEarlier(rows, i, rows[i].upstream[u]))
    && exists ups: seq<Row> :: LinkedTo(rows, i, ups)
  }

  // The direct inputs of a row, whose kinds fit it.
  ghost predicate LinkedTo(rows: seq<Row>, i: nat, ups: seq<Row>)
    requires i < |rows|
  {
    && |ups| == |rows[i].upstream| && TypesFit(rows[i].kind, Kinds(ups))
    && forall u :: 0 <= u < |ups| ==> Before(rows, i, ups[u].kind, rows[i].upstream[u])
  }

  ghost predicate Before(rows: seq<Row>, i: nat, kind: Kind, id: string)
    requires i < |rows|
  {
    exists j: nat :: Earlier(rows, i, id, j) && rows[j].kind == kind
  }

  ghost predicate Versioned(rows: seq<Row>, i: nat)
    requires i < |rows|
  {
    rows[i].version == Count(rows, i, rows[i].projectId, rows[i].kind) + 1
  }

  predicate LifecycleFits(row: Row) {
    (row.state == Usable <==> row.reason.None?) && (row.state == Usable <==> row.at.None?)
  }

  ghost predicate DistinctIds(rows: seq<Row>) {
    forall i, j :: 0 <= i < j < |rows| ==> rows[i].id != rows[j].id
  }

  ghost predicate Inv(rows: seq<Row>) {
    && DistinctIds(rows)
    && (forall i :: 0 <= i < |rows| ==> Versioned(rows, i))
    && (forall i :: 0 <= i < |rows| ==> Linked(rows, i))
    && (forall i :: 0 <= i < |rows| ==> LifecycleFits(rows[i]))
  }

  // ---- content never changes

  // Rows are only added, keep their content, and stay unusable once they are.
  ghost predicate Grows(a: seq<Row>, b: seq<Row>) {
    |a| <= |b| && forall i :: 0 <= i < |a| ==> SameContent(a[i], b[i]) && (a[i].state == Unusable ==> b[i] == a[i])
  }

  lemma {:induction false} ApplyGrows(s: State, move: Move)
    ensures Grows(s.rows, Apply(s, move).rows)
  {
    if move.Update? && move.index < |s.rows| && GuardAllows(s.rows[move.index], move.row) {
      GuardIsOneWay(s.rows[move.index], move.row);
    }
  }

  /**
   * Over any sequence of steps the content of a registered row never changes, an unusable row never
   * changes at all, and no row disappears.
   */
  lemma {:induction false} ContentIsImmutable(moves: seq<Move>, i: nat)
    requires i <= |moves|
    ensures Grows(After(moves[..i]).rows, After(moves).rows)
    decreases |moves|
  {
    var n := |moves| - 1;
    if i == |moves| {
      assert moves[..i] == moves;
    } else {
      assert moves[..n][..i] == moves[..i];
      ContentIsImmutable(moves[..n], i);
      ApplyGrows(After(moves[..n]), moves[n]);
    }
  }

  // ---- the invariant

  lemma {:induction false} CountSame(a: seq<Row>, b: seq<Row>, n: nat, projectId: int, kind: Kind)
    requires n <= |a| && n <= |b|
    requires forall i :: 0 <= i < n ==> a[i].projectId == b[i].projectId && a[i].kind == b[i].kind
    ensures Count(a, n, projectId, kind) == Count(b, n, projectId, kind)
  {
    if n > 0 {
      CountSame(a, b, n - 1, projectId, kind);
    }
  }

  lemma {:induction false} GrowsKeepsVersion(a: seq<Row>, b: seq<Row>, i: nat)
    requires Grows(a, b) && i < |a| && Versioned(a, i)
    ensures Versioned(b, i)
  {
    CountSame(a, b, i, a[i].projectId, a[i].kind);
  }

  lemma {:induction false} GrowsKeepsLinks(a: seq<Row>, b: seq<Row>, i: nat)
    requires Grows(a, b) && i < |a| && Linked(a, i)
    ensures Linked(b, i)
  {
    forall u | 0 <= u < |b[i].upstream|
      ensures HasEarlier(b, i, b[i].upstream[u])
    {
      assert HasEarlier(a, i, a[i].upstream[u]);
      var j: nat :| Earlier(a, i, a[i].upstream[u], j);
      assert Earlier(b, i, b[i].upstream[u], j);
    }
    var ups: seq<Row> :| LinkedTo(a, i, ups);
    forall u | 0 <= u < |ups|
      ensures Before(b, i, ups[u].kind, b[i].upstream[u])
    {
      assert Before(a, i, ups[u].kind, a[i].upstream[u]);
      var j: nat :| Earlier(a, i, a[i].upstream[u], j) && a[j].kind == ups[u].kind;
      assert Earlier(b, i, b[i].upstream[u], j) && b[j].kind == ups[u].kind;
    }
    assert LinkedTo(b, i, ups);
  }

  // The highest version counts the rows of its project and kind.
  lemma {:induction false} HighestIsCount(rows: seq<Row>, n: nat, projectId: int, kind: Kind)
    requires n <= |rows| && forall i :: 0 <= i < n ==> Versioned(rows, i)
    ensures HighestVersion(rows[..n], projectId, kind) == Count(rows, n, projectId, kind)
  {
    if n > 0 {
      assert rows[..n][..n - 1] == rows[..n - 1];
      HighestIsCount(rows, n - 1, projectId, kind);
      assert Versioned(rows, n - 1);
    }
  }

  lemma {:induction false} NewRowVersioned(rows: seq<Row>, row: Row)
    requires forall i :: 0 <= i < |rows| ==> Versioned(rows, i)
    requires row.version == HighestVersion(rows, row.projectId, row.kind) + 1
    ensures Versioned(rows + [row], |rows|)
  {
    assert rows[..|rows|] == rows;
    HighestIsCount(rows, |rows|, row.projectId, row.kind);
    CountSame(rows, rows + [row], |rows|, row.projectId, row.kind);
  }

  lemma {:induction false} NewRowLinked(rows: seq<Row>, row: Row)
    requires AllFound(rows, row.projectId, row.upstream)
    requires TypesFit(row.kind, Kinds(Load(rows, row.projectId, row.upstream)))
    ensures Linked(rows + [row], |rows|)
  {
    var all, n := rows + [row], |rows|;
    var ups := Load(rows, row.projectId, row.upstream);
    forall u | 0 <= u < |row.upstream|
      ensures Before(all, n, ups[u].kind, row.upstream[u])
    {
      var j :| 0 <= j < |rows| && rows[j] == ups[u];
      assert all[j] == rows[j];
      assert Earlier(all, n, row.upstream[u], j);
    }
    forall u | 0 <= u < |row.upstream|
      ensures HasEarlier(all, n, row.upstream[u])
    {
      assert Before(all, n, ups[u].kind, row.upstream[u]);
    }
    assert LinkedTo(all, n, ups);
  }

  lemma {:induction false} GrowsKeepsInv(a: seq<Row>, b: seq<Row>)
    requires Inv(a) && Grows(a, b) && |a| == |b|
    requires forall i :: 0 <= i < |b| ==> LifecycleFits(b[i])
    ensures Inv(b)
  {
    forall i | 0 <= i < |b|
      ensures Versioned(b, i) && Linked(b, i)
    {
      GrowsKeepsVersion(a, b, i);
      GrowsKeepsLinks(a, b, i);
    }
  }

  lemma {:induction false} StagingKeepsInv(rows: seq<Row>, row: Row)
    requires Inv(rows) && LifecycleFits(row)
    requires forall i :: 0 <= i < |rows| ==> rows[i].id != row.id
    requires row.version == HighestVersion(rows, row.projectId, row.kind) + 1
    requires AllFound(rows, row.projectId, row.upstream)
    requires TypesFit(row.kind, Kinds(Load(rows, row.projectId, row.upstream)))
    ensures Inv(rows + [row])
  {
    var all := rows + [row];
    NewRowVersioned(rows, row);
    NewRowLinked(rows, row);
    forall i | 0 <= i < |rows|
      ensures Versioned(all, i) && Linked(all, i)
    {
      OldRowStays(rows, row, i);
    }
  }

  lemma {:induction false} OldRowStays(rows: seq<Row>, row: Row, i: nat)
    requires i < |rows| && Versioned(rows, i) && Linked(rows, i)
    ensures Versioned(rows + [row], i) && Linked(rows + [row], i)
  {
    assert Grows(rows, rows + [row]);
    GrowsKeepsVersion(rows, rows + [row], i);
    GrowsKeepsLinks(rows, rows + [row], i);
  }

  // What a staged row was checked for.
  ghost predicate Staged(s: State, row: Row) {
    && LifecycleFits(row) && (forall i :: 0 <= i < |s.rows| ==> s.rows[i].id != row.id)
    && row.version == HighestVersion(s.rows, row.projectId, row.kind) + 1
    && AllFound(s.rows, row.projectId, row.upstream)
    && TypesFit(row.kind, Kinds(Load(s.rows, row.projectId, row.upstream)))
  }

  lemma {:induction false} StageIsStaged(s: State, projectId: int, runId: string, sub: Submission, token: string, now: nat)
    ensures StageOn(s, projectId, runId, sub, token, now).Ok? ==>
              Staged(s, StageOn(s, projectId, runId, sub, token, now).value)
  {
  }

  lemma {:induction false} ApplyKeepsInv(s: State, move: Move)
    requires Inv(s.rows)
    ensures Inv(Apply(s, move).rows)
  {
    ApplyGrows(s, move);
    match move
    case Stage(projectId, runId, sub, token, now) =>
      StageIsStaged(s, projectId, runId, sub, token, now);
      var r := StageOn(s, projectId, runId, sub, token, now);
      if r.Ok? {
        StagingKeepsInv(s.rows, r.value);
      }
    case Mark(_, _, _, _) => GrowsKeepsInv(s.rows, Apply(s, move).rows);
    case Update(i, row) =>
      if i < |s.rows| && GuardAllows(s.rows[i], row) {
        GuardIsOneWay(s.rows[i], row);
      }
      GrowsKeepsInv(s.rows, Apply(s, move).rows);
    case SetRun(_, _) =>
    case AddProject(_) =>
  }

  lemma {:induction false} ReachableHasInv(moves: seq<Move>)
    ensures Inv(After(moves).rows)
    decreases |moves|
  {
    if moves != [] {
      ReachableHasInv(moves[..|moves| - 1]);
      ApplyKeepsInv(After(moves[..|moves| - 1]), moves[|moves| - 1]);
    }
  }

  // ---------------------------------------------------------------- theorems over all step sequences

  ghost predicate HasVersion(rows: seq<Row>, n: nat, projectId: int, kind: Kind, version: int, i: nat)
    requires n <= |rows|
  {
    i < n && rows[i].projectId == projectId && rows[i].kind == kind && rows[i].version == version
  }

  lemma {:induction false} CountGrows(rows: seq<Row>, m: nat, n: nat, projectId: int, kind: Kind)
    requires m <= n <= |rows|
    ensures Count(rows, m, projectId, kind) <= Count(rows, n, projectId, kind)
  {
    if m < n {
      CountGrows(rows, m, n - 1, projectId, kind);
    }
  }

  lemma {:induction false} VersionsBelow(rows: seq<Row>, n: nat, projectId: int, kind: Kind, version: int)
    requires n <= |rows| && forall i :: 0 <= i < |rows| ==> Versioned(rows, i)
    ensures 1 <= version <= Count(rows, n, projectId, kind) <==> exists i: nat :: HasVersion(rows, n, projectId, kind, version, i)
  {
    if n > 0 {
      var m := n - 1;
      VersionsBelow(rows, m, projectId, kind, version);
      assert Versioned(rows, m);
      if i: nat :| HasVersion(rows, m, projectId, kind, version, i) {
        assert HasVersion(rows, n, projectId, kind, version, i);
      }
      if HasVersion(rows, n, projectId, kind, version, m) {
        assert version == Count(rows, n, projectId, kind);
      }
      if version == Count(rows, n, projectId, kind) && Count(rows, m, projectId, kind) < version {
        assert HasVersion(rows, n, projectId, kind, version, m);
      }
      if i: nat :| HasVersion(rows, n, projectId, kind, version, i) && i < m {
        assert HasVersion(rows, m, projectId, kind, version, i);
      }
    }
  }

  /** The versions of each project and kind are exactly 1 to n, each once and rising in row order. */
  lemma {:induction false} VersionsAreConsecutive(moves: seq<Move>, projectId: int, kind: Kind, version: int)
    ensures var rows := After(moves).rows;
            && (1 <= version <= Count(rows, |rows|, projectId, kind) <==>
                  exists i: nat :: HasVersion(rows, |rows|, projectId, kind, version, i))
            && Rising(rows)
  {
    ReachableHasInv(moves);
    VersionsBelow(After(moves).rows, |After(moves).rows|, projectId, kind, version);
    VersionsRise(After(moves).rows);
  }

  // Of two rows of one project and kind the later one has the higher version.
  ghost predicate Rising(rows: seq<Row>) {
    forall i, j :: 0 <= i < j < |rows| && rows[i].projectId == rows[j].projectId && rows[i].kind == rows[j].kind ==>
      rows[i].version < rows[j].version
  }

  lemma {:induction false} VersionsRise(rows: seq<Row>)
    requires forall i :: 0 <= i < |rows| ==> Versioned(rows, i)
    ensures Rising(rows)
  {
    forall i, j | 0 <= i < j < |rows| && rows[i].projectId == rows[j].projectId && rows[i].kind == rows[j].kind
      ensures rows[i].version < rows[j].version
    {
      assert Versioned(rows, i) && Versioned(rows, j);
      CountGrows(rows, i + 1, j, rows[i].projectId, rows[i].kind);
    }
  }

  // Following the first input leads to an app spec in at most n hops.
  ghost predicate RootedIn(rows: seq<Row>, i: nat, n: nat)
    requires i < |rows|
    decreases n
  {
    || rows[i].kind == AppSpecItem
    || (n > 0 && rows[i].upstream != [] && exists j: nat :: Earlier(rows, i, rows[i].upstream[0], j) && RootedIn(rows, j, n - 1))
  }

  function HopsOf(kind: Kind): nat {
    match kind
    case AppSpecItem => 0
    case SystemDesignItem => 1
    case TestPlanItem => 2
    case CodeItem => 2
    case TestReportItem => 3
  }

  lemma {:induction false} FirstInputIsHigher(rows: seq<Row>, i: nat) returns (j: nat)
    requires i < |rows| && Linked(rows, i) && rows[i].kind != AppSpecItem
    ensures rows[i].upstream != [] && Earlier(rows, i, rows[i].upstream[0], j) && HopsOf(rows[j].kind) < HopsOf(rows[i].kind)
  {
    var ups: seq<Row> :| LinkedTo(rows, i, ups);
    var kinds := Kinds(ups);
    assert TypesFit(rows[i].kind, kinds) && |kinds| == |ups| && kinds != [];
    assert kinds[0] == ups[0].kind;
    assert Before(rows, i, ups[0].kind, rows[i].upstream[0]);
    j :| Earlier(rows, i, rows[i].upstream[0], j) && rows[j].kind == ups[0].kind;
  }

  lemma {:induction false} RootedByKind(rows: seq<Row>, i: nat, n: nat)
    requires i < |rows| && (forall k :: 0 <= k < |rows| ==> Linked(rows, k)) && HopsOf(rows[i].kind) <= n
    ensures RootedIn(rows, i, n)
    decreases n
  {
    if rows[i].kind != AppSpecItem {
      assert Linked(rows, i);
      var j := FirstInputIsHigher(rows, i);
      RootedByKind(rows, j, n - 1);
    }
  }

  /**
   * Every link points to an earlier row of the same project, and following the first link from any
   * row reaches an app spec in at most three hops.
   */
  lemma {:induction false} EveryRowIsRooted(moves: seq<Move>, i: nat)
    requires i < |After(moves).rows|
    ensures var rows := After(moves).rows;
            && (forall u :: 0 <= u < |rows[i].upstream| ==> HasEarlier(rows, i, rows[i].upstream[u]))
            && RootedIn(rows, i, 3)
  {
    ReachableHasInv(moves);
    assert Linked(After(moves).rows, i);
    RootedByKind(After(moves).rows, i, 3);
  }

  lemma {:induction false} BornUnusable(s: State, projectId: int, runId: string, sub: Submission, token: string, now: nat)
    requires StageOn(s, projectId, runId, sub, token, now).Ok?
    ensures var row := StageOn(s, projectId, runId, sub, token, now).value;
            && AllFound(s.rows, projectId, row.upstream)
            && (row.state == Unusable <==>
                  || !RunEligible(s.runs[runId])
                  || exists k :: 0 <= k < |row.upstream| && Load(s.rows, projectId, row.upstream)[k].state == Unusable)
  {
    var row := StageOn(s, projectId, runId, sub, token, now).value;
    ReasonIffUnusable(s.runs[runId], Load(s.rows, projectId, row.upstream));
  }

  // The k-th step is the one that staged row i.
  ghost predicate StagedBy(moves: seq<Move>, k: nat, i: nat) {
    k < |moves| && moves[k].Stage? && |After(moves[..k]).rows| == i && |After(moves[..k + 1]).rows| == i + 1
  }

  lemma {:induction false} BirthOf(moves: seq<Move>, i: nat) returns (k: nat)
    requires i < |After(moves).rows|
    ensures StagedBy(moves, k, i)
    decreases |moves|
  {
    var n := |moves| - 1;
    if i < |After(moves[..n]).rows| {
      k := BirthOf(moves[..n], i);
      assert moves[..n][..k] == moves[..k] && moves[..n][..k + 1] == moves[..k + 1];
    } else {
      k := n;
      assert moves[..n + 1] == moves;
    }
  }

  /**
   * Every row of a run was staged by one step of it.  It was born unusable exactly when its run was not
   * eligible at that moment or one of its inputs was unusable then; and a row born unusable is still
   * the same now.
   */
  lemma {:induction false} RowsAreBornByTheRule(moves: seq<Move>, i: nat) returns (k: nat)
    requires i < |After(moves).rows|
    ensures StagedBy(moves, k, i)
    ensures var s, born := After(moves[..k]), After(moves[..k + 1]).rows[i];
            && born.runId in s.runs && AllFound(s.rows, born.projectId, born.upstream)
            && (born.state == Unusable <==>
                  || !RunEligible(s.runs[born.runId])
                  || exists u :: 0 <= u < |born.upstream| && Load(s.rows, born.projectId, born.upstream)[u].state == Unusable)
            && SameContent(born, After(moves).rows[i])
            && (born.state == Unusable ==> After(moves).rows[i] == born)
  {
    k := BirthOf(moves, i);
    var Stage(projectId, runId, sub, token, now) := moves[k];
    assert moves[..k + 1][..k] == moves[..k];
    BornUnusable(After(moves[..k]), projectId, runId, sub, token, now);
    ContentIsImmutable(moves, k + 1);
  }

  lemma {:induction false} ReasonIffUnusable(run: Run, ups: seq<Row>)
    ensures UnusableReason(run, ups).Some? <==> !RunEligible(run) || exists k :: 0 <= k < |ups| && ups[k].state == Unusable
  {
    if UnusableIds(ups) != [] {
      assert !forall i :: 0 <= i < |ups| ==> ups[i].state == Usable;
    }
  }

  lemma {:induction false} JoinedLength(parts: seq<string>, sep: string, max: nat)
    requires forall i :: 0 <= i < |parts| ==> |parts[i]| <= max
    ensures |JoinWith(parts, sep)| <= |parts| * (max + |sep|)
  {
    if |parts| > 1 {
      JoinedLength(parts[1..], sep, max);
      assert |parts| * (max + |sep|) == (max + |sep|) + (|parts| - 1) * (max + |sep|);
    } else if |parts| == 1 {
      assert |parts| * (max + |sep|) == max + |sep|;
    }
  }

  lemma {:induction false} UpstreamReasonLength(ids: seq<string>)
    requires |ids| <= MAX_UPSTREAM && forall i :: 0 <= i < |ids| ==> |ids[i]| <= MAX_ID
    ensures |UpstreamReason(ids)| <= 18 + 205 + 4
  {
    var shown := if |ids| <= 5 then ids else ids[..5];
    JoinedLength(shown, ",", MAX_ID);
    assert |JoinWith(shown, ",")| <= 205 by {
      assert |shown| * (MAX_ID + 1) <= 5 * (MAX_ID + 1);
    }
    assert |Decimal(|ids| - |shown|)| <= 2;
  }

  // Shown ids are capped at five and the rest is counted.
  lemma {:induction false} UnusableReasonLength(run: Run, ups: seq<Row>)
    requires |run.status| <= MAX_STATUS && |ups| <= MAX_UPSTREAM
    requires forall i :: 0 <= i < |ups| ==> |ups[i].id| <= MAX_ID
    ensures UnusableReason(run, ups).Some? ==> |UnusableReason(run, ups).value| <= MAX_REASON
  {
    var ids := UnusableIds(ups);
    UpstreamReasonLength(ids);
    var a := if RunEligible(run) then [] else ["producer_run_not_eligible:" + run.status];
    var b := if ids == [] then [] else [UpstreamReason(ids)];
    if |a + b| > 0 {
      assert forall i :: 0 <= i < |a + b| ==> |(a + b)[i]| <= 227;
      JoinedLength(a + b, ";", 227);
      assert |a + b| * 228 <= 2 * 228;
    }
  }

  // Ids, run statuses and the reason of a direct update fit their columns.
  predicate FitsColumns(move: Move) {
    match move
    case Stage(_, _, _, token, _) => |token| <= MAX_ID
    case Mark(_, _, _, _) => true
    case Update(_, row) => ReasonFits(row)
    case SetRun(_, run) => |run.status| <= MAX_STATUS
    case AddProject(_) => true
  }

  predicate ReasonFits(row: Row) {
    row.reason.Some? ==> |row.reason.value| <= MAX_REASON
  }

  ghost predicate RowsFit(rows: seq<Row>) {
    forall i :: 0 <= i < |rows| ==> |rows[i].id| <= MAX_ID && ReasonFits(rows[i])
  }

  ghost predicate RunsFit(runs: map<string, Run>) {
    forall runId :: runId in runs ==> |runs[runId].status| <= MAX_STATUS
  }

  lemma {:induction false} StagedRowFits(s: State, projectId: int, runId: string, sub: Submission, token: string, now: nat)
    requires RowsFit(s.rows) && RunsFit(s.runs)
    ensures StageOn(s, projectId, runId, sub, token, now).Ok? ==>
              ReasonFits(StageOn(s, projectId, runId, sub, token, now).value)
  {
    if StageOn(s, projectId, runId, sub, token, now).Ok? {
      var ups := Load(s.rows, projectId, Stripped(sub.upstream));
      UnusableReasonLength(s.runs[runId], ups);
    }
  }

  lemma {:induction false} ApplyKeepsFit(s: State, move: Move)
    requires RowsFit(s.rows) && RunsFit(s.runs) && FitsColumns(move)
    ensures RowsFit(Apply(s, move).rows) && RunsFit(Apply(s, move).runs)
  {
    match move
    case Stage(projectId, runId, sub, token, now) => StagedRowFits(s, projectId, runId, sub, token, now);
    case _ =>
  }

  lemma {:induction false} LedgerFits(moves: seq<Move>)
    requires forall k :: 0 <= k < |moves| ==> FitsColumns(moves[k])
    ensures RowsFit(After(moves).rows) && RunsFit(After(moves).runs)
    decreases |moves|
  {
    if moves != [] {
      LedgerFits(moves[..|moves| - 1]);
      ApplyKeepsFit(After(moves[..|moves| - 1]), moves[|moves| - 1]);
    }
  }

  /** Over any run every reason in the ledger fits its column, the generated ones by themselves. */
  lemma {:induction false} GeneratedReasonFits(moves: seq<Move>, i: nat)
    requires (forall k :: 0 <= k < |moves| ==> FitsColumns(moves[k])) && i < |After(moves).rows|
    ensures ReasonFits(After(moves).rows[i])
  {
    LedgerFits(moves);
  }
}
