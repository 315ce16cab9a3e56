/**
 * The lease on a dispatch checkpoint, services/leader_dispatch.py.
 *
 * A store holds the build runs and one checkpoint row per approved item.  Each public operation
 * is one transaction: it holds the run lock and the row lock until it commits or rolls back, so
 * it is one atomic method here.  The clock and the fresh owner token come from the caller.
 */
module LeaderDispatch {
  import opened Results
  import opened ToolLoop

  type RunId = string
  type ItemId = string
  type Owner = string

  datatype BuildRun = BuildRun(status: string, activeSlot: Option<int>, stage: string, paused: bool)

  datatype Frozen = Frozen(context: string, instruction: string, maxTurns: int)

  datatype Checkpoint = Checkpoint(
    runId: RunId,
    frozen: Frozen,
    toolLoop: Progress,
    leaseOwner: Option<Owner>,
    leaseExpires: Option<nat>)

  datatype Conflict = RunNotFound | RunNotEligible | OtherRun | LeaseHeld | DispatchLost

  const EXECUTION_LEASE: nat := 600

  const NO_PROGRESS := Progress(0, [], None)

  predicate Eligible(run: BuildRun) {
    run.status == "running" && run.activeSlot == Some(1) && run.stage == "pm" && !run.paused
  }

  predicate LeaseLive(row: Checkpoint, now: nat) {
    row.leaseOwner.Some? && row.leaseExpires.Some? && row.leaseExpires.value > now
  }

  function Find<K, V>(m: map<K, V>, k: K): Option<V> {
    if k in m then Some(m[k]) else None
  }

  // Why a claim is refused, in the order the checks are made; None when it is granted.
  function ClaimRefusal(run: Option<BuildRun>, row: Option<Checkpoint>, runId: RunId, now: nat): Option<Conflict> {
    if run.None? then Some(RunNotFound)
    else if !Eligible(run.value) then Some(RunNotEligible)
    else if row.None? then None
    else if row.value.runId != runId then Some(OtherRun)
    else if LeaseLive(row.value, now) then Some(LeaseHeld)
    else None
  }

  function Leased(row: Checkpoint, owner: Owner, now: nat): Checkpoint {
    row.(leaseOwner := Some(owner), leaseExpires := Some(now + EXECUTION_LEASE))
  }

  function ClaimedRow(row: Option<Checkpoint>, runId: RunId, frozen: Frozen, owner: Owner, now: nat): Checkpoint {
    Leased(if row.Some? then row.value else Checkpoint(runId, frozen, NO_PROGRESS, None, None), owner, now)
  }

  // The one test that guards every later write and the handoff.
  predicate Holds(run: Option<BuildRun>, row: Option<Checkpoint>, runId: RunId, owner: Owner, now: nat) {
    && run.Some? && Eligible(run.value)
    && row.Some? && row.value.runId == runId
    && row.value.leaseOwner == Some(owner) && LeaseLive(row.value, now)
  }

  function SavedRow(row: Checkpoint, owner: Owner, progress: Progress, now: nat): Checkpoint {
    Leased(row, owner, now).(toolLoop := progress)
  }

  function ReleasedRow(row: Checkpoint, owner: Owner): Checkpoint {
    if row.leaseOwner == Some(owner) then row.(leaseOwner := None, leaseExpires := None) else row
  }

  class DispatchStore {
    var runs: map<RunId, BuildRun>
    var rows: map<ItemId, Checkpoint>

    constructor ()
      ensures runs == map[] && rows == map[]
    {
      runs, rows := map[], map[];
    }

    /**
     * Grants the lease unless the run is not in its approval stage, the row belongs to another
     * run, or a live lease stands.  The first claim freezes its input; a later claim changes
     * nothing but the lease, so it takes over the saved turns and history.
     */
    method ClaimDispatch(runId: RunId, itemId: ItemId, frozen: Frozen, token: Owner, now: nat)
      returns (r: Result<(Checkpoint, Owner), Conflict>)
      modifies this`rows
      ensures r.Ok? <==>
                && runId in runs && runs[runId] == BuildRun("running", Some(1), "pm", false)
                && (itemId in old(rows) ==>
                      var row := old(rows)[itemId];
                      row.runId == runId && (row.leaseOwner.Some? && row.leaseExpires.Some? ==> row.leaseExpires.value <= now))
      ensures r.Ok? ==>
                && r.value.1 == token
                && rows == old(rows)[itemId := r.value.0]
                && r.value.0.leaseOwner == Some(token)
                && r.value.0.leaseExpires == Some(now + 600)
                && r.value.0.runId == runId
                && (itemId in old(rows) ==>
                      r.value.0.frozen == old(rows)[itemId].frozen && r.value.0.toolLoop == old(rows)[itemId].toolLoop)
                && (itemId !in old(rows) ==> r.value.0.frozen == frozen && r.value.0.toolLoop == NO_PROGRESS)
      ensures r.Ok? ==> r.value.0 == ClaimedRow(Find(old(rows), itemId), runId, frozen, token, now)
      ensures r.Err? ==> rows == old(rows) && ClaimRefusal(Find(runs, runId), Find(rows, itemId), runId, now) == Some(r.error)
    {
      if runId !in runs { return Err(RunNotFound); }
      if !Eligible(runs[runId]) { return Err(RunNotEligible); }
      var saved: Checkpoint;
      if itemId !in rows {
        saved := Checkpoint(runId, frozen, NO_PROGRESS, None, None);
      } else {
        saved := rows[itemId];
        if saved.runId != runId { return Err(OtherRun); }
        if LeaseLive(saved, now) { return Err(LeaseHeld); }
      }
      saved := saved.(leaseOwner := Some(token), leaseExpires := Some(now + EXECUTION_LEASE));
      rows := rows[itemId := saved];
      return Ok((saved, token));
    }

    /** Reads the row for an owner whose lease is live, and refuses everybody else. */
    method RequireDispatch(runId: RunId, itemId: ItemId, owner: Owner, now: nat)
      returns (r: Result<Checkpoint, Conflict>)
      ensures r.Ok? <==> Holds(Find(runs, runId), Find(rows, itemId), runId, owner, now)
      ensures r.Ok? <==>
                && runId in runs && runs[runId] == BuildRun("running", Some(1), "pm", false)
                && itemId in rows && rows[itemId].runId == runId && rows[itemId].leaseOwner == Some(owner)
                && rows[itemId].leaseExpires.Some? && rows[itemId].leaseExpires.value > now
      ensures r.Ok? ==> itemId in rows && r.value == rows[itemId]
      ensures r.Err? ==> r.error == if runId in runs then DispatchLost else RunNotFound
    {
      if runId !in runs { return Err(RunNotFound); }
      if !Eligible(runs[runId]) || itemId !in rows { return Err(DispatchLost); }
      var saved := rows[itemId];
      if saved.runId != runId || saved.leaseOwner != Some(owner)
         || saved.leaseExpires.None? || saved.leaseExpires.value <= now {
        return Err(DispatchLost);
      }
      return Ok(saved);
    }

    /** Overwrites the progress and renews the lease, for the holder only. */
    method SaveDispatch(runId: RunId, itemId: ItemId, owner: Owner, progress: Progress, now: nat)
      returns (r: Result<(), Conflict>)
      modifies this`rows
      ensures r.Ok? <==> Holds(Find(runs, runId), Find(old(rows), itemId), runId, owner, now)
      ensures r.Err? ==> rows == old(rows)
      ensures r.Ok? ==> itemId in old(rows) && rows == old(rows)[itemId := SavedRow(old(rows)[itemId], owner, progress, now)]
      ensures r.Ok? ==>
                itemId in old(rows)
                && rows == old(rows)[itemId := old(rows)[itemId].(toolLoop := progress, leaseExpires := Some(now + 600))]
    {
      var saved := RequireDispatch(runId, itemId, owner, now);
      if saved.Err? { return Err(saved.error); }
      var row := saved.value.(toolLoop := progress, leaseExpires := Some(now + EXECUTION_LEASE));
      rows := rows[itemId := row];
      return Ok(());
    }

    /** Gives the lease back; a row that somebody else holds is left alone. */
    method ReleaseDispatch(itemId: ItemId, owner: Owner)
      modifies this`rows
      ensures rows == if itemId in old(rows) then old(rows)[itemId := ReleasedRow(old(rows)[itemId], owner)] else old(rows)
    {
      if itemId in rows && rows[itemId].leaseOwner == Some(owner) {
        var row := rows[itemId].(leaseOwner := None, leaseExpires := None);
        rows := rows[itemId := row];
      }
    }
  }
}
