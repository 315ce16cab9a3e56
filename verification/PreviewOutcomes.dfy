/**
 * What becomes of a preview session in PreviewSessions: it is ready exactly when nothing its boot
 * thread tried has failed and nobody stopped it.
 */
module PreviewOutcomes {
  import opened Results
  import opened PreviewSessions

  // The phases in which the boot thread makes a call that may fail: two reservations, opening the log,
  // launching the sandbox, waiting for it, opening the proxy, waiting for the pages, the last look.
  predicate MayFail(boot: Boot) {
    || boot.ReserveRuntime? || boot.ReservePreview? || boot.OpenLog? || boot.Launch? || boot.AwaitRuntime?
    || boot.OpenProxy? || boot.AwaitPages? || boot.Announce?
  }

  // The boot thread has failed and cleans up, or has done so.
  ghost predicate Doomed(s: Session) {
    s.fields.status != Ready && (s.boot.Failing? || Cleaning(s.boot))
  }

  /** A failed call ends the boot: the thread goes on to clean up and to nothing else. */
  lemma {:induction false} FailedCallDooms(s: Session, reserved: set<nat>, port: nat)
    requires MayFail(s.boot) && BootStep(s, reserved, false, port).Some?
    ensures BootStep(s, reserved, false, port).value.0.boot == Failing
    ensures BootStep(s, reserved, false, port).value.0.fields == s.fields
  {
  }

  lemma {:induction false} DoomedStays(s: Session, reserved: set<nat>, ok: bool, port: nat)
    requires Doomed(s)
    ensures BootStep(s, reserved, ok, port).Some? ==> Doomed(BootStep(s, reserved, ok, port).value.0)
    ensures StopStep(s, reserved).Some? ==> Doomed(StopStep(s, reserved).value.0)
  {
  }

  lemma {:induction false} MoveKeepsDoomed(s: State, move: Move, id: nat)
    requires id in s.sessions && Doomed(s.sessions[id]) && Apply(s, move).Some?
    ensures id in Apply(s, move).value.sessions && Doomed(Apply(s, move).value.sessions[id])
  {
    match move
    case BootMove(a, ok, port) =>
      if a == id {
        DoomedStays(s.sessions[id], s.reserved, ok, port);
      }
    case StopMove(a) =>
      if a == id {
        DoomedStays(s.sessions[id], s.reserved, true, 0);
      }
    case _ =>
  }

  // A working boot thread has not announced anything yet.
  lemma {:induction false} NotReadyBefore(s: Session)
    requires SessionInv(s) && MayFail(s.boot)
    ensures s.fields.status != Ready
  {
  }

  /** One failed call anywhere in a run, and the session is never ready, whatever comes after. */
  lemma {:induction false} ReadyNeedsEverySuccess(moves: seq<Move>, i: nat, id: nat, port: nat)
    requires After(moves).Some? && i < |moves| && moves[i] == BootMove(id, false, port)
    requires After(moves[..i]).Some? && id in After(moves[..i]).value.sessions
    requires MayFail(After(moves[..i]).value.sessions[id].boot)
    ensures id in After(moves).value.sessions && Doomed(After(moves).value.sessions[id])
    decreases |moves|
  {
    var n := |moves| - 1;
    var before := After(moves[..n]).value;
    if i == n {
      ReachableHasInv(moves[..n]);
      var s := before.sessions[id];
      assert SessionInv(s);
      NotReadyBefore(s);
      FailedCallDooms(s, before.reserved, port);
    } else {
      assert moves[..n][..i] == moves[..i];
      ReadyNeedsEverySuccess(moves[..n], i, id, port);
      MoveKeepsDoomed(before, moves[n], id);
    }
  }

  /** A stopped session that is still booting ends its boot too: it is never announced. */
  lemma {:induction false} StopEndsBoot(s: Session, reserved: set<nat>, ok: bool, port: nat)
    requires s.fields.stopped && BootStep(s, reserved, ok, port).Some?
    ensures var t := BootStep(s, reserved, ok, port).value.0;
            && t.fields.stopped && (s.fields.status != Ready && !s.boot.Enter? ==> t.fields.status != Ready)
            && (s.boot.PublishPorts? || s.boot.PublishHandle? ==> t.boot == Finished)
            && (s.boot.Announce? ==> t.boot == Failing)
  {
  }

  /** Undisturbed, with every call succeeding, a session is ready with its proxy, its sandbox and its ports. */
  lemma {:induction false} UndisturbedBootIsReady(id: nat, pair: Pair) returns (moves: seq<Move>, s: Session)
    requires pair.runtime != pair.preview
    ensures Leads(moves, id, s, {pair.runtime, pair.preview})
    ensures s.fields == Fields(Ready, false, Some(pair), true, true, true) && s.boot == Finished
    ensures s.runtime == Life(1, 0) && s.server == Life(1, 0) && s.reservation == Life(1, 0)
  {
    moves, s := RunsToAwait(id, pair);
    var reserved := {pair.runtime, pair.preview};
    moves, s, reserved := Boots(moves, id, s, reserved, true, 0);
    moves, s, reserved := Boots(moves, id, s, reserved, true, 0);
    moves, s, reserved := Boots(moves, id, s, reserved, true, 0);
    moves, s, reserved := Boots(moves, id, s, reserved, true, 0);
    moves, s, reserved := Boots(moves, id, s, reserved, true, 0);
    EverythingEndsOnce(moves, id);
  }
}
