/**
 * The preview session lifecycle, services/preview.py.
 *
 * A boot thread and at most one stopper per session race over fields that a lock protects.
 * PreviewSession holds the fields; each of its methods is one critical section, proved against a
 * function on Fields.  The transition system runs these sections, the port registry and the
 * sandbox and proxy calls in every interleaving, for any number of sessions.
 */
module PreviewSessions {
  import opened Results

  datatype Status = Starting | Ready | Error | Idle

  // The two reserved ports; every section sets or clears them together.
  datatype Pair = Pair(runtime: nat, preview: nat)

  datatype Fields = Fields(
    status: Status, stopped: bool, ports: Option<Pair>, handle: bool, proxy: bool, url: bool)

  // What a thread takes out of the fields to shut down afterwards.
  datatype Taken = Taken(server: bool, handle: bool, ports: Option<Pair>)

  const NEW := Fields(Starting, false, None, false, false, false)

  // ---------------------------------------------------------------- the critical sections

  function Entered(f: Fields): Fields {
    f.(status := Starting)
  }

  function WithPorts(f: Fields, pair: Pair): Fields {
    f.(ports := if f.stopped then None else Some(pair))
  }

  function WithHandle(f: Fields): Fields {
    if f.stopped then f.(handle := false, ports := None) else f.(handle := true)
  }

  function WithProxy(f: Fields): Fields {
    f.(proxy := true)
  }

  function Announced(f: Fields): Fields {
    f.(url := true, status := Ready)
  }

  function Failed(f: Fields): Fields {
    Fields(if f.stopped then Idle else Error, f.stopped, None, false, false, false)
  }

  // While the sandbox has not reported back, its ports stay with the boot thread.
  predicate BootOwnsPorts(f: Fields) {
    f.status == Starting && !f.handle
  }

  function StopTakes(f: Fields): Taken {
    Taken(f.proxy, f.handle, if BootOwnsPorts(f) then None else f.ports)
  }

  function StoppedFields(f: Fields): Fields {
    Fields(Idle, true, if BootOwnsPorts(f) then f.ports else None, false, false, false)
  }

  class PreviewSession {
    var status: Status
    var stopped: bool
    var ports: Option<Pair>
    var runtimeHandle: bool
    var proxyServer: bool
    var url: bool

    ghost function View(): Fields
      reads this
    {
      Fields(status, stopped, ports, runtimeHandle, proxyServer, url)
    }

    constructor ()
      ensures View() == NEW
    {
      status, stopped, ports, runtimeHandle, proxyServer, url := Starting, false, None, false, false, false;
    }

    method Enter()
      modifies this
      ensures View() == Entered(old(View()))
    {
      status := Starting;
    }

    method PublishPorts(pair: Pair) returns (release: bool)
      modifies this
      ensures release == old(stopped) && View() == WithPorts(old(View()), pair)
    {
      ports := Some(pair);
      if stopped {
        ports := None;
        return true;
      }
      return false;
    }

    method PublishHandle() returns (halt: bool)
      modifies this
      ensures halt == old(stopped) && View() == WithHandle(old(View()))
    {
      runtimeHandle := true;
      if stopped {
        runtimeHandle, ports := false, None;
        return true;
      }
      return false;
    }

    method PublishProxy()
      modifies this
      ensures View() == WithProxy(old(View()))
    {
      proxyServer := true;
    }

    method Announce(running: bool) returns (ready: bool)
      modifies this
      ensures ready == (!old(stopped) && running)
      ensures View() == if ready then Announced(old(View())) else old(View())
    {
      if stopped || !running {
        return false;
      }
      url, status := true, Ready;
      return true;
    }

    method Fail() returns (taken: Taken)
      modifies this
      ensures taken == Taken(old(proxyServer), old(runtimeHandle), old(ports))
      ensures View() == Failed(old(View()))
    {
      taken := Taken(proxyServer, runtimeHandle, ports);
      runtimeHandle, proxyServer, ports := false, false, None;
      status, url := if stopped then Idle else Error, false;
    }

    method Stop() returns (taken: Taken)
      modifies this
      ensures taken == StopTakes(old(View())) && View() == StoppedFields(old(View()))
    {
      var bootOwnsPorts := status == Starting && !runtimeHandle;
      taken := Taken(proxyServer, runtimeHandle, if bootOwnsPorts then None else ports);
      proxyServer, runtimeHandle := false, false;
      if !bootOwnsPorts {
        ports := None;
      }
      stopped, status, url := true, Idle, false;
    }
  }

  // ---------------------------------------------------------------- the two threads

  datatype Boot =
    | Enter
    | ReserveRuntime
    | ReservePreview(runtime: nat)
    | PublishPorts(pair: Pair)
    | OpenLog(pair: Pair)
    | Launch(pair: Pair)
    | PublishHandle(pair: Pair)
    | AwaitRuntime(pair: Pair)
    | OpenProxy(pair: Pair)
    | PublishProxy(pair: Pair)
    | AwaitPages(pair: Pair)
    | Announce(pair: Pair)
    | Failing
    | ShutProxy(taken: Taken)
    | HaltRuntime(taken: Taken)
    | FreePorts(taken: Taken)
    | Finished

  datatype Stopper =
    | NotCalled
    | StopProxy(taken: Taken)
    | StopRuntime(taken: Taken)
    | StopPorts(taken: Taken)
    | Stopped

  // How often something was started and how often it was ended.
  datatype Life = Life(starts: nat, ends: nat)

  // `pair` is the complete reservation of the session, and `leaked` a first port that was reserved
  // before the second reservation failed.
  datatype Session = Session(
    fields: Fields, boot: Boot, stopper: Stopper,
    pair: Option<Pair>, leaked: Option<nat>,
    reservation: Life, runtime: Life, server: Life)

  const FRESH := Session(NEW, Enter, NotCalled, None, None, Life(0, 0), Life(0, 0), Life(0, 0))

  function Begin(life: Life): Life {
    life.(starts := life.starts + 1)
  }

  function End(life: Life, when: bool): Life {
    if when then life.(ends := life.ends + 1) else life
  }

  function Ports(pair: Option<Pair>): set<nat> {
    if pair.Some? then {pair.value.runtime, pair.value.preview} else {}
  }

  function Goto(s: Session, boot: Boot): Session {
    s.(boot := boot)
  }

  // One step of the boot thread.  `ok` says whether a call that may fail succeeds, `port` is the
  // port that a successful reservation picks.
  function BootStep(s: Session, reserved: set<nat>, ok: bool, port: nat): Option<(Session, set<nat>)> {
    var f := s.fields;
    match s.boot
    case Enter => Some((Goto(s.(fields := Entered(f)), ReserveRuntime), reserved))
    case ReserveRuntime =>
      if !ok then Some((Goto(s, Failing), reserved))
      else if port in reserved then None
      else Some((Goto(s, ReservePreview(port)), reserved + {port}))
    case ReservePreview(r) =>
      if !ok then Some((Goto(s.(leaked := Some(r)), Failing), reserved))
      else if port in reserved then None
      else
        var pair := Pair(r, port);
        Some((Goto(s.(pair := Some(pair), reservation := Begin(s.reservation)), PublishPorts(pair)), reserved + {port}))
    case PublishPorts(pair) =>
      if f.stopped then
        Some((Goto(s.(fields := WithPorts(f, pair), reservation := End(s.reservation, true)), Finished),
              reserved - Ports(Some(pair))))
      else Some((Goto(s.(fields := WithPorts(f, pair)), OpenLog(pair)), reserved))
    case OpenLog(pair) => Some((Goto(s, if ok then Launch(pair) else Failing), reserved))
    case Launch(pair) =>
      if ok then Some((Goto(s.(runtime := Begin(s.runtime)), PublishHandle(pair)), reserved))
      else Some((Goto(s, Failing), reserved))
    case PublishHandle(pair) =>
      if f.stopped then
        Some((Goto(s.(fields := WithHandle(f), runtime := End(s.runtime, true), reservation := End(s.reservation, true)),
                   Finished), reserved - Ports(Some(pair))))
      else Some((Goto(s.(fields := WithHandle(f)), AwaitRuntime(pair)), reserved))
    case AwaitRuntime(pair) => Some((Goto(s, if ok then OpenProxy(pair) else Failing), reserved))
    case OpenProxy(pair) =>
      if ok then Some((Goto(s.(server := Begin(s.server)), PublishProxy(pair)), reserved))
      else Some((Goto(s, Failing), reserved))
    case PublishProxy(pair) => Some((Goto(s.(fields := WithProxy(f)), AwaitPages(pair)), reserved))
    case AwaitPages(pair) => Some((Goto(s, if ok then Announce(pair) else Failing), reserved))
    case Announce(pair) =>
      if f.stopped || !ok then Some((Goto(s, Failing), reserved))
      else Some((Goto(s.(fields := Announced(f)), Finished), reserved))
    case Failing => Some((Goto(s.(fields := Failed(f)), ShutProxy(Taken(f.proxy, f.handle, f.ports))), reserved))
    case ShutProxy(taken) => Some((Goto(s.(server := End(s.server, taken.server)), HaltRuntime(taken)), reserved))
    case HaltRuntime(taken) => Some((Goto(s.(runtime := End(s.runtime, taken.handle)), FreePorts(taken)), reserved))
    case FreePorts(taken) =>
      Some((Goto(s.(reservation := End(s.reservation, taken.ports.Some?)), Finished), reserved - Ports(taken.ports)))
    case Finished => None
  }

  // One step of the only stopper of the session.
  function StopStep(s: Session, reserved: set<nat>): Option<(Session, set<nat>)> {
    match s.stopper
    case NotCalled => Some((s.(fields := StoppedFields(s.fields), stopper := StopProxy(StopTakes(s.fields))), reserved))
    case StopProxy(taken) => Some((s.(server := End(s.server, taken.server), stopper := StopRuntime(taken)), reserved))
    case StopRuntime(taken) => Some((s.(runtime := End(s.runtime, taken.handle), stopper := StopPorts(taken)), reserved))
    case StopPorts(taken) =>
      Some((s.(reservation := End(s.reservation, taken.ports.Some?), stopper := Stopped), reserved - Ports(taken.ports)))
    case Stopped => None
  }

  // ---------------------------------------------------------------- one session: who holds what

  function BootTaken(boot: Boot): Option<Taken> {
    if boot.ShutProxy? || boot.HaltRuntime? || boot.FreePorts? then Some(boot.taken) else None
  }

  function StopTaken(stopper: Stopper): Option<Taken> {
    if stopper.StopProxy? || stopper.StopRuntime? || stopper.StopPorts? then Some(stopper.taken) else None
  }

  function One(b: bool): nat {
    if b then 1 else 0
  }

  function PortHolders(s: Session): nat {
    var b, t := BootTaken(s.boot), StopTaken(s.stopper);
    One(s.boot.PublishPorts?) + One(s.fields.ports.Some?) + One(b.Some? && b.value.ports.Some?) + One(t.Some? && t.value.ports.Some?)
  }

  function HandleHolders(s: Session): nat {
    One(s.boot.PublishHandle?) + One(s.fields.handle)
    + One((s.boot.ShutProxy? || s.boot.HaltRuntime?) && s.boot.taken.handle)
    + One((s.stopper.StopProxy? || s.stopper.StopRuntime?) && s.stopper.taken.handle)
  }

  function ServerHolders(s: Session): nat {
    One(s.boot.PublishProxy?) + One(s.fields.proxy)
    + One(s.boot.ShutProxy? && s.boot.taken.server) + One(s.stopper.StopProxy? && s.stopper.taken.server)
  }

  // Everything started is held by exactly one place until it is ended, once.
  ghost predicate Conserved(s: Session) {
    && PortHolders(s) + s.reservation.ends == s.reservation.starts == One(s.pair.Some?)
    && HandleHolders(s) + s.runtime.ends == s.runtime.starts <= 1
    && ServerHolders(s) + s.server.ends == s.server.starts <= 1
  }

  // Whoever holds ports holds the session's own pair.
  ghost predicate HoldsOwnPair(s: Session) {
    && (s.boot.PublishPorts? ==> s.pair == Some(s.boot.pair))
    && (s.fields.ports.Some? ==> s.pair == s.fields.ports)
    && (var b := BootTaken(s.boot); b.Some? && b.value.ports.Some? ==> s.pair == b.value.ports)
    && (var t := StopTaken(s.stopper); t.Some? && t.value.ports.Some? ==> s.pair == t.value.ports)
    && (HasPair(s.boot) ==> s.pair == Some(s.boot.pair))
  }

  predicate HasPair(boot: Boot) {
    || boot.PublishPorts? || boot.OpenLog? || boot.Launch? || boot.PublishHandle? || boot.AwaitRuntime?
    || boot.OpenProxy? || boot.PublishProxy? || boot.AwaitPages? || boot.Announce?
  }

  predicate BeforePorts(boot: Boot) {
    boot.Enter? || boot.ReserveRuntime? || boot.ReservePreview?
  }

  predicate BeforeHandle(boot: Boot) {
    BeforePorts(boot) || boot.PublishPorts? || boot.OpenLog? || boot.Launch?
  }

  predicate BeforeProxy(boot: Boot) {
    BeforeHandle(boot) || boot.PublishHandle? || boot.AwaitRuntime? || boot.OpenProxy?
  }

  predicate Cleaning(boot: Boot) {
    boot.ShutProxy? || boot.HaltRuntime? || boot.FreePorts? || boot.Finished?
  }

  // Where the boot thread stands and what it has done so far.
  ghost predicate Staged(s: Session) {
    var f, boot := s.fields, s.boot;
    && (f.stopped <==> !s.stopper.NotCalled?)
    && (BeforePorts(boot) ==> s.pair.None?)
    && (BeforeHandle(boot) ==> s.runtime.starts == 0)
    && (BeforeProxy(boot) ==> s.server.starts == 0)
    && (boot.OpenLog? || boot.Launch? || boot.PublishHandle? ==> f.ports.Some?)
    && (!f.stopped && !Cleaning(boot) ==> f.status == Starting && (BeforeHandle(boot) || boot.PublishHandle? || boot.Failing? || f.handle))
    && (boot.AwaitRuntime? || boot.OpenProxy? || boot.PublishProxy? || boot.AwaitPages? || boot.Announce? ==>
          && f.handle != f.stopped && (f.stopped ==> f.ports.None?) && (!f.stopped ==> f.ports.Some?)
          && (var t := StopTaken(s.stopper); t.Some? ==> t.value.ports.Some?))
    && (boot.AwaitPages? || boot.Announce? ==> f.stopped || f.proxy)
    && (Cleaning(boot) && f.status != Ready ==> f.ports.None? && !f.handle && !f.proxy)
    && (f.status == Ready ==> boot.Finished? && !f.stopped && f.ports.Some? && f.handle && f.proxy)
    && (f.url ==> f.status == Ready)
    && (s.leaked.Some? ==> s.pair.None? && (boot.Failing? || Cleaning(boot)))
  }

  predicate ServerRuns(s: Session) {
    s.server.starts > s.server.ends
  }

  // Ports and proxy leave the fields together.
  ghost predicate Together(s: Session) {
    var f, b, t := s.fields, BootTaken(s.boot), StopTaken(s.stopper);
    && (t.Some? && ServerRuns(s) ==> t.value.ports.Some? || (s.boot.ShutProxy? && s.boot.taken.ports.Some?))
    && (s.server.starts > 0 ==> s.pair.Some?)
    && (f.ports.Some? && ServerRuns(s) ==> !f.stopped && (f.proxy || s.boot.PublishProxy?))
    && (b.Some? && b.value.ports.Some? && ServerRuns(s) ==> s.boot.ShutProxy? && b.value.server)
    && (s.boot.PublishPorts? ==> s.server.starts == 0)
    && (ServerRuns(s) && !f.stopped && !Cleaning(s.boot) ==> f.handle && f.ports.Some?)
    && (s.boot.ShutProxy? && s.boot.taken.server && !f.stopped ==> s.boot.taken.ports.Some?)
  }

  ghost predicate SessionInv(s: Session) {
    Conserved(s) && HoldsOwnPair(s) && Staged(s) && Together(s)
  }

  lemma {:induction false} EnterKeeps(s: Session, reserved: set<nat>, ok: bool, port: nat)
    requires SessionInv(s) && BootStep(s, reserved, ok, port).Some? && s.boot.Enter?
    ensures SessionInv(BootStep(s, reserved, ok, port).value.0)
  {
  }

  lemma {:induction false} ReserveRuntimeKeeps(s: Session, ok: bool, port: nat)
    requires SessionInv(s) && s.boot.ReserveRuntime?
    ensures SessionInv(Goto(s, if ok then ReservePreview(port) else Failing))
  {
  }

  lemma {:induction false} ReservePreviewKeeps(s: Session, reserved: set<nat>, ok: bool, port: nat)
    requires SessionInv(s) && BootStep(s, reserved, ok, port).Some? && s.boot.ReservePreview?
    ensures SessionInv(BootStep(s, reserved, ok, port).value.0)
  {
  }

  lemma {:induction false} PublishPortsKeeps(s: Session, reserved: set<nat>, ok: bool, port: nat)
    requires SessionInv(s) && BootStep(s, reserved, ok, port).Some? && s.boot.PublishPorts?
    ensures SessionInv(BootStep(s, reserved, ok, port).value.0)
  {
  }

  lemma {:induction false} OpenLogKeeps(s: Session, reserved: set<nat>, ok: bool, port: nat)
    requires SessionInv(s) && BootStep(s, reserved, ok, port).Some? && s.boot.OpenLog?
    ensures SessionInv(BootStep(s, reserved, ok, port).value.0)
  {
  }

  lemma {:induction false} LaunchKeeps(s: Session, reserved: set<nat>, ok: bool, port: nat)
    requires SessionInv(s) && BootStep(s, reserved, ok, port).Some? && s.boot.Launch?
    ensures SessionInv(BootStep(s, reserved, ok, port).value.0)
  {
  }

  lemma {:induction false} PublishHandleKeeps(s: Session, reserved: set<nat>, ok: bool, port: nat)
    requires SessionInv(s) && BootStep(s, reserved, ok, port).Some? && s.boot.PublishHandle?
    ensures SessionInv(BootStep(s, reserved, ok, port).value.0)
  {
  }

  lemma {:induction false} AwaitRuntimeKeeps(s: Session, reserved: set<nat>, ok: bool, port: nat)
    requires SessionInv(s) && BootStep(s, reserved, ok, port).Some? && s.boot.AwaitRuntime?
    ensures SessionInv(BootStep(s, reserved, ok, port).value.0)
  {
  }

  lemma {:induction false} OpenProxyKeeps(s: Session, reserved: set<nat>, ok: bool, port: nat)
    requires SessionInv(s) && BootStep(s, reserved, ok, port).Some? && s.boot.OpenProxy?
    ensures SessionInv(BootStep(s, reserved, ok, port).value.0)
  {
  }

  lemma {:induction false} PublishProxyKeeps(s: Session, reserved: set<nat>, ok: bool, port: nat)
    requires SessionInv(s) && BootStep(s, reserved, ok, port).Some? && s.boot.PublishProxy?
    ensures SessionInv(BootStep(s, reserved, ok, port).value.0)
  {
  }

  lemma {:induction false} AwaitPagesKeeps(s: Session, reserved: set<nat>, ok: bool, port: nat)
    requires SessionInv(s) && BootStep(s, reserved, ok, port).Some? && s.boot.AwaitPages?
    ensures SessionInv(BootStep(s, reserved, ok, port).value.0)
  {
  }

  lemma {:induction false} AnnounceKeeps(s: Session, reserved: set<nat>, ok: bool, port: nat)
    requires SessionInv(s) && BootStep(s, reserved, ok, port).Some? && s.boot.Announce?
    ensures SessionInv(BootStep(s, reserved, ok, port).value.0)
  {
  }

  lemma {:induction false} FailingKeeps(s: Session, reserved: set<nat>, ok: bool, port: nat)
    requires SessionInv(s) && BootStep(s, reserved, ok, port).Some? && s.boot.Failing?
    ensures SessionInv(BootStep(s, reserved, ok, port).value.0)
  {
  }

  lemma {:induction false} ShutProxyKeeps(s: Session, reserved: set<nat>, ok: bool, port: nat)
    requires SessionInv(s) && BootStep(s, reserved, ok, port).Some? && s.boot.ShutProxy?
    ensures SessionInv(BootStep(s, reserved, ok, port).value.0)
  {
  }

  lemma {:induction false} HaltRuntimeKeeps(s: Session, reserved: set<nat>, ok: bool, port: nat)
    requires SessionInv(s) && BootStep(s, reserved, ok, port).Some? && s.boot.HaltRuntime?
    ensures SessionInv(BootStep(s, reserved, ok, port).value.0)
  {
  }

  lemma {:induction false} FreePortsKeeps(s: Session, reserved: set<nat>, ok: bool, port: nat)
    requires SessionInv(s) && BootStep(s, reserved, ok, port).Some? && s.boot.FreePorts?
    ensures SessionInv(BootStep(s, reserved, ok, port).value.0)
  {
  }

  lemma {:induction false} BootKeepsSession(s: Session, reserved: set<nat>, ok: bool, port: nat)
    requires SessionInv(s) && BootStep(s, reserved, ok, port).Some?
    ensures SessionInv(BootStep(s, reserved, ok, port).value.0)
  {
    match s.boot
    case Enter => EnterKeeps(s, reserved, ok, port);
    case ReserveRuntime => ReserveRuntimeKeeps(s, ok, port);
    case ReservePreview(_) => ReservePreviewKeeps(s, reserved, ok, port);
    case PublishPorts(_) => PublishPortsKeeps(s, reserved, ok, port);
    case OpenLog(_) => OpenLogKeeps(s, reserved, ok, port);
    case Launch(_) => LaunchKeeps(s, reserved, ok, port);
    case PublishHandle(_) => PublishHandleKeeps(s, reserved, ok, port);
    case AwaitRuntime(_) => AwaitRuntimeKeeps(s, reserved, ok, port);
    case OpenProxy(_) => OpenProxyKeeps(s, reserved, ok, port);
    case PublishProxy(_) => PublishProxyKeeps(s, reserved, ok, port);
    case AwaitPages(_) => AwaitPagesKeeps(s, reserved, ok, port);
    case Announce(_) => AnnounceKeeps(s, reserved, ok, port);
    case Failing => FailingKeeps(s, reserved, ok, port);
    case ShutProxy(_) => ShutProxyKeeps(s, reserved, ok, port);
    case HaltRuntime(_) => HaltRuntimeKeeps(s, reserved, ok, port);
    case FreePorts(_) => FreePortsKeeps(s, reserved, ok, port);
  }

  lemma {:induction false} StopKeeps(s: Session, reserved: set<nat>)
    requires SessionInv(s) && s.stopper.NotCalled?
    ensures SessionInv(StopStep(s, reserved).value.0)
  {
  }

  lemma {:induction false} StopProxyKeeps(s: Session, reserved: set<nat>)
    requires SessionInv(s) && s.stopper.StopProxy?
    ensures SessionInv(StopStep(s, reserved).value.0)
  {
  }

  lemma {:induction false} StopRuntimeKeeps(s: Session, reserved: set<nat>)
    requires SessionInv(s) && s.stopper.StopRuntime?
    ensures SessionInv(StopStep(s, reserved).value.0)
  {
  }

  lemma {:induction false} StopPortsKeeps(s: Session, reserved: set<nat>)
    requires SessionInv(s) && s.stopper.StopPorts?
    ensures SessionInv(StopStep(s, reserved).value.0)
  {
  }

  lemma {:induction false} StopKeepsSession(s: Session, reserved: set<nat>)
    requires SessionInv(s) && StopStep(s, reserved).Some?
    ensures SessionInv(StopStep(s, reserved).value.0)
  {
    match s.stopper
    case NotCalled => StopKeeps(s, reserved);
    case StopProxy(_) => StopProxyKeeps(s, reserved);
    case StopRuntime(_) => StopRuntimeKeeps(s, reserved);
    case StopPorts(_) => StopPortsKeeps(s, reserved);
  }

  // ---------------------------------------------------------------- the port registry

  datatype State = State(sessions: map<nat, Session>, reserved: set<nat>)

  datatype Move = Create(id: nat) | BootMove(id: nat, ok: bool, port: nat) | StopMove(id: nat)

  function Apply(s: State, move: Move): Option<State> {
    match move
    case Create(id) => if id in s.sessions then None else Some(s.(sessions := s.sessions[id := FRESH]))
    case BootMove(id, ok, port) =>
      if id !in s.sessions then None
      else
        var next := BootStep(s.sessions[id], s.reserved, ok, port);
        if next.None? then None else Some(State(s.sessions[id := next.value.0], next.value.1))
    case StopMove(id) =>
      if id !in s.sessions then None
      else
        var next := StopStep(s.sessions[id], s.reserved);
        if next.None? then None else Some(State(s.sessions[id := next.value.0], next.value.1))
  }

  function After(moves: seq<Move>): Option<State>
    decreases |moves|
  {
    if moves == [] then Some(State(map[], {}))
    else
      var before := After(moves[..|moves| - 1]);
      if before.None? then None else Apply(before.value, moves[|moves| - 1])
  }

  // The ports that the session has reserved and not released.
  function Owned(s: Session): set<nat> {
    (if s.boot.ReservePreview? then {s.boot.runtime} else {})
    + (if s.reservation.starts > s.reservation.ends then Ports(s.pair) else {})
    + (if s.leaked.Some? then {s.leaked.value} else {})
  }

  // A step exchanges the session's own ports in the registry and touches no other.
  ghost predicate Exchanges(before: Session, reserved: set<nat>, after: Session, next: set<nat>) {
    next == (reserved - Owned(before)) + Owned(after) && (Owned(after) - Owned(before)) !! reserved
  }

  lemma {:induction false} BootExchanges(s: Session, reserved: set<nat>, ok: bool, port: nat)
    requires SessionInv(s) && Owned(s) <= reserved && BootStep(s, reserved, ok, port).Some?
    ensures var (t, next) := BootStep(s, reserved, ok, port).value; Exchanges(s, reserved, t, next)
  {
    if s.boot.FreePorts? && s.boot.taken.ports.Some? {
      assert s.pair == s.boot.taken.ports;
    }
  }

  lemma {:induction false} StopExchanges(s: Session, reserved: set<nat>)
    requires SessionInv(s) && Owned(s) <= reserved && StopStep(s, reserved).Some?
    ensures var (t, next) := StopStep(s, reserved).value; Exchanges(s, reserved, t, next)
  {
    if s.stopper.StopPorts? && s.stopper.taken.ports.Some? {
      assert s.pair == s.stopper.taken.ports;
    }
  }

  // Which session owns which ports.
  function Holdings(s: State): (h: map<nat, set<nat>>)
    ensures h.Keys == s.sessions.Keys && forall id :: id in h ==> h[id] == Owned(s.sessions[id])
  {
    map id | id in s.sessions :: Owned(s.sessions[id])
  }

  ghost predicate HeldBy(h: map<nat, set<nat>>, id: nat, port: nat) {
    id in h && port in h[id]
  }

  // The registered ports are exactly the held ones, and each is held once.
  ghost predicate Exact(h: map<nat, set<nat>>, reserved: set<nat>) {
    && (forall port :: port in reserved <==> exists id :: HeldBy(h, id, port))
    && (forall a, b, port :: HeldBy(h, a, port) && HeldBy(h, b, port) ==> a == b)
  }

  lemma {:induction false} ExchangeKeepsExact(h: map<nat, set<nat>>, reserved: set<nat>, id: nat, own: set<nat>)
    requires Exact(h, reserved) && id in h && (own - h[id]) !! reserved
    ensures Exact(h[id := own], (reserved - h[id]) + own)
  {
    var g, next := h[id := own], (reserved - h[id]) + own;
    forall port
      ensures port in next <==> exists a :: HeldBy(g, a, port)
    {
      if port in own {
        assert HeldBy(g, id, port);
      } else if port in next {
        var a :| HeldBy(h, a, port);
        assert HeldBy(g, a, port);
      }
      if a :| HeldBy(g, a, port) {
        assert a != id ==> HeldBy(h, a, port) && !HeldBy(h, id, port);
      }
    }
    forall a, b, port | HeldBy(g, a, port) && HeldBy(g, b, port)
      ensures a == b
    {
      assert a != id ==> HeldBy(h, a, port);
      assert b != id ==> HeldBy(h, b, port);
      assert port in own && port !in h[id] ==> port !in reserved;
      if a == id && port in h[id] {
        assert HeldBy(h, id, port);
      }
      if b == id && port in h[id] {
        assert HeldBy(h, id, port);
      }
    }
  }

  lemma {:induction false} NewHolderKeepsExact(h: map<nat, set<nat>>, reserved: set<nat>, id: nat, own: set<nat>)
    requires Exact(h, reserved) && id !in h && forall port :: port !in own
    ensures Exact(h[id := own], reserved)
  {
    var g := h[id := own];
    forall port
      ensures port in reserved <==> exists a :: HeldBy(g, a, port)
    {
      if a :| HeldBy(h, a, port) {
        assert HeldBy(g, a, port);
      }
      if a :| HeldBy(g, a, port) {
        assert HeldBy(h, a, port);
      }
    }
    forall a, b, port | HeldBy(g, a, port) && HeldBy(g, b, port)
      ensures a == b
    {
      assert HeldBy(h, a, port) && HeldBy(h, b, port);
    }
  }

  ghost predicate AllSound(s: State) {
    forall id :: id in s.sessions ==> SessionInv(s.sessions[id])
  }

  ghost predicate Inv(s: State) {
    AllSound(s) && Exact(Holdings(s), s.reserved)
  }

  lemma {:induction false} HeldIsReserved(s: State, id: nat)
    requires Exact(Holdings(s), s.reserved) && id in s.sessions
    ensures Owned(s.sessions[id]) <= s.reserved
  {
    forall port | port in Owned(s.sessions[id])
      ensures port in s.reserved
    {
      assert HeldBy(Holdings(s), id, port);
    }
  }

  lemma {:induction false} HoldingsUpdate(s: State, id: nat, session: Session, reserved: set<nat>)
    ensures Holdings(State(s.sessions[id := session], reserved)) == Holdings(s)[id := Owned(session)]
  {
  }

  lemma {:induction false} ReplaceKeepsInv(s: State, id: nat, after: Session, next: set<nat>)
    requires Inv(s) && id in s.sessions && SessionInv(after)
    requires Exchanges(s.sessions[id], s.reserved, after, next)
    ensures Inv(State(s.sessions[id := after], next))
  {
    var t := State(s.sessions[id := after], next);
    ExchangeKeepsExact(Holdings(s), s.reserved, id, Owned(after));
    HoldingsUpdate(s, id, after, next);
  }

  predicate NothingYet(s: Session) {
    && s.boot.Enter? && s.stopper.NotCalled? && s.pair.None? && s.leaked.None?
    && s.fields.status.Starting? && !s.fields.stopped && s.fields.ports.None?
    && !s.fields.handle && !s.fields.proxy && !s.fields.url
    && s.reservation.starts == s.reservation.ends == 0
    && s.runtime.starts == s.runtime.ends == 0 && s.server.starts == s.server.ends == 0
  }

  lemma {:induction false} FreshHoldsNothing(s: Session)
    requires NothingYet(s)
    ensures Conserved(s) && HoldsOwnPair(s)
    ensures forall port :: port !in Owned(s)
  {
  }

  lemma {:induction false} FreshIsStaged(s: Session)
    requires NothingYet(s)
    ensures Staged(s)
  {
  }

  lemma {:induction false} FreshIsTogether(s: Session)
    requires NothingYet(s)
    ensures Together(s)
  {
  }

  lemma {:induction false} FreshIsSound(s: Session)
    requires NothingYet(s)
    ensures SessionInv(s) && forall port :: port !in Owned(s)
  {
    FreshHoldsNothing(s);
    FreshIsStaged(s);
    FreshIsTogether(s);
  }

  lemma {:induction false} AddKeepsInv(s: State, id: nat, session: Session)
    requires Inv(s) && id !in s.sessions && SessionInv(session) && forall port :: port !in Owned(session)
    ensures Inv(s.(sessions := s.sessions[id := session]))
  {
    NewHolderKeepsExact(Holdings(s), s.reserved, id, Owned(session));
    HoldingsUpdate(s, id, session, s.reserved);
  }

  lemma {:induction false} CreateKeepsInv(s: State, id: nat, session: Session)
    requires Inv(s) && id !in s.sessions && NothingYet(session)
    ensures Inv(s.(sessions := s.sessions[id := session]))
  {
    FreshIsSound(session);
    AddKeepsInv(s, id, session);
  }

  lemma {:induction false} ApplyKeepsInv(s: State, move: Move)
    requires Inv(s) && Apply(s, move).Some?
    ensures Inv(Apply(s, move).value)
  {
    match move
    case Create(id) => CreateKeepsInv(s, id, FRESH);
    case BootMove(id, ok, port) => BootMoveKeepsInv(s, id, ok, port);
    case StopMove(id) => StopMoveKeepsInv(s, id);
  }

  lemma {:induction false} BootMoveKeepsInv(s: State, id: nat, ok: bool, port: nat)
    requires Inv(s) && id in s.sessions && BootStep(s.sessions[id], s.reserved, ok, port).Some?
    ensures var (t, next) := BootStep(s.sessions[id], s.reserved, ok, port).value; Inv(State(s.sessions[id := t], next))
  {
    HeldIsReserved(s, id);
    BootMoveKeeps(s.sessions[id], s.reserved, ok, port);
    var (t, next) := BootStep(s.sessions[id], s.reserved, ok, port).value;
    ReplaceKeepsInv(s, id, t, next);
  }

  lemma {:induction false} StopMoveKeepsInv(s: State, id: nat)
    requires Inv(s) && id in s.sessions && StopStep(s.sessions[id], s.reserved).Some?
    ensures var (t, next) := StopStep(s.sessions[id], s.reserved).value; Inv(State(s.sessions[id := t], next))
  {
    HeldIsReserved(s, id);
    StopMoveKeeps(s.sessions[id], s.reserved);
    var (t, next) := StopStep(s.sessions[id], s.reserved).value;
    ReplaceKeepsInv(s, id, t, next);
  }

  lemma {:induction false} BootMoveKeeps(s: Session, reserved: set<nat>, ok: bool, port: nat)
    requires SessionInv(s) && Owned(s) <= reserved && BootStep(s, reserved, ok, port).Some?
    ensures var (t, next) := BootStep(s, reserved, ok, port).value; SessionInv(t) && Exchanges(s, reserved, t, next)
  {
    BootKeepsSession(s, reserved, ok, port);
    BootExchanges(s, reserved, ok, port);
  }

  lemma {:induction false} StopMoveKeeps(s: Session, reserved: set<nat>)
    requires SessionInv(s) && Owned(s) <= reserved && StopStep(s, reserved).Some?
    ensures var (t, next) := StopStep(s, reserved).value; SessionInv(t) && Exchanges(s, reserved, t, next)
  {
    StopKeepsSession(s, reserved);
    StopExchanges(s, reserved);
  }

  lemma {:induction false} ReachableHasInv(moves: seq<Move>)
    requires After(moves).Some?
    ensures Inv(After(moves).value)
    decreases |moves|
  {
    if moves != [] {
      ReachableHasInv(moves[..|moves| - 1]);
      ApplyKeepsInv(After(moves[..|moves| - 1]).value, moves[|moves| - 1]);
    }
  }

  // ---------------------------------------------------------------- theorems about every interleaving

  /**
   * In every interleaving of any number of sessions the registry holds exactly the ports that some
   * session owns, and no port is owned twice: a release never frees another session's port.
   */
  lemma {:induction false} RegistryIsExact(moves: seq<Move>)
    requires After(moves).Some?
    ensures Exact(Holdings(After(moves).value), After(moves).value.reserved)
  {
    ReachableHasInv(moves);
  }

  ghost predicate Over(s: Session) {
    s.boot.Finished? && (s.stopper.NotCalled? || s.stopper.Stopped?)
  }

  ghost predicate EndedOnce(s: Session) {
    && s.reservation.ends == s.reservation.starts && s.runtime.ends == s.runtime.starts && s.server.ends == s.server.starts
  }

  lemma {:induction false} SessionEndsOnce(s: Session)
    requires SessionInv(s)
    ensures s.reservation.ends <= s.reservation.starts <= 1
    ensures s.runtime.ends <= s.runtime.starts <= 1 && s.server.ends <= s.server.starts <= 1
    ensures Over(s) && s.fields.status == Ready ==>
              s.stopper.NotCalled? && s.reservation == s.runtime == s.server == Life(1, 0)
    ensures Over(s) && s.fields.status != Ready ==> EndedOnce(s)
  {
  }

  /**
   * Nothing is ended twice or before it was started; and once the boot thread has ended and no stop
   * is under way, either the session is ready and everything it started still runs, or its ports
   * were released, its sandbox stopped and its proxy shut down exactly as often as each was started.
   */
  lemma {:induction false} EverythingEndsOnce(moves: seq<Move>, id: nat)
    requires After(moves).Some? && id in After(moves).value.sessions
    ensures var s := After(moves).value.sessions[id];
            && s.reservation.ends <= s.reservation.starts <= 1
            && s.runtime.ends <= s.runtime.starts <= 1 && s.server.ends <= s.server.starts <= 1
            && (Over(s) ==>
                  if s.fields.status == Ready
                  then s.stopper.NotCalled? && s.reservation == s.runtime == s.server == Life(1, 0)
                  else EndedOnce(s))
  {
    ReachableHasInv(moves);
    SessionEndsOnce(After(moves).value.sessions[id]);
  }

  lemma {:induction false} StoppedIsIdle(s: Session)
    requires SessionInv(s)
    ensures s.fields.stopped <==> !s.stopper.NotCalled?
    ensures s.fields.stopped ==> s.fields.status != Ready && !s.fields.url
  {
  }

  /** A session that was stopped is never published as ready, then or later. */
  lemma {:induction false} StoppedIsNeverReady(moves: seq<Move>, id: nat)
    requires After(moves).Some? && id in After(moves).value.sessions
    ensures var s := After(moves).value.sessions[id];
            && (s.fields.stopped <==> !s.stopper.NotCalled?)
            && (s.fields.stopped ==> s.fields.status != Ready && !s.fields.url)
  {
    ReachableHasInv(moves);
    StoppedIsIdle(After(moves).value.sessions[id]);
  }

  /**
   * The one way to lose a port: a session that is over still owns a port exactly when its second
   * reservation failed, and then it is the first port, for good.
   */
  lemma {:induction false} OnlyAFailedReservationLeaks(moves: seq<Move>, id: nat)
    requires After(moves).Some? && id in After(moves).value.sessions
    ensures var s := After(moves).value.sessions[id];
            Over(s) && s.fields.status != Ready ==> Owned(s) == if s.leaked.Some? then {s.leaked.value} else {}
  {
    EverythingEndsOnce(moves, id);
  }

  // ---- runs of one session, to show what goes wrong

  // The moves lead to a registry of this one session.
  ghost predicate Leads(moves: seq<Move>, id: nat, s: Session, reserved: set<nat>) {
    After(moves) == Some(State(map[id := s], reserved))
  }

  lemma {:induction false} Starts(id: nat)
    ensures Leads([Create(id)], id, FRESH, {})
  {
    assert [Create(id)][..0] == [] && After([]) == Some(State(map[], {}));
    assert map[][id := FRESH] == map[id := FRESH];
  }

  lemma {:induction false} Boots(moves: seq<Move>, id: nat, s: Session, reserved: set<nat>, ok: bool, port: nat)
    returns (more: seq<Move>, t: Session, next: set<nat>)
    requires Leads(moves, id, s, reserved) && BootStep(s, reserved, ok, port).Some?
    ensures more == moves + [BootMove(id, ok, port)] && Leads(more, id, t, next) && Some((t, next)) == BootStep(s, reserved, ok, port)
  {
    more := moves + [BootMove(id, ok, port)];
    t, next := BootStep(s, reserved, ok, port).value.0, BootStep(s, reserved, ok, port).value.1;
    assert more[..|moves|] == moves && map[id := s][id := t] == map[id := t];
  }

  lemma {:induction false} Stops(moves: seq<Move>, id: nat, s: Session, reserved: set<nat>)
    returns (more: seq<Move>, t: Session, next: set<nat>)
    requires Leads(moves, id, s, reserved) && StopStep(s, reserved).Some?
    ensures more == moves + [StopMove(id)] && Leads(more, id, t, next) && Some((t, next)) == StopStep(s, reserved)
  {
    more := moves + [StopMove(id)];
    t, next := StopStep(s, reserved).value.0, StopStep(s, reserved).value.1;
    assert more[..|moves|] == moves && map[id := s][id := t] == map[id := t];
  }

  /**
   * The failing run: the second reservation raises, the thread cleans up and ends, and the first port
   * is still reserved although the session has ended everything it had started.
   */
  lemma {:induction false} FailedReservationLeaks(id: nat, port: nat) returns (moves: seq<Move>, s: Session)
    ensures Leads(moves, id, s, {port})
    ensures Over(s) && s.fields.status == Error && EndedOnce(s) && s.leaked == Some(port)
  {
    moves, s := [Create(id)], FRESH;
    var reserved: set<nat> := {};
    Starts(id);
    moves, s, reserved := Boots(moves, id, s, reserved, true, 0);
    moves, s, reserved := Boots(moves, id, s, reserved, true, port);
    assert reserved == {port};
    moves, s, reserved := Boots(moves, id, s, reserved, false, 0);
    moves, s, reserved := Boots(moves, id, s, reserved, true, 0);
    moves, s, reserved := Boots(moves, id, s, reserved, true, 0);
    moves, s, reserved := Boots(moves, id, s, reserved, true, 0);
    moves, s, reserved := Boots(moves, id, s, reserved, true, 0);
  }

  lemma {:induction false} MoveKeepsLeak(s: State, move: Move, id: nat)
    requires Inv(s) && Apply(s, move).Some? && id in s.sessions && s.sessions[id].leaked.Some?
    ensures id in Apply(s, move).value.sessions && Apply(s, move).value.sessions[id].leaked == s.sessions[id].leaked
  {
    match move
    case BootMove(a, ok, port) =>
      if a == id {
        BootKeepsLeak(s.sessions[id], s.reserved, ok, port);
      }
    case StopMove(a) =>
      if a == id {
        StopKeepsLeak(s.sessions[id], s.reserved);
      }
    case _ =>
  }

  lemma {:induction false} BootKeepsLeak(s: Session, reserved: set<nat>, ok: bool, port: nat)
    requires SessionInv(s) && s.leaked.Some? && BootStep(s, reserved, ok, port).Some?
    ensures BootStep(s, reserved, ok, port).value.0.leaked == s.leaked
  {
  }

  lemma {:induction false} StopKeepsLeak(s: Session, reserved: set<nat>)
    requires s.leaked.Some? && StopStep(s, reserved).Some?
    ensures StopStep(s, reserved).value.0.leaked == s.leaked
  {
  }

  /** Whatever any session does later, a leaked port stays reserved: nobody ever gets it again. */
  lemma {:induction false} LeakIsForGood(moves: seq<Move>, i: nat, id: nat)
    requires i <= |moves| && After(moves).Some? && After(moves[..i]).Some?
    requires id in After(moves[..i]).value.sessions && After(moves[..i]).value.sessions[id].leaked.Some?
    ensures var leaked, later := After(moves[..i]).value.sessions[id].leaked, After(moves).value;
            id in later.sessions && later.sessions[id].leaked == leaked && leaked.value in later.reserved
    decreases |moves|
  {
    var n := |moves| - 1;
    if i == |moves| {
      assert moves[..i] == moves;
    } else {
      assert moves[..n][..i] == moves[..i];
      LeakIsForGood(moves[..n], i, id);
      ReachableHasInv(moves[..n]);
      MoveKeepsLeak(After(moves[..n]).value, moves[n], id);
    }
    ReachableHasInv(moves);
    HeldIsReserved(After(moves).value, id);
    assert After(moves).value.sessions[id].leaked.value in Owned(After(moves).value.sessions[id]);
  }

  // A boot thread that has handed over its ports and its sandbox.
  lemma {:induction false} RunsToAwait(id: nat, pair: Pair) returns (moves: seq<Move>, s: Session)
    requires pair.runtime != pair.preview
    ensures Leads(moves, id, s, {pair.runtime, pair.preview})
    ensures s.boot == AwaitRuntime(pair) && s.stopper == NotCalled && s.server == Life(0, 0)
    ensures s.fields == Fields(Starting, false, Some(pair), true, false, false)
  {
    moves, s := [Create(id)], FRESH;
    var reserved: set<nat> := {};
    Starts(id);
    moves, s, reserved := Boots(moves, id, s, reserved, true, 0);
    moves, s, reserved := Boots(moves, id, s, reserved, true, pair.runtime);
    moves, s, reserved := Boots(moves, id, s, reserved, true, pair.preview);
    assert reserved == {pair.runtime, pair.preview};
    moves, s, reserved := Boots(moves, id, s, reserved, true, 0);
    moves, s, reserved := Boots(moves, id, s, reserved, true, 0);
    moves, s, reserved := Boots(moves, id, s, reserved, true, 0);
    moves, s, reserved := Boots(moves, id, s, reserved, true, 0);
  }

  /**
   * The other failing run: a stop that comes after the sandbox was handed over and before the proxy is
   * opened releases the ports, yet the boot thread still opens its proxy on one of them.  For a while
   * a proxy runs on a port that the registry holds free.
   */
  lemma {:induction false} ProxyOnReleasedPort(id: nat, pair: Pair) returns (moves: seq<Move>, s: Session)
    requires pair.runtime != pair.preview
    ensures Leads(moves, id, s, {})
    ensures s.stopper == Stopped && s.boot == PublishProxy(pair) && ServerRuns(s)
  {
    moves, s := RunsToAwait(id, pair);
    var reserved := {pair.runtime, pair.preview};
    moves, s, reserved := Stops(moves, id, s, reserved);
    moves, s, reserved := Stops(moves, id, s, reserved);
    moves, s, reserved := Stops(moves, id, s, reserved);
    moves, s, reserved := Stops(moves, id, s, reserved);
    assert reserved == {};
    moves, s, reserved := Boots(moves, id, s, reserved, true, 0);
    moves, s, reserved := Boots(moves, id, s, reserved, true, 0);
  }

  /** And that is the only way: a running proxy has its ports unless a stop took and released them. */
  lemma {:induction false} RunningProxyKeepsPorts(moves: seq<Move>, id: nat)
    requires After(moves).Some? && id in After(moves).value.sessions
    ensures ServerRuns(After(moves).value.sessions[id]) ==> KeepsPorts(After(moves).value.sessions[id])
  {
    ReachableHasInv(moves);
    ProxyPorts(After(moves).value.sessions[id]);
  }

  // The session has its ports unless a stop took them; a failing boot thread shuts the proxy down first.
  ghost predicate KeepsPorts(s: Session) {
    && s.pair.Some?
    && (Ports(s.pair) <= Owned(s) <==> !s.stopper.Stopped? || (s.boot.ShutProxy? && s.boot.taken.ports.Some?))
  }

  lemma {:induction false} ProxyPorts(s: Session)
    requires SessionInv(s)
    ensures ServerRuns(s) ==> KeepsPorts(s)
  {
  }
}
