/**
 The run layer of the lifecycle engine, on values.

 A world gives every application name its manager (as stored in the cluster) and its
 in-progress entry (as kept by the factory). One step is an operator operation, one
 reconcile, one watcher completion, the early status write of a running helm operation,
 a middleware installation that begins to wait for its launch, a deletion, or a restart of
 the process. What helm, the image service, the clock and
 the API server answer is part of the step.

 Assumptions of this layer: a reconcile is atomic and reads the current store; cancelling
 an entry and the wake-up of its watcher are one step; a helm operation that is cancelled
 before its worker has chosen a final write makes none. Polling operations, and a middleware
 installation that waits for its launch with its write already chosen, still make theirs.
 The interleaving of the critical sections themselves is the subject of module LockLayer.
 */
module Lifecycle {
  import opened Wrappers
  import opened AppStates

  /** An operation registered in the factory. `early` records that its own helm operation has
      already moved the manager to Initializing; `launching` that a middleware is installed, its
      worker has chosen to write Initializing, and waits for the launch. */
  datatype Entry = Entry(state: State, early: bool, launching: bool := false)

  datatype Mgr = Mgr(mtype: AppType, state: State, gen: nat)

  /** What the two stores hold for one name. */
  datatype Slot = Slot(mgr: Option<Mgr>, op: Option<Entry>)

  const EMPTY := Slot(None, None)

  type World = map<string, Slot>

  function At(w: World, n: string): Slot {
    if n in w then w[n] else EMPTY
  }

  function StateOf(s: Slot): State {
    if s.mgr.Some? then s.mgr.value.state else NoState
  }

  // ---------------------------------------------------------------------------------------
  // Oracles and events

  datatype Lookup = Exists | Missing | LookupError

  /** timeout: the state is older than its time-to-live; lookup: the Application object;
      work: the synchronous part of Exec succeeds; wake: what a cancelled operation does; write,
      fallback: the status patches of the step itself and of its fallback succeed. */
  datatype Oracle = Oracle(timeout: bool, lookup: Lookup, work: bool, wake: Wake, write: bool, fallback: bool)

  /** write: the patch of the woken watcher succeeds; late: the worker of a middleware that waits
      for its launch reacts to the cancel before the watcher does. */
  datatype Wake = Wake(write: bool, late: bool)

  /** How an asynchronous operation ends. */
  datatype Outcome = Done | WorkError | PodPending | LaunchError | LaunchStopped

  datatype Door = Http | Webhook

  datatype Action =
    | Reconcile(oracle: Oracle)
    | Complete(outcome: Outcome, finalWrite: bool)
    | EarlyWrite(earlyOk: bool)
    | Launch
    | Operate(op: OpType, door: Door, mtype: AppType)
    | Delete

  datatype Event = On(name: string, action: Action) | Restart

  // ---------------------------------------------------------------------------------------
  // Status writes and entries

  /** One status patch: it succeeds only when the manager exists, and bumps the generation. */
  function Write(s: Slot, target: State, ok: bool): Slot {
    if ok && s.mgr.Some?
    then s.(mgr := Some(s.mgr.value.(state := target, gen := s.mgr.value.gen + 1)))
    else s
  }

  /** The write a cancelled operation still makes when its watcher wakes up. */
  function WakeState(e: Entry, late: bool): Option<State> {
    match e.state
    case Resuming => Some(ResumeFailed)
    case InstallingCanceling => Some(InstallingCancelFailed)
    case Installing => if e.launching then Some(if late then InstallingCanceling else Initializing) else None
    case _ => None
  }

  /** cancelOperation together with the wake-up of the cancelled watcher. */
  function CancelOperation(s: Slot, wake: Wake): Slot {
    match s.op
    case None => s
    case Some(e) =>
      match WakeState(e, wake.late)
      case None => s.(op := None)
      case Some(t) => Write(s.(op := None), t, wake.write)
  }

  datatype NewResult = Fresh | InProgress | UnknownInProgress

  /** The decision of the factory for a manager in state st. */
  function New(st: State, op: Option<Entry>): NewResult {
    if op.None? then Fresh
    else if op.value.state == st then InProgress
    else if IsCanceling(st) then Fresh
    else UnknownInProgress
  }

  // ---------------------------------------------------------------------------------------
  // Reconcile

  /** States whose object is created with a positive time-to-live. */
  predicate HasTtl(st: State) {
    match st
    case Pending | Downloading | Installing | Initializing | Stopping | Upgrading | ApplyingEnv
      | Resuming | InstallingCanceling | Uninstalling => true
    case _ => false
  }

  /** What one reconcile does to its application, in this order: cancel the registered
      operation, write a status, register a new operation. */
  datatype Effect = Effect(cancel: bool, write: Option<State>, register: Option<State>)

  const NOTHING := Effect(false, None, None)

  function WriteOnly(t: State, ok: bool): Effect {
    if ok then Effect(false, Some(t), None) else NOTHING
  }

  function CancelAndWrite(t: State, ok: bool): Effect {
    Effect(true, if ok then Some(t) else None, None)
  }

  function RegisterOnly(st: State): Effect {
    Effect(false, None, Some(st))
  }

  function Apply(s: Slot, e: Effect, wake: Wake): Slot {
    var c := if e.cancel then CancelOperation(s, wake) else s;
    var d := if e.write.Some? then Write(c, e.write.value, true) else c;
    if e.register.Some? then d.(op := Some(Entry(e.register.value, false))) else d
  }

  /** Cancel, called by a reconcile that finds the state timed out. */
  function TimeoutEffect(st: State, o: Oracle): Effect {
    match st
    case Pending => WriteOnly(PendingCanceled, o.write)
    case Downloading => WriteOnly(DownloadingCanceling, o.write)
    case Installing => WriteOnly(InstallingCanceling, o.write)
    case Initializing => WriteOnly(InitializingCanceling, o.write)
    case Upgrading => WriteOnly(UpgradingCanceling, o.write)
    case ApplyingEnv => WriteOnly(ApplyingEnvCanceling, o.write)
    case Resuming => WriteOnly(ResumingCanceling, o.write)
    case InstallingCanceling => CancelAndWrite(InstallingCancelFailed, o.write)
    case Uninstalling => CancelAndWrite(UninstallFailed, o.write)
    case _ => NOTHING
  }

  function ForceDelete(o: Oracle): Effect {
    WriteOnly(Uninstalled, o.work && o.write)
  }

  /** Exec of a fresh object. `gate` says that no manager is downloading. */
  function ExecEffect(st: State, o: Oracle, gate: bool): Effect {
    match st
    case Pending => WriteOnly(Downloading, o.work && gate && o.write)
    case Downloading => if o.work then RegisterOnly(st) else WriteOnly(DownloadFailed, o.write)
    case Installing => if o.work then RegisterOnly(st) else NOTHING
    case Initializing => if o.work then RegisterOnly(st) else NOTHING
    case Upgrading => RegisterOnly(st)
    case ApplyingEnv => RegisterOnly(st)
    case Uninstalling => RegisterOnly(st)
    case Resuming => if o.work then RegisterOnly(st) else WriteOnly(ResumeFailed, o.write)
    case Stopping => WriteOnly(if o.work then Stopped else StopFailed, o.write)
    case PendingCanceling => CancelAndWrite(PendingCanceled, o.write)
    case DownloadingCanceling => if o.work then CancelAndWrite(DownloadingCanceled, o.write) else NOTHING
    case InstallingCanceling =>
      if o.work then Effect(true, None, Some(st)) else CancelAndWrite(InstallingCancelFailed, o.write)
    case InitializingCanceling => CancelAndWrite(Stopping, o.write)
    case ResumingCanceling => CancelAndWrite(Stopping, o.write)
    case UpgradingCanceling => if o.work then CancelAndWrite(Stopping, o.write) else NOTHING
    case ApplyingEnvCanceling =>
      if o.write then CancelAndWrite(Stopping, true) else CancelAndWrite(ApplyingEnvCancelFailed, o.fallback)
    case UninstallFailed => ForceDelete(o)
    case InstallingCancelFailed => ForceDelete(o)
    case _ => NOTHING
  }

  /** States that are loaded through the factory. */
  function ThroughFactory(st: State, op: Option<Entry>, o: Oracle, gate: bool): Effect {
    match New(st, op)
    case UnknownInProgress => CancelAndWrite(st, false)
    case InProgress => if HasTtl(st) && o.timeout then TimeoutEffect(st, o) else NOTHING
    case Fresh => if HasTtl(st) && o.timeout then TimeoutEffect(st, o) else ExecEffect(st, o, gate)
  }

  function ReconcileEffect(m: Mgr, op: Option<Entry>, o: Oracle, gate: bool): Effect {
    match m.state
    case NoState | Failed | ResumingCancelFailed | ApplyingEnvCancelFailed => NOTHING
    case Uninstalled => if o.lookup == Exists then ForceDelete(o) else NOTHING
    case Running =>
      if o.lookup == LookupError then NOTHING
      else if New(Running, op) == UnknownInProgress then CancelAndWrite(Running, false)
      else if o.lookup == Missing && m.mtype == App then ForceDelete(o)
      else NOTHING
    case Pending => if o.lookup == Missing then ThroughFactory(Pending, op, o, gate) else NOTHING
    case _ => ThroughFactory(m.state, op, o, gate)
  }

  function ReconcileSlot(s: Slot, o: Oracle, gate: bool): Slot {
    if s.mgr.None? then s else Apply(s, ReconcileEffect(s.mgr.value, s.op, o, gate), o.wake)
  }

  // ---------------------------------------------------------------------------------------
  // Completion, early write, operator

  /** The status a finished operation writes, whatever the manager's state is by then. */
  function FinalState(e: Entry, t: AppType, out: Outcome): Option<State> {
    if e.early then Some(Initializing) else
    match e.state
    case Downloading => Some(if out.Done? then Installing else DownloadFailed)
    case Installing =>
      (match out
       case WorkError => Some(if e.launching then Initializing else InstallFailed)
       case PodPending => Some(if e.launching then Initializing else Stopping)
       case Done => Some(if t == Middleware then Running else Initializing)
       case LaunchError => Some(if t == Middleware then InstallingCanceling else Initializing)
       case LaunchStopped => Some(Initializing))
    case Initializing =>
      (match out
       case Done => Some(Running)
       case LaunchStopped => None
       case _ => Some(InitializingCanceling))
    case Upgrading => Some(if out.Done? then Initializing else UpgradeFailed)
    case ApplyingEnv => Some(if out.Done? then Initializing else ApplyEnvFailed)
    case Uninstalling => Some(if out.Done? then Uninstalled else UninstallFailed)
    case Resuming => Some(if out.Done? then Initializing else ResumeFailed)
    case InstallingCanceling => Some(if out.Done? then InstallingCanceled else InstallingCancelFailed)
    case _ => None
  }

  function CompleteSlot(s: Slot, out: Outcome, ok: bool): Slot {
    match s.op
    case None => s
    case Some(e) =>
      var t := if s.mgr.Some? then s.mgr.value.mtype else App;
      match FinalState(e, t, out)
      case None => s.(op := None)
      case Some(f) => Write(s.(op := None), f, ok)
  }

  predicate WritesEarly(st: State) {
    match st
    case Installing | Upgrading | ApplyingEnv => true
    case _ => false
  }

  /** WaitForStartUp of a running helm operation of an app marks it Initializing, once. */
  function EarlySlot(s: Slot, ok: bool): Slot {
    if ok && s.op.Some? && s.mgr.Some? && WritesEarly(s.op.value.state) && !s.op.value.early
       && s.mgr.value.mtype == App
    then Write(s.(op := Some(s.op.value.(early := true))), Initializing, true)
    else s
  }

  /** A middleware is installed, and its worker waits for the launch with a write chosen. */
  function LaunchSlot(s: Slot): Slot {
    if s.op.Some? && s.mgr.Some? && s.op.value.state == Installing && s.mgr.value.mtype == Middleware
    then s.(op := Some(s.op.value.(launching := true)))
    else s
  }

  function Target(op: OpType, door: Door, cur: State): State {
    match op
    case InstallOp => Pending
    case UpgradeOp => Upgrading
    case UninstallOp => Uninstalling
    case StopOp => Stopping
    case ResumeOp => Resuming
    case ApplyEnvOp => if door == Http then ApplyingEnv else cur
    case CancelOp =>
      if CancelState(cur) == NoState && door == Http then cur else CancelState(cur)
  }

  predicate Accepted(s: Slot, op: OpType, door: Door, t: AppType) {
    && IsOperationAllowed(StateOf(s), op)
    && (s.mgr.Some? ==> s.mgr.value.mtype == t)
    && (door == Webhook ==> t == App)
  }

  function OperateSlot(s: Slot, op: OpType, door: Door, t: AppType): Slot {
    if !Accepted(s, op, door, t) then s
    else if s.mgr.None? then s.(mgr := Some(Mgr(t, Target(op, door, NoState), 1)))
    else Write(s, Target(op, door, StateOf(s)), true)
  }

  /** The deletion webhook refuses every operating state. */
  function DeleteSlot(s: Slot): Slot {
    if IsOperating(StateOf(s)) then s else s.(mgr := None)
  }

  // ---------------------------------------------------------------------------------------
  // Steps and runs

  function StepSlot(s: Slot, a: Action, gate: bool): Slot {
    match a
    case Reconcile(o) => ReconcileSlot(s, o, gate)
    case Complete(out, ok) => CompleteSlot(s, out, ok)
    case EarlyWrite(ok) => EarlySlot(s, ok)
    case Launch => LaunchSlot(s)
    case Operate(op, door, t) => OperateSlot(s, op, door, t)
    case Delete => DeleteSlot(s)
  }

  /** The one-download gate: no manager is downloading. */
  predicate Gate(w: World) {
    forall n <- w :: StateOf(w[n]) != Downloading
  }

  function Step(w: World, e: Event): World {
    match e
    case On(n, a) => w[n := StepSlot(At(w, n), a, Gate(w))]
    case Restart => map n <- w :: w[n].(op := None)
  }

  function Run(w: World, es: seq<Event>): World {
    if es == [] then w else Step(Run(w, es[..|es| - 1]), es[|es| - 1])
  }
}
