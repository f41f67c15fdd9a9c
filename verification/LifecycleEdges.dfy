/** The state changes the code really makes, compared with the table that documents them. */
module LifecycleEdges {
  import opened Wrappers
  import opened AppStates
  import opened Lifecycle
  import opened LifecycleSafety
  import opened LifecycleReach

  /** The source's own table of valid transitions, which no code consults. */
  predicate Documented(a: State, b: State) {
    match a
    case Pending => b.Downloading? || b.PendingCanceling?
    case Downloading => b.Installing? || b.DownloadFailed? || b.DownloadingCanceling?
    case Installing => b.Initializing? || b.InstallFailed? || b.InstallingCanceling? || b.Stopping?
    case Initializing => b.Running? || b.InitializingCanceling?
    case Running => b.Stopping? || b.Upgrading? || b.ApplyingEnv? || b.Uninstalling?
    case Stopping => b.Stopped? || b.StopFailed?
    case Upgrading => b.Initializing? || b.UpgradeFailed? || b.UpgradingCanceling?
    case ApplyingEnv => b.Initializing? || b.ApplyEnvFailed? || b.ApplyingEnvCanceling?
    case Uninstalling => b.Uninstalled? || b.UninstallFailed?
    case PendingCanceling => b.PendingCanceled? || b.PendingCancelFailed?
    case DownloadingCanceling => b.DownloadingCanceled? || b.DownloadingCancelFailed?
    case InstallingCanceling => b.InstallingCanceled? || b.InstallingCancelFailed?
    case InitializingCanceling => b.Stopping?
    case Resuming => b.ResumingCanceling? || b.ResumeFailed? || b.Initializing?
    case ResumingCanceling => b.Stopping?
    case UpgradingCanceling => b.Stopping?
    case ApplyingEnvCanceling => b.Stopping?
    case Stopped => b.Resuming? || b.Uninstalling? || b.Upgrading? || b.ApplyingEnv?
    case DownloadFailed => b.Pending?
    case InstallFailed => b.Pending?
    case StopFailed => b.Stopping? || b.Upgrading? || b.ApplyingEnv? || b.Uninstalling?
    case UpgradeFailed => b.Stopping? || b.Upgrading? || b.Uninstalling?
    case ApplyEnvFailed => b.Stopping? || b.ApplyingEnv? || b.Uninstalling?
    case ResumeFailed => b.Resuming? || b.Uninstalling?
    case UninstallFailed => b.Uninstalling?
    case PendingCancelFailed => b.PendingCanceling?
    case DownloadingCancelFailed => b.DownloadingCanceling?
    case InstallingCancelFailed => b.InstallingCanceling?
    case _ => false
  }

  /** Documented, but no code makes it. */
  predicate NeverMade(a: State, b: State) {
    match a
    case PendingCanceling => b.PendingCancelFailed?
    case DownloadingCanceling => b.DownloadingCancelFailed?
    case StopFailed => b.ApplyingEnv?
    case UpgradeFailed => b.Stopping?
    case ApplyEnvFailed => b.Stopping?
    case _ => false
  }

  /** Made by the code, but not documented. */
  predicate Undocumented(a: State, b: State) {
    match a
    case NoState | PendingCanceled | DownloadingCanceled | InstallingCanceled | Uninstalled => b.Pending?
    case Pending => b.PendingCanceled?
    case Installing => b.Running?
    case Running => b.Uninstalled?
    case UninstallFailed => b.Uninstalled?
    case InstallingCancelFailed => b.Uninstalled? || b.Uninstalling?
    case ApplyingEnvCancelFailed => b.Uninstalling? || b.NoState?
    case ResumeFailed => b.Upgrading? || b.ApplyingEnv?
    case DownloadingCanceling => b.Installing? || b.DownloadFailed?
    case InstallingCanceling => b.Initializing? || b.Running? || b.InstallFailed? || b.Stopping?
    case Initializing => b.InstallingCanceled? || b.InstallingCancelFailed?
    case InitializingCanceling => b.Running? || b.Initializing? || b.InstallingCanceled? || b.InstallingCancelFailed?
    case ResumingCanceling => b.Initializing? || b.ResumeFailed?
    case UpgradingCanceling => b.Initializing? || b.UpgradeFailed?
    case ApplyingEnvCanceling => b.Initializing? || b.ApplyEnvFailed? || b.ApplyingEnvCancelFailed?
    case _ => false
  }

  predicate Edge(a: State, b: State) {
    (Documented(a, b) && !NeverMade(a, b)) || Undocumented(a, b)
  }

  /** In some run from an empty cluster, some step changes the state of a name from a to b. */
  ghost predicate Made(a: State, b: State) {
    exists es: seq<Event>, n: string, act: Action ::
      && !act.Delete? && StateOf(At(Run(map[], es), n)) == a
      && StateOf(At(Step(Run(map[], es), On(n, act)), n)) == b
  }

  // ---------------------------------------------------------------------------------------
  // Every step is an edge

  lemma ExecMakesEdges(st: State, o: Oracle, gate: bool)
    ensures ExecEffect(st, o, gate).write.Some? ==> Edge(st, ExecEffect(st, o, gate).write.value)
    ensures TimeoutEffect(st, o).write.Some? ==> Edge(st, TimeoutEffect(st, o).write.value)
  {
  }

  lemma FactoryMakesEdges(st: State, op: Option<Entry>, o: Oracle, gate: bool)
    ensures
      var e := ThroughFactory(st, op, o, gate);
      e.write.Some? ==> Edge(st, e.write.value)
  {
    ExecMakesEdges(st, o, gate);
  }

  lemma ForcedEdges(a: State)
    requires a == Running || a == Uninstalled
    ensures a == Uninstalled || Edge(a, Uninstalled)
  {
  }

  lemma EffectMakesEdges(m: Mgr, op: Option<Entry>, o: Oracle, gate: bool)
    ensures
      var e := ReconcileEffect(m, op, o, gate);
      e.write.Some? ==> m.state == e.write.value || Edge(m.state, e.write.value)
  {
    if m.state == Running || m.state == Uninstalled {
      ForcedEdges(m.state);
    } else {
      FactoryMakesEdges(m.state, op, o, gate);
    }
  }

  /** The wake-up write of a cancelled operation. */
  lemma CancelMakesEdges(s: Slot, wake: Wake)
    requires SlotOk(s)
    ensures
      var t := StateOf(CancelOperation(s, wake));
      t == StateOf(s) || Edge(StateOf(s), t) || (StateOf(s) == Resuming && t == ResumeFailed)
  {
  }

  predicate SameOrEdge(a: State, f: Option<State>) {
    f.Some? ==> f.value == a || Edge(a, f.value)
  }

  /** An operation that ends in its own state. */
  lemma OwnFinalMakesEdges(e: Entry, t: AppType, out: Outcome)
    requires !e.early && (e.launching ==> e.state == Installing)
    ensures SameOrEdge(e.state, FinalState(e, t, out))
  {
    match e.state
    case Downloading =>
    case Installing =>
    case Initializing =>
    case Upgrading =>
    case ApplyingEnv =>
    case Uninstalling =>
    case Resuming =>
    case InstallingCanceling =>
    case _ =>
  }

  /** An operation that ends while it is about to be cancelled. */
  lemma LateFinalMakesEdges(e: Entry, t: AppType, out: Outcome)
    requires !e.early && CancelState(e.state) != NoState
    ensures SameOrEdge(CancelState(e.state), FinalState(e, t, out))
  {
    match e.state
    case Downloading =>
    case Installing =>
    case Initializing =>
    case Upgrading =>
    case ApplyingEnv =>
    case Resuming =>
    case _ =>
  }

  lemma FinalMakesEdges(e: Entry, st: State, t: AppType, out: Outcome)
    requires Agrees(e, st) && (e.launching ==> e.state == Installing)
    ensures SameOrEdge(st, FinalState(e, t, out))
  {
    if !e.early && st == e.state {
      OwnFinalMakesEdges(e, t, out);
    } else if !e.early && st == CancelState(e.state) && st != NoState {
      LateFinalMakesEdges(e, t, out);
    }
  }

  lemma CompleteMakesEdges(s: Slot, out: Outcome, ok: bool)
    requires SlotOk(s)
    ensures SameOrEdge(StateOf(s), Some(StateOf(CompleteSlot(s, out, ok))))
  {
    if s.op.Some? {
      FinalMakesEdges(s.op.value, StateOf(s), s.mgr.value.mtype, out);
    }
  }

  /** An accepted operation moves along an edge, or keeps the state. */
  lemma TargetMakesEdges(a: State, op: OpType, door: Door)
    requires !Dead(a) && IsOperationAllowed(a, op)
    ensures Target(op, door, a) == a || Edge(a, Target(op, door, a))
  {
    match op
    case InstallOp =>
    case UninstallOp =>
    case UpgradeOp =>
    case StopOp =>
    case ResumeOp =>
    case CancelOp =>
    case ApplyEnvOp =>
  }

  lemma OperateMakesEdges(s: Slot, op: OpType, door: Door, t: AppType)
    requires !Dead(StateOf(s))
    ensures
      var b := StateOf(OperateSlot(s, op, door, t));
      b == StateOf(s) || Edge(StateOf(s), b)
  {
    if Accepted(s, op, door, t) {
      TargetMakesEdges(StateOf(s), op, door);
    }
  }

  lemma StepMakesEdges(s: Slot, act: Action, gate: bool)
    requires SlotOk(s) && !Dead(StateOf(s)) && !act.Delete?
    ensures
      var b := StateOf(StepSlot(s, act, gate));
      b == StateOf(s) || Edge(StateOf(s), b)
  {
    match act
    case Reconcile(o) =>
      if s.mgr.Some? {
        EffectMakesEdges(s.mgr.value, s.op, o, gate);
        CancelMakesEdges(s, o.wake);
      }
    case Complete(out, ok) => CompleteMakesEdges(s, out, ok);
    case Operate(op, door, t) => OperateMakesEdges(s, op, door, t);
    case EarlyWrite(ok) =>
    case Launch =>
  }

  // ---------------------------------------------------------------------------------------
  // Every edge is made

  /** A change some step makes in a slot some run reaches. */
  lemma ByStep(s: Slot, act: Action, b: State)
    requires Reaches(s) && !act.Delete? && StateOf(StepSlot(s, act, StateOf(s) != Downloading)) == b
    ensures Made(StateOf(s), b)
  {
    var es :| Run(map[], es) == map[NAME := s];
    StepAlone(s, act);
    assert StateOf(At(Run(map[], es), NAME)) == StateOf(s);
    assert StateOf(At(Step(Run(map[], es), On(NAME, act)), NAME)) == b;
  }

  /** A change a watcher makes when its operation ends. */
  lemma ByWatcher(m: Mgr, e: Entry, b: State, out: Outcome)
    requires Reaches(Slot(Some(m), Some(e))) && FinalState(e, m.mtype, out) == Some(b)
    ensures Made(m.state, b)
  {
    ByStep(Slot(Some(m), Some(e)), Complete(out, true), b);
  }

  /** A change a reconcile makes when nothing is registered. */
  lemma ByReconcile(a: State, b: State, o: Oracle)
    requires !Dead(a) && a != NoState
    requires forall gen :: ReconcileEffect(Mgr(App, a, gen), None, o, a != Downloading) == WriteOnly(b, true)
                           || ReconcileEffect(Mgr(App, a, gen), None, o, a != Downloading) == CancelAndWrite(b, true)
    ensures Made(a, b)
  {
    var gen := ReachPlain(a);
    ByStep(AppSlot(a, gen, None), Action.Reconcile(o), b);
  }

  const ON_TIME := Oracle(false, Missing, true, Wake(true, false), true, true)
  const LATE := ON_TIME.(timeout := true)
  const WORKLESS := ON_TIME.(work := false)

  function OpFor(b: State): OpType {
    match b
    case Pending => InstallOp
    case Upgrading => UpgradeOp
    case Uninstalling => UninstallOp
    case Stopping => StopOp
    case Resuming => ResumeOp
    case ApplyingEnv => ApplyEnvOp
    case _ => CancelOp
  }

  /** Edges of the operator. */
  predicate ByOperator(a: State, b: State) {
    IsOperationAllowed(a, OpFor(b)) && Target(OpFor(b), Http, a) == b
  }

  lemma OperatorEdgesMade(a: State, b: State)
    requires ByOperator(a, b) && !Dead(a)
    ensures Made(a, b)
  {
    var act := Operate(OpFor(b), Http, App);
    if a == NoState {
      assert StateOf(At(Run(map[], []), NAME)) == a && StateOf(At(Step(Run(map[], []), On(NAME, act)), NAME)) == b;
    } else {
      var gen := ReachPlain(a);
      ByStep(AppSlot(a, gen, None), act, b);
    }
  }

  /** The outcome that makes the watcher of an operation started in st write b. */
  function OutcomeFor(st: State, b: State): Outcome {
    match b
    case Stopping => PodPending
    case InstallFailed | DownloadFailed | UpgradeFailed | ApplyEnvFailed | ResumeFailed
      | UninstallFailed | InstallingCancelFailed => WorkError
    case _ => Done
  }

  /** What the watcher of an operation started in st can write. */
  predicate WatcherWrites(st: State, b: State) {
    match st
    case Downloading => b.Installing? || b.DownloadFailed?
    case Installing => b.Initializing? || b.InstallFailed? || b.Stopping? || b.Running?
    case Initializing => b.Running?
    case Upgrading => b.Initializing? || b.UpgradeFailed?
    case ApplyingEnv => b.Initializing? || b.ApplyEnvFailed?
    case Resuming => b.Initializing? || b.ResumeFailed?
    case Uninstalling => b.Uninstalled? || b.UninstallFailed?
    case InstallingCanceling => b.InstallingCanceled? || b.InstallingCancelFailed?
    case _ => false
  }

  /** An operation starts when its manager is reconciled. */
  lemma ReachEntered(st: State) returns (gen: nat)
    requires Registered(st)
    ensures Reaches(AppSlot(st, gen, Entered(st)))
  {
    gen := ReachPlain(st);
    Then(AppSlot(st, gen, None), ALL_GOOD, AppSlot(st, gen, Entered(st)));
  }

  /** The operator cancels a running operation; its entry stays until the next reconcile. */
  lemma ReachCancelled(st: State) returns (gen: nat)
    requires Registered(st) && CancelState(st) != NoState
    ensures Reaches(AppSlot(CancelState(st), gen, Entered(st)))
  {
    var g := ReachEntered(st);
    gen := g + 1;
    Then(AppSlot(st, g, Entered(st)), CANCEL, AppSlot(CancelState(st), gen, Entered(st)));
  }

  lemma FinalOfWatcher(st: State, b: State)
    requires WatcherWrites(st, b) && b != Running
    ensures FinalState(Entry(st, false), App, OutcomeFor(st, b)) == Some(b)
  {
  }

  lemma WatcherEdgesMade(st: State, b: State)
    requires WatcherWrites(st, b)
    ensures Made(st, b)
  {
    if st == Installing && b == Running {
      ReachMiddlewareInstalling();
      ByWatcher(Mgr(Middleware, Installing, 3), Entry(Installing, false), b, Done);
    } else {
      var gen := ReachEntered(st);
      if b != Running {
        FinalOfWatcher(st, b);
      }
      ByWatcher(Mgr(App, st, gen), Entry(st, false), b, OutcomeFor(st, b));
    }
  }

  lemma CancelledWatcherEdgesMade(st: State, b: State)
    requires WatcherWrites(st, b) && CancelState(st) != NoState
    ensures Made(CancelState(st), b)
  {
    if st == Installing && b == Running {
      ReachCancelledLaunch();
      ByWatcher(Mgr(Middleware, InstallingCanceling, 4), LAUNCHING.value, b, Done);
    } else {
      var gen := ReachCancelled(st);
      if b != Running {
        FinalOfWatcher(st, b);
      }
      ByWatcher(Mgr(App, CancelState(st), gen), Entry(st, false), b, OutcomeFor(st, b));
    }
  }

  /** The watcher of a cancelled middleware installation, with the manager back in Initializing. */
  lemma AbandonedLaunchMade(a: State, b: State)
    requires BackToInitializing(a) && WatcherWrites(InstallingCanceling, b)
    ensures Made(a, b)
  {
    ReachCancelledLaunch();
    var s, t := MiddlewareSlot(Initializing, 5, Entered(InstallingCanceling)),
                MiddlewareSlot(InitializingCanceling, 6, Entered(InstallingCanceling));
    Then(s, Operate(CancelOp, Http, Middleware), t);
    FinalOfWatcher(InstallingCanceling, b);
    ByWatcher(if a == Initializing then s.mgr.value else t.mgr.value, Entry(InstallingCanceling, false), b,
              OutcomeFor(InstallingCanceling, b));
  }

  predicate Busy(a: State) {
    IsOperating(a) && !IsCanceling(a)
  }

  /** What a busy state becomes without the operator. */
  predicate BusyWrites(a: State, b: State) {
    || (a == Pending && (b == Downloading || b == PendingCanceled))
    || (a == Stopping && (b == Stopped || b == StopFailed))
    || WatcherWrites(a, b)
    || (a == Initializing && WatcherWrites(InstallingCanceling, b))
  }

  lemma BusyDocumented(a: State, b: State)
    requires Documented(a, b) && !NeverMade(a, b) && Busy(a) && !ByOperator(a, b)
    ensures BusyWrites(a, b)
  {
    match a
    case Pending =>
    case Downloading =>
    case Installing =>
    case Initializing =>
    case Resuming =>
    case Upgrading =>
    case ApplyingEnv =>
    case Stopping =>
    case Uninstalling =>
  }

  lemma BusyUndocumented(a: State, b: State)
    requires Undocumented(a, b) && Busy(a)
    ensures BusyWrites(a, b)
  {
  }

  lemma BusyEdges(a: State, b: State)
    requires Edge(a, b) && !ByOperator(a, b) && Busy(a)
    ensures BusyWrites(a, b)
  {
    if Undocumented(a, b) {
      BusyUndocumented(a, b);
    } else {
      BusyDocumented(a, b);
    }
  }

  lemma PendingOrStoppingMade(a: State, b: State)
    requires (a == Pending && (b == Downloading || b == PendingCanceled))
             || (a == Stopping && (b == Stopped || b == StopFailed))
    ensures Made(a, b)
  {
    ByReconcile(a, b, if b == PendingCanceled then LATE else if b == StopFailed then WORKLESS else ON_TIME);
  }

  lemma BusyEdgesMade(a: State, b: State)
    requires Edge(a, b) && !ByOperator(a, b) && Busy(a)
    ensures Made(a, b)
  {
    BusyEdges(a, b);
    if a == Pending || a == Stopping {
      PendingOrStoppingMade(a, b);
    } else if WatcherWrites(a, b) {
      WatcherEdgesMade(a, b);
    } else {
      AbandonedLaunchMade(a, b);
    }
  }

  /** The operation a canceling state cancels. */
  function Cancelled(a: State): State {
    match a
    case DownloadingCanceling => Downloading
    case InstallingCanceling => Installing
    case InitializingCanceling => Initializing
    case ResumingCanceling => Resuming
    case UpgradingCanceling => Upgrading
    case _ => ApplyingEnv
  }

  /** What a reconcile of a canceling state writes on its own. */
  predicate CancelWrites(a: State, b: State) {
    match a
    case PendingCanceling => b.PendingCanceled?
    case DownloadingCanceling => b.DownloadingCanceled?
    case ApplyingEnvCanceling => b.Stopping? || b.ApplyingEnvCancelFailed?
    case InitializingCanceling | ResumingCanceling | UpgradingCanceling => b.Stopping?
    case _ => false
  }

  lemma CancelWritesMade(a: State, b: State)
    requires CancelWrites(a, b)
    ensures Made(a, b)
  {
    ByReconcile(a, b, if b == ApplyingEnvCancelFailed then ON_TIME.(write := false) else ON_TIME);
  }

  lemma CancelingEdges(a: State, b: State)
    requires Edge(a, b) && IsCanceling(a)
    ensures || CancelWrites(a, b)
            || (a == InstallingCanceling && WatcherWrites(a, b))
            || (a != PendingCanceling && WatcherWrites(Cancelled(a), b))
            || (a == InitializingCanceling && (b == Initializing || WatcherWrites(InstallingCanceling, b)))
  {
    match a
    case PendingCanceling =>
    case DownloadingCanceling =>
    case InstallingCanceling =>
    case InitializingCanceling =>
    case ResumingCanceling =>
    case UpgradingCanceling =>
    case ApplyingEnvCanceling =>
  }

  /** A helm operation that has written Initializing early, and is cancelled there, ends. */
  lemma CancelledEarlyMade()
    ensures Made(InitializingCanceling, Initializing)
  {
    UnknownInProgressReachable();
    var e := Entry(Installing, true);
    Then(AppSlot(Initializing, 4, Some(e)), CANCEL, AppSlot(InitializingCanceling, 5, Some(e)));
    ByWatcher(Mgr(App, InitializingCanceling, 5), e, Initializing, Done);
  }

  lemma CancelingEdgesMade(a: State, b: State)
    requires Edge(a, b) && IsCanceling(a)
    ensures Made(a, b)
  {
    CancelingEdges(a, b);
    if CancelWrites(a, b) {
      CancelWritesMade(a, b);
    } else if a == InstallingCanceling && WatcherWrites(a, b) {
      WatcherEdgesMade(a, b);
    } else if a == InitializingCanceling && b == Initializing {
      CancelledEarlyMade();
    } else if a != PendingCanceling && WatcherWrites(Cancelled(a), b) {
      CancelledWatcherEdgesMade(Cancelled(a), b);
    } else {
      AbandonedLaunchMade(a, b);
    }
  }

  lemma RestingDocumented(a: State, b: State)
    requires Documented(a, b) && !NeverMade(a, b) && !IsOperating(a)
    ensures ByOperator(a, b)
  {
  }

  lemma RestingUndocumented(a: State, b: State)
    requires Undocumented(a, b) && !IsOperating(a)
    ensures || ByOperator(a, b)
            || (b == Uninstalled && (a == Running || a == UninstallFailed || a == InstallingCancelFailed))
            || (a == ApplyingEnvCancelFailed && b == NoState)
  {
  }

  lemma RestingEdges(a: State, b: State)
    requires Edge(a, b) && !ByOperator(a, b) && !IsOperating(a)
    ensures || (b == Uninstalled && (a == Running || a == UninstallFailed || a == InstallingCancelFailed))
            || (a == ApplyingEnvCancelFailed && b == NoState)
  {
    if Documented(a, b) && !NeverMade(a, b) {
      RestingDocumented(a, b);
    } else {
      RestingUndocumented(a, b);
    }
  }

  lemma RestingEdgesMade(a: State, b: State)
    requires Edge(a, b) && !ByOperator(a, b) && !Dead(a) && !IsOperating(a)
    ensures Made(a, b)
  {
    RestingEdges(a, b);
    if b == Uninstalled {
      ByReconcile(a, b, ON_TIME);
    } else {
      var gen := ReachPlain(a);
      ByStep(AppSlot(a, gen, None), Operate(CancelOp, Webhook, App), b);
    }
  }

  /** The code makes exactly the documented state changes, minus five it never makes, plus the
      undocumented ones: from a state some run can reach, a step of some run changes a to b if and
      only if (a, b) is an edge. */
  lemma EdgesExactly(a: State, b: State)
    requires a != b && !Dead(a)
    ensures Made(a, b) <==> Edge(a, b)
  {
    if Made(a, b) {
      var es: seq<Event>, n: string, act: Action :|
        && !act.Delete? && StateOf(At(Run(map[], es), n)) == a
        && StateOf(At(Step(Run(map[], es), On(n, act)), n)) == b;
      RunKeepsJoint(map[], es);
      StepMakesEdges(At(Run(map[], es), n), act, Gate(Run(map[], es)));
    }
    if Edge(a, b) {
      if ByOperator(a, b) {
        OperatorEdgesMade(a, b);
      } else if IsCanceling(a) {
        CancelingEdgesMade(a, b);
      } else if IsOperating(a) {
        BusyEdgesMade(a, b);
      } else {
        RestingEdgesMade(a, b);
      }
    }
  }
}
