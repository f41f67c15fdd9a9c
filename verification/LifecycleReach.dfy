/** Which manager states any run from an empty cluster can reach, with a run for each. */
module LifecycleReach {
  import opened Wrappers
  import opened AppStates
  import opened Lifecycle

  /** States the code declares, and partly handles, but never writes. */
  predicate Dead(st: State) {
    match st
    case PendingCancelFailed | DownloadingCancelFailed | UpgradingCancelFailed
      | ResumingCancelFailed | InitializingCanceled | ResumingCanceled | UpgradingCanceled
      | ApplyingEnvCanceled | Failed => true
    case _ => false
  }

  lemma ExecAvoidsDead(st: State, o: Oracle, gate: bool)
    ensures ExecEffect(st, o, gate).write.Some? ==> !Dead(ExecEffect(st, o, gate).write.value)
    ensures TimeoutEffect(st, o).write.Some? ==> !Dead(TimeoutEffect(st, o).write.value)
  {
  }

  lemma ReconcileAvoidsDead(m: Mgr, op: Option<Entry>, o: Oracle, gate: bool)
    ensures
      var e := ReconcileEffect(m, op, o, gate);
      e.write.Some? ==> !Dead(e.write.value)
  {
    ExecAvoidsDead(m.state, o, gate);
  }

  lemma StepAvoidsDead(s: Slot, a: Action, gate: bool)
    requires !Dead(StateOf(s))
    ensures !Dead(StateOf(StepSlot(s, a, gate)))
  {
    match a
    case Reconcile(o) =>
      if s.mgr.Some? {
        ReconcileAvoidsDead(s.mgr.value, s.op, o, gate);
      }
    case _ =>
  }

  lemma {:induction false} RunAvoidsDead(es: seq<Event>, n: string)
    ensures !Dead(StateOf(At(Run(map[], es), n)))
  {
    if es == [] {
    } else {
      RunAvoidsDead(es[..|es| - 1], n);
      match es[|es| - 1]
      case On(m, a) =>
        var prev := Run(map[], es[..|es| - 1]);
        if m == n {
          StepAvoidsDead(At(prev, n), a, Gate(prev));
        }
      case Restart =>
    }
  }

  // ---------------------------------------------------------------------------------------
  // Runs of a single application

  const NAME := "app"

  /** Some run leaves a cluster with one application in the given slot. */
  ghost predicate Reaches(s: Slot) {
    exists es :: Run(map[], es) == map[NAME := s]
  }

  function AppSlot(st: State, gen: nat, op: Option<Entry>): Slot {
    Slot(Some(Mgr(App, st, gen)), op)
  }

  function Entered(st: State): Option<Entry> {
    Some(Entry(st, false))
  }

  lemma Append(w: World, es: seq<Event>, e: Event)
    ensures Run(w, es + [e]) == Step(Run(w, es), e)
  {
    assert (es + [e])[..|es|] == es;
  }

  lemma StepAlone(s: Slot, a: Action)
    ensures Step(map[NAME := s], On(NAME, a)) == map[NAME := StepSlot(s, a, StateOf(s) != Downloading)]
  {
    var w: World := map[NAME := s];
    assert Gate(w) == (StateOf(s) != Downloading) by { assert w[NAME] == s; }
  }

  /** Extends a run by one action on the application. */
  lemma Then(s: Slot, a: Action, s': Slot)
    requires Reaches(s)
    requires s' == StepSlot(s, a, StateOf(s) != Downloading)
    ensures Reaches(s')
  {
    var es :| Run(map[], es) == map[NAME := s];
    Append(map[], es, On(NAME, a));
    StepAlone(s, a);
  }

  /** Everything is answered positively and nothing is late. */
  const ALL_GOOD := Reconcile(Oracle(false, Missing, true, Wake(true, false), true, true))
  const WORK_FAILS := Reconcile(Oracle(false, Missing, false, Wake(true, false), true, true))
  const WRITE_FAILS := Reconcile(Oracle(false, Missing, true, Wake(true, false), false, true))
  const TOO_LATE := Reconcile(Oracle(true, Missing, true, Wake(true, false), true, true))
  const CANCEL := Operate(CancelOp, Http, App)

  lemma ReachPending()
    ensures Reaches(AppSlot(Pending, 1, None))
  {
    Append(map[], [], On(NAME, Operate(InstallOp, Http, App)));
    assert Run(map[], [] + [On(NAME, Operate(InstallOp, Http, App))]) == map[NAME := AppSlot(Pending, 1, None)];
  }

  lemma ReachDownloading()
    ensures Reaches(AppSlot(Downloading, 2, None))
    ensures Reaches(AppSlot(PendingCanceling, 2, None)) && Reaches(AppSlot(PendingCanceled, 3, None))
  {
    ReachPending();
    var s := AppSlot(Pending, 1, None);
    Then(s, ALL_GOOD, AppSlot(Downloading, 2, None));
    Then(s, CANCEL, AppSlot(PendingCanceling, 2, None));
    Then(AppSlot(PendingCanceling, 2, None), ALL_GOOD, AppSlot(PendingCanceled, 3, None));
  }

  lemma ReachInstalling()
    ensures Reaches(AppSlot(Installing, 3, None)) && Reaches(AppSlot(DownloadFailed, 3, None))
    ensures Reaches(AppSlot(DownloadingCanceling, 3, None)) && Reaches(AppSlot(DownloadingCanceled, 4, None))
  {
    ReachDownloading();
    var s := AppSlot(Downloading, 2, None);
    var t := AppSlot(Downloading, 2, Entered(Downloading));
    Then(s, ALL_GOOD, t);
    Then(t, Complete(Done, true), AppSlot(Installing, 3, None));
    Then(s, WORK_FAILS, AppSlot(DownloadFailed, 3, None));
    Then(s, CANCEL, AppSlot(DownloadingCanceling, 3, None));
    Then(AppSlot(DownloadingCanceling, 3, None), ALL_GOOD, AppSlot(DownloadingCanceled, 4, None));
  }

  lemma ReachInitializing()
    ensures Reaches(AppSlot(Installing, 3, Entered(Installing)))
    ensures Reaches(AppSlot(Initializing, 4, None)) && Reaches(AppSlot(InstallFailed, 4, None))
  {
    ReachInstalling();
    var t := AppSlot(Installing, 3, Entered(Installing));
    Then(AppSlot(Installing, 3, None), ALL_GOOD, t);
    Then(t, Complete(Done, true), AppSlot(Initializing, 4, None));
    Then(t, Complete(WorkError, true), AppSlot(InstallFailed, 4, None));
  }

  lemma ReachInstallCancel()
    ensures Reaches(AppSlot(InstallingCanceling, 4, None)) && Reaches(AppSlot(InstallingCanceled, 5, None))
    ensures Reaches(AppSlot(InstallingCancelFailed, 5, None))
  {
    ReachInstalling();
    var s := AppSlot(InstallingCanceling, 4, None);
    var t := AppSlot(InstallingCanceling, 4, Entered(InstallingCanceling));
    Then(AppSlot(Installing, 3, None), CANCEL, s);
    Then(s, ALL_GOOD, t);
    Then(t, Complete(Done, true), AppSlot(InstallingCanceled, 5, None));
    Then(t, Complete(WorkError, true), AppSlot(InstallingCancelFailed, 5, None));
  }

  lemma ReachRunning()
    ensures Reaches(AppSlot(Running, 5, None)) && Reaches(AppSlot(InitializingCanceling, 5, None))
  {
    ReachInitializing();
    var s := AppSlot(Initializing, 4, None);
    var t := AppSlot(Initializing, 4, Entered(Initializing));
    Then(s, CANCEL, AppSlot(InitializingCanceling, 5, None));
    Then(s, ALL_GOOD, t);
    Then(t, Complete(Done, true), AppSlot(Running, 5, None));
  }

  lemma ReachStopped()
    ensures Reaches(AppSlot(Stopping, 6, None)) && Reaches(AppSlot(Stopped, 7, None))
    ensures Reaches(AppSlot(StopFailed, 7, None))
  {
    ReachRunning();
    var s := AppSlot(Stopping, 6, None);
    Then(AppSlot(Running, 5, None), Operate(StopOp, Http, App), s);
    Then(s, ALL_GOOD, AppSlot(Stopped, 7, None));
    Then(s, WORK_FAILS, AppSlot(StopFailed, 7, None));
  }

  lemma ReachResuming()
    ensures Reaches(AppSlot(Resuming, 8, None)) && Reaches(AppSlot(ResumingCanceling, 9, None))
    ensures Reaches(AppSlot(ResumeFailed, 9, None))
  {
    ReachStopped();
    var s := AppSlot(Resuming, 8, None);
    Then(AppSlot(Stopped, 7, None), Operate(ResumeOp, Http, App), s);
    Then(s, CANCEL, AppSlot(ResumingCanceling, 9, None));
    Then(s, WORK_FAILS, AppSlot(ResumeFailed, 9, None));
  }

  lemma ReachUninstalled()
    ensures Reaches(AppSlot(Uninstalling, 6, None)) && Reaches(AppSlot(Uninstalled, 7, None))
    ensures Reaches(AppSlot(UninstallFailed, 7, None))
  {
    ReachRunning();
    var s := AppSlot(Uninstalling, 6, None);
    var t := AppSlot(Uninstalling, 6, Entered(Uninstalling));
    Then(AppSlot(Running, 5, None), Operate(UninstallOp, Http, App), s);
    Then(s, ALL_GOOD, t);
    Then(t, Complete(Done, true), AppSlot(Uninstalled, 7, None));
    Then(t, Complete(WorkError, true), AppSlot(UninstallFailed, 7, None));
  }

  lemma ReachUpgrading()
    ensures Reaches(AppSlot(Upgrading, 6, None)) && Reaches(AppSlot(UpgradingCanceling, 7, None))
    ensures Reaches(AppSlot(UpgradeFailed, 7, None))
  {
    ReachRunning();
    var s := AppSlot(Upgrading, 6, None);
    var t := AppSlot(Upgrading, 6, Entered(Upgrading));
    Then(AppSlot(Running, 5, None), Operate(UpgradeOp, Http, App), s);
    Then(s, CANCEL, AppSlot(UpgradingCanceling, 7, None));
    Then(s, ALL_GOOD, t);
    Then(t, Complete(WorkError, true), AppSlot(UpgradeFailed, 7, None));
  }

  lemma ReachApplyingEnv()
    ensures Reaches(AppSlot(ApplyingEnv, 6, None)) && Reaches(AppSlot(ApplyingEnvCanceling, 7, None))
    ensures Reaches(AppSlot(ApplyEnvFailed, 7, None)) && Reaches(AppSlot(ApplyingEnvCancelFailed, 8, None))
  {
    ReachRunning();
    var s := AppSlot(ApplyingEnv, 6, None);
    var t := AppSlot(ApplyingEnv, 6, Entered(ApplyingEnv));
    Then(AppSlot(Running, 5, None), Operate(ApplyEnvOp, Http, App), s);
    Then(s, CANCEL, AppSlot(ApplyingEnvCanceling, 7, None));
    Then(AppSlot(ApplyingEnvCanceling, 7, None), WRITE_FAILS, AppSlot(ApplyingEnvCancelFailed, 8, None));
    Then(s, ALL_GOOD, t);
    Then(t, Complete(WorkError, true), AppSlot(ApplyEnvFailed, 7, None));
  }

  ghost predicate Reachable(st: State) {
    exists es, n :: StateOf(At(Run(map[], es), n)) == st
  }

  lemma ReachesIsReachable(s: Slot)
    requires Reaches(s)
    ensures Reachable(StateOf(s))
  {
    var es :| Run(map[], es) == map[NAME := s];
    assert StateOf(At(Run(map[], es), NAME)) == StateOf(s);
  }

  /** Every live state is reached by an application with nothing registered. */
  lemma ReachPlain(st: State) returns (gen: nat)
    requires !Dead(st) && st != NoState
    ensures Reaches(AppSlot(st, gen, None))
  {
    match st
    case Pending => ReachPending(); gen := 1;
    case Downloading | PendingCanceling => ReachDownloading(); gen := 2;
    case PendingCanceled => ReachDownloading(); gen := 3;
    case Installing | DownloadFailed | DownloadingCanceling => ReachInstalling(); gen := 3;
    case DownloadingCanceled => ReachInstalling(); gen := 4;
    case Initializing | InstallFailed => ReachInitializing(); gen := 4;
    case InstallingCanceling => ReachInstallCancel(); gen := 4;
    case InstallingCanceled | InstallingCancelFailed => ReachInstallCancel(); gen := 5;
    case Running | InitializingCanceling => ReachRunning(); gen := 5;
    case Stopping => ReachStopped(); gen := 6;
    case Stopped | StopFailed => ReachStopped(); gen := 7;
    case Resuming => ReachResuming(); gen := 8;
    case ResumingCanceling | ResumeFailed => ReachResuming(); gen := 9;
    case Uninstalling => ReachUninstalled(); gen := 6;
    case Uninstalled | UninstallFailed => ReachUninstalled(); gen := 7;
    case Upgrading => ReachUpgrading(); gen := 6;
    case UpgradingCanceling | UpgradeFailed => ReachUpgrading(); gen := 7;
    case ApplyingEnv => ReachApplyingEnv(); gen := 6;
    case ApplyingEnvCanceling | ApplyEnvFailed => ReachApplyingEnv(); gen := 7;
    case ApplyingEnvCancelFailed => ReachApplyingEnv(); gen := 8;
  }

  /** A state is current in some run from an empty cluster exactly when it is not dead. In
      particular the only reachable state whose cancel has no target is ApplyingEnvCancelFailed. */
  lemma ReachableExactly(st: State)
    ensures Reachable(st) <==> !Dead(st)
  {
    if Dead(st) {
      forall es, n ensures StateOf(At(Run(map[], es), n)) != st {
        RunAvoidsDead(es, n);
      }
    } else if st == NoState {
      assert StateOf(At(Run(map[], []), NAME)) == NoState;
    } else {
      var gen := ReachPlain(st);
      ReachesIsReachable(AppSlot(st, gen, None));
    }
  }

  /** The unknown-in-progress error is a real outcome: the early status write of an ordinary
      installation triggers a reconcile that finds the installation still registered. */
  lemma UnknownInProgressReachable()
    ensures Reaches(AppSlot(Initializing, 4, Some(Entry(Installing, true))))
    ensures New(Initializing, Some(Entry(Installing, true))) == UnknownInProgress
  {
    ReachInitializing();
    Then(AppSlot(Installing, 3, Entered(Installing)), EarlyWrite(true),
         AppSlot(Initializing, 4, Some(Entry(Installing, true))));
  }

  function MiddlewareSlot(st: State, gen: nat, op: Option<Entry>): Slot {
    Slot(Some(Mgr(Middleware, st, gen)), op)
  }

  lemma ReachMiddlewareDownloading()
    ensures Reaches(MiddlewareSlot(Downloading, 2, None))
  {
    var install := On(NAME, Operate(InstallOp, Http, Middleware));
    Append(map[], [], install);
    assert Run(map[], [] + [install]) == map[NAME := MiddlewareSlot(Pending, 1, None)];
    Then(MiddlewareSlot(Pending, 1, None), ALL_GOOD, MiddlewareSlot(Downloading, 2, None));
  }

  lemma ReachMiddlewareInstalling()
    ensures Reaches(MiddlewareSlot(Installing, 3, Entered(Installing)))
  {
    ReachMiddlewareDownloading();
    var s := MiddlewareSlot(Downloading, 2, Entered(Downloading));
    Then(MiddlewareSlot(Downloading, 2, None), ALL_GOOD, s);
    Then(s, Complete(Done, true), MiddlewareSlot(Installing, 3, None));
    Then(MiddlewareSlot(Installing, 3, None), ALL_GOOD, MiddlewareSlot(Installing, 3, Entered(Installing)));
  }

  const LAUNCHING := Some(Entry(Installing, false, true))

  lemma ReachCancelledLaunch()
    ensures Reaches(MiddlewareSlot(InstallingCanceling, 4, LAUNCHING))
    ensures Reaches(MiddlewareSlot(Initializing, 5, Entered(InstallingCanceling)))
  {
    ReachMiddlewareInstalling();
    Then(MiddlewareSlot(Installing, 3, Entered(Installing)), Launch, MiddlewareSlot(Installing, 3, LAUNCHING));
    Then(MiddlewareSlot(Installing, 3, LAUNCHING), TOO_LATE, MiddlewareSlot(InstallingCanceling, 4, LAUNCHING));
    Then(MiddlewareSlot(InstallingCanceling, 4, LAUNCHING), ALL_GOOD,
         MiddlewareSlot(Initializing, 5, Entered(InstallingCanceling)));
  }

  /** So is the other one: a middleware that misses its time limit while it waits for its launch is
      cancelled, goes back to Initializing, and leaves an entry that cancels an installation. */
  lemma CancelledLaunchReachesUnknown()
    ensures Reaches(MiddlewareSlot(Initializing, 5, Entered(InstallingCanceling)))
    ensures New(Initializing, Entered(InstallingCanceling)) == UnknownInProgress
  {
    ReachCancelledLaunch();
  }
}
