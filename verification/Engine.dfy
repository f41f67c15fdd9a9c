/**
 The lifecycle engine in the form of its source: a factory that keeps the map of in-progress
 operations under a mutex, and a controller that reads and patches managers in the cluster.
 Every method is proved against the slot functions of module Lifecycle.
 */
module Engine {
  import opened Wrappers
  import opened AppStates
  import opened Lifecycle
  import opened LifecycleSafety

  class StatefulAppFactory {
    var inProgress: map<string, Entry>
    /** The mutex is held. Locking it again would block for ever. */
    var mu: bool

    constructor ()
      ensures inProgress == map[] && !mu
    {
      inProgress := map[];
      mu := false;
    }

    function OpOf(name: string): Option<Entry>
      reads this`inProgress
    {
      if name in inProgress then Some(inProgress[name]) else None
    }

    method Lock()
      requires !mu
      modifies this`mu
      ensures mu
    {
      mu := true;
    }

    method Unlock()
      requires mu
      modifies this`mu
      ensures !mu
    {
      mu := false;
    }

    method New(name: string, st: State) returns (r: NewResult)
      requires !mu
      modifies this`mu
      ensures !mu && r == Lifecycle.New(st, OpOf(name))
    {
      Lock();
      r := Fresh;
      if name in inProgress {
        if inProgress[name].state == st {
          r := InProgress;
        } else if !IsCanceling(st) {
          r := UnknownInProgress;
        }
      }
      Unlock();
    }

    /** Registers a polling operation unless the name is taken. */
    method WaitForPolling(name: string, st: State) returns (registered: bool)
      requires !mu
      modifies this`mu, this`inProgress
      ensures !mu && registered == (name !in old(inProgress))
      ensures inProgress == if registered then old(inProgress)[name := Entry(st, false)] else old(inProgress)
    {
      Lock();
      registered := name !in inProgress;
      if registered {
        inProgress := inProgress[name := Entry(st, false)];
      }
      Unlock();
    }

    /** Starts and registers an operation unless the same one is already running. */
    method ExecAndWatch(name: string, st: State) returns (started: bool)
      requires !mu
      modifies this`mu, this`inProgress
      ensures !mu
      ensures started == !(name in old(inProgress) && old(inProgress)[name].state == st)
      ensures inProgress == if started then old(inProgress)[name := Entry(st, false)] else old(inProgress)
    {
      Lock();
      started := true;
      if name in inProgress && inProgress[name].state == st {
        started := false;
      } else {
        inProgress := inProgress[name := Entry(st, false)];
      }
      Unlock();
    }

    /** Removes the entry of a name: cancelOperation, and the first act of a watcher. */
    method Remove(name: string) returns (removed: Option<Entry>)
      requires !mu
      modifies this`mu, this`inProgress
      ensures !mu && removed == old(OpOf(name))
      ensures inProgress == old(inProgress) - {name}
    {
      Lock();
      removed := OpOf(name);
      inProgress := inProgress - {name};
      Unlock();
    }
  }

  class AppMgrController {
    /** The managers as stored in the cluster. */
    var managers: map<string, Mgr>
    const factory: StatefulAppFactory

    constructor (stored: map<string, Mgr>)
      ensures managers == stored && fresh(factory)
      ensures factory.inProgress == map[] && !factory.mu
    {
      managers := stored;
      factory := new StatefulAppFactory();
    }

    function SlotOf(name: string): Slot
      reads this`managers, factory`inProgress
    {
      Slot(if name in managers then Some(managers[name]) else None, factory.OpOf(name))
    }

    predicate NoneDownloading()
      reads this`managers
    {
      forall n <- managers :: managers[n].state != Downloading
    }

    /** The two stores as one world of module Lifecycle. */
    function CurrentWorld(): World
      reads this`managers, factory`inProgress
    {
      map n | n in managers.Keys + factory.inProgress.Keys :: SlotOf(n)
    }

    lemma WorldOfSlots()
      ensures forall n :: At(CurrentWorld(), n) == SlotOf(n)
      ensures Gate(CurrentWorld()) == NoneDownloading()
    {
      if Gate(CurrentWorld()) {
        forall n <- managers ensures managers[n].state != Downloading {
          assert CurrentWorld()[n] == SlotOf(n);
        }
      }
    }

    // -------------------------------------------------------------------------------------
    // Status writes

    /** Get, change a copy, patch: any of the two requests may fail. */
    method UpdateStatus(name: string, st: State, ok: bool) returns (done: bool)
      modifies this`managers
      ensures done == (ok && name in old(managers))
      ensures SlotOf(name) == Write(old(SlotOf(name)), st, ok)
      ensures forall n :: n != name ==> SlotOf(n) == old(SlotOf(n))
    {
      done := false;
      if name in managers {
        var am := managers[name];
        var copy := am.(state := st);
        copy := copy.(gen := copy.gen + 1);
        if ok {
          managers := managers[name := copy];
          done := true;
        }
      }
    }

    /** cancelOperation, followed by what the woken watcher still writes. */
    method CancelAndWake(name: string, wake: Wake)
      requires !factory.mu
      modifies this`managers, factory`mu, factory`inProgress
      ensures !factory.mu
      ensures SlotOf(name) == CancelOperation(old(SlotOf(name)), wake)
      ensures forall n :: n != name ==> SlotOf(n) == old(SlotOf(n))
    {
      var removed := factory.Remove(name);
      if removed.Some? {
        if removed.value.state == Resuming {
          var _ := UpdateStatus(name, ResumeFailed, wake.write);
        } else if removed.value.state == InstallingCanceling {
          var _ := UpdateStatus(name, InstallingCancelFailed, wake.write);
        } else if removed.value.state == Installing && removed.value.launching {
          var _ := UpdateStatus(name, if wake.late then InstallingCanceling else Initializing, wake.write);
        }
      }
    }

    // -------------------------------------------------------------------------------------
    // Exec and Cancel of the state objects

    /** Moves a pending manager to Downloading if nothing is being downloaded. The count and the
        update happen under the factory's lock. */
    method ExecPending(name: string, o: Oracle)
      requires !factory.mu && name in managers && managers[name].state == Pending
      modifies this`managers, factory`mu
      ensures !factory.mu
      ensures SlotOf(name) == Apply(old(SlotOf(name)), ExecEffect(Pending, o, old(NoneDownloading())), o.wake)
      ensures forall n :: n != name ==> SlotOf(n) == old(SlotOf(n))
    {
      factory.Lock();
      if o.work {
        var count := 0;
        var rest := managers.Keys;
        while rest != {}
          invariant rest <= managers.Keys
          invariant count == 0 <==> forall n <- managers.Keys - rest :: managers[n].state != Downloading
          decreases rest
        {
          var n :| n in rest;
          rest := rest - {n};
          if managers[n].state == Downloading {
            count := count + 1;
          }
        }
        assert count == 0 <==> NoneDownloading();
        if count < 1 && o.write {
          var am := managers[name];
          managers := managers[name := am.(state := Downloading, gen := am.gen + 1)];
        }
      }
      factory.Unlock();
    }

    /** Creates the image manager and hands over to polling, or fails the download. */
    method ExecDownloading(name: string, o: Oracle)
      requires !factory.mu && name in managers && managers[name].state == Downloading && name !in factory.inProgress
      modifies this`managers, factory`mu, factory`inProgress
      ensures !factory.mu
      ensures SlotOf(name) == Apply(old(SlotOf(name)), ExecEffect(Downloading, o, old(NoneDownloading())), o.wake)
      ensures forall n :: n != name ==> SlotOf(n) == old(SlotOf(n))
    {
      if !o.work {
        var _ := UpdateStatus(name, DownloadFailed, o.write);
      } else {
        var _ := factory.WaitForPolling(name, Downloading);
      }
    }

    /** Scales the workloads up and hands over to polling, or fails the resume. */
    method ExecResuming(name: string, o: Oracle)
      requires !factory.mu && name in managers && managers[name].state == Resuming && name !in factory.inProgress
      modifies this`managers, factory`mu, factory`inProgress
      ensures !factory.mu
      ensures SlotOf(name) == Apply(old(SlotOf(name)), ExecEffect(Resuming, o, old(NoneDownloading())), o.wake)
      ensures forall n :: n != name ==> SlotOf(n) == old(SlotOf(n))
    {
      if !o.work {
        var _ := UpdateStatus(name, ResumeFailed, o.write);
      } else {
        var _ := factory.WaitForPolling(name, Resuming);
      }
    }

    /** Installing and Initializing prepare a helm client first; the other helm operations do not. */
    method ExecHelm(name: string, st: State, o: Oracle)
      requires st == Installing || st == Initializing || st == Upgrading || st == ApplyingEnv || st == Uninstalling
      requires !factory.mu && name in managers && managers[name].state == st && name !in factory.inProgress
      modifies this`managers, factory`mu, factory`inProgress
      ensures !factory.mu
      ensures SlotOf(name) == Apply(old(SlotOf(name)), ExecEffect(st, o, old(NoneDownloading())), o.wake)
      ensures forall n :: n != name ==> SlotOf(n) == old(SlotOf(n))
    {
      if (st == Installing || st == Initializing) && !o.work {
        return;
      }
      var _ := factory.ExecAndWatch(name, st);
    }

    method ExecStopping(name: string, o: Oracle)
      requires name in managers && managers[name].state == Stopping
      modifies this`managers
      ensures SlotOf(name) == Apply(old(SlotOf(name)), ExecEffect(Stopping, o, old(NoneDownloading())), o.wake)
      ensures forall n :: n != name ==> SlotOf(n) == old(SlotOf(n))
    {
      if !o.work {
        var _ := UpdateStatus(name, StopFailed, o.write);
        return;
      }
      var _ := UpdateStatus(name, Stopped, o.write);
    }

    /** Cancels the helm installation, uninstalls, and polls for the namespace to disappear. */
    method ExecInstallingCanceling(name: string, o: Oracle)
      requires !factory.mu && name in managers && managers[name].state == InstallingCanceling
      modifies this`managers, factory`mu, factory`inProgress
      ensures !factory.mu
      ensures SlotOf(name)
           == Apply(old(SlotOf(name)), ExecEffect(InstallingCanceling, o, old(NoneDownloading())), o.wake)
      ensures forall n :: n != name ==> SlotOf(n) == old(SlotOf(n))
    {
      CancelAndWake(name, o.wake);
      if !o.work {
        var _ := UpdateStatus(name, InstallingCancelFailed, o.write);
      } else {
        var _ := factory.WaitForPolling(name, InstallingCanceling);
      }
    }

    /** The canceling states that only cancel and move on. Two of them first mark the image
        manager as canceled. */
    method ExecCanceling(name: string, st: State, o: Oracle)
      requires st == PendingCanceling || st == DownloadingCanceling || st == InitializingCanceling
               || st == ResumingCanceling || st == UpgradingCanceling
      requires !factory.mu && name in managers && managers[name].state == st
      modifies this`managers, factory`mu, factory`inProgress
      ensures !factory.mu
      ensures SlotOf(name) == Apply(old(SlotOf(name)), ExecEffect(st, o, old(NoneDownloading())), o.wake)
      ensures forall n :: n != name ==> SlotOf(n) == old(SlotOf(n))
    {
      if (st == DownloadingCanceling || st == UpgradingCanceling) && !o.work {
        return;
      }
      CancelAndWake(name, o.wake);
      var next := if st == PendingCanceling then PendingCanceled
                  else if st == DownloadingCanceling then DownloadingCanceled
                  else Stopping;
      var _ := UpdateStatus(name, next, o.write);
    }

    /** As above, with a second write when the first one fails. */
    method ExecApplyingEnvCanceling(name: string, o: Oracle)
      requires !factory.mu && name in managers && managers[name].state == ApplyingEnvCanceling
      modifies this`managers, factory`mu, factory`inProgress
      ensures !factory.mu
      ensures SlotOf(name)
           == Apply(old(SlotOf(name)), ExecEffect(ApplyingEnvCanceling, o, old(NoneDownloading())), o.wake)
      ensures forall n :: n != name ==> SlotOf(n) == old(SlotOf(n))
    {
      CancelAndWake(name, o.wake);
      var done := UpdateStatus(name, Stopping, o.write);
      if !done {
        var _ := UpdateStatus(name, ApplyingEnvCancelFailed, o.fallback);
      }
    }

    method ForceDeleteApp(name: string, o: Oracle)
      requires name in managers
      modifies this`managers
      ensures SlotOf(name) == Apply(old(SlotOf(name)), ForceDelete(o), o.wake)
      ensures forall n :: n != name ==> SlotOf(n) == old(SlotOf(n))
    {
      if o.work {
        var _ := UpdateStatus(name, Uninstalled, o.write);
      }
    }

    /** Cancel of a state object that was found to be late. */
    method Cancel(name: string, st: State, o: Oracle)
      requires !factory.mu && name in managers && managers[name].state == st
      modifies this`managers, factory`mu, factory`inProgress
      ensures !factory.mu
      ensures SlotOf(name) == Apply(old(SlotOf(name)), TimeoutEffect(st, o), o.wake)
      ensures forall n :: n != name ==> SlotOf(n) == old(SlotOf(n))
    {
      match st {
        case Pending => var _ := UpdateStatus(name, PendingCanceled, o.write);
        case Downloading => var _ := UpdateStatus(name, DownloadingCanceling, o.write);
        case Installing => var _ := UpdateStatus(name, InstallingCanceling, o.write);
        case Initializing => var _ := UpdateStatus(name, InitializingCanceling, o.write);
        case Upgrading => var _ := UpdateStatus(name, UpgradingCanceling, o.write);
        case ApplyingEnv => var _ := UpdateStatus(name, ApplyingEnvCanceling, o.write);
        case Resuming => var _ := UpdateStatus(name, ResumingCanceling, o.write);
        case InstallingCanceling =>
          CancelAndWake(name, o.wake);
          var _ := UpdateStatus(name, InstallingCancelFailed, o.write);
        case Uninstalling =>
          CancelAndWake(name, o.wake);
          var _ := UpdateStatus(name, UninstallFailed, o.write);
        case _ =>
      }
    }

    method Exec(name: string, st: State, o: Oracle)
      requires !factory.mu && name in managers && managers[name].state == st
      requires IsCanceling(st) || name !in factory.inProgress
      modifies this`managers, factory`mu, factory`inProgress
      ensures !factory.mu
      ensures SlotOf(name) == Apply(old(SlotOf(name)), ExecEffect(st, o, old(NoneDownloading())), o.wake)
      ensures forall n :: n != name ==> SlotOf(n) == old(SlotOf(n))
    {
      match st {
        case Pending => ExecPending(name, o);
        case Downloading => ExecDownloading(name, o);
        case Resuming => ExecResuming(name, o);
        case Installing | Initializing | Upgrading | ApplyingEnv | Uninstalling => ExecHelm(name, st, o);
        case Stopping => ExecStopping(name, o);
        case InstallingCanceling => ExecInstallingCanceling(name, o);
        case ApplyingEnvCanceling => ExecApplyingEnvCanceling(name, o);
        case PendingCanceling | DownloadingCanceling | InitializingCanceling
          | ResumingCanceling | UpgradingCanceling => ExecCanceling(name, st, o);
        case UninstallFailed | InstallingCancelFailed => ForceDeleteApp(name, o);
        case _ =>
      }
    }

    // -------------------------------------------------------------------------------------
    // Reconcile

    /** Loads the state object through the factory, then cancels it if it is late or runs it. */
    method LoadAndRun(name: string, st: State, o: Oracle)
      requires !factory.mu && name in managers && managers[name].state == st
      modifies this`managers, factory`mu, factory`inProgress
      ensures !factory.mu
      ensures SlotOf(name) == Apply(old(SlotOf(name)),
                                    ThroughFactory(st, old(factory.OpOf(name)), o, old(NoneDownloading())), o.wake)
      ensures forall n :: n != name ==> SlotOf(n) == old(SlotOf(n))
    {
      var loaded := factory.New(name, st);
      if loaded == UnknownInProgress {
        CancelAndWake(name, o.wake);
      } else if HasTtl(st) && o.timeout {
        Cancel(name, st, o);
      } else if loaded == Fresh {
        Exec(name, st, o);
      }
    }

    /** A running app whose Application object is gone is force-deleted. */
    method LoadRunning(name: string, o: Oracle)
      requires !factory.mu && name in managers && managers[name].state == Running
      modifies this`managers, factory`mu, factory`inProgress
      ensures !factory.mu
      ensures SlotOf(name) == Apply(old(SlotOf(name)),
        ReconcileEffect(old(managers[name]), old(factory.OpOf(name)), o, old(NoneDownloading())), o.wake)
      ensures forall n :: n != name ==> SlotOf(n) == old(SlotOf(n))
    {
      if o.lookup != LookupError {
        var loaded := factory.New(name, Running);
        if loaded == UnknownInProgress {
          CancelAndWake(name, o.wake);
        } else if o.lookup == Missing && managers[name].mtype == App {
          ForceDeleteApp(name, o);
        }
      }
    }

    method Load(name: string, o: Oracle)
      requires !factory.mu && name in managers
      modifies this`managers, factory`mu, factory`inProgress
      ensures !factory.mu
      ensures SlotOf(name) == Apply(old(SlotOf(name)),
        ReconcileEffect(old(managers[name]), old(factory.OpOf(name)), o, old(NoneDownloading())), o.wake)
      ensures forall n :: n != name ==> SlotOf(n) == old(SlotOf(n))
    {
      var st := managers[name].state;
      if st == NoState || st == Failed || st == ResumingCancelFailed || st == ApplyingEnvCancelFailed {
        return;
      } else if st == Uninstalled {
        if o.lookup == Exists {
          ForceDeleteApp(name, o);
        }
      } else if st == Running {
        LoadRunning(name, o);
      } else if st != Pending || o.lookup == Missing {
        LoadAndRun(name, st, o);
      }
    }

    method Reconcile(name: string, o: Oracle)
      requires !factory.mu
      modifies this`managers, factory`mu, factory`inProgress
      ensures !factory.mu
      ensures SlotOf(name) == ReconcileSlot(old(SlotOf(name)), o, old(NoneDownloading()))
      ensures forall n :: n != name ==> SlotOf(n) == old(SlotOf(n))
    {
      if name in managers {
        Load(name, o);
      }
    }

    // -------------------------------------------------------------------------------------
    // Watchers, operators, the deletion webhook

    /** The end of an operation: its watcher removes the entry by name and then runs the final
        closure the worker has chosen. */
    method Watch(name: string, out: Outcome, finalWrite: bool)
      requires !factory.mu && name in factory.inProgress
      modifies this`managers, factory`mu, factory`inProgress
      ensures !factory.mu
      ensures SlotOf(name) == CompleteSlot(old(SlotOf(name)), out, finalWrite)
      ensures forall n :: n != name ==> SlotOf(n) == old(SlotOf(n))
    {
      var e := factory.inProgress[name];
      var t := if name in managers then managers[name].mtype else App;
      var closure := FinalState(e, t, out);
      var _ := factory.Remove(name);
      if closure.Some? {
        var _ := UpdateStatus(name, closure.value, finalWrite);
      }
    }

    /** The status write a running helm operation of an app makes when its pods have started. The
        factory's entry keeps its own state; that it happened is remembered in `early`. */
    method MarkStartedUp(name: string, ok: bool)
      requires name in factory.inProgress
      modifies this`managers, factory`inProgress
      ensures SlotOf(name) == EarlySlot(old(SlotOf(name)), ok)
      ensures forall n :: n != name ==> SlotOf(n) == old(SlotOf(n))
    {
      var e := factory.inProgress[name];
      if name in managers && managers[name].mtype == App && WritesEarly(e.state) && !e.early {
        var done := UpdateStatus(name, Initializing, ok);
        if done {
          factory.inProgress := factory.inProgress[name := e.(early := true)];
        }
      }
    }

    /** The worker of a middleware installation has chosen to write Initializing and waits for the
        launch. */
    method MarkLaunching(name: string)
      requires name in factory.inProgress
      modifies factory`inProgress
      ensures SlotOf(name) == LaunchSlot(old(SlotOf(name)))
      ensures forall n :: n != name ==> SlotOf(n) == old(SlotOf(n))
    {
      var e := factory.inProgress[name];
      if name in managers && managers[name].mtype == Middleware && e.state == Installing {
        factory.inProgress := factory.inProgress[name := e.(launching := true)];
      }
    }

    /** An operation of the operator, through the HTTP handlers or the mutating webhook. */
    method Operate(name: string, op: OpType, door: Door, t: AppType) returns (accepted: bool)
      modifies this`managers
      ensures accepted == Accepted(old(SlotOf(name)), op, door, t)
      ensures SlotOf(name) == OperateSlot(old(SlotOf(name)), op, door, t)
      ensures forall n :: n != name ==> SlotOf(n) == old(SlotOf(n))
    {
      var cur := if name in managers then managers[name].state else NoState;
      accepted := IsOperationAllowed(cur, op)
                  && (name in managers ==> managers[name].mtype == t)
                  && (door == Webhook ==> t == App);
      if !accepted {
        return;
      }
      if name !in managers {
        managers := managers[name := Mgr(t, NoState, 0)];
      }
      var next := cur;
      match op {
        case InstallOp => next := Pending;
        case UpgradeOp => next := Upgrading;
        case UninstallOp => next := Uninstalling;
        case StopOp => next := Stopping;
        case ResumeOp => next := Resuming;
        case ApplyEnvOp => if door == Http { next := ApplyingEnv; }
        case CancelOp =>
          next := CancelState(cur);
          if next == NoState && door == Http {
            next := cur;
          }
      }
      var _ := UpdateStatus(name, next, true);
    }

    method DeleteManager(name: string) returns (deleted: bool)
      modifies this`managers
      ensures SlotOf(name) == DeleteSlot(old(SlotOf(name)))
      ensures deleted <==> old(SlotOf(name)).mgr.Some? && !IsOperating(StateOf(old(SlotOf(name))))
      ensures forall n :: n != name ==> SlotOf(n) == old(SlotOf(n))
    {
      deleted := name in managers && !IsOperating(managers[name].state);
      if deleted {
        managers := managers - {name};
      }
    }

    /** The periodic pass over all listed managers. */
    method ReconcileAll(list: seq<string>, os: seq<Oracle>)
      requires !factory.mu && |os| == |list|
      modifies this`managers, factory`mu, factory`inProgress
      ensures !factory.mu
      ensures forall n :: SlotOf(n) == At(Run(old(CurrentWorld()), Pass(list, os)), n)
    {
      var i := 0;
      WorldOfSlots();
      assert Pass(list[..0], os[..0]) == [];
      while i < |list|
        invariant 0 <= i <= |list| && !factory.mu
        invariant forall n :: SlotOf(n) == At(Run(old(CurrentWorld()), Pass(list[..i], os[..i])), n)
      {
        ghost var w := Run(old(CurrentWorld()), Pass(list[..i], os[..i]));
        GateOfSlots(w);
        Reconcile(list[i], os[i]);
        ghost var longer := Pass(list[..i + 1], os[..i + 1]);
        assert longer[..|longer| - 1] == Pass(list[..i], os[..i]);
        assert longer[|longer| - 1] == On(list[i], Action.Reconcile(os[i]));
        i := i + 1;
      }
      assert list[..i] == list && os[..i] == os;
    }

    // -------------------------------------------------------------------------------------
    // Any sequence of calls is a run

    /** One event, dispatched to the method that handles it. */
    method Perform(name: string, a: Action)
      requires !factory.mu
      modifies this`managers, factory`mu, factory`inProgress
      ensures !factory.mu
      ensures SlotOf(name) == StepSlot(old(SlotOf(name)), a, old(NoneDownloading()))
      ensures forall n :: n != name ==> SlotOf(n) == old(SlotOf(n))
    {
      match a {
        case Reconcile(o) => Reconcile(name, o);
        case Complete(out, ok) =>
          if name in factory.inProgress {
            Watch(name, out, ok);
          }
        case EarlyWrite(ok) =>
          if name in factory.inProgress {
            MarkStartedUp(name, ok);
          }
        case Launch =>
          if name in factory.inProgress {
            MarkLaunching(name);
          }
        case Operate(op, door, t) => var _ := Operate(name, op, door, t);
        case Delete => var _ := DeleteManager(name);
      }
    }

    /** Whatever the events and whatever their order, the two stores move as a run of module
        Lifecycle; from a fresh process, their entries and managers always agree. */
    method PerformAll(calls: seq<(string, Action)>)
      requires !factory.mu
      modifies this`managers, factory`mu, factory`inProgress
      ensures !factory.mu
      ensures forall n :: SlotOf(n) == At(Run(old(CurrentWorld()), EventsOf(calls)), n)
      ensures old(factory.inProgress) == map[] ==> Joint(CurrentWorld())
    {
      var i := 0;
      WorldOfSlots();
      assert EventsOf(calls[..0]) == [];
      while i < |calls|
        invariant 0 <= i <= |calls| && !factory.mu
        invariant forall n :: SlotOf(n) == At(Run(old(CurrentWorld()), EventsOf(calls[..i])), n)
      {
        GateOfSlots(Run(old(CurrentWorld()), EventsOf(calls[..i])));
        Perform(calls[i].0, calls[i].1);
        ghost var longer := EventsOf(calls[..i + 1]);
        assert longer[..|longer| - 1] == EventsOf(calls[..i]);
        i := i + 1;
      }
      assert calls[..i] == calls;
      if old(factory.inProgress) == map[] {
        RunKeepsJoint(old(CurrentWorld()), EventsOf(calls));
        JointOfSlots(Run(old(CurrentWorld()), EventsOf(calls)));
      }
    }

    lemma JointOfSlots(w: World)
      requires Joint(w) && forall n :: SlotOf(n) == At(w, n)
      ensures Joint(CurrentWorld())
    {
      forall n | n in CurrentWorld() ensures SlotOk(CurrentWorld()[n]) {
        assert SlotOf(n) == At(w, n);
      }
    }

    lemma GateOfSlots(w: World)
      requires forall n :: SlotOf(n) == At(w, n)
      ensures Gate(w) == NoneDownloading()
    {
      if Gate(w) {
        forall n <- managers ensures managers[n].state != Downloading {
          assert SlotOf(n) == At(w, n);
        }
      } else {
        var n :| n in w && StateOf(w[n]) == Downloading;
        assert SlotOf(n) == At(w, n);
      }
    }
  }

  function EventsOf(calls: seq<(string, Action)>): (es: seq<Event>)
    ensures |es| == |calls|
  {
    seq(|calls|, i requires 0 <= i < |calls| => On(calls[i].0, calls[i].1))
  }

  /** One pass as a run of module Lifecycle. */
  function Pass(list: seq<string>, os: seq<Oracle>): (es: seq<Event>)
    requires |os| == |list|
    ensures |es| == |list|
  {
    seq(|list|, i requires 0 <= i < |list| => On(list[i], Action.Reconcile(os[i])))
  }
}
