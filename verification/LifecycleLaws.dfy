/** What each kind of step does to one application, written out, and what follows for runs. */
module LifecycleLaws {
  import opened Wrappers
  import opened AppStates
  import opened Lifecycle
  import opened LifecycleSafety
  import opened LifecycleReach
  import opened LifecycleRuns

  /** The manager in state x, one generation on, with this entry. */
  function Moved(s: Slot, x: State, op: Option<Entry>): Slot
    requires s.mgr.Some?
  {
    Slot(Some(s.mgr.value.(state := x, gen := s.mgr.value.gen + 1)), op)
  }

  // ---------------------------------------------------------------------------------------
  // Ends of operations

  /** Where an operation leads when all goes well. */
  function GoalOf(st: State, t: AppType): State
    requires Registered(st)
  {
    match st
    case Downloading => Installing
    case Installing => if t == Middleware then Running else Initializing
    case Initializing => Running
    case Upgrading | ApplyingEnv | Resuming => Initializing
    case Uninstalling => Uninstalled
    case InstallingCanceling => InstallingCanceled
  }

  /** Where it leads when its work fails. */
  function FailedOf(st: State): State
    requires Registered(st)
  {
    match st
    case Downloading => DownloadFailed
    case Installing => InstallFailed
    case Initializing => InitializingCanceling
    case Upgrading => UpgradeFailed
    case ApplyingEnv => ApplyEnvFailed
    case Resuming => ResumeFailed
    case Uninstalling => UninstallFailed
    case InstallingCanceling => InstallingCancelFailed
  }

  /** An installation or a launch knows more outcomes than success and failure. */
  function EndOf(e: Entry, t: AppType, out: Outcome): Option<State>
    requires Registered(e.state)
  {
    if out.Done? then Some(GoalOf(e.state, t))
    else if e.state.Initializing? then (if out.LaunchStopped? then None else Some(InitializingCanceling))
    else if !e.state.Installing? then Some(FailedOf(e.state))
    else if out.LaunchStopped? || (t == App && out.LaunchError?) then Some(Initializing)
    else if out.LaunchError? then Some(InstallingCanceling)
    else if e.launching then Some(Initializing)
    else Some(if out.PodPending? then Stopping else InstallFailed)
  }

  /** The end of an operation, whatever the manager's state is by then. */
  lemma EndMeans(s: Slot, out: Outcome, gate: bool)
    requires SlotOk(s) && s.op.Some?
    ensures StepSlot(s, Complete(out, false), gate) == s.(op := None)
    ensures
      var e, s' := s.op.value, StepSlot(s, Complete(out, true), gate);
      if e.early then s' == Moved(s, Initializing, None)
      else match EndOf(e, s.mgr.value.mtype, out)
           case None => s' == s.(op := None)
           case Some(x) => s' == Moved(s, x, None)
  {
  }

  /** From a manager with nothing registered to the end of its operation: a start that succeeds
      registers it, and it ends at its goal, or failed when its work fails. */
  lemma OperationPath(s: Slot, o: Oracle, gate: bool, later: bool)
    requires s.mgr.Some? && s.op.None? && Registered(StateOf(s)) && !o.timeout && o.work
    ensures
      var st := StateOf(s);
      var started := StepSlot(s, Reconcile(o), gate);
      && started == s.(op := Some(Entry(st, false)))
      && StepSlot(started, Complete(Done, true), later) == Moved(s, GoalOf(st, s.mgr.value.mtype), None)
      && StepSlot(started, Complete(WorkError, true), later) == Moved(s, FailedOf(st), None)
  {
  }

  // ---------------------------------------------------------------------------------------
  // Running

  /** Any step but an operator's brings a manager to Running exactly when it is the successful end
      of a launch, or of the installation of a middleware. */
  lemma RunningNeedsDone(s: Slot, a: Action, gate: bool)
    requires SlotOk(s) && StateOf(s) != Running
    ensures StateOf(StepSlot(s, a, gate)) == Running <==>
      && a == Complete(Done, true) && s.op.Some? && !s.op.value.early
      && (s.op.value.state == Initializing || (s.op.value.state == Installing && s.mgr.value.mtype == Middleware))
  {
    match a
    case Reconcile(o) => ReconcileDoesNotRun(s, o, gate);
    case _ =>
  }

  lemma ExecDoesNotRun(st: State, o: Oracle, gate: bool)
    ensures ExecEffect(st, o, gate).write != Some(Running) && TimeoutEffect(st, o).write != Some(Running)
  {
  }

  lemma EffectDoesNotRun(m: Mgr, op: Option<Entry>, o: Oracle, gate: bool)
    ensures ReconcileEffect(m, op, o, gate).write != Some(Running)
  {
    ExecDoesNotRun(m.state, o, gate);
  }

  lemma ApplyDoesNotRun(s: Slot, e: Effect, wake: Wake)
    requires StateOf(s) != Running && e.write != Some(Running)
    ensures StateOf(Apply(s, e, wake)) != Running
  {
  }

  lemma ReconcileDoesNotRun(s: Slot, o: Oracle, gate: bool)
    requires StateOf(s) != Running
    ensures StateOf(ReconcileSlot(s, o, gate)) != Running
  {
    if s.mgr.Some? {
      EffectDoesNotRun(s.mgr.value, s.op, o, gate);
      ApplyDoesNotRun(s, ReconcileEffect(s.mgr.value, s.op, o, gate), o.wake);
    }
  }

  /** No operation of n ends with success. */
  predicate NoneDone(es: seq<Event>, n: string) {
    forall e <- es :: !(e.On? && e.name == n && e.action.Complete? && e.action.outcome.Done?)
  }

  /** Hence a run in which no operation of n succeeds never brings it to Running. */
  lemma {:induction false} NeverRunningWithoutDone(w: World, es: seq<Event>, n: string)
    requires Started(w) && StateOf(At(w, n)) != Running && NoneDone(es, n)
    ensures StateOf(At(Run(w, es), n)) != Running
  {
    if es == [] {
    } else {
      var init := es[..|es| - 1];
      NeverRunningWithoutDone(w, init, n);
      RunKeepsJoint(w, init);
      assert es[|es| - 1] in es;
      match es[|es| - 1]
      case On(m, a) =>
        if m == n {
          RunningNeedsDone(At(Run(w, init), n), a, Gate(Run(w, init)));
        }
      case Restart =>
    }
  }

  /** What a reconcile makes of a running manager. */
  lemma RunningReconciled(s: Slot, o: Oracle, gate: bool)
    requires SlotOk(s) && StateOf(s) == Running
    ensures
      StepSlot(s, Reconcile(o), gate) ==
      if s.mgr.value.mtype == App && o.lookup.Missing? && o.work && o.write then Moved(s, Uninstalled, None) else s
  {
  }

  /** An app whose Application object is found missing, and whose deletion succeeds. */
  predicate FoundGone(s: Slot, a: Action)
    requires s.mgr.Some?
  {
    && a.Reconcile? && s.mgr.value.mtype == App && a.oracle.lookup.Missing?
    && a.oracle.work && a.oracle.write
  }

  lemma RunningLeftAlone(s: Slot, a: Action, gate: bool)
    requires SlotOk(s) && StateOf(s) == Running && !a.Operate? && !a.Delete?
    ensures StepSlot(s, a, gate) == if FoundGone(s, a) then Moved(s, Uninstalled, None) else s
  {
    match a
    case Reconcile(o) => RunningReconciled(s, o, gate);
    case _ =>
  }

  /** Without an operator a step takes a running manager elsewhere if and only if it is an app, a
      reconcile finds its Application missing, and both the deletion and the write succeed. An
      Application that exists, or a lookup error, changes nothing. */
  lemma RunningLeavesExactly(w: World, es: seq<Event>, n: string, a: Action)
    requires Started(w) && StateOf(At(Run(w, es), n)) == Running && !a.Operate? && !a.Delete?
    ensures
      var s := At(Run(w, es), n);
      StepSlot(s, a, Gate(Run(w, es))) == if FoundGone(s, a) then Moved(s, Uninstalled, None) else s
  {
    RunKeepsJoint(w, es);
    RunningLeftAlone(At(Run(w, es), n), a, Gate(Run(w, es)));
  }

  /** So a running middleware stays exactly as it is until an operator acts on it. */
  lemma {:induction false} MiddlewareStaysRunning(w: World, es: seq<Event>, n: string)
    requires Joint(w) && StateOf(At(w, n)) == Running && At(w, n).mgr.value.mtype == Middleware
    requires NoOperation(es, n) && NoDeletion(es, n)
    ensures At(Run(w, es), n) == At(w, n)
  {
    if es == [] {
    } else {
      var init := es[..|es| - 1];
      MiddlewareStaysRunning(w, init, n);
      assert es[|es| - 1] in es;
      match es[|es| - 1]
      case On(m, a) =>
        if m == n {
          RunningLeftAlone(At(w, n), a, Gate(Run(w, init)));
        }
      case Restart =>
    }
  }

  // ---------------------------------------------------------------------------------------
  // Cancelled operations

  /** The manager after its operation was cancelled: some operations still make a write. */
  function Abandoned(s: Slot, o: Oracle): Slot
    requires s.mgr.Some?
  {
    if s.op.None? || !o.wake.write then s.(op := None)
    else if s.op.value.state.Resuming? then Moved(s, ResumeFailed, None)
    else if s.op.value.state.InstallingCanceling? then Moved(s, InstallingCancelFailed, None)
    else if !s.op.value.launching then s.(op := None)
    else Moved(s, if o.wake.late then InstallingCanceling else Initializing, None)
  }

  // ---------------------------------------------------------------------------------------
  // Time limits

  predicate Cancellable(st: State) {
    match st
    case Downloading | Installing | Initializing | Upgrading | ApplyingEnv | Resuming => true
    case _ => false
  }

  /** A late reconcile is the operator's cancel: it sets the same state, and leaves what is
      registered to the canceling state. */
  lemma LateMeansCancelled(s: Slot, o: Oracle, gate: bool)
    requires SlotOk(s) && Cancellable(StateOf(s)) && !Ahead(s) && o.timeout
    ensures
      StepSlot(s, Reconcile(o), gate) ==
      if o.write then StepSlot(s, Operate(CancelOp, Http, s.mgr.value.mtype), gate) else s
  {
    RecognisedUnlessAhead(s);
  }

  /** A late removal of an installation has failed, after what the cancelled operation still writes. */
  lemma LateRemoval(s: Slot, o: Oracle, gate: bool)
    requires SlotOk(s) && o.timeout && StateOf(s) == InstallingCanceling
    ensures
      StepSlot(s, Reconcile(o), gate) ==
      if o.write then Moved(Abandoned(s, o), InstallingCancelFailed, None) else Abandoned(s, o)
  {
  }

  /** The other states with a time limit: a late pending manager is canceled at once; a late uninstall
      has failed; a late stop is left alone. */
  lemma LateElsewhere(s: Slot, o: Oracle, gate: bool)
    requires SlotOk(s) && o.timeout
    ensures StateOf(s) == Pending ==>
      StepSlot(s, Reconcile(o), gate) == if o.lookup.Missing? && o.write then Moved(s, PendingCanceled, None) else s
    ensures StateOf(s) == Uninstalling ==>
      StepSlot(s, Reconcile(o), gate) == if o.write then Moved(s, UninstallFailed, None) else s.(op := None)
    ensures StateOf(s) == Stopping ==> StepSlot(s, Reconcile(o), gate) == s
  {
  }

  lemma TimelessEffect(m: Mgr, op: Option<Entry>, o: Oracle, gate: bool)
    requires !HasTtl(m.state)
    ensures ReconcileEffect(m, op, o, gate) == ReconcileEffect(m, op, o.(timeout := !o.timeout), gate)
  {
  }

  /** In every other state the time does not matter. */
  lemma TimelessElsewhere(s: Slot, o: Oracle, gate: bool)
    requires SlotOk(s) && !Cancellable(StateOf(s)) && !StateOf(s).Pending?
    requires !StateOf(s).Uninstalling? && !StateOf(s).InstallingCanceling? && !StateOf(s).Stopping?
    ensures StepSlot(s, Reconcile(o), gate) == StepSlot(s, Reconcile(o.(timeout := !o.timeout)), gate)
  {
    if s.mgr.Some? {
      TimelessEffect(s.mgr.value, s.op, o, gate);
    }
  }

  // ---------------------------------------------------------------------------------------
  // On-time reconciles

  /** An operation in progress is left alone until its time is up. */
  lemma InProgressWaits(s: Slot, o: Oracle, gate: bool)
    requires SlotOk(s) && s.op.Some? && s.op.value.state == StateOf(s) && !o.timeout
    ensures StepSlot(s, Reconcile(o), gate) == s
  {
  }

  /** A start that fails: a download or a resume has failed; a launch or an installation is tried
      again at the next reconcile; the other helm operations need no preparation. */
  lemma StartFails(s: Slot, o: Oracle, gate: bool)
    requires s.mgr.Some? && s.op.None? && Registered(StateOf(s)) && !o.timeout && !o.work
    ensures
      var st := StateOf(s);
      StepSlot(s, Reconcile(o), gate) ==
      if st.Installing? || st.Initializing? then s
      else if st.Upgrading? || st.ApplyingEnv? || st.Uninstalling? then s.(op := Some(Entry(st, false)))
      else if o.write then Moved(s, FailedOf(st), None)
      else s
  {
  }

  lemma PendingReconciled(s: Slot, o: Oracle, gate: bool)
    requires SlotOk(s) && StateOf(s) == Pending && !o.timeout
    ensures
      StepSlot(s, Reconcile(o), gate) ==
      if o.lookup.Missing? && gate && o.work && o.write then Moved(s, Downloading, None) else s
  {
  }

  lemma GateMeans(w: World)
    ensures Gate(w) <==> forall m :: StateOf(At(w, m)) != Downloading
  {
    if Gate(w) {
      forall m ensures StateOf(At(w, m)) != Downloading {
        assert m in w ==> StateOf(w[m]) != Downloading;
      }
    } else {
      var m :| m in w && StateOf(w[m]) == Downloading;
      assert StateOf(At(w, m)) == Downloading;
    }
  }

  /** In every run, a pending manager starts its download exactly when no Application of that name
      exists, nothing is being downloaded in the whole cluster, and the requests succeed. */
  lemma PendingStartsExactly(w: World, es: seq<Event>, n: string, o: Oracle)
    requires Started(w) && StateOf(At(Run(w, es), n)) == Pending && !o.timeout
    ensures
      var r := Run(w, es);
      var free := forall m :: StateOf(At(r, m)) != Downloading;
      At(Step(r, On(n, Reconcile(o))), n) ==
      if o.lookup.Missing? && free && o.work && o.write then Moved(At(r, n), Downloading, None) else At(r, n)
  {
    RunKeepsJoint(w, es);
    GateMeans(Run(w, es));
    PendingReconciled(At(Run(w, es), n), o, Gate(Run(w, es)));
  }

  /** Stopping needs no entry. */
  lemma StopMeans(s: Slot, o: Oracle, gate: bool)
    requires SlotOk(s) && StateOf(s) == Stopping && !o.timeout
    ensures
      StepSlot(s, Reconcile(o), gate) ==
      if o.write then Moved(s, if o.work then Stopped else StopFailed, None) else s
  {
  }

  /** States a reconcile never leaves. */
  predicate Resting(st: State) {
    match st
    case NoState | PendingCanceled | DownloadingCanceled | InstallingCanceled | Stopped
      | DownloadFailed | InstallFailed | StopFailed | UpgradeFailed | ApplyEnvFailed | ResumeFailed
      | ApplyingEnvCancelFailed => true
    case _ => false
  }

  lemma RestingStays(s: Slot, o: Oracle, gate: bool)
    requires SlotOk(s) && Resting(StateOf(s))
    ensures StepSlot(s, Reconcile(o), gate) == s
  {
  }

  /** A failed uninstall and a failed removal are deleted by force, again and again until the
      requests succeed. */
  lemma ForcedDeletion(s: Slot, o: Oracle, gate: bool)
    requires SlotOk(s) && (StateOf(s) == UninstallFailed || StateOf(s) == InstallingCancelFailed)
    ensures StepSlot(s, Reconcile(o), gate) == if o.work && o.write then Moved(s, Uninstalled, None) else s
  {
  }

  /** So is an uninstalled application whose Application object still exists. */
  lemma UninstalledAgain(s: Slot, o: Oracle, gate: bool)
    requires SlotOk(s) && StateOf(s) == Uninstalled
    ensures
      StepSlot(s, Reconcile(o), gate) ==
      if o.lookup.Exists? && o.work && o.write then Moved(s, Uninstalled, None) else s
  {
  }

  // ---------------------------------------------------------------------------------------
  // Canceling states

  /** The canceling states other than that of an installation remove the entry and move on. Two of
      them wait until the image manager is marked. */
  function Cleared(st: State): State
    requires IsCanceling(st) && st != InstallingCanceling
  {
    match st
    case PendingCanceling => PendingCanceled
    case DownloadingCanceling => DownloadingCanceled
    case _ => Stopping
  }

  lemma CancelingMovesOn(s: Slot, o: Oracle, gate: bool)
    requires SlotOk(s) && IsCanceling(StateOf(s)) && StateOf(s) != InstallingCanceling
    ensures
      var st, s' := StateOf(s), StepSlot(s, Reconcile(o), gate);
      if (st == DownloadingCanceling || st == UpgradingCanceling) && !o.work then s' == s
      else s'.op == None && (o.write ==> StateOf(s') == Cleared(st))
  {
  }

  /** An apply that is canceled makes a second write when the first one fails. */
  lemma ApplyingEnvFallsBack(s: Slot, o: Oracle, gate: bool)
    requires SlotOk(s) && StateOf(s) == ApplyingEnvCanceling && !o.write
    ensures
      StepSlot(s, Reconcile(o), gate) ==
      if o.fallback then Moved(s, ApplyingEnvCancelFailed, None) else s.(op := None)
  {
  }

  /** When their write fails, what the cancelled operation still writes is what remains. */
  lemma CancelledStillWrites(s: Slot, o: Oracle, gate: bool)
    requires SlotOk(s) && IsCanceling(StateOf(s)) && StateOf(s) != InstallingCanceling && !o.write
    requires StateOf(s) != ApplyingEnvCanceling
    requires (StateOf(s) == DownloadingCanceling || StateOf(s) == UpgradingCanceling) ==> o.work
    ensures StepSlot(s, Reconcile(o), gate) == Abandoned(s, o)
  {
  }

  /** An on-time reconcile of a canceled installation whose removal has not been started. */
  lemma RemovalStarts(s: Slot, o: Oracle, gate: bool)
    requires SlotOk(s) && StateOf(s) == InstallingCanceling && !o.timeout
    requires s.op.Some? ==> s.op.value.state != InstallingCanceling
    ensures
      StepSlot(s, Reconcile(o), gate) ==
      if o.work then Abandoned(s, o).(op := Some(Entry(InstallingCanceling, false)))
      else if o.write then Moved(Abandoned(s, o), InstallingCancelFailed, None)
      else Abandoned(s, o)
  {
  }

  /** A reconcile that meets an entry it does not recognise cancels it. */
  lemma UnrecognisedIsCancelled(s: Slot, o: Oracle, gate: bool)
    requires SlotOk(s) && Ahead(s)
    ensures StepSlot(s, Reconcile(o), gate) == Abandoned(s, o)
  {
    RecognisedUnlessAhead(s);
  }

  // ---------------------------------------------------------------------------------------
  // Early writes, launches, operators, deletions

  lemma EarlyWriteMeans(s: Slot, ok: bool, gate: bool)
    requires SlotOk(s)
    ensures
      var writes := && ok && s.op.Some? && !s.op.value.early && s.mgr.value.mtype == App
                    && (s.op.value.state.Installing? || s.op.value.state.Upgrading? || s.op.value.state.ApplyingEnv?);
      StepSlot(s, EarlyWrite(ok), gate) ==
      if writes then Moved(s, Initializing, Some(s.op.value.(early := true))) else s
  {
  }

  /** Waiting for a launch writes nothing; it only decides what a later end or cancel writes. */
  lemma LaunchMeans(s: Slot, gate: bool)
    requires SlotOk(s)
    ensures
      var s' := StepSlot(s, Launch, gate);
      && s'.mgr == s.mgr
      && (s' != s ==> s.op.Some? && s'.op == Some(s.op.value.(launching := true)))
      && (s'.op.Some? && s'.op.value.launching <==>
            s.op.Some? && s.op.value.state == Installing && s.mgr.value.mtype == Middleware)
  {
  }

  /** What an accepted operation sets; a cancel, and an apply through the webhook, are apart. */
  function StateFor(op: OpType): State {
    match op
    case InstallOp => Pending
    case UninstallOp => Uninstalling
    case UpgradeOp => Upgrading
    case StopOp => Stopping
    case ResumeOp => Resuming
    case ApplyEnvOp => ApplyingEnv
    case CancelOp => NoState
  }

  /** An operator moves a manager exactly when its state allows the operation, the type is right,
      and the webhook is only used for apps; the registered operation is left alone. */
  lemma OperateMeans(s: Slot, op: OpType, door: Door, t: AppType, gate: bool)
    ensures
      var s' := StepSlot(s, Operate(op, door, t), gate);
      && s'.op == s.op
      && (s'.mgr != s.mgr <==>
            && IsOperationAllowed(StateOf(s), op)
            && (s.mgr.Some? ==> s.mgr.value.mtype == t) && !(door == Webhook && t == Middleware))
      && (s'.mgr != s.mgr ==>
            && s'.mgr == Some(Mgr(t, StateOf(s'), if s.mgr.Some? then s.mgr.value.gen + 1 else 1))
            && (op != CancelOp && !(op == ApplyEnvOp && door == Webhook) ==> StateOf(s') == StateFor(op))
            && (op == ApplyEnvOp && door == Webhook ==> StateOf(s') == StateOf(s))
            && (op == CancelOp ==>
                  if StateOf(s) == UpgradingCancelFailed || StateOf(s) == ApplyingEnvCancelFailed
                  then StateOf(s') == if door == Http then StateOf(s) else NoState
                  else IsCanceling(StateOf(s'))))
  {
  }

  /** A step on one name leaves every other name alone; a restart loses the entries and nothing else. */
  lemma OthersUntouched(w: World, n: string, a: Action, m: string)
    ensures At(Step(w, On(n, a)), m) == if m == n then StepSlot(At(w, n), a, Gate(w)) else At(w, m)
    ensures At(Step(w, Restart), m) == Slot(At(w, m).mgr, None)
  {
  }

  /** In every run from an empty cluster, a manager can be deleted exactly when its state accepts
      some operation other than a cancel. */
  lemma DeletableExactly(es: seq<Event>, n: string, gate: bool)
    requires At(Run(map[], es), n).mgr.Some?
    ensures
      var s := At(Run(map[], es), n);
      StepSlot(s, Delete, gate).mgr.None? <==> exists op :: op != CancelOp && IsOperationAllowed(StateOf(s), op)
  {
    RunAvoidsDead(es, n);
    DeletableState(StateOf(At(Run(map[], es), n)));
  }

  lemma DeletableState(st: State)
    requires !Dead(st)
    ensures IsOperating(st) <==> forall op :: IsOperationAllowed(st, op) ==> op == CancelOp
  {
    assert !IsOperating(st) ==>
      || IsOperationAllowed(st, InstallOp) || IsOperationAllowed(st, UninstallOp) || IsOperationAllowed(st, StopOp);
  }

  /** An operation whose work fails leaves a state that accepts it again. */
  lemma FailedAcceptsAgain(s: Slot, op: OpType, t: AppType, o: Oracle, gate: bool)
    requires s.op.None? && Accepted(s, op, Http, t)
    requires op.UninstallOp? || op.UpgradeOp? || op.ResumeOp? || op.ApplyEnvOp?
    requires !o.timeout && o.work
    ensures
      var ordered := StepSlot(s, Operate(op, Http, t), gate);
      var failed := StepSlot(StepSlot(ordered, Reconcile(o), gate), Complete(WorkError, true), gate);
      failed.op == None && Accepted(failed, op, Http, t)
  {
    OperateMeans(s, op, Http, t, gate);
    OperationPath(StepSlot(s, Operate(op, Http, t), gate), o, gate, gate);
  }
}
