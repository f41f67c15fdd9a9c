/** Properties of whole runs: the download limit, what a cancel guarantees, what a state says
    about the past, which states are dead, and which updates reach the work queue. */
module LifecycleRuns {
  import opened Wrappers
  import opened AppStates
  import opened Lifecycle
  import opened LifecycleSafety

  // ---------------------------------------------------------------------------------------
  // At most one download

  predicate OneDownload(w: World) {
    forall a <- w, b <- w :: StateOf(w[a]) == Downloading && StateOf(w[b]) == Downloading ==> a == b
  }

  lemma ExecNeedsGate(st: State, o: Oracle, gate: bool)
    requires ExecEffect(st, o, gate).write == Some(Downloading)
    ensures gate
  {
  }

  lemma ReconcileNeedsGate(m: Mgr, op: Option<Entry>, o: Oracle, gate: bool)
    requires m.state != Downloading && ReconcileEffect(m, op, o, gate).write == Some(Downloading)
    ensures gate
  {
    if ExecEffect(m.state, o, gate).write == Some(Downloading) {
      ExecNeedsGate(m.state, o, gate);
    }
  }

  /** Downloading is entered only through the gate. */
  lemma DownloadingNeedsGate(s: Slot, a: Action, gate: bool)
    requires StateOf(s) != Downloading && StateOf(StepSlot(s, a, gate)) == Downloading
    ensures gate
  {
    match a
    case Reconcile(o) => ReconcileNeedsGate(s.mgr.value, s.op, o, gate);
    case _ =>
  }

  lemma StepKeepsOneDownload(w: World, e: Event)
    requires OneDownload(w)
    ensures OneDownload(Step(w, e))
  {
    match e
    case On(n, a) =>
      if StateOf(At(w, n)) != Downloading && StateOf(StepSlot(At(w, n), a, Gate(w))) == Downloading {
        DownloadingNeedsGate(At(w, n), a, Gate(w));
      }
    case Restart =>
  }

  /** In every run at most one manager is downloading. */
  lemma {:induction false} AtMostOneDownload(w: World, es: seq<Event>)
    requires OneDownload(w)
    ensures OneDownload(Run(w, es))
  {
    if es == [] {
    } else {
      AtMostOneDownload(w, es[..|es| - 1]);
      StepKeepsOneDownload(Run(w, es[..|es| - 1]), es[|es| - 1]);
    }
  }

  // ---------------------------------------------------------------------------------------
  // What a cancel guarantees

  /** No operator operation on n. Deletions, restarts, and anything on other names may happen. */
  predicate NoOperation(es: seq<Event>, n: string) {
    forall e <- es :: !(e.On? && e.name == n && e.action.Operate?)
  }

  predicate Brought(st: State) {
    st == Installing || st == Initializing || st == Running
  }

  /** Only a cancel operation, or nothing, is registered. */
  predicate OnlyCancelRegistered(s: Slot) {
    s.op.None? || s.op.value == Entry(InstallingCanceling, false)
  }

  /** Canceling states and everything the engine makes of them by itself. */
  predicate Winding(st: State) {
    match st
    case NoState | PendingCanceled | DownloadingCanceled | InstallingCanceled | InstallingCancelFailed
      | Uninstalled | Stopping | Stopped | StopFailed | ApplyingEnvCancelFailed => true
    case _ => IsCanceling(st)
  }

  predicate CancelClosed(s: Slot) {
    OnlyCancelRegistered(s) && Winding(StateOf(s))
  }

  predicate WritesWinding(e: Effect) {
    && (e.write.Some? ==> Winding(e.write.value))
    && (e.register.Some? ==> e.register.value == InstallingCanceling)
  }

  lemma ExecStaysWinding(st: State, o: Oracle, gate: bool)
    requires Winding(st)
    ensures WritesWinding(ExecEffect(st, o, gate)) && WritesWinding(TimeoutEffect(st, o))
  {
  }

  lemma ReconcileStaysWinding(m: Mgr, op: Option<Entry>, o: Oracle, gate: bool)
    requires Winding(m.state)
    ensures WritesWinding(ReconcileEffect(m, op, o, gate))
  {
    ExecStaysWinding(m.state, o, gate);
  }

  lemma ApplyStaysWinding(s: Slot, e: Effect, wake: Wake)
    requires CancelClosed(s) && WritesWinding(e)
    ensures CancelClosed(Apply(s, e, wake))
  {
  }

  lemma ReconcileKeepsCancelClosed(s: Slot, o: Oracle, gate: bool)
    requires CancelClosed(s)
    ensures CancelClosed(ReconcileSlot(s, o, gate))
  {
    if s.mgr.Some? {
      ReconcileStaysWinding(s.mgr.value, s.op, o, gate);
      ApplyStaysWinding(s, ReconcileEffect(s.mgr.value, s.op, o, gate), o.wake);
    }
  }

  lemma StepKeepsCancelClosed(s: Slot, a: Action, gate: bool)
    requires CancelClosed(s) && !a.Operate?
    ensures CancelClosed(StepSlot(s, a, gate))
  {
    match a
    case Reconcile(o) => ReconcileKeepsCancelClosed(s, o, gate);
    case _ =>
  }

  lemma {:induction false} RunKeepsCancelClosed(w: World, es: seq<Event>, n: string)
    requires CancelClosed(At(w, n)) && NoOperation(es, n)
    ensures CancelClosed(At(Run(w, es), n))
  {
    if es == [] {
    } else {
      RunKeepsCancelClosed(w, es[..|es| - 1], n);
      assert es[|es| - 1] in es;
      match es[|es| - 1]
      case On(m, a) =>
        var prev := Run(w, es[..|es| - 1]);
        if m == n {
          StepKeepsCancelClosed(At(prev, n), a, Gate(prev));
        }
      case Restart =>
    }
  }

  /** An operation still registered in a canceling state can finish first and undo the cancel. */
  lemma CompletionBeatsCancel(s: Slot)
    requires SlotOk(s) && IsCanceling(StateOf(s)) && !OnlyCancelRegistered(s)
    ensures Brought(StateOf(CompleteSlot(s, Done, true)))
  {
  }

  ghost predicate CancelHolds(w: World, n: string) {
    forall es :: NoOperation(es, n) ==> !Brought(StateOf(At(Run(w, es), n)))
  }

  /** In a canceling state, the application can come back without a new operator operation if
      and only if an operation other than a cancel is still registered. */
  lemma CancelHoldsExactly(w0: World, es0: seq<Event>, n: string)
    requires Started(w0) && IsCanceling(StateOf(At(Run(w0, es0), n)))
    ensures CancelHolds(Run(w0, es0), n) <==> OnlyCancelRegistered(At(Run(w0, es0), n))
  {
    var w := Run(w0, es0);
    if OnlyCancelRegistered(At(w, n)) {
      forall es | NoOperation(es, n) ensures !Brought(StateOf(At(Run(w, es), n))) {
        RunKeepsCancelClosed(w, es, n);
      }
    } else {
      RunKeepsJoint(w0, es0);
      CompletionBeatsCancel(At(w, n));
      var es := [On(n, Complete(Done, true))];
      assert es[..|es| - 1] == [];
      assert NoOperation(es, n) && Brought(StateOf(At(Run(w, es), n)));
    }
  }

  // ---------------------------------------------------------------------------------------
  // What a state says about the past

  /** States a manager has before its first Installing after a Pending. */
  predicate BeforeInstall(st: State) {
    match st
    case NoState | Pending | Downloading | PendingCanceling | DownloadingCanceling
      | PendingCanceled | DownloadingCanceled | DownloadFailed | PendingCancelFailed
      | DownloadingCancelFailed => true
    case _ => false
  }

  lemma ReconcileStaysBeforeInstall(s: Slot, o: Oracle, gate: bool)
    requires SlotOk(s) && BeforeInstall(StateOf(s))
    ensures BeforeInstall(StateOf(ReconcileSlot(s, o, gate)))
  {
    if s.mgr.Some? {
      var e := ReconcileEffect(s.mgr.value, s.op, o, gate);
      assert e.write.Some? ==> BeforeInstall(e.write.value);
    }
  }

  lemma InstallingIsTheOnlyDoor(s: Slot, a: Action, gate: bool)
    requires SlotOk(s) && BeforeInstall(StateOf(s)) && !BeforeInstall(StateOf(StepSlot(s, a, gate)))
    ensures StateOf(StepSlot(s, a, gate)) == Installing
  {
    match a
    case Reconcile(o) => ReconcileStaysBeforeInstall(s, o, gate);
    case _ =>
  }

  function StateAfter(w: World, es: seq<Event>, n: string, i: nat): State
    requires i <= |es|
  {
    StateOf(At(Run(w, es[..i]), n))
  }

  /** At some point of the run n was Installing, and since then it was never back in a state
      before installation; in particular it existed and was not Pending. */
  ghost predicate InstalledSince(w: World, es: seq<Event>, n: string) {
    exists i :: 0 <= i <= |es| && StateAfter(w, es, n, i) == Installing
                && forall k :: i <= k <= |es| ==> !BeforeInstall(StateAfter(w, es, n, k))
  }

  /** From an empty cluster, an application that is Running, Stopped, Upgrading, ApplyingEnv,
      Resuming, Uninstalling, or in any other state past installation, has been Installing since
      its last Pending. */
  lemma {:induction false} InstalledBefore(w: World, es: seq<Event>, n: string)
    requires w == map[]
    requires !BeforeInstall(StateOf(At(Run(w, es), n)))
    ensures InstalledSince(w, es, n)
  {
    var m := |es|;
    assert es[..m] == es;
    if m == 0 {
      assert false;
    } else {
      var init := es[..m - 1];
      var prev := Run(w, init);
      RunKeepsJoint(w, init);
      forall k: nat | k <= m - 1 ensures init[..k] == es[..k] {}
      if BeforeInstall(StateOf(At(prev, n))) {
        match es[m - 1]
        case On(x, a) =>
          if x == n {
            InstallingIsTheOnlyDoor(At(prev, n), a, Gate(prev));
          }
          assert StateAfter(w, es, n, m) == Installing;
        case Restart =>
      } else {
        InstalledBefore(w, init, n);
        var i :| 0 <= i <= m - 1 && StateAfter(w, init, n, i) == Installing
                 && forall k :: i <= k <= m - 1 ==> !BeforeInstall(StateAfter(w, init, n, k));
        assert StateAfter(w, es, n, i) == Installing;
        forall k | i <= k <= m ensures !BeforeInstall(StateAfter(w, es, n, k)) {
          if k < m {
            assert StateAfter(w, es, n, k) == StateAfter(w, init, n, k);
          }
        }
      }
    }
  }

  // ---------------------------------------------------------------------------------------
  // Which updates reach the work queue

  /** The update predicate of the controller's watch. */
  predicate PreEnqueueUpdate(older: Mgr, newer: Mgr) {
    newer.gen > older.gen
  }

  predicate NoDeletion(es: seq<Event>, n: string) {
    forall e <- es :: !(e.On? && e.name == n && e.action.Delete?)
  }

  /** The manager is untouched or carries a newer generation. */
  predicate Newer(s: Slot, s': Slot) {
    s.mgr.Some? && s'.mgr.Some? && (s'.mgr == s.mgr || PreEnqueueUpdate(s.mgr.value, s'.mgr.value))
  }

  lemma CancelOperationBumps(s: Slot, wake: Wake)
    requires s.mgr.Some?
    ensures Newer(s, CancelOperation(s, wake))
  {
  }

  lemma ApplyBumps(s: Slot, e: Effect, wake: Wake)
    requires s.mgr.Some?
    ensures Newer(s, Apply(s, e, wake))
  {
    CancelOperationBumps(s, wake);
  }

  lemma StepBumpsGeneration(s: Slot, a: Action, gate: bool)
    requires s.mgr.Some? && !a.Delete?
    ensures Newer(s, StepSlot(s, a, gate))
  {
    match a
    case Reconcile(o) => ApplyBumps(s, ReconcileEffect(s.mgr.value, s.op, o, gate), o.wake);
    case _ =>
  }

  /** However many writes an informer merges into one update event, the update is accepted if
      and only if anything was written in between. */
  lemma {:induction false} NoLostUpdate(w: World, es: seq<Event>, n: string)
    requires At(w, n).mgr.Some? && NoDeletion(es, n)
    ensures
      var s, s' := At(w, n), At(Run(w, es), n);
      s'.mgr.Some? && (PreEnqueueUpdate(s.mgr.value, s'.mgr.value) <==> s'.mgr != s.mgr)
  {
    if es == [] {
    } else {
      NoLostUpdate(w, es[..|es| - 1], n);
      assert es[|es| - 1] in es;
      match es[|es| - 1]
      case On(m, a) =>
        var prev := Run(w, es[..|es| - 1]);
        if m == n {
          StepBumpsGeneration(At(prev, n), a, Gate(prev));
        }
      case Restart =>
    }
  }
}
