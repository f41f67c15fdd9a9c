/** Invariants of every run of the lifecycle engine, for any number of applications. */
module LifecycleSafety {
  import opened Wrappers
  import opened AppStates
  import opened Lifecycle

  // ---------------------------------------------------------------------------------------
  // Managers and in-progress entries agree

  /** The states that are ever registered in the factory. */
  predicate Registered(st: State) {
    match st
    case Downloading | Installing | Initializing | Upgrading | ApplyingEnv | Resuming
      | Uninstalling | InstallingCanceling => true
    case _ => false
  }

  /** Where a manager may be while its entry is live: at the entry's state or at the target of
      cancelling it; after the early write, at Initializing or at the target of cancelling that;
      and there too while a cancelled middleware installation, which has written Initializing
      when it was cancelled, is being removed. */
  predicate Agrees(e: Entry, st: State) {
    if e.early then BackToInitializing(st)
    else
      || st == e.state
      || (CancelState(e.state) != NoState && st == CancelState(e.state))
      || (e.state == InstallingCanceling && BackToInitializing(st))
  }

  predicate BackToInitializing(st: State) {
    st == Initializing || st == CancelState(Initializing)
  }

  predicate SlotOk(s: Slot) {
    s.op.Some? ==>
      && s.mgr.Some?
      && Registered(s.op.value.state)
      && (s.op.value.early ==> WritesEarly(s.op.value.state) && s.mgr.value.mtype == App)
      && (s.op.value.launching ==> s.op.value.state == Installing && s.mgr.value.mtype == Middleware)
      && (s.op.value.state == InstallingCanceling && s.mgr.value.state != InstallingCanceling ==>
            s.mgr.value.mtype == Middleware)
      && Agrees(s.op.value, s.mgr.value.state)
  }

  predicate Joint(w: World) {
    forall n <- w :: SlotOk(w[n])
  }

  /** A freshly started process: nothing is registered. */
  predicate Started(w: World) {
    forall n <- w :: w[n].op == None
  }

  /** What a reconcile may do to a slot without breaking the agreement. */
  predicate Sound(m: Mgr, op: Option<Entry>, e: Effect) {
    && (e.write.Some? && !e.cancel && op.Some? ==> Agrees(op.value, e.write.value))
    && (e.register.Some? ==>
          e.register.value == m.state && Registered(m.state) && e.write.None? && (e.cancel || op.None?))
  }

  lemma ExecIsSound(m: Mgr, op: Option<Entry>, o: Oracle, gate: bool)
    requires SlotOk(Slot(Some(m), op)) && New(m.state, op) == Fresh
    ensures Sound(m, op, ExecEffect(m.state, o, gate))
  {
  }

  lemma TimeoutIsSound(m: Mgr, op: Option<Entry>, o: Oracle)
    requires SlotOk(Slot(Some(m), op)) && New(m.state, op) != UnknownInProgress
    ensures Sound(m, op, TimeoutEffect(m.state, o))
  {
  }

  lemma ReconcileIsSound(m: Mgr, op: Option<Entry>, o: Oracle, gate: bool)
    requires SlotOk(Slot(Some(m), op))
    ensures Sound(m, op, ReconcileEffect(m, op, o, gate))
  {
    match New(m.state, op)
    case UnknownInProgress =>
    case InProgress => TimeoutIsSound(m, op, o);
    case Fresh =>
      ExecIsSound(m, op, o, gate);
      TimeoutIsSound(m, op, o);
  }

  /** A reconcile that cancels one operation and registers another cancels one that still writes
      exactly when that is a middleware installation waiting for its launch. */
  lemma RegisteringCancelsWriterExactly(m: Mgr, op: Option<Entry>, o: Oracle, gate: bool)
    requires SlotOk(Slot(Some(m), op))
    requires ReconcileEffect(m, op, o, gate).register.Some? && op.Some?
    ensures WakeState(op.value, o.wake.late).Some? <==> op.value.launching
    ensures op.value.launching ==> m.state == InstallingCanceling && m.mtype == Middleware
  {
  }

  lemma ReconcileKeepsSlotOk(s: Slot, o: Oracle, gate: bool)
    requires SlotOk(s)
    ensures SlotOk(ReconcileSlot(s, o, gate))
  {
    if s.mgr.Some? {
      ReconcileIsSound(s.mgr.value, s.op, o, gate);
      if s.op.Some? && ReconcileEffect(s.mgr.value, s.op, o, gate).register.Some? {
        RegisteringCancelsWriterExactly(s.mgr.value, s.op, o, gate);
      }
    }
  }

  lemma StepKeepsSlotOk(s: Slot, a: Action, gate: bool)
    requires SlotOk(s)
    ensures SlotOk(StepSlot(s, a, gate))
  {
    match a
    case Reconcile(o) => ReconcileKeepsSlotOk(s, o, gate);
    case _ =>
  }

  lemma StepKeepsJoint(w: World, e: Event)
    requires Joint(w)
    ensures Joint(Step(w, e))
  {
    match e
    case On(n, a) => StepKeepsSlotOk(At(w, n), a, Gate(w));
    case Restart =>
  }

  /** In every run, every live entry agrees with its manager. */
  lemma {:induction false} RunKeepsJoint(w: World, es: seq<Event>)
    requires Started(w)
    ensures Joint(Run(w, es))
  {
    if es == [] {
    } else {
      RunKeepsJoint(w, es[..|es| - 1]);
      StepKeepsJoint(Run(w, es[..|es| - 1]), es[|es| - 1]);
    }
  }

  /** Hence a manager with a live entry is never deleted: its state is operating, and the
      deletion webhook refuses. */
  lemma LiveEntryBlocksDeletion(w: World, es: seq<Event>, n: string)
    requires Started(w)
    requires At(Run(w, es), n).op.Some?
    ensures IsOperating(StateOf(At(Run(w, es), n)))
    ensures StepSlot(At(Run(w, es), n), Delete, Gate(Run(w, es))) == At(Run(w, es), n)
  {
    RunKeepsJoint(w, es);
  }

  /** Initializing was written by an operation that is not registered as such: by a helm operation
      ahead of its end, or by a cancelled middleware installation. */
  predicate Ahead(s: Slot) {
    s.op.Some? && StateOf(s) == Initializing && (s.op.value.early || s.op.value.state == InstallingCanceling)
  }

  lemma RecognisedUnlessAhead(s: Slot)
    requires SlotOk(s)
    ensures New(StateOf(s), s.op) == UnknownInProgress <==> Ahead(s)
  {
  }

  /** The unknown-in-progress error arises in exactly two situations, and nobody has reacted yet:
      the entry's own helm operation has already written Initializing, or the entry cancels a
      middleware installation that wrote Initializing when it was cancelled. */
  lemma UnknownInProgressExactly(w: World, es: seq<Event>, n: string)
    requires Started(w)
    ensures
      var s := At(Run(w, es), n);
      New(StateOf(s), s.op) == UnknownInProgress <==> Ahead(s)
  {
    RunKeepsJoint(w, es);
    RecognisedUnlessAhead(At(Run(w, es), n));
  }

  /** Neither of the two happens: no helm operation writes early, no middleware is cancelled while
      it waits for its launch. */
  predicate NoneAhead(es: seq<Event>) {
    forall e <- es :: e.On? ==> !e.action.EarlyWrite? && !e.action.Launch?
  }

  predicate NotAhead(s: Slot) {
    s.op.Some? ==>
      && !s.op.value.early && !s.op.value.launching
      && (s.op.value.state == InstallingCanceling ==> StateOf(s) == InstallingCanceling)
  }

  lemma ReconcileKeepsNotAhead(s: Slot, o: Oracle, gate: bool)
    requires SlotOk(s) && NotAhead(s)
    ensures NotAhead(ReconcileSlot(s, o, gate))
  {
    if s.mgr.Some? {
      ReconcileIsSound(s.mgr.value, s.op, o, gate);
      if s.op.Some? && ReconcileEffect(s.mgr.value, s.op, o, gate).register.Some? {
        RegisteringCancelsWriterExactly(s.mgr.value, s.op, o, gate);
      }
    }
  }

  lemma StepKeepsNotAhead(s: Slot, a: Action, gate: bool)
    requires SlotOk(s) && NotAhead(s) && !a.EarlyWrite? && !a.Launch?
    ensures NotAhead(StepSlot(s, a, gate))
  {
    match a
    case Reconcile(o) => ReconcileKeepsNotAhead(s, o, gate);
    case _ =>
  }

  lemma {:induction false} RunKeepsNotAhead(w: World, es: seq<Event>, n: string)
    requires Started(w) && NoneAhead(es)
    ensures NotAhead(At(Run(w, es), n))
  {
    if es == [] {
    } else {
      RunKeepsNotAhead(w, es[..|es| - 1], n);
      RunKeepsJoint(w, es[..|es| - 1]);
      assert es[|es| - 1] in es;
      match es[|es| - 1]
      case On(m, a) =>
        var prev := Run(w, es[..|es| - 1]);
        if m == n {
          StepKeepsNotAhead(At(prev, n), a, Gate(prev));
        }
      case Restart =>
    }
  }

  /** In runs in which no helm operation writes early and no middleware waits for its launch, the
      factory always recognises what is in progress: a live entry is the manager's own operation
      or one being cancelled. */
  lemma NeverUnknownInProgress(w: World, es: seq<Event>, n: string)
    requires Started(w) && NoneAhead(es)
    ensures
      var s := At(Run(w, es), n);
      && New(StateOf(s), s.op) != UnknownInProgress
      && (s.op.Some? ==>
            || StateOf(s) == s.op.value.state
            || (IsCanceling(StateOf(s)) && StateOf(s) == CancelState(s.op.value.state)))
  {
    RunKeepsJoint(w, es);
    RunKeepsNotAhead(w, es, n);
    RecognisedUnlessAhead(At(Run(w, es), n));
  }
}
