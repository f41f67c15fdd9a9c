/** Without operator operations the engine comes to rest: the reconciler, its timeouts and its
    watchers change states only finitely often. */
module LifecycleTermination {
  import opened Wrappers
  import opened AppStates
  import opened Lifecycle
  import opened LifecycleSafety

  const MAX_RANK := 8

  /** How far a manager is from rest. A live entry counts where its watcher can still overwrite
      a canceling state that was not processed yet. */
  function StateRank(st: State, op: Option<Entry>): nat {
    match st
    case Pending => 8
    case Downloading => 7
    case DownloadingCanceling => 6
    case Installing | Upgrading | ApplyingEnv | Resuming => 5
    case UpgradingCanceling | ApplyingEnvCanceling | ResumingCanceling => 4
    case InstallingCanceling => if op.Some? && op.value.state == Installing then 4 else 2
    case Initializing => 3
    case InitializingCanceling => if op.Some? && op.value.early then 4 else 2
    case Uninstalling => 2
    case Running | Stopping | PendingCanceling | UninstallFailed | InstallingCancelFailed => 1
    case _ => 0
  }

  function Rank(s: Slot): nat {
    StateRank(StateOf(s), s.op)
  }

  lemma RankBound(s: Slot)
    ensures Rank(s) <= MAX_RANK
  {
  }

  /** Everything except operator operations and deletions. */
  predicate Automatic(e: Event) {
    e.On? ==> !e.action.Operate? && !e.action.Delete?
  }

  /** A step of the engine itself that changes the state lowers the rank; no other raises it. */
  predicate Lower(s: Slot, s': Slot) {
    && Rank(s') <= Rank(s)
    && (StateOf(s') != StateOf(s) ==> Rank(s') < Rank(s))
  }

  predicate LowerWrite(st: State, op: Option<Entry>, e: Effect) {
    e.write.Some? ==>
      || e.write.value == st == Uninstalled
      || StateRank(e.write.value, if e.cancel then None else op) < StateRank(st, op)
  }

  lemma CancelingExecLowersRank(st: State, op: Option<Entry>, o: Oracle, gate: bool)
    requires New(st, op) == Fresh && IsCanceling(st)
    ensures LowerWrite(st, op, ExecEffect(st, o, gate))
  {
  }

  lemma ExecLowersRank(st: State, op: Option<Entry>, o: Oracle, gate: bool)
    requires New(st, op) == Fresh
    ensures LowerWrite(st, op, ExecEffect(st, o, gate))
  {
    if IsCanceling(st) {
      CancelingExecLowersRank(st, op, o, gate);
    }
  }

  lemma TimeoutLowersRank(st: State, op: Option<Entry>, o: Oracle)
    requires op.Some? ==> op.value.state == st && !op.value.early
    ensures LowerWrite(st, op, TimeoutEffect(st, o))
  {
  }

  lemma FactoryLowersRank(m: Mgr, op: Option<Entry>, o: Oracle, gate: bool)
    requires SlotOk(Slot(Some(m), op))
    ensures LowerWrite(m.state, op, ThroughFactory(m.state, op, o, gate))
  {
    if New(m.state, op) == Fresh {
      ExecLowersRank(m.state, op, o, gate);
    }
    if op.None? || New(m.state, op) == InProgress {
      TimeoutLowersRank(m.state, op, o);
    }
  }

  lemma EffectLowersRank(m: Mgr, op: Option<Entry>, o: Oracle, gate: bool)
    requires SlotOk(Slot(Some(m), op))
    ensures LowerWrite(m.state, op, ReconcileEffect(m, op, o, gate))
  {
    FactoryLowersRank(m, op, o, gate);
  }

  lemma CancelLowersRank(s: Slot, wake: Wake)
    requires SlotOk(s)
    ensures Lower(s, CancelOperation(s, wake))
  {
  }

  /** An effect that keeps the agreement and writes a lower state lowers the rank. */
  lemma ApplyLowersRank(s: Slot, e: Effect, wake: Wake)
    requires SlotOk(s) && s.mgr.Some? && Sound(s.mgr.value, s.op, e) && LowerWrite(StateOf(s), s.op, e)
    requires Lower(s, if e.cancel then CancelOperation(s, wake) else s)
    requires e.register.Some? ==> !IsCanceling(StateOf(s)) || StateOf(s) == InstallingCanceling
    ensures Lower(s, Apply(s, e, wake))
  {
  }

  lemma RegistersInCanceling(m: Mgr, op: Option<Entry>, o: Oracle, gate: bool)
    ensures ReconcileEffect(m, op, o, gate).register.Some? ==> !IsCanceling(m.state) || m.state == InstallingCanceling
  {
  }

  lemma ReconcileLowersRank(s: Slot, o: Oracle, gate: bool)
    requires SlotOk(s)
    ensures Lower(s, ReconcileSlot(s, o, gate))
  {
    if s.mgr.Some? {
      CancelLowersRank(s, o.wake);
      EffectLowersRank(s.mgr.value, s.op, o, gate);
      ReconcileIsSound(s.mgr.value, s.op, o, gate);
      RegistersInCanceling(s.mgr.value, s.op, o, gate);
      ApplyLowersRank(s, ReconcileEffect(s.mgr.value, s.op, o, gate), o.wake);
    }
  }

  lemma CompleteLowersRank(s: Slot, out: Outcome, ok: bool)
    requires SlotOk(s)
    ensures Lower(s, CompleteSlot(s, out, ok))
  {
  }

  lemma StepLowersRank(s: Slot, a: Action, gate: bool)
    requires SlotOk(s) && !a.Operate? && !a.Delete?
    ensures Lower(s, StepSlot(s, a, gate))
  {
    match a
    case Reconcile(o) => ReconcileLowersRank(s, o, gate);
    case Complete(out, ok) => CompleteLowersRank(s, out, ok);
    case _ =>
  }

  lemma RestartKeepsRank(s: Slot)
    ensures Rank(s.(op := None)) <= Rank(s) && StateOf(s.(op := None)) == StateOf(s)
  {
  }

  // ---------------------------------------------------------------------------------------
  // Counting over all applications

  /** The names whose state changes in one step: at most one. */
  function Changed(w: World, e: Event): nat {
    match e
    case On(n, a) => if StateOf(StepSlot(At(w, n), a, Gate(w))) != StateOf(At(w, n)) then 1 else 0
    case Restart => 0
  }

  /** Number of state changes along a run. */
  function Changes(w: World, es: seq<Event>): nat {
    if es == [] then 0
    else Changes(w, es[..|es| - 1]) + Changed(Run(w, es[..|es| - 1]), es[|es| - 1])
  }

  ghost function TotalRank(w: World, names: set<string>): nat {
    if names == {} then 0
    else
      var n :| n in names;
      Rank(At(w, n)) + TotalRank(w, names - {n})
  }

  lemma {:induction false} TotalRankBound(w: World, names: set<string>)
    ensures TotalRank(w, names) <= MAX_RANK * |names|
  {
    if names == {} {
    } else {
      var n :| n in names && TotalRank(w, names) == Rank(At(w, n)) + TotalRank(w, names - {n});
      TotalRankBound(w, names - {n});
      RankBound(At(w, n));
      assert |names - {n}| == |names| - 1;
    }
  }

  /** Lowering ranks pointwise lowers the total, strictly when one of them drops. */
  lemma {:induction false} TotalRankDrops(w: World, w': World, names: set<string>, x: string)
    requires forall n <- names :: Rank(At(w', n)) <= Rank(At(w, n))
    ensures TotalRank(w', names) <= TotalRank(w, names)
    ensures x in names && Rank(At(w', x)) < Rank(At(w, x)) ==> TotalRank(w', names) < TotalRank(w, names)
  {
    if names == {} {
    } else {
      var n :| n in names && TotalRank(w, names) == Rank(At(w, n)) + TotalRank(w, names - {n});
      TotalRankSplit(w', names, n);
      TotalRankDrops(w, w', names - {n}, x);
    }
  }

  /** The total does not depend on the order in which names are taken. */
  lemma {:induction false} TotalRankSplit(w: World, names: set<string>, x: string)
    requires x in names
    ensures TotalRank(w, names) == Rank(At(w, x)) + TotalRank(w, names - {x})
  {
    var n :| n in names && TotalRank(w, names) == Rank(At(w, n)) + TotalRank(w, names - {n});
    if n == x {
    } else {
      TotalRankSplit(w, names - {n}, x);
      TotalRankSplit(w, names - {x}, n);
      assert names - {n} - {x} == names - {x} - {n};
    }
  }

  /** An automatic event on a name nobody knows leaves an empty slot. */
  lemma UnknownNameStaysEmpty(w: World, e: Event)
    requires Automatic(e)
    ensures w.Keys <= Step(w, e).Keys
    ensures forall n :: n !in w ==> At(Step(w, e), n) == EMPTY
  {
  }

  lemma {:induction false} EmptyNamesStayEmpty(w: World, es: seq<Event>)
    requires Joint(w) && forall e <- es :: Automatic(e)
    ensures Joint(Run(w, es)) && w.Keys <= Run(w, es).Keys
    ensures forall n :: n !in w ==> At(Run(w, es), n) == EMPTY
  {
    if es == [] {
    } else {
      var prev, e := Run(w, es[..|es| - 1]), es[|es| - 1];
      EmptyNamesStayEmpty(w, es[..|es| - 1]);
      assert Automatic(e) by { assert e in es; }
      StepKeepsJoint(prev, e);
      UnknownNameStaysEmpty(prev, e);
      forall n | n !in w ensures At(Step(prev, e), n) == EMPTY {
        if e.On? && e.name == n {
          assert At(prev, n) == EMPTY;
          assert StepSlot(EMPTY, e.action, Gate(prev)) == EMPTY;
        }
      }
    }
  }

  lemma {:induction false} ChangesWithinRank(w: World, es: seq<Event>)
    requires Joint(w) && forall e <- es :: Automatic(e)
    ensures TotalRank(Run(w, es), w.Keys) + Changes(w, es) <= TotalRank(w, w.Keys)
  {
    if es == [] {
    } else {
      var prev, e := Run(w, es[..|es| - 1]), es[|es| - 1];
      assert Automatic(e) by { assert e in es; }
      EmptyNamesStayEmpty(w, es[..|es| - 1]);
      ChangesWithinRank(w, es[..|es| - 1]);
      StepLowersWithin(prev, e, w.Keys);
    }
  }

  lemma StepLowersWithin(w: World, e: Event, names: set<string>)
    requires Joint(w) && Automatic(e) && names <= w.Keys
    requires forall n :: n !in names ==> At(w, n) == EMPTY
    ensures TotalRank(Step(w, e), names) + Changed(w, e) <= TotalRank(w, names)
  {
    var w' := Step(w, e);
    match e
    case On(n, a) =>
      StepLowersRank(At(w, n), a, Gate(w));
      if n !in names {
        assert StepSlot(EMPTY, a, Gate(w)) == EMPTY;
      }
      TotalRankDrops(w, w', names, n);
    case Restart =>
      forall n <- names ensures Rank(At(w', n)) <= Rank(At(w, n)) {
        RestartKeepsRank(w[n]);
      }
      TotalRankDrops(w, w', names, "");
  }

  /** N managers change state at most 8 * N times, however long the engine runs by itself. */
  lemma EngineComesToRest(w: World, es: seq<Event>)
    requires Joint(w) && forall e <- es :: Automatic(e)
    ensures Changes(w, es) <= MAX_RANK * |w.Keys|
  {
    ChangesWithinRank(w, es);
    TotalRankBound(w, w.Keys);
  }
}
