/**
 The lock layer: the critical sections of the factory as separate steps, interleaved in any
 order. An operation object is created by New, registered by Exec, watched by its own
 goroutine, removed from the map by that goroutine, and then finished. Every removal is by
 name, so it may hit the entry of another operation.

 State() of an in-progress object is taken as constant.
 */
module LockLayer {
  import opened AppStates

  /** Created: loaded, not registered. Dropped: its registration found another operation.
      Watching: its watcher waits. Woken: the wait is over. Removed: the watcher has deleted
      the name from the map. Finished: finally has run. */
  datatype Phase = Created | Dropped | Watching | Woken | Removed | Finished

  datatype Op = Op(name: string, state: State, polling: bool, phase: Phase,
                   cleaned: bool, registrations: nat, finallies: nat)

  /** closures: operations captured by an unknown-in-progress error that may still clean up. */
  datatype Factory = Factory(ops: map<nat, Op>, inProgress: map<string, nat>, closures: set<nat>, next: nat)

  const START := Factory(map[], map[], {}, 0)

  datatype Event =
    | New(name: string, state: State, polling: bool)
    | Exec(id: nat)
    | Wake(id: nat)
    | Remove(id: nat)
    | Finally(id: nat)
    | CancelOperation(name: string)
    | CleanUp(id: nat)
    | DropName(id: nat)

  predicate Live(p: Phase) {
    p == Watching || p == Woken
  }

  function Delete(f: Factory, name: string): Factory {
    f.(inProgress := f.inProgress - {name})
  }

  function SetPhase(f: Factory, id: nat, p: Phase): Factory
    requires id in f.ops
  {
    f.(ops := f.ops[id := f.ops[id].(phase := p)])
  }

  function Registered(f: Factory, id: nat): Factory
    requires id in f.ops
  {
    var o := f.ops[id];
    f.(ops := f.ops[id := o.(phase := Watching, registrations := o.registrations + 1)],
       inProgress := f.inProgress[o.name := id])
  }

  /** waitForPolling gives way to any entry of the name, execAndWatch only to one of its own
      state; it overwrites every other. */
  predicate GivesWay(f: Factory, o: Op) {
    o.name in f.inProgress
    && (o.polling || (f.inProgress[o.name] in f.ops && f.ops[f.inProgress[o.name]].state == o.state))
  }

  function Cleaned(f: Factory, id: nat): Factory {
    if id in f.ops then f.(ops := f.ops[id := f.ops[id].(cleaned := true)]) else f
  }

  function Step(f: Factory, e: Event): Factory {
    match e
    case New(n, st, polling) =>
      if n in f.inProgress && f.inProgress[n] in f.ops && f.ops[f.inProgress[n]].state == st then f
      else if n in f.inProgress && !IsCanceling(st) then f.(closures := f.closures + {f.inProgress[n]})
      else f.(ops := f.ops[f.next := Op(n, st, polling, Created, false, 0, 0)], next := f.next + 1)
    case Exec(id) =>
      // Exec of an object that is already in progress does nothing
      if id !in f.ops || f.ops[id].phase != Created then f
      else if GivesWay(f, f.ops[id]) then SetPhase(f, id, Dropped)
      else Registered(f, id)
    case Wake(id) =>
      if id in f.ops && f.ops[id].phase == Watching then SetPhase(f, id, Woken) else f
    case Remove(id) =>
      if id in f.ops && f.ops[id].phase == Woken then Delete(SetPhase(f, id, Phase.Removed), f.ops[id].name) else f
    case Finally(id) =>
      if id in f.ops && f.ops[id].phase == Phase.Removed
      then f.(ops := f.ops[id := f.ops[id].(phase := Finished, finallies := f.ops[id].finallies + 1)])
      else f
    case CancelOperation(n) =>
      if n in f.inProgress then Delete(Cleaned(f, f.inProgress[n]), n) else f
    case CleanUp(id) =>
      if id in f.closures then Cleaned(f, id) else f
    case DropName(id) =>
      if id in f.closures && id in f.ops
      then Delete(f, f.ops[id].name).(closures := f.closures - {id})
      else f
  }

  function Run(es: seq<Event>): Factory {
    if es == [] then START else Step(Run(es[..|es| - 1]), es[|es| - 1])
  }

  // ---------------------------------------------------------------------------------------
  // What every interleaving keeps

  ghost predicate OpOk(f: Factory, id: nat)
    requires id in f.ops
  {
    var o := f.ops[id];
    && id < f.next
    && o.registrations == (if o.phase == Created || o.phase == Dropped then 0 else 1)
    && o.finallies == (if o.phase == Finished then 1 else 0)
  }

  ghost predicate EntryOk(f: Factory, n: string)
    requires n in f.inProgress
  {
    var id := f.inProgress[n];
    id in f.ops && f.ops[id].name == n && Live(f.ops[id].phase)
  }

  ghost predicate Protocol(f: Factory) {
    && (forall id <- f.ops :: OpOk(f, id))
    && (forall n <- f.inProgress :: EntryOk(f, n))
  }

  lemma StepKeepsOp(f: Factory, e: Event, id: nat)
    requires Protocol(f) && id in Step(f, e).ops
    ensures OpOk(Step(f, e), id)
  {
    assert id != f.next ==> OpOk(f, id);
  }

  lemma StepKeepsEntry(f: Factory, e: Event, n: string)
    requires Protocol(f) && n in Step(f, e).inProgress
    ensures EntryOk(Step(f, e), n)
  {
    assert n in f.inProgress ==> EntryOk(f, n);
    assert forall id <- f.ops :: OpOk(f, id);
  }

  lemma StepKeepsProtocol(f: Factory, e: Event)
    requires Protocol(f)
    ensures Protocol(Step(f, e))
  {
    forall id | id in Step(f, e).ops ensures OpOk(Step(f, e), id) {
      StepKeepsOp(f, e, id);
    }
    forall n | n in Step(f, e).inProgress ensures EntryOk(Step(f, e), n) {
      StepKeepsEntry(f, e, n);
    }
  }

  lemma {:induction false} RunKeepsProtocol(es: seq<Event>)
    ensures Protocol(Run(es))
  {
    if es == [] {
    } else {
      RunKeepsProtocol(es[..|es| - 1]);
      StepKeepsProtocol(Run(es[..|es| - 1]), es[|es| - 1]);
    }
  }

  /** Under every interleaving: an operation is registered at most once, every entry has a live
      watcher of the same name, finally runs at most once, and once it may run the operation is
      in no entry any more. */
  lemma EveryInterleaving(es: seq<Event>)
    ensures
      var f := Run(es);
      && (forall id <- f.ops :: f.ops[id].registrations <= 1 && f.ops[id].finallies <= f.ops[id].registrations)
      && (forall n <- f.inProgress :: f.inProgress[n] in f.ops
            && f.ops[f.inProgress[n]].name == n && Live(f.ops[f.inProgress[n]].phase))
      && (forall id <- f.ops :: f.ops[id].phase == Phase.Removed || f.ops[id].phase == Finished ==>
            forall n <- f.inProgress :: f.inProgress[n] != id)
  {
    var f := Run(es);
    RunKeepsProtocol(es);
    assert forall id <- f.ops :: OpOk(f, id);
    assert forall n <- f.inProgress :: EntryOk(f, n);
  }

  // ---------------------------------------------------------------------------------------
  // Removal by name

  /** An operation whose watcher is live but that no entry shows. */
  ghost predicate Orphaned(f: Factory, id: nat) {
    id in f.ops && Live(f.ops[id].phase) && (f.ops[id].name !in f.inProgress || f.inProgress[f.ops[id].name] != id)
  }

  /** The step takes the entry of a live operation away from it: a cancel, a cleanup, a
      registration over another state, or a removal by an operation without the entry. */
  predicate Disturbs(f: Factory, e: Event) {
    match e
    case CancelOperation(n) => n in f.inProgress
    case DropName(id) => id in f.closures && id in f.ops && f.ops[id].name in f.inProgress
    case Exec(id) =>
      && id in f.ops && f.ops[id].phase == Created && f.ops[id].name in f.inProgress
      && !GivesWay(f, f.ops[id])
    case Remove(id) =>
      && id in f.ops && f.ops[id].phase == Woken && f.ops[id].name in f.inProgress
      && f.inProgress[f.ops[id].name] != id
    case _ => false
  }

  /** A step orphans an operation that was not orphaned exactly when it disturbs its entry. */
  lemma OrphansExactly(f: Factory, e: Event)
    requires Protocol(f)
    ensures (exists id :: !Orphaned(f, id) && Orphaned(Step(f, e), id)) <==> Disturbs(f, e)
  {
    var g := Step(f, e);
    assert forall n <- f.inProgress :: EntryOk(f, n);
    assert forall id <- f.ops :: OpOk(f, id);
    if Disturbs(f, e) {
      var n := match e case CancelOperation(n) => n case DropName(id) => f.ops[id].name
        case Exec(id) => f.ops[id].name case Remove(id) => f.ops[id].name;
      assert EntryOk(f, n);
      var victim := f.inProgress[n];
      assert !Orphaned(f, victim) && Orphaned(g, victim);
    } else {
      forall id ensures Orphaned(f, id) || !Orphaned(g, id) {
        if id in f.ops && Live(f.ops[id].phase) && !Orphaned(f, id) {
          assert EntryOk(f, f.ops[id].name);
        }
      }
    }
  }

  predicate Undisturbed(es: seq<Event>) {
    es == [] || (Undisturbed(es[..|es| - 1]) && !Disturbs(Run(es[..|es| - 1]), es[|es| - 1]))
  }

  /** As long as nothing disturbs an entry, the map shows exactly the live operations. */
  lemma {:induction false} UndisturbedRunsMatch(es: seq<Event>)
    requires Undisturbed(es)
    ensures forall id :: !Orphaned(Run(es), id)
  {
    if es == [] {
    } else {
      var f := Run(es[..|es| - 1]);
      UndisturbedRunsMatch(es[..|es| - 1]);
      RunKeepsProtocol(es[..|es| - 1]);
      OrphansExactly(f, es[|es| - 1]);
    }
  }

  lemma RunThen(es: seq<Event>, e: Event)
    ensures Run(es + [e]) == Step(Run(es), e)
  {
    assert (es + [e])[..|es|] == es;
  }

  /** Removal by name does hit a successor: resuming is cancelled, the application resumes again,
      and the first watcher, waking late, deletes the entry of the second operation, whose
      watcher still runs. */
  lemma LateRemovalHitsSuccessor(n: string)
    ensures
      var es := [New(n, Resuming, true), Exec(0), CancelOperation(n), New(n, Resuming, true), Exec(1), Wake(0)];
      var before, after := Run(es), Run(es + [Remove(0)]);
      before.inProgress == map[n := 1] && !Orphaned(before, 1) && after.inProgress == map[] && Orphaned(after, 1)
  {
    var created := Op(n, Resuming, true, Created, false, 0, 0);
    var watched := created.(phase := Watching, registrations := 1);
    var cancelled := watched.(cleaned := true);
    var es1 := [New(n, Resuming, true)];
    RunThen([], es1[0]);
    assert [] + [es1[0]] == es1;
    var es2 := es1 + [Exec(0)];
    RunThen(es1, Exec(0));
    assert Run(es2) == Factory(map[0 := watched], map[n := 0], {}, 1);
    var es3 := es2 + [CancelOperation(n)];
    RunThen(es2, CancelOperation(n));
    assert Run(es3) == Factory(map[0 := cancelled], map[], {}, 1);
    var es4 := es3 + [es1[0]];
    RunThen(es3, es1[0]);
    assert Run(es4) == Factory(map[0 := cancelled, 1 := created], map[], {}, 2);
    var es5 := es4 + [Exec(1)];
    RunThen(es4, Exec(1));
    assert Run(es5) == Factory(map[0 := cancelled, 1 := watched], map[n := 1], {}, 2);
    var es6 := es5 + [Wake(0)];
    RunThen(es5, Wake(0));
    assert Run(es6) == Factory(map[0 := cancelled.(phase := Woken), 1 := watched], map[n := 1], {}, 2);
    RunThen(es6, Remove(0));
    assert es6 == [New(n, Resuming, true), Exec(0), CancelOperation(n), New(n, Resuming, true), Exec(1), Wake(0)];
  }

  // ---------------------------------------------------------------------------------------
  // What moves what

  /** Nobody else's operation stands in the way of registering id. */
  predicate NameIsFree(f: Factory, id: nat)
    requires id in f.ops
  {
    var o := f.ops[id];
    o.name in f.inProgress ==>
      !o.polling && f.inProgress[o.name] in f.ops && f.ops[f.inProgress[o.name]].state != o.state
  }

  /** Under every interleaving: an operation moves only by its own steps, one phase after the other,
      and its finally is the last of them; only a cancel of its entry, or a cleanup of an operation
      that was captured, cleans it. */
  lemma OperationMoves(es: seq<Event>, e: Event, id: nat)
    requires id in Run(es).ops
    ensures
      var f, g := Run(es), Run(es + [e]);
      && id in g.ops
      && g.ops[id].(phase := Created, cleaned := false, registrations := 0, finallies := 0)
         == f.ops[id].(phase := Created, cleaned := false, registrations := 0, finallies := 0)
      && g.ops[id].phase ==
         (match f.ops[id].phase
          case Created => if e != Exec(id) then Created else if NameIsFree(f, id) then Watching else Dropped
          case Watching => if e == Wake(id) then Woken else Watching
          case Woken => if e == Event.Remove(id) then Phase.Removed else Woken
          case Removed => if e == Finally(id) then Finished else Phase.Removed
          case last => last)
      && (g.ops[id].cleaned <==>
            || f.ops[id].cleaned
            || (e == CancelOperation(f.ops[id].name) && f.ops[id].name in f.inProgress
                && f.inProgress[f.ops[id].name] == id)
            || (e == CleanUp(id) && id in f.closures))
  {
    RunThen(es, e);
    RunKeepsProtocol(es);
    var f := Run(es);
    assert OpOk(f, id);
    assert forall n <- f.inProgress :: EntryOk(f, n);
  }

  /** The step takes the entry of name n away: a cancel of n, the watcher of an operation of that
      name, or the cleanup of a captured one. */
  predicate Takes(f: Factory, e: Event, n: string) {
    match e
    case CancelOperation(m) => m == n
    case Remove(id) => id in f.ops && f.ops[id].name == n && f.ops[id].phase == Woken
    case DropName(id) => id in f.ops && f.ops[id].name == n && id in f.closures
    case _ => false
  }

  /** Under every interleaving: the entry of a name changes only to an operation of that name that is
      registered, or to nothing by one of those three. */
  lemma EntryMoves(es: seq<Event>, e: Event, n: string)
    ensures
      var f, g := Run(es), Run(es + [e]);
      var registered := e.Exec? && e.id in f.ops && f.ops[e.id].name == n && f.ops[e.id].phase == Created
                        && NameIsFree(f, e.id);
      if registered then n in g.inProgress && g.inProgress[n] == e.id
      else if Takes(f, e, n) then n !in g.inProgress
      else (n in g.inProgress <==> n in f.inProgress) && (n in f.inProgress ==> g.inProgress[n] == f.inProgress[n])
  {
    RunThen(es, e);
    RunKeepsProtocol(es);
    var f := Run(es);
    assert forall m <- f.inProgress :: EntryOk(f, m);
  }

  /** What the factory hands out: a new operation when the name has no entry, or one of another state
      and the manager is canceling; otherwise none, and an entry of another state is captured. */
  lemma NewMeans(es: seq<Event>, n: string, st: State, polling: bool)
    ensures
      var f, g := Run(es), Run(es + [New(n, st, polling)]);
      var other := n in f.inProgress && f.inProgress[n] in f.ops && f.ops[f.inProgress[n]].state != st;
      var made := n !in f.inProgress || (other && IsCanceling(st));
      && g.inProgress == f.inProgress
      && g.ops == (if made then f.ops[f.next := Op(n, st, polling, Created, false, 0, 0)] else f.ops)
      && g.closures == (if other && !made then f.closures + {f.inProgress[n]} else f.closures)
  {
    RunThen(es, New(n, st, polling));
    RunKeepsProtocol(es);
    var f := Run(es);
    assert forall m <- f.inProgress :: EntryOk(f, m);
  }

  /** Nothing can keep a live operation from ending: whatever happened before, its own three steps
      finish it, and run its finally once. */
  lemma LiveCanFinish(es: seq<Event>, id: nat)
    requires id in Run(es).ops && Live(Run(es).ops[id].phase)
    ensures
      var g := Run(es + [Wake(id)] + [Event.Remove(id)] + [Finally(id)]);
      id in g.ops && g.ops[id].phase == Finished && g.ops[id].finallies == 1
  {
    OperationMoves(es, Wake(id), id);
    OperationMoves(es + [Wake(id)], Event.Remove(id), id);
    var removed := es + [Wake(id)] + [Event.Remove(id)];
    OperationMoves(removed, Finally(id), id);
    RunKeepsProtocol(removed + [Finally(id)]);
    assert OpOk(Run(removed + [Finally(id)]), id);
  }
}
