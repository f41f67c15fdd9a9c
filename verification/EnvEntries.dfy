/** Who is visited, and where the stored entries of an application come from. */
module EnvEntries {
  import opened Wrappers
  import opened EnvSync
  import opened EnvProtocol

  // ---------------------------------------------------------------------------------------
  // Who is visited

  /** A source reconcile visits exactly the applications that the cache shows with a reference to
      its name; for a UserEnv only those of its user. It skips those shown annotated. */
  lemma FanListsExactly(s: Net, k: Key, id: Id)
    requires k in s.srcQ && k !in s.fans
    ensures
      var g := Step(s, StartFan(k));
      && k in g.fans && !g.fans[k].failed
      && (id in g.fans[k].todo <==>
            && id in s.cache
            && (exists v <- s.cache[id].envs :: v.from.Some? && v.from.value.envName == k.name)
            && (k.Usr? ==> id.owner == k.owner))
      && (id in g.fans[k].todo ==> (g.fans[k].todo[id] <==> s.cache[id].annotation != ""))
  {
    if id in s.cache {
      ReferencesMeans(s.cache[id].envs, k.name);
    }
  }

  lemma ReferencesMeans(envs: seq<EnvVar>, n: string)
    ensures References(envs, n) <==> exists v <- envs :: v.from.Some? && v.from.value.envName == n
  {
    if exists v <- envs :: v.from.Some? && v.from.value.envName == n {
      var i :| 0 <= i < |envs| && envs[i].from.Some? && envs[i].from.value.envName == n;
    }
  }

  /** A visit touches nothing but the annotation of the visited application, which becomes the name
      of the source exactly when the list asked for it and the write succeeds. */
  lemma VisitMeans(s: Net, k: Key, id: Id, ok: bool)
    requires k in s.fans && id in s.fans[k].todo && id in s.apps
    ensures
      var g := Step(s, Visit(k, id, ok));
      && g.apps == (if s.fans[k].todo[id] || !ok then s.apps else s.apps[id := s.apps[id].(annotation := k.name)])
      && k in g.fans && g.fans[k].todo == s.fans[k].todo - {id}
      && (g.fans[k].failed <==> s.fans[k].failed || (!s.fans[k].todo[id] && !ok))
  {
    VisitFans(s, k, id, ok);
    if !s.fans[k].todo[id] && ok {
      PutAppApps(s.(fans := s.fans[k := s.fans[k].(todo := s.fans[k].todo - {id})]), id,
                 s.apps[id].(annotation := k.name));
    }
  }

  lemma PutAppApps(s: Net, id: Id, a: App)
    ensures PutApp(s, id, a).apps == s.apps[id := a]
  {
  }

  // ---------------------------------------------------------------------------------------
  // Where entries come from

  /** What the controllers never change of an entry. */
  function Skeleton(e: EnvVar): EnvVar {
    if e.from.None? then e
    else e.(value := "", kind := "", from := Some(Ref(e.from.value.envName, Unset)))
  }

  predicate SameEntries(a: seq<EnvVar>, b: seq<EnvVar>) {
    |a| == |b| && forall i :: 0 <= i < |a| ==> Skeleton(a[i]) == Skeleton(b[i])
  }

  /** The list is stored, cached, on its way, or what the run at work has read. */
  ghost predicate Holds(s: Net, id: Id, l: seq<EnvVar>) {
    || (id in s.apps && s.apps[id].envs == l)
    || (id in s.cache && s.cache[id].envs == l)
    || (exists a <- LateApp(s, id) :: a.envs == l)
    || (id in s.runs && !s.runs[id].Applying? && s.runs[id].app.envs == l)
  }

  /** The step held such a list already. */
  ghost predicate HeldBefore(s: Net, id: Id, l: seq<EnvVar>) {
    exists m :: Holds(s, id, m) && SameEntries(l, m)
  }

  lemma HeldIs(s: Net, id: Id, l: seq<EnvVar>)
    requires Holds(s, id, l)
    ensures HeldBefore(s, id, l)
  {
    assert SameEntries(l, l);
  }

  lemma PutAppHolds(s: Net, id: Id, a: App, l: seq<EnvVar>)
    requires Holds(PutApp(s, id, a), id, l)
    ensures Holds(s, id, l) || l == a.envs
  {
  }

  lemma EndRunHolds(s: Net, id: Id, requeue: bool, l: seq<EnvVar>)
    requires Holds(EndRun(s, id, requeue), id, l)
    ensures Holds(s, id, l)
  {
  }

  lemma SyncedIsSame(es: seq<EnvVar>, sys: Sources, usr: Sources)
    ensures SameEntries(SyncedAll(es, sys, usr), es)
  {
  }

  lemma PatchHolds(s: Net, id: Id, ok: bool, l: seq<EnvVar>)
    requires Holds(PatchStep(s, id, ok), id, l) && id in s.apps
    ensures HeldBefore(s, id, l)
  {
    if Holds(s, id, l) {
      HeldIs(s, id, l);
    } else {
      var r := s.runs[id];
      var synced := SyncedAll(r.app.envs, r.sys, r.usr);
      if synced != r.app.envs {
        if ok {
          PutAppHolds(s.(runs := s.runs[id := Applying(Merged(s.apps[id], r.app, r.sys, r.usr).needApply)]), id,
                      Merged(s.apps[id], r.app, r.sys, r.usr), l);
          SyncedIsSame(r.app.envs, r.sys, r.usr);
          assert Holds(s, id, r.app.envs) && SameEntries(l, r.app.envs);
        } else {
          EndRunHolds(s, id, true, l);
        }
      }
    }
  }

  lemma RunReadsHold(s: Net, e: Event, l: seq<EnvVar>)
    requires (e.Get? || e.ListSys? || e.ListUsr? || e.ObserveApp? || e.SkipApp?) && e.id in s.apps
    requires Holds(Step(s, e), e.id, l)
    ensures Holds(s, e.id, l)
  {
    if (e.ListSys? || e.ListUsr?) && e.id in s.runs {
      if Holds(EndRun(s, e.id, true), e.id, l) {
        EndRunHolds(s, e.id, true, l);
      }
    }
  }

  lemma ApplyHolds(s: Net, id: Id, ok: bool, l: seq<EnvVar>)
    requires id in s.apps && Holds(ApplyStep(s, id, ok), id, l)
    ensures Holds(s, id, l)
  {
    if id in s.runs && s.runs[id].Applying? {
      if s.runs[id].need && ok {
        PutAppHolds(EndRun(s, id, false), id, s.apps[id].(needApply := false), l);
        if Holds(EndRun(s, id, false), id, l) {
          EndRunHolds(s, id, false, l);
        }
      } else {
        EndRunHolds(s, id, s.runs[id].need, l);
      }
    }
  }

  lemma ClearHolds(s: Net, id: Id, ok: bool, l: seq<EnvVar>)
    requires id in s.apps && Holds(ClearStep(s, id, ok), id, l)
    ensures Holds(s, id, l)
  {
    if Clearing(s, id) {
      if ok {
        PutAppHolds(EndRun(s, id, false), id, s.apps[id].(annotation := ""), l);
        if Holds(EndRun(s, id, false), id, l) {
          EndRunHolds(s, id, false, l);
        }
      } else {
        EndRunHolds(s, id, true, l);
      }
    }
  }

  /** The operator's write of this application. */
  predicate Writes(e: Event, id: Id) {
    e.WriteApp? && e.id == id
  }

  lemma OwnEventHolds(s: Net, e: Event, l: seq<EnvVar>)
    requires AppEvent(e) && e.id in s.apps && Holds(Step(s, e), e.id, l)
    ensures HeldBefore(s, e.id, l) || (Writes(e, e.id) && l == e.envs)
  {
    var id := e.id;
    match e {
      case WriteApp(_, envs, apply) =>
        PutAppHolds(s, id, s.apps[id].(envs := envs, needApply := s.apps[id].needApply || apply), l);
      case HelmApplied(_) => PutAppHolds(s, id, s.apps[id].(needApply := false), l);
      case Patch(_, ok) => PatchHolds(s, id, ok, l);
      case Clear(_, ok) => ClearHolds(s, id, ok, l);
      case Apply(_, ok) => ApplyHolds(s, id, ok, l);
      case _ => RunReadsHold(s, e, l);
    }
    if Holds(s, id, l) {
      HeldIs(s, id, l);
    } else if e.HelmApplied? || e.Clear? || e.Apply? {
      HeldIs(s, id, s.apps[id].envs);
    }
  }

  lemma UntouchedHolds(s: Net, g: Net, id: Id, l: seq<EnvVar>)
    requires id in s.apps && Untouched(s, g, id) && Holds(g, id, l)
    ensures HeldBefore(s, id, l)
  {
    HeldIs(s, id, l);
  }

  lemma VisitHolds(s: Net, k: Key, visited: Id, ok: bool, id: Id, l: seq<EnvVar>)
    requires id in s.apps && Holds(VisitStep(s, k, visited, ok), id, l)
    ensures HeldBefore(s, id, l)
  {
    if id == visited && Settles(s, k, visited, ok) {
      var fans := s.fans[k := s.fans[k].(todo := s.fans[k].todo - {visited})];
      PutAppHolds(s.(fans := fans), id, s.apps[id].(annotation := k.name), l);
      assert Holds(s, id, l);
      HeldIs(s, id, l);
    } else {
      VisitElsewhere(s, k, visited, ok, id);
      UntouchedHolds(s, VisitStep(s, k, visited, ok), id, l);
    }
  }

  lemma RestartHolds(s: Net, id: Id, l: seq<EnvVar>)
    requires Holds(RestartStep(s), id, l)
    ensures HeldBefore(s, id, l)
  {
    HeldIs(s, id, l);
  }

  lemma SourceHolds(s: Net, e: Event, id: Id, l: seq<EnvVar>)
    requires SourceEvent(e) && Holds(Step(s, e), id, l)
    ensures HeldBefore(s, id, l)
  {
    SourceKeepsAppSide(s, e);
    HeldIs(s, id, l);
  }

  lemma StepHolds(s: Net, e: Event, id: Id, l: seq<EnvVar>)
    requires Stored(s) && Holds(Step(s, e), id, l)
    ensures HeldBefore(s, id, l) || (Writes(e, id) && l == e.envs)
  {
    StepKeepsStored(s, e);
    if id !in s.apps {
      FirstHolds(s, e, id, l);
    } else if e.Visit? {
      VisitHolds(s, e.key, e.id, e.ok, id, l);
    } else if e.Restart? {
      RestartHolds(s, id, l);
    } else if SourceEvent(e) {
      SourceHolds(s, e, id, l);
    } else if e.id == id {
      OwnEventHolds(s, e, l);
    } else {
      AppEventElsewhere(s, e, id);
      UntouchedHolds(s, Step(s, e), id, l);
    }
  }

  lemma StoredHolds(s: Net, id: Id, l: seq<EnvVar>)
    requires Stored(s) && Holds(s, id, l)
    ensures id in s.apps
  {
  }

  lemma FirstHolds(s: Net, e: Event, id: Id, l: seq<EnvVar>)
    requires Stored(s) && id !in s.apps && Holds(Step(s, e), id, l)
    ensures Writes(e, id) && l == e.envs
  {
    StepKeepsStored(s, e);
    StoredHolds(Step(s, e), id, l);
    assert Writes(e, id);
    PutAppHolds(s, id, App(e.envs, "", e.apply), l);
  }

  ghost predicate WrittenBy(es: seq<Event>, id: Id, l: seq<EnvVar>) {
    exists i :: 0 <= i < |es| && Writes(es[i], id) && SameEntries(l, es[i].envs)
  }

  /** Whatever the interleaving and however old what was read, every list of entries that is stored,
      cached, on its way or at work was written by the operator, up to values, types and status
      of its references: no entry is invented, dropped, reordered or renamed. */
  lemma {:induction false} EntriesComeFromWrites(es: seq<Event>, id: Id, l: seq<EnvVar>)
    requires Holds(RunNet(es), id, l)
    ensures WrittenBy(es, id, l)
  {
    assert es == [] ==> LateApp(RunNet(es), id) == [];
    if es != [] {
      var before, e := es[..|es| - 1], es[|es| - 1];
      RunKeepsNetOk(before);
      StepHolds(RunNet(before), e, id, l);
      if Writes(e, id) && l == e.envs {
        assert Writes(es[|es| - 1], id) && SameEntries(l, es[|es| - 1].envs);
      } else {
        var m :| Holds(RunNet(before), id, m) && SameEntries(l, m);
        EntriesComeFromWrites(before, id, m);
        var i :| 0 <= i < |before| && Writes(before[i], id) && SameEntries(m, before[i].envs);
        assert Writes(es[i], id) && SameEntries(l, es[i].envs);
      }
    }
  }

  // ---------------------------------------------------------------------------------------
  // What is read, and what writes do

  /** A controller reads only its caches: a run works on the cached object, on the SystemEnvs the
      informer has delivered, and on the delivered UserEnvs of the application's user. */
  lemma ReadsAreCached(s: Net, id: Id)
    requires Stored(s)
    ensures id in s.appQ && id !in s.runs ==>
      var g := Step(s, Get(id));
      id in g.runs && g.runs[id] == Got(s.cache[id]) && id !in g.appQ
    ensures id in s.runs && s.runs[id].Got? && s.runs[id].app.annotation == "" ==>
      var g := Step(s, ListSys(id, true));
      id in g.runs && g.runs[id] == ListedSys(s.runs[id].app, s.seen.sys)
    ensures id in s.runs && s.runs[id].ListedSys? ==>
      var g := Step(s, ListUsr(id, true));
      id in g.runs
      && g.runs[id] == ListedBoth(s.runs[id].app, s.runs[id].sys,
                                  if id.owner in s.seen.usr then s.seen.usr[id.owner] else map[])
  {
  }

  /** What an operator stores: the entries as given, with NeedApply raised when asked for and never
      lowered; an annotation stays. */
  lemma WriteAppMeans(s: Net, id: Id, envs: seq<EnvVar>, apply: bool)
    ensures
      var g := Step(s, WriteApp(id, envs, apply));
      && id in g.apps && g.apps[id].envs == envs
      && (g.apps[id].needApply <==> apply || (id in s.apps && s.apps[id].needApply))
      && g.apps[id].annotation == (if id in s.apps then s.apps[id].annotation else "")
      && forall other <- s.apps :: other != id ==> other in g.apps && g.apps[other] == s.apps[other]
  {
  }

  /** A source that is written is stored as it is, and no other changes; nobody sees it before the
      watch delivers it. */
  lemma WriteSourceMeans(s: Net, k: Key, src: Source, j: Key)
    requires k.name != ""
    ensures
      var g := Step(s, WriteSource(k, src));
      && SourceAt(g.now, j) == (if j == k then Some(src) else SourceAt(s.now, j))
      && g.seen == s.seen && g.apps == s.apps && g.srcQ == s.srcQ
  {
    WriteSourceAt(s.now, k, src, j);
  }

  /** A restart queues everything that is stored, with fresh caches. */
  lemma RestartMeans(s: Net)
    ensures
      var g := Step(s, Restart);
      && g.now == s.now && g.apps == s.apps && g.seen == s.now && g.cache == s.apps
      && g.appQ == s.apps.Keys && (forall k :: k in g.srcQ <==> SourceAt(s.now, k).Some?)
      && g.fans == map[] && g.runs == map[]
  {
    forall k ensures k in Keys(s.now) <==> SourceAt(s.now, k).Some? {
    }
  }
}
