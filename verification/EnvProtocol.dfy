/**
 The annotation handshake that carries SystemEnv and UserEnv changes to AppEnvs.

 Three controllers work on one store. A source controller lists the AppEnvs and annotates the
 ones that refer to its source; the AppEnv controller first clears the annotation, which
 triggers it again, and then lists the sources, patches the references, and applies what has
 to be applied. Every read and every write of the store is a step of its own, any of them may
 fail, and steps interleave freely.

 The controllers read from informer caches. A write adds a version; the watch delivers the
 versions of an object in order, at any later time, and only the delivery of a version updates
 the cache and queues the object. So every read may be older than the store by any number of
 versions. Patches are merge patches of what the controller read, without a version check, so
 they may overwrite a newer list of entries. Work queues keep at most one pending request per
 key and never hand out a key that is being worked on; a restart of the process reads
 everything anew. Sources are created and updated, not deleted.
 */
module EnvProtocol {
  import opened Wrappers
  import opened EnvSync

  datatype Key = Sys(name: string) | Usr(owner: string, name: string)

  /** An AppEnv belongs to one application of one user. */
  datatype Id = Id(name: string, owner: string)

  datatype App = App(envs: seq<EnvVar>, annotation: string, needApply: bool)

  datatype View = View(sys: Sources, usr: map<string, Sources>)

  /** A source reconcile after its list: the referring AppEnvs still to visit, each with whether
      the list showed it annotated. */
  datatype Fan = Fan(todo: map<Id, bool>, failed: bool)

  /** An AppEnv reconcile: after Get, after the list of SystemEnvs, after the list of UserEnvs,
      and after the patch, when it only has to apply, if it has to. */
  datatype Run =
    | Got(app: App)
    | ListedSys(app: App, sys: Sources)
    | ListedBoth(app: App, sys: Sources, usr: Sources)
    | Applying(need: bool)

  /** now, apps: the store. seen, cache: what the informers show. lateSrc, lateApp: the versions
      not delivered yet, oldest first. */
  datatype Net = Net(now: View, apps: map<Id, App>,
                     seen: View, cache: map<Id, App>, lateSrc: map<Key, seq<Source>>, lateApp: map<Id, seq<App>>,
                     srcQ: set<Key>, appQ: set<Id>, fans: map<Key, Fan>, runs: map<Id, Run>)

  const NO_SOURCES := View(map[], map[])

  const START := Net(NO_SOURCES, map[], NO_SOURCES, map[], map[], map[], {}, {}, map[], map[])

  datatype Event =
    | WriteSource(key: Key, source: Source)
    | WriteApp(id: Id, envs: seq<EnvVar>, apply: bool)
    | HelmApplied(id: Id)
    | ObserveSource(key: Key)
    | SkipSource(key: Key)
    | ObserveApp(id: Id)
    | SkipApp(id: Id)
    | StartFan(key: Key)
    | Visit(key: Key, id: Id, ok: bool)
    | FinishFan(key: Key)
    | Get(id: Id)
    | Clear(id: Id, ok: bool)
    | ListSys(id: Id, ok: bool)
    | ListUsr(id: Id, ok: bool)
    | Patch(id: Id, ok: bool)
    | Apply(id: Id, ok: bool)
    | Restart

  // ---------------------------------------------------------------------------------------
  // Views, versions, and writes of the store

  function UserView(v: View, owner: string): Sources {
    if owner in v.usr then v.usr[owner] else map[]
  }

  function SourceAt(v: View, k: Key): Option<Source> {
    match k
    case Sys(n) => if n in v.sys then Some(v.sys[n]) else None
    case Usr(o, n) => if n in UserView(v, o) then Some(UserView(v, o)[n]) else None
  }

  function PutSource(v: View, k: Key, src: Source): View {
    match k
    case Sys(n) => v.(sys := v.sys[n := src])
    case Usr(o, n) => v.(usr := v.usr[o := UserView(v, o)[n := src]])
  }

  function LateSource(s: Net, k: Key): seq<Source> {
    if k in s.lateSrc then s.lateSrc[k] else []
  }

  function LateApp(s: Net, id: Id): seq<App> {
    if id in s.lateApp then s.lateApp[id] else []
  }

  /** A write of an AppEnv is a new version only when it changes the object. */
  function PutApp(s: Net, id: Id, a: App): Net {
    if id in s.apps && s.apps[id] == a then s
    else s.(apps := s.apps[id := a], lateApp := s.lateApp[id := LateApp(s, id) + [a]])
  }

  // ---------------------------------------------------------------------------------------
  // Steps

  predicate References(envs: seq<EnvVar>, n: string) {
    exists i :: 0 <= i < |envs| && envs[i].from.Some? && envs[i].from.value.envName == n
  }

  /** isReferenced; a UserEnv only concerns the applications of its user. */
  predicate Concerns(k: Key, id: Id, a: App) {
    References(a.envs, k.name) && (k.Usr? ==> k.owner == id.owner)
  }

  /** The applications source k concerns, each with whether it is annotated. */
  function Listed(s: Net, k: Key): map<Id, bool> {
    map id | id in s.cache && Concerns(k, id, s.cache[id]) :: s.cache[id].annotation != ""
  }

  function EndRun(s: Net, id: Id, requeue: bool): Net {
    s.(runs := s.runs - {id}, appQ := if requeue then s.appQ + {id} else s.appQ)
  }

  function VisitApp(s: Net, k: Key, id: Id, ok: bool): Net
    requires k in s.fans && id in s.fans[k].todo
  {
    var fan := s.fans[k].(todo := s.fans[k].todo - {id});
    if s.fans[k].todo[id] then s.(fans := s.fans[k := fan])
    else if ok && id in s.apps
    then PutApp(s.(fans := s.fans[k := fan]), id, s.apps[id].(annotation := k.name))
    else s.(fans := s.fans[k := fan.(failed := true)])
  }

  /** The entries a sync computed replace the stored ones; NeedApply is only sent when the sync
      raised it. */
  function Merged(stored: App, read: App, sys: Sources, usr: Sources): App {
    stored.(envs := SyncedAll(read.envs, sys, usr),
            needApply := stored.needApply || (!read.needApply && ApplyNeeded(read.envs, sys, usr)))
  }

  /** After a patch the controller goes on with the object the server returned. */
  function PatchApp(s: Net, id: Id, ok: bool): Net
    requires id in s.runs && s.runs[id].ListedBoth? && id in s.apps
  {
    var r := s.runs[id];
    if SyncedAll(r.app.envs, r.sys, r.usr) == r.app.envs then s.(runs := s.runs[id := Applying(r.app.needApply)])
    else if ok then
      var a := Merged(s.apps[id], r.app, r.sys, r.usr);
      PutApp(s.(runs := s.runs[id := Applying(a.needApply)]), id, a)
    else EndRun(s, id, true)
  }

  function WriteSourceStep(s: Net, k: Key, src: Source): Net {
    if k.name == "" then s
    else s.(now := PutSource(s.now, k, src), lateSrc := s.lateSrc[k := LateSource(s, k) + [src]])
  }

  function WriteAppStep(s: Net, id: Id, envs: seq<EnvVar>, apply: bool): Net {
    PutApp(s, id, if id in s.apps then s.apps[id].(envs := envs, needApply := s.apps[id].needApply || apply)
                  else App(envs, "", apply))
  }

  function HelmAppliedStep(s: Net, id: Id): Net {
    if id in s.apps then PutApp(s, id, s.apps[id].(needApply := false)) else s
  }

  function ObserveSourceStep(s: Net, k: Key): Net {
    var late := LateSource(s, k);
    if late == [] then s
    else s.(seen := PutSource(s.seen, k, late[0]), lateSrc := s.lateSrc[k := late[1..]], srcQ := s.srcQ + {k})
  }

  /** A version may be skipped when a newer one is on its way. */
  function SkipSourceStep(s: Net, k: Key): Net {
    if |LateSource(s, k)| >= 2 then s.(lateSrc := s.lateSrc[k := LateSource(s, k)[1..]]) else s
  }

  function ObserveAppStep(s: Net, id: Id): Net {
    var late := LateApp(s, id);
    if late == [] then s
    else s.(cache := s.cache[id := late[0]], lateApp := s.lateApp[id := late[1..]], appQ := s.appQ + {id})
  }

  function SkipAppStep(s: Net, id: Id): Net {
    if |LateApp(s, id)| >= 2 then s.(lateApp := s.lateApp[id := LateApp(s, id)[1..]]) else s
  }

  function StartFanStep(s: Net, k: Key): Net {
    if k in s.srcQ && k !in s.fans
    then s.(srcQ := s.srcQ - {k}, fans := s.fans[k := Fan(Listed(s, k), false)])
    else s
  }

  function VisitStep(s: Net, k: Key, id: Id, ok: bool): Net {
    if k in s.fans && id in s.fans[k].todo then VisitApp(s, k, id, ok) else s
  }

  function FinishFanStep(s: Net, k: Key): Net {
    if k in s.fans && s.fans[k].todo == map[]
    then s.(fans := s.fans - {k}, srcQ := if s.fans[k].failed then s.srcQ + {k} else s.srcQ)
    else s
  }

  function GetStep(s: Net, id: Id): Net {
    if id in s.appQ && id in s.cache && id !in s.runs
    then s.(appQ := s.appQ - {id}, runs := s.runs[id := Got(s.cache[id])])
    else s
  }

  function ClearStep(s: Net, id: Id, ok: bool): Net {
    if Clearing(s, id) && id in s.apps
    then if ok then PutApp(EndRun(s, id, false), id, s.apps[id].(annotation := "")) else EndRun(s, id, true)
    else s
  }

  function ListSysStep(s: Net, id: Id, ok: bool): Net {
    if id in s.runs && s.runs[id].Got? && !Clearing(s, id)
    then if ok then s.(runs := s.runs[id := ListedSys(s.runs[id].app, s.seen.sys)]) else EndRun(s, id, true)
    else s
  }

  function ListUsrStep(s: Net, id: Id, ok: bool): Net {
    if id in s.runs && s.runs[id].ListedSys?
    then
      if ok
      then s.(runs := s.runs[id := ListedBoth(s.runs[id].app, s.runs[id].sys, UserView(s.seen, id.owner))])
      else EndRun(s, id, true)
    else s
  }

  function PatchStep(s: Net, id: Id, ok: bool): Net {
    if id in s.runs && s.runs[id].ListedBoth? && id in s.apps then PatchApp(s, id, ok) else s
  }

  /** The apply phase fails also while a batch lease is active or the application is not in a state
      that allows it. */
  function ApplyStep(s: Net, id: Id, ok: bool): Net {
    if id in s.runs && s.runs[id].Applying? && id in s.apps
    then
      if !s.runs[id].need then EndRun(s, id, false)
      else if ok then PutApp(EndRun(s, id, false), id, s.apps[id].(needApply := false))
      else EndRun(s, id, true)
    else s
  }

  function Keys(v: View): set<Key> {
    (set n <- v.sys :: Sys(n)) + (set o <- v.usr, n <- v.usr[o] :: Usr(o, n))
  }

  function RestartStep(s: Net): Net {
    s.(seen := s.now, cache := s.apps, lateSrc := map[], lateApp := map[],
       srcQ := Keys(s.now), appQ := s.apps.Keys, fans := map[], runs := map[])
  }

  function Step(s: Net, e: Event): Net {
    match e
    case WriteSource(k, src) => WriteSourceStep(s, k, src)
    case WriteApp(id, envs, apply) => WriteAppStep(s, id, envs, apply)
    case HelmApplied(id) => HelmAppliedStep(s, id)
    case ObserveSource(k) => ObserveSourceStep(s, k)
    case SkipSource(k) => SkipSourceStep(s, k)
    case ObserveApp(id) => ObserveAppStep(s, id)
    case SkipApp(id) => SkipAppStep(s, id)
    case StartFan(k) => StartFanStep(s, k)
    case Visit(k, id, ok) => VisitStep(s, k, id, ok)
    case FinishFan(k) => FinishFanStep(s, k)
    case Get(id) => GetStep(s, id)
    case Clear(id, ok) => ClearStep(s, id, ok)
    case ListSys(id, ok) => ListSysStep(s, id, ok)
    case ListUsr(id, ok) => ListUsrStep(s, id, ok)
    case Patch(id, ok) => PatchStep(s, id, ok)
    case Apply(id, ok) => ApplyStep(s, id, ok)
    case Restart => RestartStep(s)
  }

  function RunNet(es: seq<Event>): Net {
    if es == [] then START else Step(RunNet(es[..|es| - 1]), es[|es| - 1])
  }

  // ---------------------------------------------------------------------------------------
  // The invariant

  /** The caches lag behind the store by exactly the versions not delivered yet. */
  predicate SourceOk(s: Net, k: Key) {
    var late := LateSource(s, k);
    SourceAt(s.now, k) == if late == [] then SourceAt(s.seen, k) else Some(late[|late| - 1])
  }

  predicate CacheOk(s: Net, id: Id)
    requires id in s.apps
  {
    var late := LateApp(s, id);
    if late == [] then id in s.cache && s.cache[id] == s.apps[id] else s.apps[id] == late[|late| - 1]
  }

  /** A reconcile of the application is queued, or a version that will queue it is on its way. */
  predicate Pending(s: Net, id: Id) {
    id in s.appQ || LateApp(s, id) != []
  }

  /** Some controller still owes the application a visit on behalf of source k. */
  predicate Due(s: Net, k: Key, id: Id) {
    || LateSource(s, k) != []
    || k in s.srcQ
    || (k in s.fans && (s.fans[k].failed || (id in s.fans[k].todo && !s.fans[k].todo[id])))
  }

  predicate NameDue(s: Net, id: Id, n: string) {
    Due(s, Sys(n), id) || Due(s, Usr(id.owner, n), id)
  }

  predicate Clearing(s: Net, id: Id) {
    id in s.runs && s.runs[id].Got? && s.runs[id].app.annotation != ""
  }

  predicate Syncing(s: Net, id: Id) {
    id in s.runs && !s.runs[id].Applying? && !Clearing(s, id)
  }

  /** What the run has listed so far is what the store holds for name n. */
  predicate Current(s: Net, id: Id, n: string)
    requires id in s.runs && !s.runs[id].Applying?
  {
    var r := s.runs[id];
    && (r.ListedSys? || r.ListedBoth? ==> SourceAt(View(r.sys, map[]), Sys(n)) == SourceAt(s.now, Sys(n)))
    && (r.ListedBoth? ==> SourceAt(View(map[], map[id.owner := r.usr]), Usr(id.owner, n))
                          == SourceAt(s.now, Usr(id.owner, n)))
  }

  /** Annotated implies pending, or about to be cleared. */
  predicate AnnotationOk(s: Net, id: Id)
    requires id in s.apps
  {
    && (s.apps[id].annotation != "" ==> Pending(s, id) || Clearing(s, id))
    && (Clearing(s, id) ==> Pending(s, id) || s.apps[id].annotation != "")
  }

  /** NeedApply implies pending, or that the reconcile at work will apply. */
  predicate NeedOk(s: Net, id: Id)
    requires id in s.apps
  {
    s.apps[id].needApply ==>
      || Pending(s, id) || Clearing(s, id)
      || (id in s.runs && if s.runs[id].Applying? then s.runs[id].need else s.runs[id].app.needApply)
  }

  /** Stale implies that the application or the source is pending or being worked on. */
  ghost predicate StaleOk(s: Net, id: Id)
    requires id in s.apps
  {
    Pending(s, id) || Clearing(s, id) || Syncing(s, id) ||
    forall e <- s.apps[id].envs ::
      e.from.Some? ==>
        InSync(e, s.now.sys, UserView(s.now, id.owner)) || NameDue(s, id, e.from.value.envName)
  }

  /** A run that is going to patch works on the current entries, and what it listed is current
      except for names whose source is pending. */
  ghost predicate RunOk(s: Net, id: Id)
    requires id in s.apps
  {
    Syncing(s, id) ==>
      Pending(s, id) || (
        && s.runs[id].app.envs == s.apps[id].envs
        && forall e <- s.apps[id].envs ::
             e.from.Some? ==> Current(s, id, e.from.value.envName) || NameDue(s, id, e.from.value.envName))
  }

  ghost predicate AppOk(s: Net, id: Id)
    requires id in s.apps
  {
    CacheOk(s, id) && AnnotationOk(s, id) && NeedOk(s, id) && StaleOk(s, id) && RunOk(s, id)
  }

  /** The empty name would be an annotation that nobody sees. */
  ghost predicate NamesOk(s: Net) {
    && (forall k <- s.lateSrc :: k.name != "")
    && (forall k <- s.srcQ :: k.name != "")
    && (forall k <- s.fans :: k.name != "")
    && (forall k :: SourceAt(s.now, k).Some? ==> k.name != "")
  }

  /** Everything that is queued, cached, on its way or worked on is stored. */
  ghost predicate Stored(s: Net) {
    && (forall id <- s.runs :: id in s.cache)
    && (forall id <- s.appQ :: id in s.cache)
    && (forall id <- s.cache :: id in s.apps)
    && (forall id <- s.lateApp :: id in s.apps)
  }

  ghost predicate NetOk(s: Net) {
    && NamesOk(s) && Stored(s)
    && (forall k :: SourceOk(s, k))
    && (forall id <- s.apps :: AppOk(s, id))
  }

  // ---------------------------------------------------------------------------------------
  // Source steps keep the invariant of every application

  predicate SameSource(s: Net, g: Net, owner: string, n: string) {
    && SourceAt(s.now, Sys(n)) == SourceAt(g.now, Sys(n))
    && SourceAt(s.now, Usr(owner, n)) == SourceAt(g.now, Usr(owner, n))
  }

  /** No reference of the application loses its pending visit, and one whose source changed
      has a visit pending. */
  ghost predicate Carries(s: Net, g: Net, id: Id)
    requires id in s.apps
  {
    forall e <- s.apps[id].envs :: e.from.Some? ==>
      var n := e.from.value.envName;
      NameDue(g, id, n) || (!NameDue(s, id, n) && SameSource(s, g, id.owner, n))
  }

  /** A step that touches neither the application, nor what the caches know of it, nor its run. */
  predicate Untouched(s: Net, g: Net, id: Id)
    requires id in s.apps
  {
    && id in g.apps && g.apps[id] == s.apps[id]
    && (id in g.cache) == (id in s.cache) && (id in s.cache ==> g.cache[id] == s.cache[id])
    && LateApp(g, id) == LateApp(s, id) && (id in g.appQ) == (id in s.appQ)
    && (id in g.runs) == (id in s.runs) && (id in s.runs ==> g.runs[id] == s.runs[id])
  }

  lemma Frame(s: Net, g: Net, id: Id)
    requires id in s.apps && AppOk(s, id) && Untouched(s, g, id)
    requires Pending(g, id) || Clearing(g, id) || Carries(s, g, id)
    ensures AppOk(g, id)
  {
  }

  lemma WriteSourceAt(v: View, k: Key, src: Source, j: Key)
    ensures SourceAt(PutSource(v, k, src), j) == if j == k then Some(src) else SourceAt(v, j)
  {
  }

  lemma WriteSourceCarries(s: Net, k: Key, src: Source, id: Id)
    requires id in s.apps
    ensures Carries(s, WriteSourceStep(s, k, src), id)
  {
    if k.name != "" {
      assert Due(WriteSourceStep(s, k, src), k, id);
      forall j | j != k ensures SourceAt(PutSource(s.now, k, src), j) == SourceAt(s.now, j) {
        WriteSourceAt(s.now, k, src, j);
      }
    }
  }

  lemma ObserveSourceCarries(s: Net, e: Event, id: Id)
    requires (e.ObserveSource? || e.SkipSource?) && id in s.apps
    ensures Carries(s, Step(s, e), id)
  {
  }

  /** A fan takes over every pending visit, except to applications its list does not show as they
      are, or shows annotated. */
  lemma StartFanCarries(s: Net, k: Key, id: Id)
    requires id in s.apps && id in s.cache && s.cache[id] == s.apps[id] && s.apps[id].annotation == ""
    ensures Carries(s, StartFanStep(s, k), id)
  {
    var g := StartFanStep(s, k);
    forall v | v in s.apps[id].envs && v.from.Some? && NameDue(s, id, v.from.value.envName)
      ensures NameDue(g, id, v.from.value.envName)
    {
      assert References(s.apps[id].envs, v.from.value.envName);
    }
  }

  lemma FinishFanCarries(s: Net, k: Key, id: Id)
    requires id in s.apps
    ensures Carries(s, FinishFanStep(s, k), id)
  {
  }

  predicate SourceEvent(e: Event) {
    e.WriteSource? || e.ObserveSource? || e.SkipSource? || e.StartFan? || e.FinishFan?
  }

  predicate SameAppSide(s: Net, g: Net) {
    g.apps == s.apps && g.cache == s.cache && g.lateApp == s.lateApp && g.appQ == s.appQ && g.runs == s.runs
  }

  lemma WriteKeepsAppSide(s: Net, k: Key, src: Source)
    ensures SameAppSide(s, WriteSourceStep(s, k, src))
  {
  }

  lemma ObserveKeepsAppSide(s: Net, k: Key)
    ensures SameAppSide(s, ObserveSourceStep(s, k))
  {
  }

  lemma SkipKeepsAppSide(s: Net, k: Key)
    ensures SameAppSide(s, SkipSourceStep(s, k))
  {
  }

  lemma FanKeepsAppSide(s: Net, k: Key)
    ensures SameAppSide(s, StartFanStep(s, k))
    ensures SameAppSide(s, FinishFanStep(s, k))
  {
  }

  lemma SourceKeepsAppSide(s: Net, e: Event)
    requires SourceEvent(e)
    ensures SameAppSide(s, Step(s, e))
  {
    match e
    case WriteSource(k, src) => WriteKeepsAppSide(s, k, src);
    case ObserveSource(k) => ObserveKeepsAppSide(s, k);
    case SkipSource(k) => SkipKeepsAppSide(s, k);
    case StartFan(k) => FanKeepsAppSide(s, k);
    case FinishFan(k) => FanKeepsAppSide(s, k);
  }

  lemma SourceCarries(s: Net, e: Event, id: Id)
    requires SourceEvent(e) && id in s.apps && AppOk(s, id) && !Pending(s, id) && !Clearing(s, id)
    ensures Carries(s, Step(s, e), id)
  {
    match e
    case WriteSource(k, src) => WriteSourceCarries(s, k, src, id);
    case StartFan(k) => StartFanCarries(s, k, id);
    case FinishFan(k) => FinishFanCarries(s, k, id);
    case _ => ObserveSourceCarries(s, e, id);
  }

  lemma SourceStepKeeps(s: Net, e: Event, id: Id)
    requires SourceEvent(e) && id in s.apps && AppOk(s, id)
    ensures AppOk(Step(s, e), id)
  {
    if !Pending(s, id) && !Clearing(s, id) {
      SourceCarries(s, e, id);
    }
    SourceKeepsAppSide(s, e);
    Frame(s, Step(s, e), id);
  }

  // ---------------------------------------------------------------------------------------
  // Visits

  /** The visit does what the list asked for. */
  predicate Settles(s: Net, k: Key, visited: Id, ok: bool) {
    k in s.fans && visited in s.fans[k].todo && !s.fans[k].todo[visited] && ok && visited in s.apps
  }

  lemma VisitFans(s: Net, k: Key, visited: Id, ok: bool)
    ensures
      var g := VisitStep(s, k, visited, ok);
      && g.now == s.now && g.seen == s.seen && g.lateSrc == s.lateSrc && g.srcQ == s.srcQ
      && g.fans ==
         if !(k in s.fans && visited in s.fans[k].todo) then s.fans
         else s.fans[k := Fan(s.fans[k].todo - {visited},
                              s.fans[k].failed || (!s.fans[k].todo[visited] && !Settles(s, k, visited, ok)))]
  {
    if Settles(s, k, visited, ok) {
      var fan := s.fans[k].(todo := s.fans[k].todo - {visited});
      PutAppElsewhere(s.(fans := s.fans[k := fan]), visited, s.apps[visited].(annotation := k.name), visited);
    }
  }

  /** A visit settles what is due to the visited application only, and then only when it did not
      fail. */
  lemma VisitDue(s: Net, k: Key, visited: Id, ok: bool, j: Key, id: Id)
    requires id != visited || !Settles(s, k, visited, ok)
    requires Due(s, j, id)
    ensures Due(VisitStep(s, k, visited, ok), j, id)
  {
    VisitFans(s, k, visited, ok);
  }

  lemma VisitCarries(s: Net, k: Key, visited: Id, ok: bool, id: Id)
    requires id in s.apps
    requires id != visited || !Settles(s, k, visited, ok)
    ensures Carries(s, VisitStep(s, k, visited, ok), id)
  {
    forall n | NameDue(s, id, n) ensures NameDue(VisitStep(s, k, visited, ok), id, n) {
      VisitDue(s, k, visited, ok, if Due(s, Sys(n), id) then Sys(n) else Usr(id.owner, n), id);
    }
    VisitFans(s, k, visited, ok);
  }

  /** A pending application is fine, as long as the cache lags by what is not delivered. */
  lemma PendingIsOk(g: Net, id: Id)
    requires id in g.apps && Pending(g, id) && CacheOk(g, id)
    ensures AppOk(g, id)
  {
  }

  /** A write that changes the application leaves it pending; one that changes nothing, nothing. */
  lemma PutAppKeeps(s: Net, id: Id, a: App)
    requires id in s.apps && AppOk(s, id)
    ensures AppOk(PutApp(s, id, a), id)
  {
    var g := PutApp(s, id, a);
    if s.apps[id] != a {
      PendingIsOk(g, id);
    }
  }

  lemma VisitKeeps(s: Net, k: Key, visited: Id, ok: bool, id: Id)
    requires id in s.apps && AppOk(s, id) && (k in s.fans ==> k.name != "")
    ensures AppOk(VisitStep(s, k, visited, ok), id)
  {
    var g := VisitStep(s, k, visited, ok);
    if id == visited && Settles(s, k, visited, ok) {
      if s.apps[id].annotation != k.name {
        PendingIsOk(g, id);
      } else {
        Frame(s, g, id);
      }
    } else {
      VisitCarries(s, k, visited, ok, id);
      VisitElsewhere(s, k, visited, ok, id);
      Frame(s, g, id);
    }
  }

  lemma FansElsewhere(s: Net, fans: map<Key, Fan>, id: Id)
    requires id in s.apps
    ensures Untouched(s, s.(fans := fans), id)
  {
  }

  lemma UntouchedThen(s: Net, f: Net, g: Net, id: Id)
    requires id in s.apps && Untouched(s, f, id) && Untouched(f, g, id)
    ensures Untouched(s, g, id)
  {
  }

  lemma VisitElsewhere(s: Net, k: Key, visited: Id, ok: bool, id: Id)
    requires id in s.apps
    requires id != visited || !Settles(s, k, visited, ok)
    ensures Untouched(s, VisitStep(s, k, visited, ok), id)
  {
    if k in s.fans && visited in s.fans[k].todo {
      var fan := s.fans[k].(todo := s.fans[k].todo - {visited});
      if Settles(s, k, visited, ok) {
        var f := s.(fans := s.fans[k := fan]);
        FansElsewhere(s, f.fans, id);
        PutAppElsewhere(f, visited, s.apps[visited].(annotation := k.name), id);
        UntouchedThen(s, f, VisitStep(s, k, visited, ok), id);
      } else {
        FansElsewhere(s, s.fans[k := if s.fans[k].todo[visited] then fan else fan.(failed := true)], id);
      }
    }
  }

  // ---------------------------------------------------------------------------------------
  // Steps on one application

  predicate AppEvent(e: Event) {
    || e.WriteApp? || e.HelmApplied? || e.ObserveApp? || e.SkipApp? || e.Get? || e.Clear? || e.ListSys?
    || e.ListUsr? || e.Patch? || e.Apply?
  }

  predicate SameSourceSide(s: Net, g: Net) {
    g.now == s.now && g.seen == s.seen && g.lateSrc == s.lateSrc && g.srcQ == s.srcQ && g.fans == s.fans
  }

  lemma PutAppElsewhere(s: Net, other: Id, a: App, id: Id)
    ensures SameSourceSide(s, PutApp(s, other, a))
    ensures id != other && id in s.apps ==> Untouched(s, PutApp(s, other, a), id)
  {
  }

  lemma EndRunElsewhere(s: Net, other: Id, requeue: bool, id: Id)
    ensures SameSourceSide(s, EndRun(s, other, requeue))
    ensures id != other && id in s.apps ==> Untouched(s, EndRun(s, other, requeue), id)
  {
  }

  /** Writes of the operator, of helm, and deliveries. */
  lemma OutsideElsewhere(s: Net, e: Event, id: Id)
    requires (e.WriteApp? || e.HelmApplied? || e.ObserveApp? || e.SkipApp?)
    ensures SameSourceSide(s, Step(s, e))
    ensures e.id != id && id in s.apps ==> Untouched(s, Step(s, e), id)
  {
    match e
    case WriteApp(i, envs, apply) =>
      PutAppElsewhere(s, i, if i in s.apps then s.apps[i].(envs := envs, needApply := s.apps[i].needApply || apply)
                            else App(envs, "", apply), id);
    case HelmApplied(i) =>
      if i in s.apps {
        PutAppElsewhere(s, i, s.apps[i].(needApply := false), id);
      }
    case ObserveApp(i) =>
    case SkipApp(i) =>
  }

  lemma GetElsewhere(s: Net, other: Id, id: Id)
    ensures SameSourceSide(s, GetStep(s, other))
    ensures other != id && id in s.apps ==> Untouched(s, GetStep(s, other), id)
  {
  }

  lemma ListSysElsewhere(s: Net, other: Id, ok: bool, id: Id)
    ensures SameSourceSide(s, ListSysStep(s, other, ok))
    ensures other != id && id in s.apps ==> Untouched(s, ListSysStep(s, other, ok), id)
  {
    EndRunElsewhere(s, other, true, id);
  }

  lemma ListUsrElsewhere(s: Net, other: Id, ok: bool, id: Id)
    ensures SameSourceSide(s, ListUsrStep(s, other, ok))
    ensures other != id && id in s.apps ==> Untouched(s, ListUsrStep(s, other, ok), id)
  {
    EndRunElsewhere(s, other, true, id);
  }

  lemma RunElsewhere(s: Net, other: Id, r: Run, id: Id)
    ensures SameSourceSide(s, s.(runs := s.runs[other := r]))
    ensures id != other && id in s.apps ==> Untouched(s, s.(runs := s.runs[other := r]), id)
  {
  }

  lemma PatchElsewhere(s: Net, other: Id, ok: bool, id: Id)
    ensures SameSourceSide(s, PatchStep(s, other, ok))
    ensures id != other && id in s.apps ==> Untouched(s, PatchStep(s, other, ok), id)
  {
    EndRunElsewhere(s, other, true, id);
    if other in s.apps && other in s.runs && s.runs[other].ListedBoth? {
      var r := s.runs[other];
      var a := Merged(s.apps[other], r.app, r.sys, r.usr);
      var f := s.(runs := s.runs[other := Applying(a.needApply)]);
      RunElsewhere(s, other, Applying(a.needApply), id);
      RunElsewhere(s, other, Applying(r.app.needApply), id);
      PutAppElsewhere(f, other, a, id);
      if id != other && id in s.apps {
        UntouchedThen(s, f, PutApp(f, other, a), id);
      }
    }
  }

  lemma ClearElsewhere(s: Net, other: Id, ok: bool, id: Id)
    ensures SameSourceSide(s, ClearStep(s, other, ok))
    ensures id != other && id in s.apps ==> Untouched(s, ClearStep(s, other, ok), id)
  {
    EndRunElsewhere(s, other, !ok, id);
    if other in s.apps {
      PutAppElsewhere(EndRun(s, other, false), other, s.apps[other].(annotation := ""), id);
    }
  }

  lemma ApplyElsewhere(s: Net, other: Id, ok: bool, id: Id)
    ensures SameSourceSide(s, ApplyStep(s, other, ok))
    ensures id != other && id in s.apps ==> Untouched(s, ApplyStep(s, other, ok), id)
  {
    EndRunElsewhere(s, other, true, id);
    EndRunElsewhere(s, other, false, id);
    if other in s.apps {
      PutAppElsewhere(EndRun(s, other, false), other, s.apps[other].(needApply := false), id);
    }
  }

  lemma AppEventElsewhere(s: Net, e: Event, id: Id)
    requires AppEvent(e)
    ensures SameSourceSide(s, Step(s, e))
    ensures e.id != id && id in s.apps ==> Untouched(s, Step(s, e), id)
  {
    match e
    case Patch(i, ok) => PatchElsewhere(s, i, ok, id);
    case Clear(i, ok) => ClearElsewhere(s, i, ok, id);
    case Apply(i, ok) => ApplyElsewhere(s, i, ok, id);
    case Get(i) => GetElsewhere(s, i, id);
    case ListSys(i, ok) => ListSysElsewhere(s, i, ok, id);
    case ListUsr(i, ok) => ListUsrElsewhere(s, i, ok, id);
    case _ => OutsideElsewhere(s, e, id);
  }

  lemma SameSideCarries(s: Net, g: Net, id: Id)
    requires id in s.apps && SameSourceSide(s, g)
    ensures Carries(s, g, id)
  {
  }

  lemma WriteAppKeeps(s: Net, e: Event, id: Id)
    requires (e.WriteApp? || e.HelmApplied?) && e.id == id && id in Step(s, e).apps
    requires id in s.apps ==> AppOk(s, id)
    ensures AppOk(Step(s, e), id)
  {
    if e.HelmApplied? {
      PutAppKeeps(s, id, s.apps[id].(needApply := false));
    } else if id in s.apps {
      PutAppKeeps(s, id, s.apps[id].(envs := e.envs, needApply := s.apps[id].needApply || e.apply));
    } else {
      PendingIsOk(Step(s, e), id);
    }
  }

  lemma ObserveAppKeeps(s: Net, e: Event, id: Id)
    requires (e.ObserveApp? || e.SkipApp?) && e.id == id && id in s.apps && AppOk(s, id)
    ensures AppOk(Step(s, e), id)
  {
    if |LateApp(s, id)| >= 1 {
      PendingIsOk(Step(s, e), id) by { assert Pending(Step(s, e), id) || LateApp(s, id) != []; }
    }
  }

  lemma GetKeeps(s: Net, id: Id)
    requires id in s.apps && AppOk(s, id)
    ensures AppOk(GetStep(s, id), id)
  {
  }

  /** A list from the cache is current for every name whose source has been delivered. */
  lemma SeenIsCurrent(s: Net, id: Id, n: string)
    requires SourceOk(s, Sys(n)) && SourceOk(s, Usr(id.owner, n)) && !NameDue(s, id, n)
    ensures SourceAt(s.seen, Sys(n)) == SourceAt(s.now, Sys(n))
    ensures SourceAt(s.seen, Usr(id.owner, n)) == SourceAt(s.now, Usr(id.owner, n))
  {
  }

  lemma ListSysKeeps(s: Net, id: Id, ok: bool)
    requires id in s.apps && AppOk(s, id) && forall k :: SourceOk(s, k)
    ensures AppOk(ListSysStep(s, id, ok), id)
  {
    forall n | !NameDue(s, id, n) ensures SourceAt(s.seen, Sys(n)) == SourceAt(s.now, Sys(n)) {
      SeenIsCurrent(s, id, n);
    }
  }

  lemma ListUsrKeeps(s: Net, id: Id, ok: bool)
    requires id in s.apps && AppOk(s, id) && forall k :: SourceOk(s, k)
    ensures AppOk(ListUsrStep(s, id, ok), id)
  {
    forall n | !NameDue(s, id, n)
      ensures SourceAt(s.seen, Usr(id.owner, n)) == SourceAt(s.now, Usr(id.owner, n))
    {
      SeenIsCurrent(s, id, n);
    }
  }

  lemma ClearKeeps(s: Net, id: Id, ok: bool)
    requires id in s.apps && AppOk(s, id)
    ensures AppOk(ClearStep(s, id, ok), id)
  {
  }

  /** A reference in sync with a current list is in sync with the store. */
  lemma CurrentTransfers(s: Net, id: Id, v: EnvVar)
    requires id in s.runs && s.runs[id].ListedBoth? && v.from.Some? && Current(s, id, v.from.value.envName)
    requires InSync(v, s.runs[id].sys, s.runs[id].usr)
    ensures InSync(v, s.now.sys, UserView(s.now, id.owner))
  {
  }

  /** A sync that finds nothing to change finds nothing stale. */
  lemma NothingToPatchKeeps(s: Net, id: Id)
    requires id in s.apps && AppOk(s, id) && id in s.runs && s.runs[id].ListedBoth?
    requires SyncedAll(s.runs[id].app.envs, s.runs[id].sys, s.runs[id].usr) == s.runs[id].app.envs
    ensures AppOk(s.(runs := s.runs[id := Applying(s.runs[id].app.needApply)]), id)
  {
    var r := s.runs[id];
    SyncMeansInSync(r.app.envs, r.sys, r.usr);
    if !Pending(s, id) {
      forall v | v in s.apps[id].envs && v.from.Some? && !NameDue(s, id, v.from.value.envName)
        ensures InSync(v, s.now.sys, UserView(s.now, id.owner))
      {
        assert Current(s, id, v.from.value.envName);
        CurrentTransfers(s, id, v);
      }
    }
  }

  lemma PatchKeeps(s: Net, id: Id, ok: bool)
    requires id in s.apps && AppOk(s, id)
    ensures AppOk(PatchStep(s, id, ok), id)
  {
    if id in s.runs && s.runs[id].ListedBoth? {
      var r, g := s.runs[id], PatchStep(s, id, ok);
      if SyncedAll(r.app.envs, r.sys, r.usr) == r.app.envs {
        NothingToPatchKeeps(s, id);
      } else {
        PendingIsOk(g, id);
      }
    }
  }

  /** The end of an apply keeps the invariant when it requeues or nothing is left to apply. */
  lemma EndApplyKeeps(s: Net, id: Id, requeue: bool)
    requires id in s.apps && AppOk(s, id) && id in s.runs && s.runs[id].Applying?
    requires requeue || !s.runs[id].need || !s.apps[id].needApply
    ensures AppOk(EndRun(s, id, requeue), id)
  {
    if requeue || s.apps[id].needApply {
      PendingIsOk(EndRun(s, id, requeue), id);
    } else {
      assert Carries(s, EndRun(s, id, requeue), id);
    }
  }

  lemma ApplyKeeps(s: Net, id: Id, ok: bool)
    requires id in s.apps && AppOk(s, id)
    ensures AppOk(ApplyStep(s, id, ok), id)
  {
    if id in s.runs && s.runs[id].Applying? {
      if s.runs[id].need && ok && s.apps[id].needApply {
        PendingIsOk(ApplyStep(s, id, ok), id);
      } else {
        EndApplyKeeps(s, id, s.runs[id].need && !ok);
      }
    }
  }

  lemma AppEventSame(s: Net, e: Event, id: Id)
    requires AppEvent(e) && e.id == id && id in Step(s, e).apps && forall k :: SourceOk(s, k)
    requires if id in s.apps then AppOk(s, id) else e.WriteApp?
    ensures AppOk(Step(s, e), id)
  {
    match e
    case WriteApp(_, _, _) => WriteAppKeeps(s, e, id);
    case HelmApplied(_) => WriteAppKeeps(s, e, id);
    case ObserveApp(_) => ObserveAppKeeps(s, e, id);
    case SkipApp(_) => ObserveAppKeeps(s, e, id);
    case Get(_) => GetKeeps(s, id);
    case Clear(_, ok) => ClearKeeps(s, id, ok);
    case ListSys(_, ok) => ListSysKeeps(s, id, ok);
    case ListUsr(_, ok) => ListUsrKeeps(s, id, ok);
    case Patch(_, ok) => PatchKeeps(s, id, ok);
    case Apply(_, ok) => ApplyKeeps(s, id, ok);
  }

  lemma AppEventOther(s: Net, e: Event, id: Id)
    requires AppEvent(e) && e.id != id && id in s.apps && AppOk(s, id)
    ensures id in Step(s, e).apps && AppOk(Step(s, e), id)
  {
    AppEventElsewhere(s, e, id);
    SameSideCarries(s, Step(s, e), id);
    Frame(s, Step(s, e), id);
  }

  lemma PutAppStores(s: Net, id: Id, a: App)
    ensures PutApp(s, id, a).apps.Keys == s.apps.Keys + {id}
    ensures Stored(s) ==> Stored(PutApp(s, id, a))
  {
  }

  lemma EndRunStores(s: Net, id: Id, requeue: bool)
    ensures EndRun(s, id, requeue).apps == s.apps
    ensures Stored(s) && id in s.runs ==> Stored(EndRun(s, id, requeue))
  {
  }

  lemma VisitStores(s: Net, k: Key, id: Id, ok: bool)
    ensures VisitStep(s, k, id, ok).apps.Keys == s.apps.Keys
    ensures Stored(s) ==> Stored(VisitStep(s, k, id, ok))
  {
    if Settles(s, k, id, ok) {
      var fan := s.fans[k].(todo := s.fans[k].todo - {id});
      PutAppStores(s.(fans := s.fans[k := fan]), id, s.apps[id].(annotation := k.name));
    }
  }

  lemma PatchStores(s: Net, id: Id, ok: bool)
    ensures PatchStep(s, id, ok).apps.Keys == s.apps.Keys
    ensures Stored(s) ==> Stored(PatchStep(s, id, ok))
  {
    if id in s.runs && s.runs[id].ListedBoth? && id in s.apps {
      var r := s.runs[id];
      var a := Merged(s.apps[id], r.app, r.sys, r.usr);
      var f := s.(runs := s.runs[id := Applying(a.needApply)]);
      assert Stored(s) ==> Stored(f);
      PutAppStores(f, id, a);
      EndRunStores(s, id, true);
    }
  }

  lemma ClearStores(s: Net, id: Id, ok: bool)
    ensures ClearStep(s, id, ok).apps.Keys == s.apps.Keys
    ensures Stored(s) ==> Stored(ClearStep(s, id, ok))
  {
    if id in s.runs && id in s.apps {
      EndRunStores(s, id, !ok);
      PutAppStores(EndRun(s, id, false), id, s.apps[id].(annotation := ""));
    }
  }

  lemma ApplyStores(s: Net, id: Id, ok: bool)
    ensures ApplyStep(s, id, ok).apps.Keys == s.apps.Keys
    ensures Stored(s) ==> Stored(ApplyStep(s, id, ok))
  {
    if id in s.runs && id in s.apps {
      EndRunStores(s, id, true);
      EndRunStores(s, id, false);
      PutAppStores(EndRun(s, id, false), id, s.apps[id].(needApply := false));
    }
  }

  lemma ListStores(s: Net, e: Event)
    requires e.ListSys? || e.ListUsr?
    ensures Step(s, e).apps == s.apps
    ensures Stored(s) ==> Stored(Step(s, e))
  {
    EndRunStores(s, e.id, true);
  }

  lemma WriteStores(s: Net, e: Event)
    requires e.WriteApp? || e.HelmApplied?
    ensures s.apps.Keys <= Step(s, e).apps.Keys <= s.apps.Keys + if e.WriteApp? then {e.id} else {}
    ensures Stored(s) ==> Stored(Step(s, e))
  {
    var id := e.id;
    if e.WriteApp? {
      PutAppStores(s, id, if id in s.apps then s.apps[id].(envs := e.envs, needApply := s.apps[id].needApply || e.apply)
                          else App(e.envs, "", e.apply));
    } else if id in s.apps {
      PutAppStores(s, id, s.apps[id].(needApply := false));
    }
  }

  lemma CacheStores(s: Net, e: Event)
    requires e.ObserveApp? || e.SkipApp? || e.Get?
    ensures Step(s, e).apps == s.apps
    ensures Stored(s) ==> Stored(Step(s, e))
  {
  }

  lemma SourceStores(s: Net, e: Event)
    requires SourceEvent(e) || e.Restart?
    ensures Step(s, e).apps == s.apps
    ensures Stored(s) ==> Stored(Step(s, e))
  {
    if SourceEvent(e) {
      SourceKeepsAppSide(s, e);
    }
  }

  /** Only a write of an AppEnv stores a new one, and nothing is queued, cached, on its way or worked
      on that is not stored. */
  lemma StepKeepsStored(s: Net, e: Event)
    ensures s.apps.Keys <= Step(s, e).apps.Keys <= s.apps.Keys + if e.WriteApp? then {e.id} else {}
    ensures Stored(s) ==> Stored(Step(s, e))
  {
    match e
    case Visit(k, id, ok) => VisitStores(s, k, id, ok);
    case Patch(id, ok) => PatchStores(s, id, ok);
    case Clear(id, ok) => ClearStores(s, id, ok);
    case Apply(id, ok) => ApplyStores(s, id, ok);
    case ListSys(_, _) => ListStores(s, e);
    case ListUsr(_, _) => ListStores(s, e);
    case WriteApp(_, _, _) => WriteStores(s, e);
    case HelmApplied(_) => WriteStores(s, e);
    case ObserveApp(_) => CacheStores(s, e);
    case SkipApp(_) => CacheStores(s, e);
    case Get(_) => CacheStores(s, e);
    case _ => SourceStores(s, e);
  }

  lemma RestartKeeps(s: Net, id: Id)
    requires id in s.apps
    ensures AppOk(RestartStep(s), id)
  {
    PendingIsOk(RestartStep(s), id);
  }

  lemma StepKeepsApp(s: Net, e: Event, id: Id)
    requires NetOk(s) && id in Step(s, e).apps
    ensures AppOk(Step(s, e), id)
  {
    StepKeepsStored(s, e);
    assert id in s.apps ==> AppOk(s, id);
    if AppEvent(e) {
      if e.id == id {
        AppEventSame(s, e, id);
      } else {
        AppEventOther(s, e, id);
      }
    } else if e.Visit? {
      VisitKeeps(s, e.key, e.id, e.ok, id);
    } else if e.Restart? {
      RestartKeeps(s, id);
    } else {
      SourceStepKeeps(s, e, id);
    }
  }

  // ---------------------------------------------------------------------------------------
  // Sources, names and what is stored

  lemma StepKeepsSource(s: Net, e: Event, k: Key)
    requires SourceOk(s, k)
    ensures SourceOk(Step(s, e), k)
  {
    if AppEvent(e) {
      AppEventElsewhere(s, e, e.id);
    } else if e.Visit? {
      VisitFans(s, e.key, e.id, e.ok);
    } else if e.WriteSource? {
      WriteSourceAt(s.now, e.key, e.source, k);
    } else if e.ObserveSource? && LateSource(s, e.key) != [] {
      WriteSourceAt(s.seen, e.key, LateSource(s, e.key)[0], k);
    }
  }

  lemma StepKeepsNames(s: Net, e: Event)
    requires NamesOk(s)
    ensures NamesOk(Step(s, e))
  {
    if AppEvent(e) {
      AppEventElsewhere(s, e, e.id);
    } else if e.Visit? {
      VisitFans(s, e.key, e.id, e.ok);
    } else if e.WriteSource? {
      forall k | SourceAt(Step(s, e).now, k).Some? ensures k.name != "" {
        WriteSourceAt(s.now, e.key, e.source, k);
      }
    } else if e.Restart? {
      forall k | k in Keys(s.now) ensures k.name != "" {
        assert SourceAt(s.now, k).Some?;
      }
    }
  }

  lemma StepKeepsNetOk(s: Net, e: Event)
    requires NetOk(s)
    ensures NetOk(Step(s, e))
  {
    StepKeepsNames(s, e);
    StepKeepsStored(s, e);
    forall k ensures SourceOk(Step(s, e), k) {
      StepKeepsSource(s, e, k);
    }
    forall id | id in Step(s, e).apps ensures AppOk(Step(s, e), id) {
      StepKeepsApp(s, e, id);
    }
  }

  lemma {:induction false} RunKeepsNetOk(es: seq<Event>)
    ensures NetOk(RunNet(es))
  {
    if es == [] {
    } else {
      RunKeepsNetOk(es[..|es| - 1]);
      StepKeepsNetOk(RunNet(es[..|es| - 1]), es[|es| - 1]);
    }
  }

  /** Nothing is queued, no version is on its way, and no controller is working. */
  predicate Quiescent(s: Net) {
    && s.srcQ == {} && s.appQ == {} && s.fans == map[] && s.runs == map[]
    && (forall k <- s.lateSrc :: s.lateSrc[k] == [])
    && (forall id <- s.lateApp :: s.lateApp[id] == [])
  }

  /** Convergence: whatever the interleaving, the failures and the age of what was read, when the
      three controllers have nothing left to do, every reference whose source exists holds that
      source's effective value and type, UserEnv first; no annotation is left, and nothing that
      was to be applied is left unapplied. */
  lemma QuiescentMeansInSync(es: seq<Event>, id: Id)
    requires Quiescent(RunNet(es)) && id in RunNet(es).apps
    ensures
      var s := RunNet(es);
      && s.apps[id].annotation == "" && !s.apps[id].needApply
      && forall e <- s.apps[id].envs :: InSync(e, s.now.sys, UserView(s.now, id.owner))
  {
    RunKeepsNetOk(es);
    assert AppOk(RunNet(es), id);
  }
}
