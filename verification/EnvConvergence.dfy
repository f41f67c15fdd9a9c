/**
 Progress of the annotation handshake: once sources and AppEnvs are left alone and requests
 stop failing, every schedule of deliveries and controller steps comes to rest.
 */
module EnvConvergence {
  import opened EnvSync
  import opened EnvProtocol

  /** Deliveries, and controller steps whose requests succeed. */
  predicate Works(e: Event) {
    match e
    case WriteSource(_, _) => false
    case WriteApp(_, _, _) => false
    case HelmApplied(_) => false
    case Restart => false
    case Visit(_, _, ok) => ok
    case Clear(_, ok) => ok
    case ListSys(_, ok) => ok
    case ListUsr(_, ok) => ok
    case Patch(_, ok) => ok
    case Apply(_, ok) => ok
    case _ => true
  }

  // ---------------------------------------------------------------------------------------
  // The weight of an application

  /** A sync with the cached sources would change these entries. */
  predicate Unclean(seen: View, id: Id, a: App) {
    SyncedAll(a.envs, seen.sys, UserView(seen, id.owner)) != a.envs
  }

  const UNCLEAN := 12
  const OUTDATED := 60
  const FLAG := 6

  function Dirt(seen: View, id: Id, a: App): nat {
    if Unclean(seen, id, a) then UNCLEAN else 0
  }

  /** What reading a version costs: the five steps of a reconcile, and the write of one that is not
      clean. */
  function ReadCost(seen: View, id: Id, a: App): nat {
    5 + Dirt(seen, id, a)
  }

  function LateCost(seen: View, id: Id, late: seq<App>): nat {
    if late == [] then 0 else ReadCost(seen, id, late[0]) + 1 + LateCost(seen, id, late[1..])
  }

  /** What the marks of a stored version cost until they are cleared. */
  function StoreCost(seen: View, id: Id, a: App): nat {
    (if a.annotation != "" then FLAG + Dirt(seen, id, a) else 0)
    + (if a.needApply then FLAG + Dirt(seen, id, a) else 0)
  }

  /** The run has listed sources that the cache has changed since. */
  predicate Outdated(seen: View, id: Id, r: Run) {
    match r
    case Got(_) => false
    case ListedSys(_, sys) => sys != seen.sys
    case ListedBoth(_, sys, usr) => sys != seen.sys || usr != UserView(seen, id.owner)
    case Applying(_) => false
  }

  function RunCost(seen: View, id: Id, r: Run): nat {
    (if Outdated(seen, id, r) then OUTDATED else 0) +
    match r
    case Got(a) => 4 + Dirt(seen, id, a)
    case ListedSys(a, _) => 3 + Dirt(seen, id, a)
    case ListedBoth(a, _, _) => 2 + Dirt(seen, id, a)
    case Applying(_) => 1
  }

  function QueueCost(s: Net, id: Id): nat {
    if id in s.appQ && id in s.cache then ReadCost(s.seen, id, s.cache[id]) else 0
  }

  function RunningCost(s: Net, id: Id): nat {
    if id in s.runs then RunCost(s.seen, id, s.runs[id]) else 0
  }

  function Weight(s: Net, id: Id): nat
    requires id in s.apps
  {
    LateCost(s.seen, id, LateApp(s, id)) + QueueCost(s, id) + StoreCost(s.seen, id, s.apps[id]) + RunningCost(s, id)
  }

  // ---------------------------------------------------------------------------------------
  // The measure

  /** Source versions not delivered yet. */
  function LateSources(s: Net): set<(Key, int)> {
    set k, i | k in s.lateSrc && 0 <= i < |s.lateSrc[k]| :: (k, i)
  }

  /** Sources whose applications are still to be listed (again). */
  function Owed(s: Net): set<Key> {
    s.srcQ + set k | k in s.fans && s.fans[k].failed
  }

  function Visits(s: Net): set<(Key, Id)> {
    set k, id | k in s.fans && id in s.fans[k].todo :: (k, id)
  }

  /** As many tokens for each application as its weight. */
  function Tokens(s: Net): set<(Id, int)> {
    set id, j | id in s.apps && 0 <= j < Weight(s, id) :: (id, j)
  }

  predicate LowerSources(g: Net, s: Net) {
    || |Owed(g)| < |Owed(s)|
    || (|Owed(g)| == |Owed(s)| && |g.fans.Keys| < |s.fans.Keys|)
    || (|Owed(g)| == |Owed(s)| && |g.fans.Keys| == |s.fans.Keys| && |Visits(g)| < |Visits(s)|)
  }

  predicate Lower(g: Net, s: Net) {
    || |LateSources(g)| < |LateSources(s)|
    || (|LateSources(g)| == |LateSources(s)| && LowerSources(g, s))
    || (|LateSources(g)| == |LateSources(s)| && Owed(g) == Owed(s) && g.fans.Keys == s.fans.Keys
        && Visits(g) == Visits(s) && |Tokens(g)| < |Tokens(s)|)
  }

  lemma SmallerSet<T>(a: set<T>, b: set<T>, x: T)
    requires a <= b && x in b && x !in a
    ensures |a| < |b|
  {
    assert b == a + (b - a);
  }

  // ---------------------------------------------------------------------------------------
  // Sources

  lemma SourceVersionLowers(s: Net, e: Event)
    requires (e.ObserveSource? && LateSource(s, e.key) != []) || (e.SkipSource? && |LateSource(s, e.key)| >= 2)
    ensures Lower(Step(s, e), s)
  {
    var g, late := Step(s, e), LateSource(s, e.key);
    assert g.lateSrc == s.lateSrc[e.key := late[1..]];
    SmallerSet(LateSources(g), LateSources(s), (e.key, |late| - 1));
  }

  lemma StartFanLowers(s: Net, k: Key)
    requires k in s.srcQ && k !in s.fans
    ensures Lower(StartFanStep(s, k), s)
  {
    assert LateSources(StartFanStep(s, k)) == LateSources(s);
    SmallerSet(Owed(StartFanStep(s, k)), Owed(s), k);
  }

  lemma FinishFanLowers(s: Net, k: Key)
    requires k in s.fans && s.fans[k].todo == map[]
    ensures Lower(FinishFanStep(s, k), s)
  {
    var g := FinishFanStep(s, k);
    assert LateSources(g) == LateSources(s) && Owed(g) == Owed(s);
    SmallerSet(g.fans.Keys, s.fans.Keys, k);
  }

  lemma VisitLowers(s: Net, k: Key, id: Id)
    requires k in s.fans && id in s.fans[k].todo && id in s.apps
    ensures Lower(VisitStep(s, k, id, true), s)
  {
    var g := VisitStep(s, k, id, true);
    VisitFans(s, k, id, true);
    assert LateSources(g) == LateSources(s) && Owed(g) == Owed(s) && g.fans.Keys == s.fans.Keys;
    SmallerSet(Visits(g), Visits(s), (k, id));
  }

  // ---------------------------------------------------------------------------------------
  // One application

  lemma {:induction false} LateCostAdd(seen: View, id: Id, late: seq<App>, a: App)
    ensures LateCost(seen, id, late + [a]) == LateCost(seen, id, late) + ReadCost(seen, id, a) + 1
  {
    if late == [] {
      assert late + [a] == [a];
    } else {
      LateCostAdd(seen, id, late[1..], a);
      assert (late + [a])[1..] == late[1..] + [a];
    }
  }

  /** What a write changes: one more version, if it changes anything, and the marks. */
  lemma PutAppCosts(s: Net, id: Id, a: App)
    requires id in s.apps
    ensures
      var g := PutApp(s, id, a);
      Weight(g, id) + StoreCost(s.seen, id, s.apps[id])
      == Weight(s, id) + StoreCost(s.seen, id, a) + if s.apps[id] == a then 0 else ReadCost(s.seen, id, a) + 1
  {
    if s.apps[id] != a {
      LateCostAdd(s.seen, id, LateApp(s, id), a);
    }
  }

  lemma EndRunCosts(s: Net, id: Id)
    requires id in s.apps && id in s.runs
    ensures Weight(EndRun(s, id, false), id) + RunCost(s.seen, id, s.runs[id]) == Weight(s, id)
  {
  }

  lemma ObserveAppLowers(s: Net, e: Event, id: Id)
    requires id in s.apps
    requires (e == ObserveApp(id) && LateApp(s, id) != []) || (e == SkipApp(id) && |LateApp(s, id)| >= 2)
    ensures id in Step(s, e).apps && Weight(Step(s, e), id) < Weight(s, id)
  {
  }

  lemma GetLowers(s: Net, id: Id)
    requires id in s.appQ && id in s.cache && id !in s.runs && id in s.apps
    ensures Weight(GetStep(s, id), id) < Weight(s, id)
  {
  }

  lemma ClearLowers(s: Net, id: Id)
    requires id in s.apps && Clearing(s, id)
    ensures id in ClearStep(s, id, true).apps && Weight(ClearStep(s, id, true), id) < Weight(s, id)
  {
    var a := s.apps[id].(annotation := "");
    EndRunCosts(s, id);
    PutAppCosts(EndRun(s, id, false), id, a);
    assert Dirt(s.seen, id, a) == Dirt(s.seen, id, s.apps[id]);
  }

  lemma ListLowers(s: Net, e: Event, id: Id)
    requires (e == ListSys(id, true) && id in s.runs && s.runs[id].Got? && !Clearing(s, id))
             || (e == ListUsr(id, true) && id in s.runs && s.runs[id].ListedSys?)
    requires id in s.apps
    ensures id in Step(s, e).apps && Weight(Step(s, e), id) < Weight(s, id)
  {
  }

  lemma ApplyLowers(s: Net, id: Id)
    requires id in s.apps && id in s.runs && s.runs[id].Applying?
    ensures id in ApplyStep(s, id, true).apps && Weight(ApplyStep(s, id, true), id) < Weight(s, id)
  {
    var a := s.apps[id].(needApply := false);
    EndRunCosts(s, id);
    PutAppCosts(EndRun(s, id, false), id, a);
    assert Dirt(s.seen, id, a) == Dirt(s.seen, id, s.apps[id]);
  }

  lemma NextRunCosts(s: Net, id: Id, r: Run)
    requires id in s.apps && id in s.runs
    ensures Weight(s.(runs := s.runs[id := r]), id) + RunCost(s.seen, id, s.runs[id])
         == Weight(s, id) + RunCost(s.seen, id, r)
  {
  }

  /** A patch with the cached sources leaves clean entries; an outdated one is paid for. */
  lemma PatchLowers(s: Net, id: Id)
    requires id in s.apps && id in s.runs && s.runs[id].ListedBoth?
    ensures id in PatchStep(s, id, true).apps && Weight(PatchStep(s, id, true), id) < Weight(s, id)
  {
    var r := s.runs[id];
    if SyncedAll(r.app.envs, r.sys, r.usr) == r.app.envs {
      NextRunCosts(s, id, Applying(r.app.needApply));
    } else {
      var a := Merged(s.apps[id], r.app, r.sys, r.usr);
      SyncMeansInSync(r.app.envs, r.sys, r.usr);
      NextRunCosts(s, id, Applying(a.needApply));
      PutAppCosts(s.(runs := s.runs[id := Applying(a.needApply)]), id, a);
    }
  }

  // ---------------------------------------------------------------------------------------
  // From one application to all

  lemma SameWeight(s: Net, g: Net, id: Id)
    requires id in s.apps && Untouched(s, g, id) && g.seen == s.seen
    ensures Weight(g, id) == Weight(s, id)
  {
  }

  lemma FewerTokens(s: Net, g: Net, id: Id)
    requires g.apps.Keys == s.apps.Keys && id in s.apps && Weight(g, id) < Weight(s, id)
    requires forall other <- s.apps :: other != id ==> Weight(g, other) == Weight(s, other)
    ensures |Tokens(g)| < |Tokens(s)|
  {
    forall t | t in Tokens(g) ensures t in Tokens(s) {
      assert t.0 != id ==> Weight(g, t.0) == Weight(s, t.0);
    }
    SmallerSet(Tokens(g), Tokens(s), (id, Weight(g, id)));
  }

  lemma SameSideLower(s: Net, g: Net)
    requires SameSourceSide(s, g) && |Tokens(g)| < |Tokens(s)|
    ensures Lower(g, s)
  {
    assert LateSources(g) == LateSources(s) && Owed(g) == Owed(s) && Visits(g) == Visits(s);
  }

  /** A step on one application that lowers its weight lowers the measure. */
  lemma WeightLowers(s: Net, e: Event, id: Id)
    requires AppEvent(e) && !e.WriteApp? && e.id == id && id in s.apps
    requires id in Step(s, e).apps && Weight(Step(s, e), id) < Weight(s, id)
    ensures Lower(Step(s, e), s)
  {
    var g := Step(s, e);
    StepKeepsStored(s, e);
    AppEventElsewhere(s, e, id);
    forall other | other in s.apps && other != id ensures Weight(g, other) == Weight(s, other) {
      AppEventElsewhere(s, e, other);
      SameWeight(s, g, other);
    }
    FewerTokens(s, g, id);
    SameSideLower(s, g);
  }

  ghost predicate TodoStored(s: Net) {
    forall k, id | k in s.fans && id in s.fans[k].todo :: id in s.apps
  }

  lemma StepKeepsTodo(s: Net, e: Event)
    requires TodoStored(s) && Stored(s)
    ensures TodoStored(Step(s, e))
  {
    StepKeepsStored(s, e);
    if AppEvent(e) {
      AppEventElsewhere(s, e, e.id);
    } else if e.Visit? {
      VisitFans(s, e.key, e.id, e.ok);
    }
  }

  ghost predicate Sound(s: Net) {
    NetOk(s) && TodoStored(s)
  }

  lemma StepIsSound(s: Net, e: Event)
    requires Sound(s)
    ensures Sound(Step(s, e))
  {
    StepKeepsNetOk(s, e);
    StepKeepsTodo(s, e);
  }

  lemma {:induction false} RunIsSound(es: seq<Event>)
    ensures Sound(RunNet(es))
  {
    if es == [] {
    } else {
      RunIsSound(es[..|es| - 1]);
      StepIsSound(RunNet(es[..|es| - 1]), es[|es| - 1]);
    }
  }

  // ---------------------------------------------------------------------------------------
  // Every step lowers the measure, and some step is possible

  /** The step that moves the run of an application on. */
  function NextOf(r: Run, id: Id): Event {
    match r
    case Got(app) => if app.annotation != "" then Clear(id, true) else ListSys(id, true)
    case ListedSys(_, _) => ListUsr(id, true)
    case ListedBoth(_, _, _) => Patch(id, true)
    case Applying(_) => Apply(id, true)
  }

  lemma NextLowersWeight(s: Net, id: Id)
    requires id in s.runs && id in s.apps
    ensures
      var e := NextOf(s.runs[id], id);
      Works(e) && AppEvent(e) && !e.WriteApp? && e.id == id
      && id in Step(s, e).apps && Weight(Step(s, e), id) < Weight(s, id)
  {
    var e := NextOf(s.runs[id], id);
    match s.runs[id]
    case Got(app) => if app.annotation != "" { ClearLowers(s, id); } else { ListLowers(s, e, id); }
    case ListedSys(_, _) => ListLowers(s, e, id);
    case ListedBoth(_, _, _) => PatchLowers(s, id);
    case Applying(_) => ApplyLowers(s, id);
  }

  lemma RunStepLowers(s: Net, e: Event)
    requires Stored(s) && Works(e) && Step(s, e) != s
    requires e.Clear? || e.ListSys? || e.ListUsr? || e.Patch? || e.Apply?
    ensures Lower(Step(s, e), s)
  {
    var id := e.id;
    assert id in s.runs && e == NextOf(s.runs[id], id);
    NextLowersWeight(s, id);
    WeightLowers(s, e, id);
  }

  lemma SourceStepLowers(s: Net, e: Event)
    requires TodoStored(s) && Works(e) && (SourceEvent(e) || e.Visit?) && Step(s, e) != s
    ensures Lower(Step(s, e), s)
  {
    match e
    case StartFan(k) => StartFanLowers(s, k);
    case FinishFan(k) => FinishFanLowers(s, k);
    case Visit(k, id, _) => VisitLowers(s, k, id);
    case ObserveSource(k) => SourceVersionLowers(s, e);
    case SkipSource(k) => SourceVersionLowers(s, e);
  }

  lemma QueueStepLowers(s: Net, e: Event)
    requires Stored(s) && (e.Get? || e.ObserveApp? || e.SkipApp?) && Step(s, e) != s
    ensures Lower(Step(s, e), s)
  {
    match e
    case Get(id) => GetLowers(s, id); WeightLowers(s, e, id);
    case ObserveApp(id) => ObserveAppLowers(s, e, id); WeightLowers(s, e, id);
    case SkipApp(id) => ObserveAppLowers(s, e, id); WeightLowers(s, e, id);
  }

  /** Every delivery, and every successful controller step that does anything, lowers the measure,
      so no schedule of them goes on for ever. */
  lemma EveryStepLowers(s: Net, e: Event)
    requires Sound(s) && Works(e) && Step(s, e) != s
    ensures Lower(Step(s, e), s)
  {
    if SourceEvent(e) || e.Visit? {
      SourceStepLowers(s, e);
    } else if e.Get? || e.ObserveApp? || e.SkipApp? {
      QueueStepLowers(s, e);
    } else {
      RunStepLowers(s, e);
    }
  }

  lemma DeliveryMoves(s: Net) returns (e: Event)
    requires (exists k <- s.lateSrc :: s.lateSrc[k] != []) || exists id <- s.lateApp :: s.lateApp[id] != []
    ensures Works(e) && Step(s, e) != s
  {
    if k :| k in s.lateSrc && s.lateSrc[k] != [] {
      e := ObserveSource(k);
      assert |Step(s, e).lateSrc[k]| < |s.lateSrc[k]|;
    } else {
      var id :| id in s.lateApp && s.lateApp[id] != [];
      e := ObserveApp(id);
      assert |Step(s, e).lateApp[id]| < |s.lateApp[id]|;
    }
  }

  lemma FanMoves(s: Net) returns (e: Event)
    requires TodoStored(s) && s.fans != map[]
    ensures Works(e) && Step(s, e) != s
  {
    var k :| k in s.fans;
    if s.fans[k].todo == map[] {
      e := FinishFan(k);
      assert k !in Step(s, e).fans;
    } else {
      var id :| id in s.fans[k].todo;
      e := Visit(k, id, true);
      VisitFans(s, k, id, true);
      assert id !in Step(s, e).fans[k].todo;
    }
  }

  /** While anything is queued, on its way or being worked on, some such step does something. */
  lemma NotQuiescentMoves(s: Net) returns (e: Event)
    requires Sound(s) && !Quiescent(s)
    ensures Works(e) && Step(s, e) != s
  {
    if (exists k <- s.lateSrc :: s.lateSrc[k] != []) || exists id <- s.lateApp :: s.lateApp[id] != [] {
      e := DeliveryMoves(s);
    } else if s.fans != map[] {
      e := FanMoves(s);
    } else if s.srcQ != {} {
      var k :| k in s.srcQ;
      e := StartFan(k);
      assert k !in Step(s, e).srcQ;
    } else if s.runs != map[] {
      var id :| id in s.runs;
      e := NextOf(s.runs[id], id);
      NextLowersWeight(s, id);
    } else {
      var id :| id in s.appQ;
      e := Get(id);
      assert id in Step(s, e).runs;
    }
  }

  // ---------------------------------------------------------------------------------------
  // Coming to rest

  /** The measure in numbers. */
  datatype Rank = Rank(sources: nat, owed: nat, fans: nat, visits: nat, tokens: nat)

  function RankOf(s: Net): Rank {
    Rank(|LateSources(s)|, |Owed(s)|, |s.fans.Keys|, |Visits(s)|, |Tokens(s)|)
  }

  predicate Below(a: Rank, b: Rank) {
    || a.sources < b.sources
    || (a.sources == b.sources && a.owed < b.owed)
    || (a.sources == b.sources && a.owed == b.owed && a.fans < b.fans)
    || (a.sources == b.sources && a.owed == b.owed && a.fans == b.fans && a.visits < b.visits)
    || (a.sources == b.sources && a.owed == b.owed && a.fans == b.fans && a.visits == b.visits && a.tokens < b.tokens)
  }

  lemma LowerIsBelow(g: Net, s: Net)
    requires Lower(g, s)
    ensures Below(RankOf(g), RankOf(s))
  {
  }

  /** The steps succeed one after another and leave nothing to do. */
  ghost predicate Finishes(s: Net, more: seq<Event>)
    decreases |more|
  {
    if more == [] then Quiescent(s) else Works(more[0]) && Finishes(Step(s, more[0]), more[1..])
  }

  ghost predicate CanFinish(s: Net) {
    exists more :: Finishes(s, more)
  }

  lemma FinishedCanFinish(s: Net)
    requires Quiescent(s)
    ensures CanFinish(s)
  {
    assert Finishes(s, []);
  }

  lemma FinishesLater(s: Net, e: Event)
    requires Works(e) && CanFinish(Step(s, e))
    ensures CanFinish(s)
  {
    var rest :| Finishes(Step(s, e), rest);
    assert ([e] + rest)[1..] == rest;
    assert Finishes(s, [e] + rest);
  }

  /** One step towards rest. */
  lemma Advance(s: Net) returns (t: Net, r: Rank)
    requires Sound(s) && !Quiescent(s)
    ensures Sound(t) && r == RankOf(t) && Below(r, RankOf(s)) && (CanFinish(t) ==> CanFinish(s))
  {
    var e := NotQuiescentMoves(s);
    t := Step(s, e);
    EveryStepLowers(s, e);
    LowerIsBelow(t, s);
    StepIsSound(s, e);
    r := RankOf(t);
    if CanFinish(t) {
      FinishesLater(s, e);
    }
  }

  lemma {:induction false} FinishesFrom(s: Net, r: Rank)
    requires Sound(s) && r == RankOf(s)
    ensures CanFinish(s)
    decreases r.sources, r.owed, r.fans, r.visits, r.tokens
  {
    if Quiescent(s) {
      FinishedCanFinish(s);
    } else {
      var t, q := Advance(s);
      FinishesFrom(t, q);
    }
  }

  lemma WorkKeepsSources(s: Net, e: Event)
    requires Works(e)
    ensures Step(s, e).now == s.now
  {
    if AppEvent(e) {
      AppEventElsewhere(s, e, e.id);
    } else if e.Visit? {
      VisitFans(s, e.key, e.id, e.ok);
    }
  }

  lemma {:induction false} FinishedRun(es: seq<Event>, more: seq<Event>)
    requires Finishes(RunNet(es), more)
    ensures Quiescent(RunNet(es + more)) && RunNet(es + more).now == RunNet(es).now
    decreases |more|
  {
    if more == [] {
      assert es + more == es;
    } else {
      assert (es + [more[0]])[..|es|] == es;
      WorkKeepsSources(RunNet(es), more[0]);
      FinishedRun(es + [more[0]], more[1..]);
      assert es + more == es + [more[0]] + more[1..];
    }
  }

  ghost predicate AllInSync(s: Net) {
    forall id <- s.apps, v <- s.apps[id].envs :: InSync(v, s.now.sys, UserView(s.now, id.owner))
  }

  lemma QuiescentAllInSync(es: seq<Event>)
    requires Quiescent(RunNet(es))
    ensures AllInSync(RunNet(es))
  {
    var s := RunNet(es);
    forall id | id in s.apps
      ensures forall v <- s.apps[id].envs :: InSync(v, s.now.sys, UserView(s.now, id.owner))
    {
      QuiescentMeansInSync(es, id);
    }
  }

  /** From every reachable state the controllers can finish their work by steps that succeed, and
      then every reference is in sync with the sources as they were. */
  lemma Converges(es: seq<Event>)
    ensures exists more ::
      && Finishes(RunNet(es), more) && AllInSync(RunNet(es + more))
      && RunNet(es + more).now == RunNet(es).now
  {
    RunIsSound(es);
    FinishesFrom(RunNet(es), RankOf(RunNet(es)));
    var more :| Finishes(RunNet(es), more);
    FinishedRun(es, more);
    QuiescentAllInSync(es + more);
  }
}
