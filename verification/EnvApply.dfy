/** That changed references are applied: what a patch asks for, who may settle it, and the one way
    it is lost. */
module EnvApply {
  import opened Wrappers
  import opened EnvSync
  import opened EnvProtocol

  // ---------------------------------------------------------------------------------------
  // What a patch asks for

  /** The reference asks to be applied on change, its source exists in these lists, UserEnv first,
      and value, type or status differ from it. */
  predicate ChangesApplied(e: EnvVar, sys: Sources, usr: Sources) {
    e.applyOnChange && e.from.Some? &&
    var n := e.from.value.envName;
    (n in usr || n in sys) &&
    var src := if n in usr then usr[n] else sys[n];
    || e.value != (if src.value == "" then src.default else src.value)
    || e.kind != src.kind
    || e.from.value.status != Synced
  }

  /** The object the run has read has such a reference. */
  ghost predicate Wants(s: Net, id: Id)
    requires id in s.runs && s.runs[id].ListedBoth?
  {
    exists e <- s.runs[id].app.envs :: ChangesApplied(e, s.runs[id].sys, s.runs[id].usr)
  }

  predicate AboutToPatch(s: Net, id: Id) {
    id in s.apps && id in s.runs && s.runs[id].ListedBoth?
  }

  lemma WantsMeans(s: Net, id: Id)
    requires AboutToPatch(s, id)
    ensures
      var r := s.runs[id];
      && (Wants(s, id) <==> ApplyNeeded(r.app.envs, r.sys, r.usr))
      && (Wants(s, id) ==> SyncedAll(r.app.envs, r.sys, r.usr) != r.app.envs)
  {
    var r := s.runs[id];
    assert forall e: EnvVar :: ChangesApplied(e, r.sys, r.usr) <==> e.applyOnChange && !InSync(e, r.sys, r.usr);
    if Wants(s, id) {
      var i :| 0 <= i < |r.app.envs| && ChangesApplied(r.app.envs[i], r.sys, r.usr);
      assert SyncedAll(r.app.envs, r.sys, r.usr)[i] != r.app.envs[i];
    }
  }

  /** A successful patch of a run that has to change such a reference: afterwards NeedApply is stored
      exactly if it was stored before, or the object read did not have it; and the run goes on to
      apply exactly if it is stored. */
  lemma PatchAsksExactly(s: Net, id: Id)
    requires AboutToPatch(s, id) && Wants(s, id)
    ensures
      var g := Step(s, Patch(id, true));
      && id in g.apps && id in g.runs
      && (g.apps[id].needApply <==> s.apps[id].needApply || !s.runs[id].app.needApply)
      && g.runs[id] == Applying(g.apps[id].needApply)
  {
    WantsMeans(s, id);
  }

  /** A sync that changes no such reference asks for nothing: NeedApply stays as it is. The run goes on
      to apply exactly if the object read has NeedApply, when nothing was patched, or if the store
      has it, when something was; and it ends when the patch fails. */
  lemma PatchAsksNothing(s: Net, id: Id, ok: bool)
    requires AboutToPatch(s, id) && !Wants(s, id)
    ensures
      var g, r := Step(s, Patch(id, ok)), s.runs[id];
      var patched := exists i :: 0 <= i < |r.app.envs| && SyncedVar(r.app.envs[i], r.sys, r.usr) != r.app.envs[i];
      && id in g.apps && g.apps[id].needApply == s.apps[id].needApply
      && (id in g.runs <==> !patched || ok)
      && (id in g.runs ==> g.runs[id] == Applying(if patched then s.apps[id].needApply else r.app.needApply))
  {
    WantsMeans(s, id);
    var r := s.runs[id];
    var synced := SyncedAll(r.app.envs, r.sys, r.usr);
    assert synced != r.app.envs ==> exists i :: 0 <= i < |r.app.envs| && synced[i] != r.app.envs[i];
  }

  // ---------------------------------------------------------------------------------------
  // Who settles it

  /** The application was installed or upgraded with its environment, or a run that had to apply has
      started to. */
  predicate SettlesNeed(s: Net, e: Event, id: Id) {
    || e == HelmApplied(id)
    || (e == Apply(id, true) && id in s.runs && s.runs[id] == Applying(true))
  }

  /** Some event of `more`, after `es`, settles it. */
  ghost predicate SettledIn(es: seq<Event>, more: seq<Event>, id: Id) {
    exists i :: 0 <= i < |more| && SettledAt(es, more, id, i)
  }

  predicate SettledAt(es: seq<Event>, more: seq<Event>, id: Id, i: nat)
    requires i < |more|
  {
    SettlesNeed(RunNet(es + more[..i]), more[i], id)
  }

  predicate Needs(s: Net, id: Id) {
    id in s.apps && s.apps[id].needApply
  }

  lemma SourceKeepsNeed(s: Net, e: Event, id: Id)
    requires !AppEvent(e) && Needs(s, id)
    ensures Needs(Step(s, e), id)
  {
    match e
    case Visit(k, v, ok) =>
      if v != id || !Settles(s, k, v, ok) {
        VisitElsewhere(s, k, v, ok, id);
      }
    case Restart =>
    case _ => SourceKeepsAppSide(s, e);
  }

  lemma PutAppNeeds(s: Net, id: Id, a: App)
    ensures Needs(PutApp(s, id, a), id) <==> a.needApply
  {
  }

  lemma PatchKeepsNeed(s: Net, id: Id, ok: bool)
    requires Needs(s, id)
    ensures Needs(PatchStep(s, id, ok), id)
  {
  }

  lemma OwnKeepsNeed(s: Net, e: Event, id: Id)
    requires AppEvent(e) && e.id == id && Needs(s, id) && !SettlesNeed(s, e, id)
    ensures Needs(Step(s, e), id)
  {
    match e
    case Patch(_, ok) => PatchKeepsNeed(s, id, ok);
    case WriteApp(_, envs, apply) =>
      PutAppNeeds(s, id, s.apps[id].(envs := envs, needApply := s.apps[id].needApply || apply));
    case _ =>
  }

  /** No other step clears NeedApply. */
  lemma OnlySettlingClears(s: Net, e: Event, id: Id)
    requires Needs(s, id)
    ensures Needs(Step(s, e), id) || SettlesNeed(s, e, id)
  {
    if !AppEvent(e) {
      SourceKeepsNeed(s, e, id);
    } else if e.id != id {
      AppEventElsewhere(s, e, id);
    } else if !SettlesNeed(s, e, id) {
      OwnKeepsNeed(s, e, id);
    }
  }

  lemma SettledLonger(es: seq<Event>, init: seq<Event>, e: Event, id: Id)
    requires SettledIn(es, init, id)
    ensures SettledIn(es, init + [e], id)
  {
    var i :| 0 <= i < |init| && SettledAt(es, init, id, i);
    assert (init + [e])[..i] == init[..i];
    assert SettledAt(es, init + [e], id, i);
  }

  lemma SettledLast(es: seq<Event>, init: seq<Event>, e: Event, id: Id)
    requires SettlesNeed(RunNet(es + init), e, id)
    ensures SettledIn(es, init + [e], id)
  {
    assert (init + [e])[..|init|] == init;
    assert SettledAt(es, init + [e], id, |init|);
  }

  /** What has to be applied stays so until it is settled. */
  lemma {:induction false} NeedStaysUntilSettled(es: seq<Event>, more: seq<Event>, id: Id)
    requires Needs(RunNet(es), id) && !Needs(RunNet(es + more), id)
    ensures SettledIn(es, more, id)
  {
    assert more == [] ==> es + more == es;
    if more != [] {
      var init, e := more[..|more| - 1], more[|more| - 1];
      assert more == init + [e] && (es + more)[..|es + more| - 1] == es + init;
      if Needs(RunNet(es + init), id) {
        OnlySettlingClears(RunNet(es + init), e, id);
        SettledLast(es, init, e, id);
      } else {
        NeedStaysUntilSettled(es, init, id);
        SettledLonger(es, init, e, id);
      }
    }
  }

  /** The patch changes a reference that asks for it, but NeedApply is not stored afterwards. */
  predicate Loses(s: Net, id: Id)
    requires AboutToPatch(s, id)
  {
    s.runs[id].app.needApply && !s.apps[id].needApply
  }

  /** The run at work is about to patch a changed reference that asks to be applied. */
  ghost predicate Patches(es: seq<Event>, id: Id) {
    AboutToPatch(RunNet(es), id) && Wants(RunNet(es), id)
  }

  /** After these events the controllers have nothing left to do. */
  ghost predicate Finishes(es: seq<Event>, more: seq<Event>) {
    Quiescent(RunNet(es + more))
  }

  /** Whatever the interleaving: between a successful patch that changes such a reference and any
      later state in which the controllers have nothing left to do, the application is applied,
      unless the run read NeedApply when it was set and patches when it is cleared. */
  lemma ChangedIsApplied(es: seq<Event>, more: seq<Event>, id: Id)
    requires Patches(es, id) && !Loses(RunNet(es), id)
    requires Finishes(es + [Patch(id, true)], more)
    ensures SettledIn(es + [Patch(id, true)], more, id)
  {
    var patched := es + [Patch(id, true)];
    assert patched[..|es|] == es;
    PatchAsksExactly(RunNet(es), id);
    if id in RunNet(patched + more).apps {
      QuiescentMeansInSync(patched + more, id);
    }
    NeedStaysUntilSettled(patched, more, id);
  }

  /** The run of the exception is not going to apply. */
  lemma LostIsNotApplied(es: seq<Event>, id: Id)
    requires Patches(es, id) && Loses(RunNet(es), id)
    ensures
      var g := RunNet(es + [Patch(id, true)]);
      id in g.apps && !g.apps[id].needApply && id in g.runs && g.runs[id] == Applying(false)
  {
    assert (es + [Patch(id, true)])[..|es|] == es;
    PatchAsksExactly(RunNet(es), id);
  }

  // ---------------------------------------------------------------------------------------
  // A change that is lost

  const ID := Id("app", "user")
  const KEY := Sys("X")
  const SRC := Source("new", "", "string")
  const OLD := [EnvVar("A", "old", "string", true, Some(Ref("X", Synced)))]
  const NEW := [EnvVar("A", "new", "string", true, Some(Ref("X", Synced)))]
  const SOURCES: Sources := map["X" := SRC]
  const VIEW := View(SOURCES, map[])

  /** The source is known to everybody; the application is stored, cached, queued, and at work as
      given. */
  function Known(stored: App, cached: App, late: seq<App>, queued: bool, runs: map<Id, Run>): Net {
    Net(VIEW, map[ID := stored], VIEW, map[ID := cached], map[KEY := []], map[ID := late],
        {}, if queued then {ID} else {}, map[], runs)
  }

  lemma Then(es: seq<Event>, s: Net, e: Event, g: Net)
    requires RunNet(es) == s && Step(s, e) == g
    ensures RunNet(es + [e]) == g
  {
    assert (es + [e])[..|es|] == es;
  }

  // One lemma for each kind of step of the run.

  const S1 := START.(now := VIEW, lateSrc := map[KEY := [SRC]])
  const S2 := Net(VIEW, map[], VIEW, map[], map[KEY := []], map[], {KEY}, {}, map[], map[])
  const S3 := S2.(srcQ := {}, fans := map[KEY := Fan(map[], false)])
  const S4 := S2.(srcQ := {})

  lemma WritesSource()
    ensures Step(START, WriteSource(KEY, SRC)) == S1 && Step(S1, ObserveSource(KEY)) == S2
  {
    assert map[][KEY.name := SRC] == SOURCES;
    assert |KEY.name| == 1 && PutSource(NO_SOURCES, KEY, SRC) == VIEW && [] + [SRC] == [SRC];
    assert [SRC][1..] == [];
    assert map[KEY := [SRC]][KEY := [SRC][1..]] == map[KEY := []] && {} + {KEY} == {KEY};
  }

  lemma VisitsNobody()
    ensures Step(S2, StartFan(KEY)) == S3 && Step(S3, FinishFan(KEY)) == S4
  {
    assert Listed(S2, KEY) == map[] && {KEY} - {KEY} == {};
    assert map[KEY := Fan(map[], false)] - {KEY} == map[];
  }

  const WRITTEN := App(OLD, "", true)
  const CLEARED := App(OLD, "", false)
  const PATCHED := App(NEW, "", false)

  const S5 := S4.(apps := map[ID := WRITTEN], lateApp := map[ID := [WRITTEN]])

  lemma WritesApp()
    ensures Step(S4, WriteApp(ID, OLD, true)) == S5
    ensures Step(S5, ObserveApp(ID)) == Known(WRITTEN, WRITTEN, [], true, map[])
  {
    assert [] + [WRITTEN] == [WRITTEN] && [WRITTEN][1..] == [] && {} + {ID} == {ID};
    assert map[ID := [WRITTEN]][ID := []] == map[ID := []] && map[][ID := WRITTEN] == map[ID := WRITTEN];
  }

  lemma Reads(a: App)
    ensures Step(Known(a, a, [], true, map[]), Get(ID)) == Known(a, a, [], false, map[ID := Got(a)])
  {
    assert {ID} - {ID} == {};
  }

  lemma ListsSys(a: App)
    requires a.annotation == ""
    ensures Step(Known(a, a, [], false, map[ID := Got(a)]), ListSys(ID, true))
         == Known(a, a, [], false, map[ID := ListedSys(a, SOURCES)])
  {
    assert map[ID := Got(a)][ID := ListedSys(a, SOURCES)] == map[ID := ListedSys(a, SOURCES)];
  }

  function Both(a: App): map<Id, Run> {
    map[ID := ListedBoth(a, SOURCES, map[])]
  }

  lemma ListsUsr(a: App)
    ensures Step(Known(a, a, [], false, map[ID := ListedSys(a, SOURCES)]), ListUsr(ID, true))
         == Known(a, a, [], false, Both(a))
  {
    assert map[ID := ListedSys(a, SOURCES)][ID := Both(a)[ID]] == Both(a);
  }

  lemma Stores(stored: App, cached: App, late: seq<App>, runs: map<Id, Run>, a: App)
    requires a != stored
    ensures PutApp(Known(stored, cached, late, false, runs), ID, a) == Known(a, cached, late + [a], false, runs)
  {
    assert map[ID := stored][ID := a] == map[ID := a];
    assert map[ID := late][ID := late + [a]] == map[ID := late + [a]];
  }

  lemma HelmClears()
    ensures Step(Known(WRITTEN, WRITTEN, [], false, Both(WRITTEN)), HelmApplied(ID))
         == Known(CLEARED, WRITTEN, [CLEARED], false, Both(WRITTEN))
  {
    Stores(WRITTEN, WRITTEN, [], Both(WRITTEN), CLEARED);
    assert [] + [CLEARED] == [CLEARED];
  }

  lemma OldChanges()
    ensures ChangesApplied(OLD[0], SOURCES, map[])
    ensures SyncedAll(OLD, SOURCES, map[]) == NEW != OLD
    ensures SyncedAll(NEW, SOURCES, map[]) == NEW
  {
    assert |SRC.value| == 3 && OLD[0].value[0] != NEW[0].value[0];
  }

  lemma PatchesOld()
    ensures Step(Known(CLEARED, WRITTEN, [CLEARED], false, Both(WRITTEN)), Patch(ID, true))
         == Known(PATCHED, WRITTEN, [CLEARED, PATCHED], false, map[ID := Applying(false)])
  {
    OldChanges();
    assert Merged(CLEARED, WRITTEN, SOURCES, map[]) == PATCHED;
    assert Both(WRITTEN)[ID := Applying(false)] == map[ID := Applying(false)];
    Stores(CLEARED, WRITTEN, [CLEARED], map[ID := Applying(false)], PATCHED);
    assert [CLEARED] + [PATCHED] == [CLEARED, PATCHED];
  }

  lemma PatchesNew()
    ensures Step(Known(PATCHED, PATCHED, [], false, Both(PATCHED)), Patch(ID, true))
         == Known(PATCHED, PATCHED, [], false, map[ID := Applying(false)])
  {
    OldChanges();
    assert Both(PATCHED)[ID := Applying(false)] == map[ID := Applying(false)];
  }

  lemma Ends(cached: App, late: seq<App>)
    ensures Step(Known(PATCHED, cached, late, false, map[ID := Applying(false)]), Apply(ID, true))
         == Known(PATCHED, cached, late, false, map[])
  {
    assert map[ID := Applying(false)] - {ID} == map[];
  }

  lemma Delivers(cached: App, late: seq<App>, queued: bool)
    requires late != []
    ensures Step(Known(PATCHED, cached, late, queued, map[]), ObserveApp(ID))
         == Known(PATCHED, late[0], late[1..], true, map[])
  {
    assert map[ID := cached][ID := late[0]] == map[ID := late[0]];
    assert map[ID := late][ID := late[1..]] == map[ID := late[1..]];
    assert (if queued then {ID} else {}) + {ID} == {ID};
  }

  // The run itself.

  const DELIVERED := [WriteSource(KEY, SRC)] + [ObserveSource(KEY)] + [StartFan(KEY)] + [FinishFan(KEY)]
                     + [WriteApp(ID, OLD, true)] + [ObserveApp(ID)]

  /** The operator has asked for an apply, a run has read that, and then helm has cleared it. */
  const READ := DELIVERED + [Get(ID)] + [ListSys(ID, true)] + [ListUsr(ID, true)] + [HelmApplied(ID)]

  lemma Delivered()
    ensures RunNet(DELIVERED) == Known(WRITTEN, WRITTEN, [], true, map[])
  {
    WritesSource();
    VisitsNobody();
    WritesApp();
    var es := [WriteSource(KEY, SRC)];
    assert [] + es == es;
    Then([], START, WriteSource(KEY, SRC), S1);
    Then(es, S1, ObserveSource(KEY), S2);
    Then(es + [ObserveSource(KEY)], S2, StartFan(KEY), S3);
    Then(es + [ObserveSource(KEY)] + [StartFan(KEY)], S3, FinishFan(KEY), S4);
    es := es + [ObserveSource(KEY)] + [StartFan(KEY)] + [FinishFan(KEY)];
    Then(es, S4, WriteApp(ID, OLD, true), S5);
    Then(es + [WriteApp(ID, OLD, true)], S5, ObserveApp(ID), Known(WRITTEN, WRITTEN, [], true, map[]));
  }

  lemma ReadsAll(es: seq<Event>, a: App)
    requires RunNet(es) == Known(a, a, [], true, map[]) && a.annotation == ""
    ensures RunNet(es + [Get(ID)] + [ListSys(ID, true)] + [ListUsr(ID, true)]) == Known(a, a, [], false, Both(a))
  {
    Reads(a);
    ListsSys(a);
    ListsUsr(a);
    var got, sys := Known(a, a, [], false, map[ID := Got(a)]), Known(a, a, [], false, map[ID := ListedSys(a, SOURCES)]);
    Then(es, Known(a, a, [], true, map[]), Get(ID), got);
    Then(es + [Get(ID)], got, ListSys(ID, true), sys);
    Then(es + [Get(ID)] + [ListSys(ID, true)], sys, ListUsr(ID, true), Known(a, a, [], false, Both(a)));
  }

  const BEFORE := Known(CLEARED, WRITTEN, [CLEARED], false, Both(WRITTEN))

  lemma ReadThenCleared()
    ensures RunNet(READ) == BEFORE
  {
    Delivered();
    ReadsAll(DELIVERED, WRITTEN);
    HelmClears();
    Then(DELIVERED + [Get(ID)] + [ListSys(ID, true)] + [ListUsr(ID, true)],
         Known(WRITTEN, WRITTEN, [], false, Both(WRITTEN)), HelmApplied(ID), BEFORE);
  }

  /** The rest of the work: the run ends, the two versions are delivered, and another pass finds
      nothing to do. */
  const FINISH := [Apply(ID, true), ObserveApp(ID), ObserveApp(ID),
                   Get(ID), ListSys(ID, true), ListUsr(ID, true), Patch(ID, true), Apply(ID, true)]

  const LOST := READ + [Patch(ID, true)]

  lemma Loss()
    ensures RunNet(LOST) == Known(PATCHED, WRITTEN, [CLEARED, PATCHED], false, map[ID := Applying(false)])
  {
    ReadThenCleared();
    PatchesOld();
    Then(READ, BEFORE, Patch(ID, true), Known(PATCHED, WRITTEN, [CLEARED, PATCHED], false, map[ID := Applying(false)]));
  }

  const SEEN := LOST + [Apply(ID, true)] + [ObserveApp(ID)] + [ObserveApp(ID)]

  lemma LossIsSeen()
    ensures RunNet(SEEN) == Known(PATCHED, PATCHED, [], true, map[])
  {
    Loss();
    Ends(WRITTEN, [CLEARED, PATCHED]);
    var ended := Known(PATCHED, WRITTEN, [CLEARED, PATCHED], false, map[]);
    Then(LOST, RunNet(LOST), Apply(ID, true), ended);
    Delivers(WRITTEN, [CLEARED, PATCHED], false);
    var one := Known(PATCHED, CLEARED, [PATCHED], true, map[]);
    assert [CLEARED, PATCHED][1..] == [PATCHED];
    Then(LOST + [Apply(ID, true)], ended, ObserveApp(ID), one);
    Delivers(CLEARED, [PATCHED], true);
    assert [PATCHED][1..] == [];
    Then(LOST + [Apply(ID, true)] + [ObserveApp(ID)], one, ObserveApp(ID), Known(PATCHED, PATCHED, [], true, map[]));
  }

  const IDLE := SEEN + [Get(ID)] + [ListSys(ID, true)] + [ListUsr(ID, true)] + [Patch(ID, true)]

  lemma LossIsFinal()
    ensures RunNet(IDLE) == Known(PATCHED, PATCHED, [], false, map[ID := Applying(false)])
    ensures RunNet(LOST + FINISH) == Known(PATCHED, PATCHED, [], false, map[])
  {
    LossIsSeen();
    ReadsAll(SEEN, PATCHED);
    PatchesNew();
    var idle := Known(PATCHED, PATCHED, [], false, map[ID := Applying(false)]);
    Then(SEEN + [Get(ID)] + [ListSys(ID, true)] + [ListUsr(ID, true)],
         Known(PATCHED, PATCHED, [], false, Both(PATCHED)), Patch(ID, true), idle);
    Ends(PATCHED, []);
    Then(IDLE, idle, Apply(ID, true), Known(PATCHED, PATCHED, [], false, map[]));
    assert LOST + FINISH == IDLE + [Apply(ID, true)];
  }

  lemma OnlyApplies(i: nat)
    requires i < |FINISH| && (FINISH[i].HelmApplied? || FINISH[i].Apply?)
    ensures i == 0 || i == 7
  {
  }

  lemma BeforeLastApply(es: seq<Event>)
    ensures es + FINISH[..0] == es
    ensures es + FINISH[..7] == es + [Apply(ID, true)] + [ObserveApp(ID)] + [ObserveApp(ID)]
                                + [Get(ID)] + [ListSys(ID, true)] + [ListUsr(ID, true)] + [Patch(ID, true)]
  {
  }

  lemma NotSettledAt(i: nat)
    requires i < |FINISH|
    ensures !SettledAt(LOST, FINISH, ID, i)
  {
    if FINISH[i].HelmApplied? || FINISH[i].Apply? {
      OnlyApplies(i);
      BeforeLastApply(LOST);
      Loss();
      LossIsFinal();
    }
  }

  lemma LossIsNotSettled()
    ensures !SettledIn(LOST, FINISH, ID)
  {
    forall i | 0 <= i < |FINISH| ensures !SettledAt(LOST, FINISH, ID, i) {
      NotSettledAt(i);
    }
  }

  lemma LossBegins()
    ensures Patches(READ, ID) && Loses(RunNet(READ), ID)
  {
    ReadThenCleared();
    OldChanges();
    assert BEFORE.runs[ID].app.envs == OLD && OLD[0] in OLD;
  }

  lemma LossIsFinished()
    ensures Finishes(LOST, FINISH)
  {
    LossIsFinal();
  }

  /** The exception is real: the run above patches a changed reference, the controllers finish, and
      nobody has applied it. */
  lemma ChangeIsLost()
    ensures Patches(READ, ID) && Loses(RunNet(READ), ID)
    ensures Finishes(READ + [Patch(ID, true)], FINISH)
    ensures !SettledIn(READ + [Patch(ID, true)], FINISH, ID)
  {
    LossBegins();
    LossIsFinished();
    LossIsNotSettled();
  }
}
