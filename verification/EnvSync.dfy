/** Copying SystemEnv and UserEnv values into the references of an AppEnv. */
module EnvSync {
  import opened Wrappers

  datatype Source = Source(value: string, default: string, kind: string) {
    function Effective(): string {
      if value != "" then value else default
    }
  }

  datatype RefStatus = Unset | Pending | Synced | NotFound

  datatype Ref = Ref(envName: string, status: RefStatus)

  datatype EnvVar = EnvVar(name: string, value: string, kind: string, applyOnChange: bool, from: Option<Ref>)

  type Sources = map<string, Source>

  /** The source a reference resolves to: UserEnv shadows SystemEnv. */
  function Lookup(n: string, sys: Sources, usr: Sources): Option<Source> {
    if n in usr then Some(usr[n]) else if n in sys then Some(sys[n]) else None
  }

  /** The reference holds the effective value and type of its source, if that exists. */
  predicate InSync(e: EnvVar, sys: Sources, usr: Sources) {
    e.from.Some? ==>
      match Lookup(e.from.value.envName, sys, usr)
      case None => true
      case Some(src) => e.value == src.Effective() && e.kind == src.kind && e.from.value.status == Synced
  }

  function SyncedVar(e: EnvVar, sys: Sources, usr: Sources): EnvVar {
    if e.from.None? then e else
    match Lookup(e.from.value.envName, sys, usr)
    case None => e.(from := Some(e.from.value.(status := NotFound)))
    case Some(src) => e.(value := src.Effective(), kind := src.kind, from := Some(e.from.value.(status := Synced)))
  }

  function SyncedAll(es: seq<EnvVar>, sys: Sources, usr: Sources): (r: seq<EnvVar>)
    ensures |r| == |es|
  {
    seq(|es|, i requires 0 <= i < |es| => SyncedVar(es[i], sys, usr))
  }

  /** Some reference that asks to be applied on change really changed. */
  predicate ApplyNeeded(es: seq<EnvVar>, sys: Sources, usr: Sources) {
    exists i :: 0 <= i < |es| && es[i].applyOnChange && !InSync(es[i], sys, usr)
  }

  class AppEnv {
    const envs: array<EnvVar>
    var needApply: bool

    constructor (es: array<EnvVar>, apply: bool)
      ensures envs == es && needApply == apply
    {
      envs, needApply := es, apply;
    }

    /** One entry of the loop: its new value, and whether it changed and asks to be applied. */
    static method SyncEntry(e: EnvVar, sys: Sources, usr: Sources) returns (r: EnvVar, updated: bool, apply: bool)
      ensures r == SyncedVar(e, sys, usr)
      ensures updated <==> r != e
      ensures apply <==> e.applyOnChange && !InSync(e, sys, usr)
    {
      r, updated, apply := e, false, false;
      if e.from.None? {
        return;
      }
      var ref := e.from.value;
      var value, kind, found := "", "", false;
      if ref.envName in usr {
        value, kind, found := usr[ref.envName].Effective(), usr[ref.envName].kind, true;
      }
      if ref.envName in sys {
        if !found {
          value, kind := sys[ref.envName].Effective(), sys[ref.envName].kind;
        }
        found := true;
      }
      if found {
        if e.value != value || e.kind != kind || ref.status != Synced {
          r := e.(value := value, kind := kind, from := Some(ref.(status := Synced)));
          updated, apply := true, e.applyOnChange;
        }
      } else if ref.status != NotFound {
        r, updated := e.(from := Some(ref.(status := NotFound))), true;
      }
    }

    /** Edits the entries in place; `updated` asks the caller to patch the stored object. */
    method SyncEnvValues(sys: Sources, usr: Sources) returns (updated: bool)
      modifies envs, this`needApply
      ensures envs[..] == SyncedAll(old(envs[..]), sys, usr)
      ensures needApply <==> old(needApply) || ApplyNeeded(old(envs[..]), sys, usr)
      ensures updated <==> envs[..] != old(envs[..])
    {
      updated := false;
      ghost var before := envs[..];
      for i := 0 to envs.Length
        invariant forall k :: 0 <= k < i ==> envs[k] == SyncedVar(before[k], sys, usr)
        invariant forall k :: i <= k < envs.Length ==> envs[k] == before[k]
        invariant updated <==> exists k :: 0 <= k < i && envs[k] != before[k]
        invariant needApply <==>
          (old(needApply) || exists k :: 0 <= k < i && before[k].applyOnChange && !InSync(before[k], sys, usr))
      {
        var r, changed, apply := SyncEntry(envs[i], sys, usr);
        envs[i] := r;
        updated, needApply := updated || changed, needApply || apply;
      }
    }
  }

  // ---------------------------------------------------------------------------------------
  // What a sync means

  /** A sync puts every reference in sync, changes nothing else, and a second one changes nothing. */
  lemma SyncMeansInSync(es: seq<EnvVar>, sys: Sources, usr: Sources)
    ensures
      var r := SyncedAll(es, sys, usr);
      && (forall i :: 0 <= i < |es| ==> InSync(r[i], sys, usr))
      && SyncedAll(r, sys, usr) == r && !ApplyNeeded(r, sys, usr)
      && forall i :: 0 <= i < |es| ==>
           && r[i].name == es[i].name && r[i].applyOnChange == es[i].applyOnChange
           && (r[i].from.Some? <==> es[i].from.Some?)
           && (es[i].from.Some? ==> r[i].from.value.envName == es[i].from.value.envName)
           && (es[i].from.None? ==> r[i] == es[i])
           && (es[i].from.Some? && Lookup(es[i].from.value.envName, sys, usr).None? ==>
                 r[i].value == es[i].value && r[i].kind == es[i].kind && r[i].from.value.status == NotFound)
  {
    var r := SyncedAll(es, sys, usr);
    assert SyncedAll(r, sys, usr) == r;
  }

  /** UserEnv shadows SystemEnv: changing a shadowed SystemEnv changes no reference. */
  lemma UserShadowsSystem(es: seq<EnvVar>, sys: Sources, usr: Sources, n: string, src: Source)
    requires n in usr
    ensures SyncedAll(es, sys[n := src], usr) == SyncedAll(es, sys, usr)
  {
    forall i | 0 <= i < |es| ensures SyncedVar(es[i], sys[n := src], usr) == SyncedVar(es[i], sys, usr) {
    }
  }
}
