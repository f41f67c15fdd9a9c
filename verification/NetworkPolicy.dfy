/** Reconciling the network policies of a namespace with the ones it should have. */
module NetworkPolicy {
  import opened Wrappers

  const NAME_LABEL := "kubernetes.io/metadata.name"

  const MIDDLEWARE_NP := "middleware-np"

  datatype Peer = Peer(nsLabels: Option<map<string, string>>, cidr: Option<string>)

  datatype Rule = Rule(from: seq<Peer>)

  /** `rest` stands for pod selectors and policy types, which nothing here looks at. */
  datatype Spec = Spec(ingress: seq<Rule>, rest: string)

  datatype Key = Key(namespace: string, name: string)

  datatype Policy = Policy(key: Key, spec: Spec)

  type Store = map<Key, Spec>

  type Fix = Spec -> Spec

  // ---------------------------------------------------------------------------------------
  // Which policies a namespace should have

  datatype Profile = UnderLayer | OSSystem | OSProtected | OSNetwork | UserSystem | UserSpace
                   | MiddlewareSpace | AppSpace | SharedSpace | Others

  /** The name of the main policy, and of the additional ones. */
  function Names(p: Profile): seq<string> {
    match p
    case UnderLayer => ["underlayer-system-np"]
    case OSSystem => ["os-system-np", "files-np", "system-provider-np", "system-middleware-np"]
    case OSProtected => ["os-protected-np", "system-provider-np"]
    case OSNetwork => ["os-network-np"]
    case UserSystem => ["user-system-np"]
    case UserSpace => ["user-space-np", "ingress-np"]
    case MiddlewareSpace => [MIDDLEWARE_NP]
    case AppSpace => ["app-np"]
    case SharedSpace => ["shared-np", "system-provider-np", "shared-entrance-np"]
    case Others => ["others-np"]
  }

  ghost predicate Distinct(names: seq<string>) {
    forall i, j :: 0 <= i < j < |names| ==> names[i] != names[j]
  }

  lemma ByLetters(a: string, b: string)
    requires |a| != |b| || exists i :: 0 <= i < |a| && a[i] != b[i]
    ensures a != b
  {
  }

  lemma NamesAreDistinct(p: Profile)
    ensures |Names(p)| > 0 && Distinct(Names(p))
  {
    match p
    case OSSystem =>
      ByLetters("os-system-np", "files-np");
      ByLetters("os-system-np", "system-provider-np");
      ByLetters("os-system-np", "system-middleware-np");
      ByLetters("files-np", "system-provider-np");
      ByLetters("files-np", "system-middleware-np");
      ByLetters("system-provider-np", "system-middleware-np");
    case OSProtected => ByLetters("os-protected-np", "system-provider-np");
    case UserSpace => ByLetters("user-space-np", "ingress-np");
    case SharedSpace =>
      ByLetters("shared-np", "system-provider-np");
      ByLetters("shared-np", "shared-entrance-np");
      assert "system-provider-np"[1] != "shared-entrance-np"[1];
    case _ =>
  }

  // ---------------------------------------------------------------------------------------
  // The main policy always lets its own namespace in

  predicate IsSelf(p: Peer, ns: string) {
    p.nsLabels.Some? && NAME_LABEL in p.nsLabels.value && p.nsLabels.value[NAME_LABEL] == ns
  }

  ghost predicate AllowsSelf(s: Spec, ns: string) {
    exists r <- s.ingress, p <- r.from :: IsSelf(p, ns)
  }

  function SelfPeer(ns: string): Peer {
    Peer(Some(map[NAME_LABEL := ns]), None)
  }

  method NamespaceMustAdd(s: Spec, ns: string) returns (must: bool)
    ensures must <==> !AllowsSelf(s, ns)
  {
    for i := 0 to |s.ingress|
      invariant forall r <- s.ingress[..i], p <- r.from :: !IsSelf(p, ns)
    {
      for j := 0 to |s.ingress[i].from|
        invariant forall p <- s.ingress[i].from[..j] :: !IsSelf(p, ns)
      {
        if IsSelf(s.ingress[i].from[j], ns) {
          assert s.ingress[i] in s.ingress;
          return false;
        }
      }
      assert s.ingress[..i + 1] == s.ingress[..i] + [s.ingress[i]];
    }
    return true;
  }

  ghost function Prepared(s: Spec, ns: string, name: string): Spec {
    var t := if s.ingress == [] then s.(ingress := [Rule([])]) else s;
    if !AllowsSelf(t, ns) && name != MIDDLEWARE_NP
    then t.(ingress := t.ingress[0 := Rule(t.ingress[0].from + [SelfPeer(ns)])])
    else t
  }

  method PrepareMain(s: Spec, ns: string, name: string) returns (r: Spec)
    ensures r == Prepared(s, ns, name)
  {
    r := s;
    if |r.ingress| == 0 {
      r := r.(ingress := r.ingress + [Rule([])]);
    }
    var must := NamespaceMustAdd(r, ns);
    if must && name != MIDDLEWARE_NP {
      r := r.(ingress := r.ingress[0 := Rule(r.ingress[0].from + [SelfPeer(ns)])]);
    }
  }

  /** The prepared policy lets its own namespace in, unless it is the middleware policy without
      such a rule; preparing it again adds nothing. */
  lemma PreparedAllowsSelf(s: Spec, ns: string, name: string)
    ensures Prepared(s, ns, name).ingress != []
    ensures AllowsSelf(Prepared(s, ns, name), ns) <==> name != MIDDLEWARE_NP || AllowsSelf(s, ns)
    ensures Prepared(Prepared(s, ns, name), ns, name) == Prepared(s, ns, name)
  {
    var r := Prepared(s, ns, name);
    var t := if s.ingress == [] then s.(ingress := [Rule([])]) else s;
    assert AllowsSelf(t, ns) <==> AllowsSelf(s, ns);
    if !AllowsSelf(t, ns) && name != MIDDLEWARE_NP {
      var from := r.ingress[0].from;
      assert r.ingress[0] in r.ingress && from[|from| - 1] in from && IsSelf(from[|from| - 1], ns);
    }
  }

  // ---------------------------------------------------------------------------------------
  // The store

  predicate Contains(policies: seq<Policy>, k: Key) {
    exists p <- policies :: p.key == k
  }

  function InNamespace(store: Store, ns: string): set<Key> {
    set k <- store | k.namespace == ns
  }

  predicate SameAt(a: Store, b: Store, k: Key) {
    (k in a <==> k in b) && (k in a ==> a[k] == b[k])
  }

  ghost predicate SameElsewhere(a: Store, b: Store, ns: string) {
    forall k: Key :: k.namespace != ns ==> SameAt(a, b, k)
  }

  /** One successful createOrUpdate: the policy has the wanted spec, and every other policy of its
      namespace that is not wanted at all is gone. */
  function Updated(store: Store, p: Policy, fix: Fix, wanted: seq<Policy>): Store {
    (map k | k in store && (k.namespace != p.key.namespace || Contains(wanted, k)) :: store[k])[p.key := fix(p.spec)]
  }

  function NoFix(s: Spec): Spec {
    s
  }

  /** The additional policies from index k on, one after the other. */
  function UpdatedFrom(store: Store, wanted: seq<Policy>, k: nat): Store
    requires k <= |wanted|
    decreases |wanted| - k
  {
    if k == |wanted| then store else UpdatedFrom(Updated(store, wanted[k], NoFix, wanted), wanted, k + 1)
  }

  function Reconciled(store: Store, wanted: seq<Policy>, fix: Fix): Store
    requires wanted != []
  {
    UpdatedFrom(Updated(store, wanted[0], fix, wanted), wanted, 1)
  }

  /** The requests of one createOrUpdate: it writes the policy, and deletes what is not wanted. */
  predicate Touches(store: Store, p: Policy, wanted: seq<Policy>, k: Key) {
    k == p.key || (k in store && k.namespace == p.key.namespace && !Contains(wanted, k))
  }

  /** The requests of a whole reconcile. */
  ghost predicate TouchesAny(store: Store, wanted: seq<Policy>, k: Key) {
    exists p <- wanted :: Touches(store, p, wanted, k)
  }

  /** Every policy is as it was, or as the call would leave it. */
  ghost predicate Between(before: Store, now: Store, after: Store) {
    forall k: Key :: SameAt(before, now, k) || SameAt(now, after, k)
  }

  /** The spec a policy of the list is written with. */
  ghost predicate WantedSpec(wanted: seq<Policy>, fix: Fix, k: Key, spec: Spec) {
    exists i :: 0 <= i < |wanted| && wanted[i].key == k
                && spec == if i == 0 then fix(wanted[i].spec) else wanted[i].spec
  }

  /** What even a failed reconcile respects: what is stored was stored or is wanted so, and what is
      gone is not wanted, and was in a namespace of the list. */
  ghost predicate Underway(before: Store, now: Store, wanted: seq<Policy>, fix: Fix) {
    && (forall k <- now :: (k in before && now[k] == before[k]) || WantedSpec(wanted, fix, k, now[k]))
    && (forall k <- before :: k !in now ==>
          !Contains(wanted, k) && exists p <- wanted :: p.key.namespace == k.namespace)
  }

  lemma UpdatedAt(store: Store, p: Policy, fix: Fix, wanted: seq<Policy>, k: Key)
    ensures
      var r := Updated(store, p, fix, wanted);
      if k == p.key then k in r && r[k] == fix(p.spec)
      else if k.namespace != p.key.namespace || Contains(wanted, k) then SameAt(store, r, k)
      else k !in r
  {
  }

  /** The loop is done with these policies of the namespace, and has not looked at the others. */
  ghost predicate Halfway(before: Store, now: Store, p: Policy, fix: Fix, wanted: seq<Policy>, done: set<Key>) {
    forall k: Key :: SameAt(now, if k in done then Updated(before, p, fix, wanted) else before, k)
  }

  /** One policy of the namespace. */
  function Handled(now: Store, p: Policy, fix: Fix, wanted: seq<Policy>, np: Key): Store {
    if np == p.key then now[np := fix(p.spec)] else if Contains(wanted, np) then now else now - {np}
  }

  lemma HalfwayNext(before: Store, now: Store, p: Policy, fix: Fix, wanted: seq<Policy>, done: set<Key>, np: Key)
    requires Halfway(before, now, p, fix, wanted, done)
    requires np in InNamespace(before, p.key.namespace) && np !in done
    ensures Halfway(before, Handled(now, p, fix, wanted, np), p, fix, wanted, done + {np})
  {
    var after, next := Updated(before, p, fix, wanted), Handled(now, p, fix, wanted, np);
    forall k: Key ensures SameAt(next, if k in done + {np} then after else before, k) {
      assert SameAt(now, if k in done then after else before, k);
      UpdatedAt(before, p, fix, wanted, k);
    }
  }

  /** After the loop only the policy itself may still be missing. */
  lemma HalfwayDone(before: Store, now: Store, p: Policy, fix: Fix, wanted: seq<Policy>, done: set<Key>)
    requires Halfway(before, now, p, fix, wanted, done) && done == InNamespace(before, p.key.namespace)
    ensures now[p.key := fix(p.spec)] == Updated(before, p, fix, wanted)
    ensures p.key in done ==> now == Updated(before, p, fix, wanted)
  {
    var after, next := Updated(before, p, fix, wanted), now[p.key := fix(p.spec)];
    forall k: Key ensures SameAt(next, after, k) && (p.key in done ==> SameAt(now, after, k)) {
      assert SameAt(now, if k in done then after else before, k);
      UpdatedAt(before, p, fix, wanted, k);
    }
    SameStore(next, after);
    if p.key in done {
      SameStore(now, after);
    }
  }

  lemma HalfwayBetween(before: Store, now: Store, p: Policy, fix: Fix, wanted: seq<Policy>, done: set<Key>)
    requires Halfway(before, now, p, fix, wanted, done)
    ensures Between(before, now, Updated(before, p, fix, wanted))
    ensures SameElsewhere(before, now, p.key.namespace)
    ensures SameElsewhere(before, Updated(before, p, fix, wanted), p.key.namespace)
  {
    forall k: Key
      ensures SameAt(before, now, k) || SameAt(now, Updated(before, p, fix, wanted), k)
      ensures k.namespace != p.key.namespace ==>
        SameAt(before, now, k) && SameAt(before, Updated(before, p, fix, wanted), k)
    {
      assert SameAt(now, if k in done then Updated(before, p, fix, wanted) else before, k);
      UpdatedAt(before, p, fix, wanted, k);
    }
  }

  /** No request for these policies is refused. */
  ghost predicate NoneRefused(store: Store, p: Policy, wanted: seq<Policy>, fails: set<Key>, done: set<Key>) {
    forall k <- done :: Touches(store, p, wanted, k) ==> k !in fails
  }

  lemma NoneTouched(store: Store, p: Policy, wanted: seq<Policy>, fails: set<Key>)
    requires NoneRefused(store, p, wanted, fails, InNamespace(store, p.key.namespace)) && p.key !in fails
    ensures forall k <- fails :: !Touches(store, p, wanted, k)
  {
  }

  lemma SameStore(a: Store, b: Store)
    requires forall k: Key :: SameAt(a, b, k)
    ensures a == b
  {
    assert forall k <- a :: SameAt(a, b, k);
    assert forall k <- b :: SameAt(a, b, k);
  }

  function FixOf(fix: Fix, i: nat): Fix {
    if i == 0 then fix else NoFix
  }

  lemma UnderwayNext(before: Store, now: Store, next: Store, wanted: seq<Policy>, fix: Fix, i: nat)
    requires i < |wanted| && Underway(before, now, wanted, fix)
    requires Between(now, next, Updated(now, wanted[i], FixOf(fix, i), wanted))
    ensures Underway(before, next, wanted, fix)
  {
    forall k | k in next ensures (k in before && next[k] == before[k]) || WantedSpec(wanted, fix, k, next[k]) {
      if !SameAt(now, next, k) && k == wanted[i].key {
        assert WantedSpec(wanted, fix, k, next[k]);
      }
    }
    forall k | k in before && k !in next
      ensures !Contains(wanted, k) && exists p <- wanted :: p.key.namespace == k.namespace
    {
      if !SameAt(now, next, k) {
        assert wanted[i] in wanted && wanted[i].key.namespace == k.namespace;
      }
    }
  }

  /** No request of the first k updates fails, and what fails later is still there. */
  ghost predicate NoneFailed(before: Store, now: Store, wanted: seq<Policy>, fails: set<Key>, k: nat)
    requires k <= |wanted|
  {
    && (forall i, key :: 0 <= i < k && key in fails ==> !Touches(before, wanted[i], wanted, key))
    && (forall key <- fails :: key in before && !Contains(wanted, key) ==> key in now)
  }

  lemma FailsNext(before: Store, now: Store, wanted: seq<Policy>, fix: Fix, fails: set<Key>, i: nat, ok: bool)
    requires i < |wanted| && Underway(before, now, wanted, fix) && NoneFailed(before, now, wanted, fails, i)
    requires ok <==> forall k <- fails :: !Touches(now, wanted[i], wanted, k)
    ensures ok ==> NoneFailed(before, Updated(now, wanted[i], FixOf(fix, i), wanted), wanted, fails, i + 1)
    ensures !ok ==> exists k <- fails :: TouchesAny(before, wanted, k)
  {
    if !ok {
      var k :| k in fails && Touches(now, wanted[i], wanted, k);
      assert Touches(before, wanted[i], wanted, k) && wanted[i] in wanted by {
        if k in now && !Contains(wanted, k) {
          assert !WantedSpec(wanted, fix, k, now[k]);
        }
      }
    }
  }

  class PolicyStore {
    var items: Store

    constructor (s: Store)
      ensures items == s
    {
      items := s;
    }

    /** `fails` are the policies whose write requests the API server refuses. */
    method CreateOrUpdate(p: Policy, fix: Fix, wanted: seq<Policy>, fails: set<Key>) returns (ok: bool)
      requires Contains(wanted, p.key)
      modifies this
      ensures ok ==> items == Updated(old(items), p, fix, wanted)
      ensures Between(old(items), items, Updated(old(items), p, fix, wanted))
      ensures SameElsewhere(old(items), items, p.key.namespace)
      ensures ok <==> forall k <- fails :: !Touches(old(items), p, wanted, k)
    {
      var nps := InNamespace(items, p.key.namespace);
      var found := false;
      ghost var done, before := {}, items;
      while nps != {}
        invariant done !! nps && done + nps == InNamespace(before, p.key.namespace)
        invariant found <==> p.key in done
        invariant Halfway(before, items, p, fix, wanted, done) && NoneRefused(before, p, wanted, fails, done)
        decreases |nps|
      {
        var np :| np in nps;
        HalfwayBetween(before, items, p, fix, wanted, done);
        HalfwayNext(before, items, p, fix, wanted, done, np);
        if np == p.key {
          if np in fails {
            assert Touches(before, p, wanted, np);
            return false;
          }
          items := items[np := fix(p.spec)];
          found := true;
        } else if !Contains(wanted, np) {
          if np in fails {
            assert Touches(before, p, wanted, np);
            return false;
          }
          items := items - {np};
        }
        nps, done := nps - {np}, done + {np};
      }
      assert done + nps == done;
      HalfwayBetween(before, items, p, fix, wanted, done);
      HalfwayDone(before, items, p, fix, wanted, done);
      if !found {
        if p.key in fails {
          assert Touches(before, p, wanted, p.key);
          return false;
        }
        items := items[p.key := fix(p.spec)];
      }
      NoneTouched(before, p, wanted, fails);
      ok := true;
    }

    method ReconcileLive(wanted: seq<Policy>, fix: Fix, fails: set<Key>) returns (ok: bool)
      requires wanted != []
      modifies this
      ensures ok ==> items == Reconciled(old(items), wanted, fix)
      ensures Underway(old(items), items, wanted, fix)
      ensures ok <==> forall k <- fails :: !TouchesAny(old(items), wanted, k)
    {
      ghost var before := items;
      ok := CreateOrUpdate(wanted[0], fix, wanted, fails);
      UnderwayNext(before, before, items, wanted, fix, 0);
      FailsNext(before, before, wanted, fix, fails, 0, ok);
      if !ok {
        return;
      }
      for i := 1 to |wanted|
        invariant UpdatedFrom(items, wanted, i) == Reconciled(before, wanted, fix)
        invariant Underway(before, items, wanted, fix)
        invariant NoneFailed(before, items, wanted, fails, i)
      {
        ghost var now := items;
        ok := CreateOrUpdate(wanted[i], NoFix, wanted, fails);
        UnderwayNext(before, now, items, wanted, fix, i);
        FailsNext(before, now, wanted, fix, fails, i, ok);
        if !ok {
          return;
        }
      }
    }

    method DeleteAll(ns: string, fails: set<Key>) returns (ok: bool)
      modifies this
      ensures ok ==> items == old(items) - InNamespace(old(items), ns)
      ensures forall k <- items :: k in old(items) && items[k] == old(items)[k]
      ensures forall k <- old(items) :: k.namespace != ns || k in fails ==> k in items
      ensures ok <==> forall k <- old(items) :: k.namespace == ns ==> k !in fails
    {
      var nps := InNamespace(items, ns);
      ghost var gone := {};
      while nps != {}
        invariant gone + nps == InNamespace(old(items), ns) && gone !! fails
        invariant items == old(items) - gone
        decreases |nps|
      {
        var np :| np in nps;
        if np in fails {
          return false;
        }
        items := items - {np};
        gone := gone + {np};
        nps := nps - {np};
      }
      assert gone == InNamespace(old(items), ns);
      ok := true;
    }
  }

  // ---------------------------------------------------------------------------------------
  // One reconcile suffices

  /** The policies of one namespace, the main one first, with distinct names. */
  ghost predicate Wanted(wanted: seq<Policy>, ns: string) {
    && wanted != []
    && (forall p <- wanted :: p.key.namespace == ns)
    && forall i, j :: 0 <= i < j < |wanted| ==> wanted[i].key != wanted[j].key
  }

  /** The namespace holds exactly the wanted policies, with the wanted specs, the main one fixed. */
  ghost predicate Exactly(store: Store, wanted: seq<Policy>, fix: Fix, ns: string)
    requires wanted != []
  {
    && (forall k <- store :: k.namespace == ns ==> Contains(wanted, k))
    && (forall i :: 0 <= i < |wanted| ==>
          wanted[i].key in store && store[wanted[i].key] == if i == 0 then fix(wanted[i].spec) else wanted[i].spec)
  }

  /** One update of a namespace that holds nothing unwanted. */
  lemma UpdatedMeans(store: Store, wanted: seq<Policy>, ns: string, k: nat)
    requires Wanted(wanted, ns) && k < |wanted|
    requires forall key <- store :: key.namespace == ns ==> Contains(wanted, key)
    ensures
      var r := Updated(store, wanted[k], NoFix, wanted);
      && (forall key <- r :: key.namespace == ns ==> Contains(wanted, key))
      && wanted[k].key in r && r[wanted[k].key] == wanted[k].spec
      && forall key: Key :: key != wanted[k].key ==> SameAt(store, r, key)
  {
    assert Contains(wanted, wanted[k].key);
    forall key: Key | key != wanted[k].key ensures SameAt(store, Updated(store, wanted[k], NoFix, wanted), key) {
      UpdatedAt(store, wanted[k], NoFix, wanted, key);
    }
  }

  lemma KeptThrough(store: Store, next: Store, r: Store, wanted: seq<Policy>, ns: string, k: nat)
    requires Wanted(wanted, ns) && k < |wanted|
    requires forall key: Key :: key != wanted[k].key ==> SameAt(store, next, key)
    requires forall i :: 0 <= i <= k && wanted[i].key in next ==> SameAt(next, r, wanted[i].key)
    requires SameElsewhere(next, r, ns)
    ensures forall i :: 0 <= i < k && wanted[i].key in store ==> SameAt(store, r, wanted[i].key)
    ensures SameElsewhere(store, r, ns)
  {
    forall i | 0 <= i < k && wanted[i].key in store ensures SameAt(store, r, wanted[i].key) {
      assert wanted[i].key != wanted[k].key && SameAt(store, next, wanted[i].key);
    }
    assert wanted[k] in wanted;
    forall key: Key | key.namespace != ns ensures SameAt(store, r, key) {
      assert SameAt(store, next, key);
    }
  }

  /** What the remaining updates leave alone and what they set. */
  lemma {:induction false} UpdatedFromMeans(store: Store, wanted: seq<Policy>, ns: string, k: nat)
    requires Wanted(wanted, ns) && k <= |wanted|
    requires forall key <- store :: key.namespace == ns ==> Contains(wanted, key)
    ensures
      var r := UpdatedFrom(store, wanted, k);
      && (forall key <- r :: key.namespace == ns ==> Contains(wanted, key))
      && (forall i :: k <= i < |wanted| ==> wanted[i].key in r && r[wanted[i].key] == wanted[i].spec)
      && (forall i :: 0 <= i < k && wanted[i].key in store ==> SameAt(store, r, wanted[i].key))
      && SameElsewhere(store, r, ns)
    decreases |wanted| - k
  {
    if k == |wanted| {
    } else {
      var next := Updated(store, wanted[k], NoFix, wanted);
      UpdatedMeans(store, wanted, ns, k);
      UpdatedFromMeans(next, wanted, ns, k + 1);
      KeptThrough(store, next, UpdatedFrom(next, wanted, k + 1), wanted, ns, k);
    }
  }

  /** From any store, one successful reconcile leaves the namespace with exactly the wanted policies
      and every other namespace as it was. */
  lemma ReconcileIsExact(store: Store, wanted: seq<Policy>, fix: Fix, ns: string)
    requires Wanted(wanted, ns)
    ensures Exactly(Reconciled(store, wanted, fix), wanted, fix, ns)
    ensures SameElsewhere(store, Reconciled(store, wanted, fix), ns)
  {
    var next := Updated(store, wanted[0], fix, wanted);
    assert Contains(wanted, wanted[0].key);
    UpdatedFromMeans(next, wanted, ns, 1);
  }

  /** Two stores that hold exactly the wanted policies and agree elsewhere are equal. */
  lemma ExactlyIsUnique(a: Store, b: Store, wanted: seq<Policy>, fix: Fix, ns: string)
    requires Wanted(wanted, ns) && Exactly(a, wanted, fix, ns) && Exactly(b, wanted, fix, ns)
    requires SameElsewhere(a, b, ns)
    ensures a == b
  {
    forall key: Key ensures SameAt(a, b, key) {
      if key.namespace == ns && (key in a || key in b) {
        assert Contains(wanted, key);
        var i :| 0 <= i < |wanted| && wanted[i].key == key;
      }
    }
  }

  /** Further reconciles change nothing, so no ingress list ever grows. */
  lemma ReconcileIsIdempotent(store: Store, wanted: seq<Policy>, fix: Fix, ns: string)
    requires Wanted(wanted, ns)
    ensures Reconciled(Reconciled(store, wanted, fix), wanted, fix) == Reconciled(store, wanted, fix)
  {
    var r := Reconciled(store, wanted, fix);
    ReconcileIsExact(store, wanted, fix, ns);
    ReconcileIsExact(r, wanted, fix, ns);
    ExactlyIsUnique(Reconciled(r, wanted, fix), r, wanted, fix, ns);
  }

  /** The policies of a profile, with the main one prepared. */
  ghost function WantedOf(p: Profile, ns: string, template: string -> Spec): seq<Policy> {
    var names := Names(p);
    seq(|names|, i requires 0 <= i < |names| =>
      Policy(Key(ns, names[i]), if i == 0 then Prepared(template(names[i]), ns, names[i]) else template(names[i])))
  }

  /** Whatever the profile of a namespace and the store before, a reconcile leaves it with exactly
      that profile's policies, the main one letting the namespace itself in. */
  lemma ReconcileProfile(store: Store, p: Profile, ns: string, template: string -> Spec, fix: Fix)
    ensures Wanted(WantedOf(p, ns, template), ns)
    ensures Exactly(Reconciled(store, WantedOf(p, ns, template), fix), WantedOf(p, ns, template), fix, ns)
    ensures p != MiddlewareSpace ==> AllowsSelf(WantedOf(p, ns, template)[0].spec, ns)
  {
    NamesAreDistinct(p);
    var wanted := WantedOf(p, ns, template);
    ReconcileIsExact(store, wanted, fix, ns);
    PreparedAllowsSelf(template(Names(p)[0]), ns, Names(p)[0]);
    if p != MiddlewareSpace {
      MainIsNotMiddleware(p);
    }
  }

  lemma MainIsNotMiddleware(p: Profile)
    requires p != MiddlewareSpace
    ensures Names(p)[0] != MIDDLEWARE_NP
  {
    ByLetters("os-network-np", MIDDLEWARE_NP) by { assert "os-network-np"[0] != MIDDLEWARE_NP[0]; }
    ByLetters("user-space-np", MIDDLEWARE_NP) by { assert "user-space-np"[0] != MIDDLEWARE_NP[0]; }
  }
}
