/** Choosing the two applications with the highest load to suspend. */
module TopLoad {
  import opened Wrappers

  datatype MetricName = MemoryUsage | CpuUsage

  /** One metric: the namespaces by falling load. */
  datatype Metric = Metric(name: MetricName, sorted: seq<string>)

  /** What the caller knows: the applications by namespace, and the monitors switched off. */
  datatype Setup = Setup(applications: set<string>, cpuDisabled: bool, memoryDisabled: bool)

  const BUILTIN_PREFIX := "user-space-"

  predicate Eligible(st: Setup, ns: string) {
    ns in st.applications && !(BUILTIN_PREFIX <= ns)
  }

  predicate Enabled(st: Setup, m: Metric) {
    !(m.name.CpuUsage? && st.cpuDisabled) && !(m.name.MemoryUsage? && st.memoryDisabled)
  }

  function EligibleOf(st: Setup, s: seq<string>): seq<string> {
    if s == [] then []
    else if Eligible(st, s[0]) then [s[0]] + EligibleOf(st, s[1..])
    else EligibleOf(st, s[1..])
  }

  /** All eligible entries of the enabled metrics, one list after the other. */
  function Candidates(st: Setup, ms: seq<Metric>): seq<string> {
    if ms == [] then [] else
    (if Enabled(st, ms[0]) then EligibleOf(st, ms[0].sorted) else []) + Candidates(st, ms[1..])
  }

  // ---------------------------------------------------------------------------------------
  // What should be chosen

  /** The chosen set, completed to two with the first entries of s that it lacks. */
  function FirstTwo(chosen: set<string>, s: seq<string>): set<string>
    decreases |s|
  {
    if |chosen| >= 2 || s == [] then chosen else FirstTwo(chosen + {s[0]}, s[1..])
  }

  /** x stands in s before any y. */
  ghost predicate Before(s: seq<string>, x: string, y: string) {
    exists i :: 0 <= i < |s| && s[i] == x && y !in s[..i]
  }

  ghost predicate IsFirstTwo(r: set<string>, s: seq<string>) {
    && |r| <= 2
    && (forall x <- r :: x in s)
    && (|r| < 2 ==> forall y <- s :: y in r)
    && (forall x <- r, y <- s :: y !in r ==> Before(s, x, y))
  }

  lemma {:induction false} FirstTwoMeans(s: seq<string>, k: nat, chosen: set<string>)
    requires k <= |s| && |chosen| <= 2
    requires forall x <- chosen :: x in s[..k]
    requires |chosen| < 2 ==> forall y <- s[..k] :: y in chosen
    requires forall x <- chosen, y <- s :: y !in chosen ==> Before(s, x, y)
    ensures IsFirstTwo(FirstTwo(chosen, s[k..]), s)
    decreases |s| - k
  {
    if |chosen| < 2 && k < |s| {
      var next := chosen + {s[k]};
      assert s[..k + 1] == s[..k] + [s[k]] && s[k..][1..] == s[k + 1..];
      forall y | y in s && y !in next ensures Before(s, s[k], y) {
        assert y !in s[..k];
      }
      FirstTwoMeans(s, k + 1, next);
    } else {
      assert k == |s| ==> s[..k] == s;
    }
  }

  // ---------------------------------------------------------------------------------------
  // What is chosen

  /** What a list adds: at most its first two eligible entries, and no more once there are two. */
  function Pick(chosen: set<string>, e: seq<string>): set<string> {
    if e == [] then chosen else
    var one := chosen + {e[0]};
    if |one| == 2 || |e| == 1 then one else one + {e[1]}
  }

  function PickAll(st: Setup, chosen: set<string>, ms: seq<Metric>): set<string>
    decreases |ms|
  {
    if ms == [] || |chosen| == 2 then chosen
    else PickAll(st, if Enabled(st, ms[0]) then Pick(chosen, EligibleOf(st, ms[0].sorted)) else chosen, ms[1..])
  }

  method PickFrom(st: Setup, sorted: seq<string>, chosen: set<string>) returns (namespaces: set<string>)
    requires |chosen| < 2
    ensures namespaces == Pick(chosen, EligibleOf(st, sorted))
  {
    namespaces := chosen;
    var top := 0;
    ghost var e := EligibleOf(st, sorted);
    for i := 0 to |sorted|
      invariant 0 <= top <= |e| && top <= 1 && EligibleOf(st, sorted[i..]) == e[top..]
      invariant namespaces == if top == 0 then chosen else chosen + {e[0]}
      invariant |namespaces| < 2
    {
      var s := sorted[i];
      assert sorted[i..][0] == s && sorted[i..][1..] == sorted[i + 1..];
      if Eligible(st, s) {
        assert e[top..][0] == s && e[top..][1..] == e[top + 1..];
        namespaces := namespaces + {s};
        if |namespaces| == 2 {
          return;
        }
        top := top + 1;
      }
      if top == 2 {
        break;
      }
    }
  }

  /** The loop over the metrics, with the early return once two namespaces are found. */
  method GetTopLoadApps(st: Setup, metrics: seq<Metric>) returns (namespaces: set<string>)
    ensures namespaces == PickAll(st, {}, metrics)
  {
    namespaces := {};
    for i := 0 to |metrics|
      invariant PickAll(st, {}, metrics) == PickAll(st, namespaces, metrics[i..]) && |namespaces| < 2
    {
      assert metrics[i..][0] == metrics[i] && metrics[i..][1..] == metrics[i + 1..];
      if metrics[i].name.CpuUsage? && st.cpuDisabled {
        continue;
      }
      if metrics[i].name.MemoryUsage? && st.memoryDisabled {
        continue;
      }
      namespaces := PickFrom(st, metrics[i].sorted, namespaces);
      if |namespaces| == 2 {
        return;
      }
    }
  }

  // ---------------------------------------------------------------------------------------
  // When the counter does no harm

  /** The two entries a list may give are different. */
  predicate TopDiffers(e: seq<string>) {
    |e| >= 2 ==> e[0] != e[1]
  }

  predicate Distinct(s: seq<string>) {
    forall i, j :: 0 <= i < j < |s| ==> s[i] != s[j]
  }

  /** Sorted lists without duplicates have it. */
  lemma {:induction false} DistinctEligible(st: Setup, s: seq<string>)
    requires Distinct(s)
    ensures Distinct(EligibleOf(st, s)) && forall x <- EligibleOf(st, s) :: x in s
  {
    if s == [] {
    } else {
      DistinctEligible(st, s[1..]);
      assert s[0] !in s[1..];
    }
  }

  lemma Singleton(a: set<string>, x: string)
    requires x in a && |a| < 2
    ensures a == {x}
  {
    assert a == {x} + (a - {x});
  }

  lemma {:induction false} AllSame(e: seq<string>, x: string)
    requires forall y <- e :: y == x
    ensures FirstTwo({x}, e) == {x}
  {
    if e == [] {
    } else {
      TailIsIn(e);
      assert e[0] in e && {x} + {e[0]} == {x};
      AllSame(e[1..], x);
    }
  }

  lemma PickIsFirstTwo(chosen: set<string>, e: seq<string>)
    requires TopDiffers(e) && |chosen| < 2
    ensures Pick(chosen, e) == FirstTwo(chosen, e) && |Pick(chosen, e)| <= 2
  {
    if |e| >= 2 {
      var one := chosen + {e[0]};
      var rest := e[1..];
      assert FirstTwo(chosen, e) == FirstTwo(one, rest);
      if |one| < 2 {
        Singleton(one, e[0]);
        assert rest[0] == e[1] && |one + {e[1]}| == 2;
        assert FirstTwo(one, rest) == FirstTwo(one + {rest[0]}, rest[1..]);
      }
    }
  }

  lemma TailIsIn(e: seq<string>)
    requires e != []
    ensures forall y <- e[1..] :: y in e
  {
    forall i | 0 <= i < |e[1..]| ensures e[1..][i] in e {
      assert e[1..][i] == e[i + 1];
    }
  }

  lemma RepeatedTop(e: seq<string>)
    requires |e| >= 2 && e[0] == e[1]
    ensures Pick({}, e) == {e[0]}
    ensures FirstTwo({}, e) == {e[0]} <==> forall x <- e :: x == e[0]
  {
    assert {} + {e[0]} == {e[0]} && {e[0]} + {e[1]} == {e[0]};
    if forall x <- e :: x == e[0] {
      TailIsIn(e);
      AllSame(e[1..], e[0]);
    } else {
      FirstTwoMeans(e, 0, {});
      assert e[0..] == e;
    }
  }

  /** For one list the counter does no harm exactly when it does not see the same namespace twice
      while another one waits behind it. */
  lemma PickIsFirstTwoExactly(e: seq<string>)
    ensures Pick({}, e) == FirstTwo({}, e) <==> TopDiffers(e) || forall x <- e :: x == e[0]
  {
    if TopDiffers(e) {
      PickIsFirstTwo({}, e);
    } else {
      RepeatedTop(e);
    }
  }

  lemma {:induction false} FirstTwoOfConcat(chosen: set<string>, a: seq<string>, b: seq<string>)
    ensures FirstTwo(chosen, a + b) == FirstTwo(FirstTwo(chosen, a), b)
    decreases |a|
  {
    if a == [] {
      assert a + b == b;
    } else if |chosen| < 2 {
      assert (a + b)[1..] == a[1..] + b;
      FirstTwoOfConcat(chosen + {a[0]}, a[1..], b);
    }
  }

  lemma {:induction false} PickAllIsFirstTwo(st: Setup, chosen: set<string>, ms: seq<Metric>)
    requires forall m <- ms :: TopDiffers(EligibleOf(st, m.sorted))
    requires |chosen| <= 2
    ensures PickAll(st, chosen, ms) == FirstTwo(chosen, Candidates(st, ms))
    decreases |ms|
  {
    if ms != [] && |chosen| < 2 {
      var e := if Enabled(st, ms[0]) then EligibleOf(st, ms[0].sorted) else [];
      PickIsFirstTwo(chosen, e);
      PickAllIsFirstTwo(st, Pick(chosen, e), ms[1..]);
      FirstTwoOfConcat(chosen, e, Candidates(st, ms[1..]));
    }
  }

  /** With duplicate-free lists the chosen namespaces are exactly the first two distinct eligible
      ones of the enabled metrics' lists, fewer only if there are fewer. */
  lemma ChosenAreFirstTwo(st: Setup, ms: seq<Metric>)
    requires forall m <- ms :: Distinct(m.sorted)
    ensures IsFirstTwo(PickAll(st, {}, ms), Candidates(st, ms))
  {
    forall m | m in ms ensures TopDiffers(EligibleOf(st, m.sorted)) {
      DistinctEligible(st, m.sorted);
    }
    PickAllIsFirstTwo(st, {}, ms);
    var s := Candidates(st, ms);
    FirstTwoMeans(s, 0, {});
    assert s[0..] == s;
  }

  // ---------------------------------------------------------------------------------------
  // When the counter does harm

  /** What the counter lets through: the first two eligible entries of every enabled list. */
  function Visible(st: Setup, ms: seq<Metric>): seq<string> {
    if ms == [] then [] else
    var e := EligibleOf(st, ms[0].sorted);
    (if !Enabled(st, ms[0]) then [] else if |e| <= 2 then e else e[..2]) + Visible(st, ms[1..])
  }

  /** The first entry other than x. */
  function FirstOther(s: seq<string>, x: string): Option<string> {
    if s == [] then None else if s[0] != x then Some(s[0]) else FirstOther(s[1..], x)
  }

  function WithOther(x: string, y: Option<string>): set<string> {
    if y.Some? then {x, y.value} else {x}
  }

  lemma {:induction false} FirstOtherDiffers(s: seq<string>, x: string)
    ensures FirstOther(s, x).Some? ==> FirstOther(s, x).value != x
    ensures FirstTwo({x}, s) == WithOther(x, FirstOther(s, x))
    decreases |s|
  {
    if s == [] {
    } else {
      FirstOtherDiffers(s[1..], x);
      if s[0] == x {
        assert {x} + {s[0]} == {x};
      } else {
        assert {x} + {s[0]} == {x, s[0]};
      }
    }
  }

  lemma FirstTwoIs(s: seq<string>)
    requires s != []
    ensures FirstTwo({}, s) == WithOther(s[0], FirstOther(s, s[0]))
  {
    assert {} + {s[0]} == {s[0]};
    FirstOtherDiffers(s[1..], s[0]);
  }

  lemma PickIsFirstTwoOfTop(chosen: set<string>, e: seq<string>)
    requires |chosen| < 2
    ensures Pick(chosen, e) == FirstTwo(chosen, if |e| <= 2 then e else e[..2]) && |Pick(chosen, e)| <= 2
  {
    if e != [] {
      var top := if |e| <= 2 then e else e[..2];
      var one := chosen + {e[0]};
      assert FirstTwo(chosen, top) == FirstTwo(one, top[1..]);
      if |one| < 2 && |e| >= 2 {
        Singleton(one, e[0]);
        assert top[1..] == [e[1]];
        assert FirstTwo(one, [e[1]]) == FirstTwo(one + {e[1]}, [e[1]][1..]) == one + {e[1]};
        assert one + {e[1]} == {e[0], e[1]};
      }
    }
  }

  /** The loops choose the first two distinct of what the counter lets through. */
  lemma {:induction false} PickAllIsFirstTwoOfVisible(st: Setup, chosen: set<string>, ms: seq<Metric>)
    requires |chosen| <= 2
    ensures PickAll(st, chosen, ms) == FirstTwo(chosen, Visible(st, ms))
    decreases |ms|
  {
    if ms != [] && |chosen| < 2 {
      var e := EligibleOf(st, ms[0].sorted);
      var top := if !Enabled(st, ms[0]) then [] else if |e| <= 2 then e else e[..2];
      PickIsFirstTwoOfTop(chosen, e);
      var next := if Enabled(st, ms[0]) then Pick(chosen, e) else chosen;
      assert next == FirstTwo(chosen, top);
      PickAllIsFirstTwoOfVisible(st, next, ms[1..]);
      FirstTwoOfConcat(chosen, top, Visible(st, ms[1..]));
    }
  }

  lemma {:induction false} SameFirst(st: Setup, ms: seq<Metric>)
    ensures Visible(st, ms) == [] <==> Candidates(st, ms) == []
    ensures Visible(st, ms) != [] ==> Visible(st, ms)[0] == Candidates(st, ms)[0]
  {
    if ms == [] {
    } else {
      SameFirst(st, ms[1..]);
    }
  }

  /** Over all metric lists: the loops choose the first two distinct eligible namespaces if and only
      if the second namespace is still the first other one among the entries the counter lets
      through. */
  lemma ChosenAreFirstTwoExactly(st: Setup, ms: seq<Metric>)
    ensures
      var all, seen := Candidates(st, ms), Visible(st, ms);
      PickAll(st, {}, ms) == FirstTwo({}, all) <==>
      (all != [] ==> FirstOther(seen, all[0]) == FirstOther(all, all[0]))
  {
    var all, seen := Candidates(st, ms), Visible(st, ms);
    PickAllIsFirstTwoOfVisible(st, {}, ms);
    SameFirst(st, ms);
    if all != [] {
      FirstTwoIs(all);
      FirstTwoIs(seen);
      FirstOtherDiffers(all, all[0]);
      FirstOtherDiffers(seen, all[0]);
      WithOtherInjective(all[0], FirstOther(seen, all[0]), FirstOther(all, all[0]));
    }
  }

  lemma WithOtherInjective(x: string, y: Option<string>, z: Option<string>)
    requires (y.Some? ==> y.value != x) && (z.Some? ==> z.value != x)
    ensures WithOther(x, y) == WithOther(x, z) <==> y == z
  {
    if WithOther(x, y) == WithOther(x, z) {
      assert y.Some? ==> y.value in WithOther(x, z);
      assert z.Some? ==> z.value in WithOther(x, y);
    }
  }

  lemma {:induction false} AllEligible(st: Setup, s: seq<string>)
    requires forall x <- s :: Eligible(st, x)
    ensures EligibleOf(st, s) == s
  {
    if s == [] {
    } else {
      TailIsIn(s);
      assert s[0] in s;
      AllEligible(st, s[1..]);
    }
  }

  lemma RepeatedThen(x: string, y: string, rest: seq<string>)
    requires x != y
    ensures FirstTwo({}, [x, x, y] + rest) == {x, y}
  {
    var s := [x, x, y] + rest;
    FirstTwoIs(s);
    assert s[1..][1..][0] == y;
    assert FirstOther(s, x) == FirstOther(s[1..], x) == FirstOther(s[1..][1..], x) == Some(y);
  }

  lemma TwoMetrics(st: Setup, m0: Metric, m1: Metric, e0: seq<string>, e1: seq<string>)
    requires Enabled(st, m0) && Enabled(st, m1)
    requires EligibleOf(st, m0.sorted) == e0 && EligibleOf(st, m1.sorted) == e1 && |e0| > 2 && |e1| <= 2
    ensures Candidates(st, [m0, m1]) == e0 + e1
    ensures Visible(st, [m0, m1]) == e0[..2] + e1
  {
    assert [m0, m1][1..] == [m1] && [m1][1..] == [];
    assert Candidates(st, [m1]) == e1 + [] && Visible(st, [m1]) == e1 + [];
  }

  /** Two metrics, of which the first lists the busiest namespace twice: the second busiest is
      passed over for one that only the other metric shows. */
  lemma CounterPassesOver(a: string, b: string, c: string)
    requires a != b && a != c && b != c
    requires forall n <- [a, b, c] :: !(BUILTIN_PREFIX <= n)
    ensures
      var st := Setup({a, b, c}, false, false);
      var ms := [Metric(MemoryUsage, [a, a, b]), Metric(CpuUsage, [c])];
      PickAll(st, {}, ms) == {a, c} && FirstTwo({}, Candidates(st, ms)) == {a, b}
  {
    var st := Setup({a, b, c}, false, false);
    var m0, m1 := Metric(MemoryUsage, [a, a, b]), Metric(CpuUsage, [c]);
    assert a in [a, b, c] && b in [a, b, c] && c in [a, b, c];
    AllEligible(st, [a, a, b]);
    AllEligible(st, [c]);
    TwoMetrics(st, m0, m1, [a, a, b], [c]);
    assert [a, a, b][..2] + [c] == [a, a, c] + [];
    PickAllIsFirstTwoOfVisible(st, {}, [m0, m1]);
    RepeatedThen(a, c, []);
    RepeatedThen(a, b, [c]);
  }

  // ---------------------------------------------------------------------------------------
  // Who may be chosen

  lemma {:induction false} EligibleOfMeans(st: Setup, s: seq<string>, x: string)
    ensures x in EligibleOf(st, s) <==> x in s && x in st.applications && !("user-space-" <= x)
  {
    if s == [] {
    } else {
      EligibleOfMeans(st, s[1..], x);
      assert s == [s[0]] + s[1..];
    }
  }

  /** The metric is not switched off. */
  predicate Monitored(st: Setup, m: Metric) {
    match m.name
    case CpuUsage => !st.cpuDisabled
    case MemoryUsage => !st.memoryDisabled
  }

  /** The candidates are exactly the namespaces of known applications, other than the built-in ones,
      in the lists of metrics that are not switched off. */
  lemma {:induction false} CandidatesMeans(st: Setup, ms: seq<Metric>, x: string)
    ensures x in Candidates(st, ms) <==>
      && x in st.applications && !("user-space-" <= x)
      && exists m <- ms :: Monitored(st, m) && x in m.sorted
  {
    if ms == [] {
    } else {
      CandidatesMeans(st, ms[1..], x);
      EligibleOfMeans(st, ms[0].sorted, x);
      assert ms == [ms[0]] + ms[1..];
    }
  }

  /** A metric that is switched off plays no part, whatever its list. */
  lemma SwitchedOffIsIgnored(st: Setup, a: seq<Metric>, m: Metric, b: seq<Metric>)
    requires !Monitored(st, m)
    ensures PickAll(st, {}, a + [m] + b) == PickAll(st, {}, a + b)
  {
    PickAllIsFirstTwoOfVisible(st, {}, a + [m] + b);
    PickAllIsFirstTwoOfVisible(st, {}, a + b);
    VisibleOfConcat(st, a + [m], b);
    VisibleOfConcat(st, a, [m]);
    VisibleOfConcat(st, a, b);
    assert [m][1..] == [] && Visible(st, [m]) == [] && Visible(st, a) + [] == Visible(st, a);
  }

  lemma {:induction false} VisibleOfConcat(st: Setup, a: seq<Metric>, b: seq<Metric>)
    ensures Visible(st, a + b) == Visible(st, a) + Visible(st, b)
  {
    if a == [] {
      assert a + b == b;
    } else {
      assert (a + b)[1..] == a[1..] + b;
      VisibleOfConcat(st, a[1..], b);
    }
  }
}
