/**
 Bounded parallel work over a list of references: one goroutine for each, a pool of tokens
 that bounds how many work at a time, and a result channel with one place for each reference.
 The image inspection uses five tokens.
 */
module FanOut {
  import opened Wrappers

  datatype Phase = Waiting | Working | Sent | Finished

  /** The goroutines, the tokens taken, and the results sent, each by the number of its sender. */
  datatype Pool = Pool(phases: seq<Phase>, tokens: nat, results: seq<nat>)

  datatype Event = Acquire(i: nat) | Send(i: nat) | Release(i: nat)

  function Start(n: nat): Pool {
    Pool(seq(n, _ => Waiting), 0, [])
  }

  /** What can happen next: an acquire needs a free token, a send a free place. */
  predicate Enabled(cap: nat, p: Pool, e: Event) {
    match e
    case Acquire(i) => i < |p.phases| && p.phases[i] == Waiting && p.tokens < cap
    case Send(i) => i < |p.phases| && p.phases[i] == Working && |p.results| < |p.phases|
    case Release(i) => i < |p.phases| && p.phases[i] == Sent && p.tokens > 0
  }

  function Step(cap: nat, p: Pool, e: Event): Pool {
    if !Enabled(cap, p, e) then p else
    match e
    case Acquire(i) => Pool(p.phases[i := Working], p.tokens + 1, p.results)
    case Send(i) => Pool(p.phases[i := Sent], p.tokens, p.results + [i])
    case Release(i) => Pool(p.phases[i := Finished], p.tokens - 1, p.results)
  }

  function Run(cap: nat, n: nat, es: seq<Event>): Pool {
    if es == [] then Start(n) else Step(cap, Run(cap, n, es[..|es| - 1]), es[|es| - 1])
  }

  // ---------------------------------------------------------------------------------------
  // Invariant

  function Indices(n: nat): (r: set<nat>)
    ensures |r| == n && forall i: nat :: i in r <==> i < n
  {
    if n == 0 then {} else Indices(n - 1) + {n - 1}
  }

  function Holding(p: Pool): set<nat> {
    set i: nat | 0 <= i < |p.phases| && (p.phases[i] == Working || p.phases[i] == Sent)
  }

  function Started(p: Pool): set<nat> {
    set i: nat | 0 <= i < |p.phases| && p.phases[i] != Waiting
  }

  function Reported(p: Pool): set<nat> {
    set i: nat | 0 <= i < |p.phases| && (p.phases[i] == Sent || p.phases[i] == Finished)
  }

  function Done(p: Pool): set<nat> {
    set i: nat | 0 <= i < |p.phases| && p.phases[i] == Finished
  }

  /** Tokens are held by those at work; the results are the reports, each once. */
  ghost predicate PoolOk(cap: nat, n: nat, p: Pool) {
    && |p.phases| == n
    && p.tokens == |Holding(p)| <= cap
    && |p.results| == |Reported(p)|
    && (forall i :: i in p.results <==> i in Reported(p))
    && (forall j, k :: 0 <= j < k < |p.results| ==> p.results[j] != p.results[k])
  }

  lemma AcquireChanges(cap: nat, p: Pool, i: nat)
    requires Enabled(cap, p, Acquire(i))
    ensures
      var q := Step(cap, p, Acquire(i));
      i !in Holding(p) && Holding(q) == Holding(p) + {i} && Reported(q) == Reported(p) && Done(q) == Done(p)
      && i !in Started(p) && Started(q) == Started(p) + {i}
  {
  }

  lemma SendChanges(cap: nat, p: Pool, i: nat)
    requires Enabled(cap, p, Send(i))
    ensures
      var q := Step(cap, p, Send(i));
      i !in Reported(p) && Holding(q) == Holding(p) && Reported(q) == Reported(p) + {i} && Done(q) == Done(p)
      && i in Holding(p) && Started(q) == Started(p)
  {
  }

  lemma ReleaseChanges(cap: nat, p: Pool, i: nat)
    requires Enabled(cap, p, Release(i))
    ensures
      var q := Step(cap, p, Release(i));
      i !in Done(p) && Holding(q) == Holding(p) - {i} && Reported(q) == Reported(p) && Done(q) == Done(p) + {i}
      && i in Holding(p) && Started(q) == Started(p)
  {
  }

  lemma StepKeepsPool(cap: nat, n: nat, p: Pool, e: Event)
    requires PoolOk(cap, n, p)
    ensures PoolOk(cap, n, Step(cap, p, e))
  {
    if Enabled(cap, p, e) {
      match e
      case Acquire(i) => AcquireChanges(cap, p, i);
      case Send(i) => SendChanges(cap, p, i);
      case Release(i) => ReleaseChanges(cap, p, i);
    }
  }

  lemma {:induction false} RunKeepsPool(cap: nat, n: nat, es: seq<Event>)
    ensures PoolOk(cap, n, Run(cap, n, es))
  {
    if es == [] {
      assert Holding(Start(n)) == {} && Reported(Start(n)) == {};
    } else {
      RunKeepsPool(cap, n, es[..|es| - 1]);
      StepKeepsPool(cap, n, Run(cap, n, es[..|es| - 1]), es[|es| - 1]);
    }
  }

  lemma SmallerSet(a: set<nat>, n: nat, i: nat)
    requires a <= Indices(n) && i < n && i !in a
    ensures |a| < n
  {
    assert Indices(n) == a + (Indices(n) - a) && i in Indices(n) - a;
  }

  // ---------------------------------------------------------------------------------------
  // Results

  /** Whatever the schedule, at most `cap` goroutines are at work, and whoever wants to send or to
      give its token back can do so at once. */
  lemma NothingBlocks(cap: nat, n: nat, es: seq<Event>, i: nat)
    requires i < n
    ensures
      var p := Run(cap, n, es);
      && |p.phases| == n && |Holding(p)| <= cap
      && (p.phases[i] == Working ==> Enabled(cap, p, Send(i)))
      && (p.phases[i] == Sent ==> Enabled(cap, p, Release(i)))
  {
    var p := Run(cap, n, es);
    RunKeepsPool(cap, n, es);
    if p.phases[i] == Working {
      SmallerSet(Reported(p), n, i);
    } else if p.phases[i] == Sent {
      assert i in Holding(p);
    }
  }

  /** With at least one token, some step is enabled until every goroutine has finished. */
  lemma NoDeadlock(cap: nat, n: nat, es: seq<Event>)
    requires cap > 0
    ensures (exists e :: Enabled(cap, Run(cap, n, es), e)) <==> Done(Run(cap, n, es)) != Indices(n)
  {
    var p := Run(cap, n, es);
    RunKeepsPool(cap, n, es);
    if Done(p) != Indices(n) {
      var i :| i in Indices(n) && i !in Done(p);
      NothingBlocks(cap, n, es, i);
      if p.phases[i] == Waiting {
        if Holding(p) == {} {
          assert Enabled(cap, p, Acquire(i));
        } else {
          var j :| j in Holding(p);
          NothingBlocks(cap, n, es, j);
          assert Enabled(cap, p, Send(j)) || Enabled(cap, p, Release(j));
        }
      } else {
        assert Enabled(cap, p, Send(i)) || Enabled(cap, p, Release(i));
      }
    } else {
      forall e ensures !Enabled(cap, p, e) {
        assert e.i < n ==> e.i in Indices(n) && e.i in Done(p);
      }
    }
  }

  /** Once all have finished there is exactly one result from each, and no token is left out. */
  lemma OneResultEach(cap: nat, n: nat, es: seq<Event>)
    requires Done(Run(cap, n, es)) == Indices(n)
    ensures
      var p := Run(cap, n, es);
      |p.results| == n && p.tokens == 0 && forall i: nat :: i < n ==> multiset(p.results)[i] == 1
  {
    var p := Run(cap, n, es);
    RunKeepsPool(cap, n, es);
    assert forall i :: i in Indices(n) ==> i in Done(p);
    assert Reported(p) == Indices(n) && Holding(p) == {};
    forall i: nat | i < n ensures multiset(p.results)[i] == 1 {
      OnceInDistinct(p.results, i);
    }
  }

  lemma {:induction false} OnceInDistinct(s: seq<nat>, x: nat)
    requires forall j, k :: 0 <= j < k < |s| ==> s[j] != s[k]
    ensures multiset(s)[x] == if x in s then 1 else 0
  {
    if s == [] {
    } else {
      var front := s[..|s| - 1];
      assert s == front + [s[|s| - 1]];
      OnceInDistinct(front, x);
      assert s[|s| - 1] !in front;
    }
  }

  /** Every step of a run does something. */
  predicate Effective(cap: nat, n: nat, es: seq<Event>) {
    es == [] || (Effective(cap, n, es[..|es| - 1]) && Enabled(cap, Run(cap, n, es[..|es| - 1]), es[|es| - 1]))
  }

  function Progress(p: Pool): nat {
    |Started(p)| + |Reported(p)| + |Done(p)|
  }

  lemma StepCounts(cap: nat, p: Pool, e: Event)
    requires Enabled(cap, p, e)
    ensures Progress(Step(cap, p, e)) == Progress(p) + 1
  {
    match e
    case Acquire(i) => AcquireChanges(cap, p, i);
    case Send(i) => SendChanges(cap, p, i);
    case Release(i) => ReleaseChanges(cap, p, i);
  }

  lemma ProgressBound(p: Pool)
    ensures Progress(p) <= 3 * |p.phases|
    ensures Done(p) == Indices(|p.phases|) ==> Progress(p) == 3 * |p.phases|
  {
    var n := |p.phases|;
    assert Done(p) <= Reported(p) <= Started(p);
    assert Started(p) <= Indices(n);
    if Done(p) == Indices(n) {
      assert Started(p) == Indices(n) && Reported(p) == Indices(n);
    }
    WithinIndices(Started(p), n);
    WithinIndices(Reported(p), n);
    WithinIndices(Done(p), n);
  }

  lemma {:induction false} StepsAreCounted(cap: nat, n: nat, es: seq<Event>)
    requires Effective(cap, n, es)
    ensures |es| == Progress(Run(cap, n, es))
  {
    if es == [] {
      var p := Start(n);
      assert Started(p) == {} && Reported(p) == {} && Done(p) == {};
    } else {
      StepsAreCounted(cap, n, es[..|es| - 1]);
      StepCounts(cap, Run(cap, n, es[..|es| - 1]), es[|es| - 1]);
    }
  }

  /** A run takes at most three steps for each reference, and exactly that many when it is over. */
  lemma StepsAreBounded(cap: nat, n: nat, es: seq<Event>)
    requires Effective(cap, n, es)
    ensures |es| <= 3 * n && (Done(Run(cap, n, es)) == Indices(n) ==> |es| == 3 * n)
  {
    RunKeepsPool(cap, n, es);
    StepsAreCounted(cap, n, es);
    ProgressBound(Run(cap, n, es));
  }

  lemma WithinIndices(a: set<nat>, n: nat)
    requires a <= Indices(n)
    ensures |a| <= n
  {
    assert Indices(n) == a + (Indices(n) - a);
  }

  // ---------------------------------------------------------------------------------------
  // The work of one goroutine, and the collection of the results

  datatype LayerInfo = Present | NotFound(listed: bool) | InfoError

  /** What the calls of one goroutine give. */
  datatype Inspection = Inspection(parsed: bool, manifest: bool, layers: seq<LayerInfo>)

  datatype Outcome = Info | Error

  /** Every path of the goroutine sends exactly one result, an error when any call failed, or a layer
      is neither present nor listed. */
  method Inspect(w: Inspection) returns (sent: seq<Outcome>)
    ensures |sent| == 1
    ensures sent[0] == Error <==>
      !w.parsed || !w.manifest || exists l <- w.layers :: l == InfoError || l == NotFound(false)
  {
    sent := [];
    if !w.parsed {
      return sent + [Error];
    }
    if !w.manifest {
      return sent + [Error];
    }
    for i := 0 to |w.layers|
      invariant sent == [] && forall l <- w.layers[..i] :: l != InfoError && l != NotFound(false)
    {
      assert w.layers[..i + 1] == w.layers[..i] + [w.layers[i]];
      assert w.layers[i] in w.layers;
      match w.layers[i]
      case Present => continue;
      case NotFound(listed) =>
        if !listed {
          return sent + [Error];
        }
      case InfoError => return sent + [Error];
    }
    assert w.layers[..|w.layers|] == w.layers;
    sent := sent + [Info];
  }

  function Errors(rs: seq<(nat, Outcome)>): nat {
    if rs == [] then 0 else Errors(rs[..|rs| - 1]) + if rs[|rs| - 1].1 == Error then 1 else 0
  }

  function Infos(rs: seq<(nat, Outcome)>): seq<nat> {
    if rs == [] then []
    else Infos(rs[..|rs| - 1]) + if rs[|rs| - 1].1 == Info then [rs[|rs| - 1].0] else []
  }

  /** A received info stands behind exactly the infos received before it. */
  lemma {:induction false} InfosInOrder(rs: seq<(nat, Outcome)>, k: nat)
    requires k < |rs| && rs[k].1 == Info
    ensures
      var i := k - Errors(rs[..k]);
      0 <= i < |Infos(rs)| && Infos(rs)[i] == rs[k].0
    decreases |rs|
  {
    var before := rs[..|rs| - 1];
    if k == |before| {
      CountsAdd(before);
    } else {
      assert before[..k] == rs[..k];
      InfosInOrder(before, k);
    }
  }

  lemma {:induction false} CountsAdd(rs: seq<(nat, Outcome)>)
    ensures |Infos(rs)| + Errors(rs) == |rs|
  {
    if rs == [] {
    } else {
      CountsAdd(rs[..|rs| - 1]);
    }
  }

  /** Results are sorted into infos, in the order received, and the first error. */
  method Collect(rs: seq<(nat, Outcome)>) returns (infos: seq<nat>, firstErr: Option<nat>)
    ensures |infos| + Errors(rs) == |rs|
    ensures forall i :: i in infos <==> (i, Info) in rs
    ensures infos == Infos(rs)
    ensures firstErr.None? <==> Errors(rs) == 0
    ensures firstErr.Some? ==> exists k :: 0 <= k < |rs| && rs[k] == (firstErr.value, Error) && Errors(rs[..k]) == 0
  {
    infos, firstErr := [], None;
    for k := 0 to |rs|
      invariant |infos| + Errors(rs[..k]) == k
      invariant forall i :: i in infos <==> (i, Info) in rs[..k]
      invariant infos == Infos(rs[..k])
      invariant firstErr.None? <==> Errors(rs[..k]) == 0
      invariant firstErr.Some? ==> exists j :: 0 <= j < k && rs[j] == (firstErr.value, Error) && Errors(rs[..j]) == 0
    {
      assert rs[..k + 1] == rs[..k] + [rs[k]];
      if rs[k].1 == Error {
        if firstErr.None? {
          firstErr := Some(rs[k].0);
        }
      } else {
        infos := infos + [rs[k].0];
      }
    }
    assert rs[..|rs|] == rs;
  }
}
