/** All nodes writing into one ImageManager, in any order and with cached reads. */
module ImageProtocol {
  import opened ImageStatus

  /** The stored object, and the pulls that have ended. */
  datatype Cluster = Cluster(im: Image, ended: set<(string, string)>)

  const START := Cluster(Image(Fresh, map[]), {})

  datatype Event =
    | Progress(node: string, ref: string, offset: int)
    | Pulled(node: string, ref: string)
    | PullEnds(node: string, ref: string)
    | Complete(node: string, version: nat)
    | SetState(state: ImState)

  /** The fixed facts of a run: the nodes and images, and the size of each pulled image. */
  datatype Setup = Setup(sp: Spec, size: (string, string) -> nat)

  ghost predicate PullsEnded(st: Setup, c: Cluster, node: string) {
    forall r <- st.sp.refs :: (node, r) in c.ended
  }

  /** `read` is the version a completing node finds in its cache. */
  ghost function Step(st: Setup, c: Cluster, read: Image, e: Event): Cluster {
    match e
    case Progress(n, r, offset) =>
      if (n, r) in c.ended then c
      else c.(im := c.im.(cond := ProgressWrite(c.im.cond, n, r, offset, st.size(n, r))))
    case Pulled(n, r) =>
      if (n, r) in c.ended then c
      else Cluster(c.im.(cond := Put(c.im.cond, n, r, PULLED)), c.ended + {(n, r)})
    case PullEnds(n, r) => c.(ended := c.ended + {(n, r)})
    case Complete(n, _) =>
      if PullsEnded(st, c, n) then c.(im := CompleteWrite(st.sp, n, read, c.im)) else c
    case SetState(s) => if s.Completed? then c else c.(im := c.im.(state := s))
  }

  function Version(e: Event, n: nat): nat {
    if e.Complete? && e.version < n then e.version else n
  }

  ghost function Run(st: Setup, es: seq<Event>): Cluster
    decreases |es|
  {
    if es == [] then START else
    var before, e := es[..|es| - 1], es[|es| - 1];
    Step(st, Run(st, before), Run(st, before[..Version(e, |before|)]).im, e)
  }

  // ---------------------------------------------------------------------------------------
  // What every run keeps

  /** Offsets stay within totals, and a pull that has not ended only ever stored its own size. */
  ghost predicate CondOk(st: Setup, c: Cluster, n: string, r: string)
    requires Has(c.im.cond, n, r)
  {
    var v := c.im.cond[n][r];
    0 <= v.offset <= v.total && ((n, r) !in c.ended ==> v.total == st.size(n, r))
  }

  predicate Equal(c: Conditions, n: string, r: string) {
    Has(c, n, r) && c[n][r].offset == c[n][r].total
  }

  lemma StepKeepsCond(st: Setup, c: Cluster, read: Image, e: Event, n: string, r: string)
    requires Has(c.im.cond, n, r) ==> CondOk(st, c, n, r)
    ensures Has(Step(st, c, read, e).im.cond, n, r) ==> CondOk(st, Step(st, c, read, e), n, r)
    ensures (Has(c.im.cond, n, r) ==> CondOk(st, c, n, r)) && Equal(c.im.cond, n, r) ==>
      Equal(Step(st, c, read, e).im.cond, n, r)
  {
  }

  lemma {:induction false} RunKeepsCond(st: Setup, es: seq<Event>, n: string, r: string)
    ensures Has(Run(st, es).im.cond, n, r) ==> CondOk(st, Run(st, es), n, r)
    decreases |es|
  {
    if es == [] {
    } else {
      var before, e := es[..|es| - 1], es[|es| - 1];
      RunKeepsCond(st, before, n, r);
      StepKeepsCond(st, Run(st, before), Run(st, before[..Version(e, |before|)]).im, e, n, r);
    }
  }

  /** Equality of offset and total is stable: it holds in every later version. */
  lemma {:induction false} EqualIsStable(st: Setup, es: seq<Event>, k: nat, n: string, r: string)
    requires k <= |es| && Equal(Run(st, es[..k]).im.cond, n, r)
    ensures Equal(Run(st, es).im.cond, n, r)
    decreases |es|
  {
    if k == |es| {
      assert es[..k] == es;
    } else {
      var before, e := es[..|es| - 1], es[|es| - 1];
      assert before[..k] == es[..k];
      EqualIsStable(st, before, k, n, r);
      RunKeepsCond(st, before, n, r);
      StepKeepsCond(st, Run(st, before), Run(st, before[..Version(e, |before|)]).im, e, n, r);
    }
  }

  /** A merge patch computed from an old version makes an entry equal if the patched old version
      has it equal and equal entries of the old version still are. */
  lemma MergeEqual(sp: Spec, node: string, read: Conditions, now: Conditions, n: string, r: string)
    requires Equal(Merge(read, node, Fill(sp, node, read)), n, r)
    requires Equal(read, n, r) ==> Equal(now, n, r)
    ensures Equal(Merge(now, node, Fill(sp, node, read)), n, r)
  {
  }

  lemma MergeNode(sp: Spec, node: string, read: Conditions, now: Conditions, n: string)
    requires n in Merge(read, node, Fill(sp, node, read)) && (n in read ==> n in now)
    ensures n in Merge(now, node, Fill(sp, node, read))
  {
  }

  /** A completing node that finds everything equal in the version it read, with its own missing
      images filled in, finds it equal in the stored object too. */
  lemma CompleteIsSafe(st: Setup, before: seq<Event>, k: nat, node: string)
    requires k <= |before|
    ensures
      var read, now := Run(st, before[..k]).im.cond, Run(st, before).im.cond;
      AllCompleted(st.sp, Merge(read, node, Fill(st.sp, node, read))) ==>
      AllCompleted(st.sp, Merge(now, node, Fill(st.sp, node, read)))
  {
    var read, now := Run(st, before[..k]).im.cond, Run(st, before).im.cond;
    var copy, g := Merge(read, node, Fill(st.sp, node, read)), Merge(now, node, Fill(st.sp, node, read));
    if AllCompleted(st.sp, copy) {
      forall n | n in st.sp.nodes ensures n in g && forall r <- st.sp.refs :: Equal(g, n, r) {
        if n in read {
          NodeStays(st, before, k, n);
        }
        MergeNode(st.sp, node, read, now, n);
        forall r | r in st.sp.refs ensures Equal(g, n, r) {
          assert Equal(copy, n, r);
          if Equal(read, n, r) {
            EqualIsStable(st, before, k, n, r);
          }
          MergeEqual(st.sp, node, read, now, n, r);
        }
      }
    }
  }

  lemma {:induction false} NodeStays(st: Setup, es: seq<Event>, k: nat, n: string)
    requires k <= |es| && n in Run(st, es[..k]).im.cond
    ensures n in Run(st, es).im.cond
    decreases |es|
  {
    if k == |es| {
      assert es[..k] == es;
    } else {
      assert es[..|es| - 1][..k] == es[..k];
      NodeStays(st, es[..|es| - 1], k, n);
    }
  }

  lemma AllCompletedIsStable(st: Setup, es: seq<Event>, k: nat)
    requires k <= |es| && AllCompleted(st.sp, Run(st, es[..k]).im.cond)
    ensures AllCompleted(st.sp, Run(st, es).im.cond)
  {
    forall n | n in st.sp.nodes
      ensures n in Run(st, es).im.cond && forall r <- st.sp.refs :: Equal(Run(st, es).im.cond, n, r)
    {
      NodeStays(st, es, k, n);
      forall r | r in st.sp.refs ensures Equal(Run(st, es).im.cond, n, r) {
        assert Equal(Run(st, es[..k]).im.cond, n, r);
        EqualIsStable(st, es, k, n, r);
      }
    }
  }

  /** The step that sets completed leaves everything equal. */
  lemma CompletingStep(st: Setup, before: seq<Event>, e: Event)
    requires Run(st, before).im.state != Completed && Run(st, before + [e]).im.state == Completed
    ensures AllCompleted(st.sp, Run(st, before + [e]).im.cond)
  {
    assert (before + [e])[..|before|] == before;
    CompleteIsSafe(st, before, Version(e, |before|), if e.Complete? then e.node else "");
  }

  /** Under every interleaving and with any cached reads, a completed ImageManager has offset equal
      to total for every image on every node. */
  lemma {:induction false} CompletedMeansAllEqual(st: Setup, es: seq<Event>)
    requires Run(st, es).im.state == Completed
    ensures AllCompleted(st.sp, Run(st, es).im.cond)
    decreases |es|
  {
    var before, e := es[..|es| - 1], es[|es| - 1];
    assert es == before + [e];
    if Run(st, before).im.state == Completed {
      CompletedMeansAllEqual(st, before);
      AllCompletedIsStable(st, es, |before|);
    } else {
      CompletingStep(st, before, e);
    }
  }

  /** Without that discipline it fails: a further progress write breaks an equal entry exactly when
      its image is larger than the stored total and not complete at its new offset. */
  lemma ProgressBreaksEqualExactly(c: Conditions, n: string, r: string, offset: int, size: int)
    requires Equal(c, n, r)
    ensures !Equal(ProgressWrite(c, n, r, offset, size), n, r) <==> c[n][r].offset < offset < size
  {
  }

  /** A report of a pull that has not ended is stored exactly when it is more than what is stored, and
      not more than the image; no report changes anything else. */
  lemma ProgressStores(st: Setup, c: Cluster, read: Image, node: string, ref: string, offset: int, n: string, r: string)
    ensures
      var now := Step(st, c, read, Progress(node, ref, offset));
      var stored := if Has(c.im.cond, node, ref) then c.im.cond[node][ref].offset else 0;
      && now.ended == c.ended && now.im.state == c.im.state
      && if n == node && r == ref && (n, r) !in c.ended && stored < offset <= st.size(n, r)
         then Has(now.im.cond, n, r) && now.im.cond[n][r] == Cond(offset, st.size(n, r))
         else (Has(now.im.cond, n, r) <==> Has(c.im.cond, n, r))
              && (Has(c.im.cond, n, r) ==> now.im.cond[n][r] == c.im.cond[n][r])
  {
  }

  /** An image that needs no pull gets an equal entry, and counts as ended; nothing else changes. */
  lemma PulledStores(st: Setup, c: Cluster, read: Image, node: string, ref: string, n: string, r: string)
    requires (node, ref) !in c.ended
    ensures
      var now := Step(st, c, read, Pulled(node, ref));
      && now.ended == c.ended + {(node, ref)} && now.im.state == c.im.state
      && if n == node && r == ref then Equal(now.im.cond, n, r)
         else (Has(now.im.cond, n, r) <==> Has(c.im.cond, n, r))
              && (Has(c.im.cond, n, r) ==> now.im.cond[n][r] == c.im.cond[n][r])
  {
  }

  // ---------------------------------------------------------------------------------------
  // When completed is set

  /** In the version read, everything is equal except what the node itself lacks and fills in. */
  ghost predicate EqualOnceFilled(sp: Spec, node: string, read: Conditions) {
    forall n <- sp.nodes ::
      && (n in read || (n == node && sp.refs != []))
      && forall r <- sp.refs ::
           (Has(read, n, r) && read[n][r].offset == read[n][r].total) || (n == node && !Has(read, n, r))
  }

  /** A node whose pulls have ended sets completed if and only if everything is equal in the version
      it read, once it has filled in its own missing images, and that version was not completed;
      otherwise the state stays as it is. */
  lemma CompletesExactly(st: Setup, c: Cluster, read: Image, node: string, version: nat)
    requires PullsEnded(st, c, node)
    ensures
      Step(st, c, read, Complete(node, version)).im.state ==
      if EqualOnceFilled(st.sp, node, read.cond) && read.state != Completed then Completed else c.im.state
  {
    FillMeans(st.sp, node, read.cond);
  }

  lemma FillMeans(sp: Spec, node: string, read: Conditions)
    ensures AllCompleted(sp, Merge(read, node, Fill(sp, node, read))) <==> EqualOnceFilled(sp, node, read)
  {
    var copy := Merge(read, node, Fill(sp, node, read));
    forall n | n in sp.nodes
      ensures n in copy <==> n in read || (n == node && sp.refs != [])
      ensures forall r <- sp.refs ::
        Equal(copy, n, r) <==>
        (Has(read, n, r) && read[n][r].offset == read[n][r].total) || (n == node && !Has(read, n, r))
    {
      if sp.refs != [] && n == node && n !in read {
        assert sp.refs[0] in Fill(sp, node, read);
      }
    }
  }

  /** What a completing node stores: an equal entry for each listed image it found missing, and
      nothing else. */
  lemma CompleteStores(st: Setup, c: Cluster, read: Image, node: string, version: nat, n: string, r: string)
    requires PullsEnded(st, c, node)
    ensures
      var now := Step(st, c, read, Complete(node, version)).im.cond;
      if n == node && n in st.sp.nodes && r in st.sp.refs && !Has(read.cond, n, r)
      then Has(now, n, r) && now[n][r].offset == now[n][r].total
      else (Has(now, n, r) <==> Has(c.im.cond, n, r)) && (Has(now, n, r) ==> now[n][r] == c.im.cond[n][r])
  {
    MergeAt(c.im.cond, node, Fill(st.sp, node, read.cond), n, r);
  }

  lemma MergeAt(c: Conditions, node: string, patch: map<string, Cond>, n: string, r: string)
    ensures
      var m := Merge(c, node, patch);
      && (Has(m, n, r) <==> Has(c, n, r) || (n == node && r in patch))
      && (Has(m, n, r) ==> m[n][r] == if n == node && r in patch then patch[r] else c[n][r])
  {
    if n == node && patch != map[] {
      assert Merge(c, node, patch)[n] == NodeOf(c, n) + patch;
    }
  }

  // ---------------------------------------------------------------------------------------
  // Completed is set in the end

  /** All pulls have ended, and every entry stored for a listed image is equal. */
  ghost predicate Settled(st: Setup, c: Cluster) {
    forall n <- st.sp.nodes ::
      PullsEnded(st, c, n) && forall r <- st.sp.refs :: Has(c.im.cond, n, r) ==> Equal(c.im.cond, n, r)
  }

  /** A step of node n that completes with a current read, at this position or later. */
  predicate CompletesAt(es: seq<Event>, j: nat, n: string)
    requires j < |es|
  {
    es[j].Complete? && es[j].node == n && es[j].version >= j
  }

  ghost predicate CompletedSince(es: seq<Event>, k: nat, n: string) {
    exists j :: k <= j < |es| && CompletesAt(es, j, n)
  }

  predicate NoSetState(es: seq<Event>, k: nat) {
    forall j :: k <= j < |es| ==> !es[j].SetState?
  }

  ghost predicate NodeEqual(st: Setup, c: Cluster, n: string) {
    forall r <- st.sp.refs :: Equal(c.im.cond, n, r)
  }

  lemma SettledStays(st: Setup, c: Cluster, read: Image, e: Event)
    requires Settled(st, c) && !e.SetState?
    ensures Settled(st, Step(st, c, read, e))
    ensures forall n <- st.sp.nodes :: NodeEqual(st, c, n) ==> NodeEqual(st, Step(st, c, read, e), n)
    ensures c.im.state == Completed ==> Step(st, c, read, e).im.state == Completed
  {
    var g := Step(st, c, read, e);
    forall n, r | n in st.sp.nodes && r in st.sp.refs
      ensures (n, r) in g.ended
      ensures Has(g.im.cond, n, r) ==> Equal(g.im.cond, n, r)
      ensures Equal(c.im.cond, n, r) ==> Equal(g.im.cond, n, r)
    {
      assert PullsEnded(st, c, n);
      if e.Complete? && PullsEnded(st, c, e.node) {
        CompleteStores(st, c, read, e.node, e.version, n, r);
      }
    }
  }

  /** A node that completes with a current read has all its entries equal afterwards. */
  lemma CompletingNode(st: Setup, c: Cluster, n: string, version: nat)
    requires Settled(st, c) && n in st.sp.nodes
    ensures NodeEqual(st, Step(st, c, c.im, Complete(n, version)), n)
  {
    forall r | r in st.sp.refs ensures Equal(Step(st, c, c.im, Complete(n, version)).im.cond, n, r) {
      CompleteStores(st, c, c.im, n, version, n, r);
    }
  }

  /** The last node to complete sets completed. */
  lemma LastNodeCompletes(st: Setup, c: Cluster, n: string, version: nat)
    requires Settled(st, c) && n in st.sp.nodes && st.sp.refs != []
    requires forall m <- st.sp.nodes :: m == n || NodeEqual(st, c, m)
    ensures Step(st, c, c.im, Complete(n, version)).im.state == Completed
  {
    CompletesExactly(st, c, c.im, n, version);
    forall m | m in st.sp.nodes ensures m in c.im.cond || m == n {
      if m != n {
        assert Equal(c.im.cond, m, st.sp.refs[0]);
      }
    }
  }

  /** Once all pulls of all nodes have ended, with equal or missing entries, and every node has
      completed with a current read since, the state is completed, whatever else happens, until
      somebody sets another one. */
  lemma {:induction false} CompletedInTheEnd(st: Setup, es: seq<Event>, k: nat)
    requires k <= |es| && Settled(st, Run(st, es[..k])) && NoSetState(es, k)
    requires st.sp.nodes != [] && st.sp.refs != []
    ensures Settled(st, Run(st, es))
    ensures forall n <- st.sp.nodes :: CompletedSince(es, k, n) ==> NodeEqual(st, Run(st, es), n)
    ensures (forall n <- st.sp.nodes :: CompletedSince(es, k, n)) ==> Run(st, es).im.state == Completed
    decreases |es|
  {
    if k == |es| {
      assert es[..k] == es && !CompletedSince(es, k, st.sp.nodes[0]);
    } else {
      var before, e := es[..|es| - 1], es[|es| - 1];
      assert before[..k] == es[..k];
      CompletedInTheEnd(st, before, k);
      SettledStays(st, Run(st, before), Run(st, before[..Version(e, |before|)]).im, e);
      var current := e.Complete? && e.version >= |before|;
      forall n | n in st.sp.nodes
        ensures CompletedSince(es, k, n) <==> CompletedSince(before, k, n) || (current && e.node == n)
      {
        EarlierOrLast(es, k, n);
      }
      if current && e.node in st.sp.nodes {
        assert before[..|before|] == before;
        CompletingNode(st, Run(st, before), e.node, e.version);
        if forall n <- st.sp.nodes :: CompletedSince(es, k, n) {
          LastNodeCompletes(st, Run(st, before), e.node, e.version);
        }
      }
    }
  }

  lemma EarlierOrLast(es: seq<Event>, k: nat, n: string)
    requires k < |es|
    ensures
      var before := es[..|es| - 1];
      CompletedSince(es, k, n) <==> CompletedSince(before, k, n) || CompletesAt(es, |es| - 1, n)
  {
    var before := es[..|es| - 1];
    if CompletedSince(before, k, n) {
      var j :| k <= j < |before| && CompletesAt(before, j, n);
      assert CompletesAt(es, j, n);
    }
    if CompletedSince(es, k, n) && !CompletesAt(es, |es| - 1, n) {
      var j :| k <= j < |es| && CompletesAt(es, j, n);
      assert CompletesAt(before, j, n);
    }
  }
}
