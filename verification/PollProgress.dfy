/** Folding the status of many nodes into one download progress, and polling it. Fractions are
    exact numbers here. */
module PollProgress {
  import opened Wrappers
  import opened ImageStatus
  import ImageProtocol

  /** Infinity is what a fold over no nodes or no images gives. */
  datatype Percent = Num(value: real) | Infinite

  datatype Tick = Snapshot(sp: Spec, im: Image) | GetError | ContextDone

  datatype Result = Polling | Success | GetFailed | DownloadFailed | ContextCanceled

  datatype ListedImage = ListedImage(name: string, size: nat)

  /** Sizes of the images as the manager's annotation lists them, and the size every other image
      is taken to have, 5086840033 bytes in the source. */
  datatype Sizes = Sizes(list: seq<ListedImage>, fallback: nat)

  datatype NodeSum = NodeSum(offset: int, total: int)

  // ---------------------------------------------------------------------------------------
  // One snapshot

  function SizeFrom(sizes: Sizes, ref: string, k: nat): nat
    requires k <= |sizes.list|
    decreases |sizes.list| - k
  {
    if k == |sizes.list| then sizes.fallback
    else if sizes.list[k].name == ref then sizes.list[k].size
    else SizeFrom(sizes, ref, k + 1)
  }

  function SizeOf(sizes: Sizes, ref: string): nat {
    SizeFrom(sizes, ref, 0)
  }

  /** What a node holds of an image; nothing yet when no status is stored. */
  function Held(c: Conditions, sizes: Sizes, node: string, ref: string): NodeSum {
    if Has(c, node, ref) then NodeSum(c[node][ref].offset, c[node][ref].total) else NodeSum(0, SizeOf(sizes, ref))
  }

  function Plus(a: NodeSum, b: NodeSum): NodeSum {
    NodeSum(a.offset + b.offset, a.total + b.total)
  }

  /** What a node holds of the first k images. */
  function HeldOf(c: Conditions, sizes: Sizes, node: string, refs: seq<string>, k: nat): NodeSum
    requires k <= |refs|
  {
    if k == 0 then NodeSum(0, 0)
    else Plus(HeldOf(c, sizes, node, refs, k - 1), Held(c, sizes, node, refs[k - 1]))
  }

  function HeldAll(c: Conditions, sizes: Sizes, node: string, refs: seq<string>): NodeSum {
    HeldOf(c, sizes, node, refs, |refs|)
  }

  /** The sum for a node, once for every time the node is listed. */
  function SumFor(c: Conditions, sizes: Sizes, node: string, nodes: seq<string>, refs: seq<string>): NodeSum
    decreases |nodes|
  {
    if nodes == [] then NodeSum(0, 0) else
    var rest := SumFor(c, sizes, node, nodes[..|nodes| - 1], refs);
    if nodes[|nodes| - 1] == node then Plus(rest, HeldAll(c, sizes, node, refs)) else rest
  }

  function Ratio(s: NodeSum): real {
    if s.total == 0 then 0.0 else s.offset as real / s.total as real
  }

  /** p is a hundred times the least ratio over the nodes. */
  ghost predicate IsProgress(sp: Spec, c: Conditions, sizes: Sizes, p: Percent) {
    if sp.nodes == [] || sp.refs == [] then p.Infinite?
    else
      && p.Num?
      && (exists n <- sp.nodes :: p.value == Ratio(SumFor(c, sizes, n, sp.nodes, sp.refs)) * 100.0)
      && forall n <- sp.nodes :: p.value <= Ratio(SumFor(c, sizes, n, sp.nodes, sp.refs)) * 100.0
  }

  method FindImageSize(sizes: Sizes, ref: string) returns (size: nat)
    ensures size == SizeOf(sizes, ref)
  {
    for i := 0 to |sizes.list|
      invariant SizeOf(sizes, ref) == SizeFrom(sizes, ref, i)
    {
      if sizes.list[i].name == ref {
        return sizes.list[i].size;
      }
    }
    return sizes.fallback;
  }

  function SumIn(m: map<string, NodeSum>, n: string): NodeSum {
    if n in m then m[n] else NodeSum(0, 0)
  }

  lemma HeldNext(c: Conditions, sizes: Sizes, node: string, refs: seq<string>, j: nat, start: NodeSum)
    requires j < |refs|
    ensures Plus(Plus(start, HeldOf(c, sizes, node, refs, j)), Held(c, sizes, node, refs[j]))
         == Plus(start, HeldOf(c, sizes, node, refs, j + 1))
  {
  }

  method ReadHeld(c: Conditions, sizes: Sizes, node: string, ref: string) returns (h: NodeSum)
    ensures h == Held(c, sizes, node, ref)
  {
    if node in c && ref in c[node] {
      return NodeSum(c[node][ref].offset, c[node][ref].total);
    }
    var total := FindImageSize(sizes, ref);
    return NodeSum(0, total);
  }

  /** The inner loop: adds what one node holds of every image to its sum so far. */
  method AddRefs(c: Conditions, sizes: Sizes, node: string, refs: seq<string>, start: NodeSum) returns (sum: NodeSum)
    ensures sum == Plus(start, HeldAll(c, sizes, node, refs))
  {
    sum := start;
    for j := 0 to |refs|
      invariant sum == Plus(start, HeldOf(c, sizes, node, refs, j))
    {
      var held := ReadHeld(c, sizes, node, refs[j]);
      HeldNext(c, sizes, node, refs, j, start);
      sum := NodeSum(sum.offset + held.offset, sum.total + held.total);
    }
  }

  /** The map holds the sums of the nodes listed so far. */
  ghost predicate Sums(c: Conditions, sizes: Sizes, m: map<string, NodeSum>, nodes: seq<string>, refs: seq<string>) {
    && (forall n :: n in m <==> n in nodes && refs != [])
    && (forall n <- m :: m[n] == SumFor(c, sizes, n, nodes, refs))
  }

  lemma {:induction false} UnlistedIsZero(c: Conditions, sizes: Sizes, n: string, nodes: seq<string>, refs: seq<string>)
    requires n !in nodes
    ensures SumFor(c, sizes, n, nodes, refs) == NodeSum(0, 0)
    decreases |nodes|
  {
    if nodes == [] {
    } else {
      UnlistedIsZero(c, sizes, n, nodes[..|nodes| - 1], refs);
    }
  }

  lemma AddNodeSums(c: Conditions, sizes: Sizes, m: map<string, NodeSum>, nodes: seq<string>, node: string,
                    refs: seq<string>)
    requires Sums(c, sizes, m, nodes, refs) && refs != []
    ensures Sums(c, sizes, m[node := Plus(SumIn(m, node), HeldAll(c, sizes, node, refs))], nodes + [node], refs)
  {
    assert (nodes + [node])[..|nodes|] == nodes;
    if node !in m {
      UnlistedIsZero(c, sizes, node, nodes, refs);
    }
  }

  method SumNodes(sp: Spec, c: Conditions, sizes: Sizes) returns (nodeMap: map<string, NodeSum>)
    ensures Sums(c, sizes, nodeMap, sp.nodes, sp.refs)
  {
    nodeMap := map[];
    for i := 0 to |sp.nodes|
      invariant Sums(c, sizes, nodeMap, sp.nodes[..i], sp.refs)
    {
      var node := sp.nodes[i];
      assert sp.nodes[..i + 1] == sp.nodes[..i] + [node];
      if sp.refs != [] {
        AddNodeSums(c, sizes, nodeMap, sp.nodes[..i], node, sp.refs);
        var sum := AddRefs(c, sizes, node, sp.refs, SumIn(nodeMap, node));
        nodeMap := nodeMap[node := sum];
      }
    }
    assert sp.nodes[..|sp.nodes|] == sp.nodes;
  }

  method Fold(sp: Spec, c: Conditions, sizes: Sizes) returns (p: Percent)
    ensures IsProgress(sp, c, sizes, p)
  {
    var nodeMap := SumNodes(sp, c, sizes);
    p := Infinite;
    var todo := nodeMap.Keys;
    while todo != {}
      invariant todo <= nodeMap.Keys
      invariant p.Infinite? ==> todo == nodeMap.Keys
      invariant p.Num? ==> exists n <- nodeMap.Keys - todo :: p.value == Ratio(nodeMap[n])
      invariant p.Num? ==> forall n <- nodeMap.Keys - todo :: p.value <= Ratio(nodeMap[n])
      decreases |todo|
    {
      var n :| n in todo;
      var nodeProgress := 0.0;
      if nodeMap[n].total != 0 {
        nodeProgress := nodeMap[n].offset as real / nodeMap[n].total as real;
      }
      if p.Infinite? || nodeProgress < p.value {
        p := Num(nodeProgress);
      }
      todo := todo - {n};
    }
    if sp.nodes != [] && sp.refs != [] {
      assert sp.nodes[0] in nodeMap;
    }
    if p.Num? {
      p := Num(p.value * 100.0);
    }
  }

  // ---------------------------------------------------------------------------------------
  // The poll

  /** Rounding to the nearest integer, ties to even, as the formatter rounds. */
  function RoundEven(x: real): int {
    var f := x.Floor;
    if x - f as real < 0.5 then f
    else if x - f as real > 0.5 then f + 1
    else if f % 2 == 0 then f else f + 1
  }

  /** With two decimals the progress reads 100.00. */
  predicate ReadsHundred(p: Percent) {
    p.Num? && RoundEven(p.value * 100.0) == 10000
  }

  /** It reads so exactly from 99.995 to 100.005. */
  lemma ReadsHundredExactly(p: Percent)
    requires p.Num?
    ensures ReadsHundred(p) <==> 99.995 <= p.value <= 100.005
  {
  }

  predicate Less(a: Percent, b: Percent) {
    a.Num? && (b.Infinite? || a.value < b.value)
  }

  /** The strict records of a sequence of progresses, above the initial -1. */
  function Records(ps: seq<Percent>): seq<Percent> {
    if ps == [] then [] else
    var r := Records(ps[..|ps| - 1]);
    if Less(LastOf(r), ps[|ps| - 1]) then r + [ps[|ps| - 1]] else r
  }

  function LastOf(r: seq<Percent>): Percent {
    if r == [] then Num(-1.0) else r[|r| - 1]
  }

  /** updateProgress: an error keeps the poll going. */
  predicate Succeeds(before: seq<Percent>, p: Percent) {
    !Less(p, LastOf(Records(before))) && ReadsHundred(p)
  }

  /** The progress of every tick the poll looked at. */
  ghost predicate Progresses(ticks: seq<Tick>, sizes: Sizes, ps: seq<Percent>) {
    |ps| <= |ticks|
    && forall i :: 0 <= i < |ps| ==>
         ticks[i].Snapshot? && ticks[i].im.state != Failed
         && IsProgress(ticks[i].sp, ticks[i].im.cond, sizes, ps[i])
  }

  /** `done` is the only outcome that is not an error; the others keep the poll going. */
  method UpdateProgress(ghost before: seq<Percent>, lastProgress: Percent, published: seq<Percent>, p: Percent)
    returns (last: Percent, sent: seq<Percent>, done: bool)
    requires published == Records(before) && lastProgress == LastOf(published)
    ensures sent == Records(before + [p]) && last == LastOf(sent) && (done <==> Succeeds(before, p))
  {
    assert (before + [p])[..|before|] == before;
    last, sent := lastProgress, published;
    if Less(p, lastProgress) {
      return last, sent, false;
    }
    if lastProgress != p {
      last, sent := p, published + [p];
    }
    done := ReadsHundred(p);
  }

  /** What a tick that is not looked at makes of the poll. */
  predicate EndsWith(t: Tick, result: Result) {
    match t
    case Snapshot(_, im) => im.state == Failed && result == DownloadFailed
    case GetError => result == GetFailed
    case ContextDone => result == ContextCanceled
  }

  /** None of these progresses ended the poll. */
  ghost predicate NoSuccess(ps: seq<Percent>) {
    forall k :: 0 <= k < |ps| ==> !Succeeds(ps[..k], ps[k])
  }

  lemma NoSuccessNext(ps: seq<Percent>, p: Percent)
    requires NoSuccess(ps) && !Succeeds(ps, p)
    ensures NoSuccess(ps + [p])
  {
    assert forall k :: 0 <= k <= |ps| ==> (ps + [p])[..k] == ps[..k];
    assert ps[..|ps|] == ps;
  }

  lemma ProgressesNext(ticks: seq<Tick>, sizes: Sizes, ps: seq<Percent>, p: Percent)
    requires Progresses(ticks, sizes, ps) && |ps| < |ticks| && ticks[|ps|].Snapshot? && ticks[|ps|].im.state != Failed
    requires IsProgress(ticks[|ps|].sp, ticks[|ps|].im.cond, sizes, p)
    ensures Progresses(ticks, sizes, ps + [p])
  {
  }

  /** How a poll over these ticks can end: it looked at a prefix of them with progresses ps,
      published their records, and stopped at the first success or at the tick that ended it. */
  ghost predicate PollsTo(ticks: seq<Tick>, sizes: Sizes, result: Result, published: seq<Percent>, ps: seq<Percent>) {
    && Progresses(ticks, sizes, ps) && published == Records(ps)
    && match result
       case Success => ps != [] && NoSuccess(ps[..|ps| - 1]) && Succeeds(ps[..|ps| - 1], ps[|ps| - 1])
       case Polling => NoSuccess(ps) && |ps| == |ticks|
       case _ => NoSuccess(ps) && |ps| < |ticks| && EndsWith(ticks[|ps|], result)
  }

  /** One round per tick, until the poll ends; `published` are the progress events it sends. */
  method PollDownloadProgress(ticks: seq<Tick>, sizes: Sizes) returns (result: Result, published: seq<Percent>)
    ensures exists ps :: PollsTo(ticks, sizes, result, published, ps)
  {
    result, published := Polling, [];
    var lastProgress := Num(-1.0);
    ghost var ps := [];
    for i := 0 to |ticks|
      invariant |ps| == i && Progresses(ticks, sizes, ps) && NoSuccess(ps)
      invariant published == Records(ps) && lastProgress == LastOf(published)
    {
      match ticks[i]
      case GetError =>
        assert PollsTo(ticks, sizes, GetFailed, published, ps);
        return GetFailed, published;
      case ContextDone =>
        assert PollsTo(ticks, sizes, ContextCanceled, published, ps);
        return ContextCanceled, published;
      case Snapshot(sp, im) =>
        if im.state == Failed {
          assert PollsTo(ticks, sizes, DownloadFailed, published, ps);
          return DownloadFailed, published;
        }
        var p := Fold(sp, im.cond, sizes);
        ProgressesNext(ticks, sizes, ps, p);
        var done;
        lastProgress, published, done := UpdateProgress(ps, lastProgress, published, p);
        if done {
          assert (ps + [p])[..i] == ps;
          assert PollsTo(ticks, sizes, Success, published, ps + [p]);
          return Success, published;
        }
        NoSuccessNext(ps, p);
        ps := ps + [p];
    }
    assert PollsTo(ticks, sizes, Polling, published, ps);
  }

  // ---------------------------------------------------------------------------------------
  // What the poll promises

  /** Published progress strictly increases, and its last value is the greatest progress seen. */
  lemma {:induction false} RecordsIncrease(ps: seq<Percent>)
    ensures forall i, j :: 0 <= i < j < |Records(ps)| ==> Less(Records(ps)[i], Records(ps)[j])
    ensures forall r <- Records(ps) :: r in ps && !Less(LastOf(Records(ps)), r)
    ensures forall p <- ps :: !Less(LastOf(Records(ps)), p)
    decreases |ps|
  {
    if ps == [] {
    } else {
      var before, p := ps[..|ps| - 1], ps[|ps| - 1];
      RecordsIncrease(before);
      assert ps == before + [p];
    }
  }

  ghost predicate WithinTotals(c: Conditions) {
    forall n <- c, r <- c[n] :: 0 <= c[n][r].offset <= c[n][r].total
  }

  lemma {:induction false} HeldWithin(c: Conditions, sizes: Sizes, node: string, refs: seq<string>, k: nat)
    requires WithinTotals(c) && k <= |refs|
    ensures 0 <= HeldOf(c, sizes, node, refs, k).offset <= HeldOf(c, sizes, node, refs, k).total
  {
    if k == 0 {
    } else {
      HeldWithin(c, sizes, node, refs, k - 1);
    }
  }

  lemma {:induction false} SumWithin(c: Conditions, sizes: Sizes, node: string, nodes: seq<string>, refs: seq<string>)
    requires WithinTotals(c)
    ensures
      var s := SumFor(c, sizes, node, nodes, refs);
      0 <= s.offset <= s.total
    decreases |nodes|
  {
    if nodes == [] {
    } else {
      SumWithin(c, sizes, node, nodes[..|nodes| - 1], refs);
      HeldWithin(c, sizes, node, refs, |refs|);
    }
  }

  lemma ProductOrder(a: real, b: real, t: real)
    requires t > 0.0
    ensures a <= b <==> a * t <= b * t
  {
    if a <= b {
      assert (b - a) * t >= 0.0;
    } else {
      assert (a - b) * t > 0.0;
    }
  }

  lemma QuotientOrder(o: real, t: real, k: real)
    requires t > 0.0
    ensures (k <= o / t <==> k * t <= o) && (o / t <= k <==> o <= k * t)
  {
    assert o / t * t == o;
    ProductOrder(k, o / t, t);
    ProductOrder(o / t, k, t);
  }

  lemma RatioWithin(s: NodeSum)
    requires 0 <= s.offset <= s.total
    ensures 0.0 <= Ratio(s) <= 1.0
    ensures 0.99995 <= Ratio(s) <==> s.total > 0 && 0.99995 * s.total as real <= s.offset as real
  {
    if s.total > 0 {
      var o, t := s.offset as real, s.total as real;
      QuotientOrder(o, t, 0.0);
      QuotientOrder(o, t, 1.0);
      QuotientOrder(o, t, 0.99995);
    }
  }

  /** With stored offsets within totals, progress stays between 0 and 100, and it reads 100.00
      exactly when every node has at least 99.995% of its total. */
  lemma ProgressMeansEveryNode(sp: Spec, c: Conditions, sizes: Sizes, p: Percent)
    requires WithinTotals(c) && sp.nodes != [] && sp.refs != [] && IsProgress(sp, c, sizes, p)
    ensures 0.0 <= p.value <= 100.0
    ensures ReadsHundred(p) <==> forall n <- sp.nodes ::
      var s := SumFor(c, sizes, n, sp.nodes, sp.refs);
      s.total > 0 && 0.99995 * s.total as real <= s.offset as real
  {
    forall n | n in sp.nodes
      ensures
        var s := SumFor(c, sizes, n, sp.nodes, sp.refs);
        && 0.0 <= Ratio(s) <= 1.0
        && (0.99995 <= Ratio(s) <==> s.total > 0 && 0.99995 * s.total as real <= s.offset as real)
    {
      SumWithin(c, sizes, n, sp.nodes, sp.refs);
      RatioWithin(SumFor(c, sizes, n, sp.nodes, sp.refs));
    }
    ReadsHundredExactly(p);
  }

  /** As long as progress never exceeds 100, the first snapshot that reads 100.00 ends the poll
      with success, and no other does. */
  lemma SucceedsExactly(before: seq<Percent>, p: Percent)
    requires forall q <- before :: q.Num? && q.value <= 100.0 && !ReadsHundred(q)
    ensures Succeeds(before, p) <==> ReadsHundred(p)
  {
    RecordsIncrease(before);
    if ReadsHundred(p) {
      ReadsHundredExactly(p);
      var last := LastOf(Records(before));
      if Records(before) != [] {
        assert last in Records(before);
        ReadsHundredExactly(last);
      }
    }
  }

  /** So the poll goes on exactly as long as no snapshot has read 100.00. */
  lemma {:induction false} PollsUntilHundred(ps: seq<Percent>)
    requires forall p <- ps :: p.Num? && p.value <= 100.0
    ensures NoSuccess(ps) <==> forall p <- ps :: !ReadsHundred(p)
    decreases |ps|
  {
    if ps == [] {
    } else {
      var before, p := ps[..|ps| - 1], ps[|ps| - 1];
      assert ps == before + [p];
      PollsUntilHundred(before);
      assert forall k :: 0 <= k < |before| ==> ps[..k] == before[..k];
      if NoSuccess(before) {
        SucceedsExactly(before, p);
      } else {
        var k :| 0 <= k < |before| && Succeeds(before[..k], before[k]);
        assert ps[..k] == before[..k];
      }
    }
  }

  /** Every node has at least 99.995% of its total. */
  ghost predicate EveryNodeHas(t: Tick, sizes: Sizes)
    requires t.Snapshot?
  {
    forall n <- t.sp.nodes ::
      var s := SumFor(t.im.cond, sizes, n, t.sp.nodes, t.sp.refs);
      s.total > 0 && 0.99995 * s.total as real <= s.offset as real
  }

  predicate Proper(t: Tick) {
    t.Snapshot? ==> t.sp.nodes != [] && t.sp.refs != []
  }

  ghost predicate AllProper(ticks: seq<Tick>) {
    forall t <- ticks :: Proper(t) && (t.Snapshot? ==> WithinTotals(t.im.cond))
  }

  /** What one tick of such a poll means. */
  lemma TickMeans(ticks: seq<Tick>, sizes: Sizes, ps: seq<Percent>, i: nat)
    requires AllProper(ticks) && Progresses(ticks, sizes, ps) && i < |ps|
    ensures ps[i].Num? && 0.0 <= ps[i].value <= 100.0 && (ReadsHundred(ps[i]) <==> EveryNodeHas(ticks[i], sizes))
  {
    assert ticks[i] in ticks;
    ProgressMeansEveryNode(ticks[i].sp, ticks[i].im.cond, sizes, ps[i]);
  }

  lemma TicksAreNumbers(ticks: seq<Tick>, sizes: Sizes, ps: seq<Percent>)
    requires AllProper(ticks) && Progresses(ticks, sizes, ps)
    ensures forall p <- ps :: p.Num? && 0.0 <= p.value <= 100.0
  {
    forall i | 0 <= i < |ps| ensures ps[i].Num? && 0.0 <= ps[i].value <= 100.0 {
      TickMeans(ticks, sizes, ps, i);
    }
  }

  /** A poll over any ticks whose snapshots list some node and some image and keep offsets within
      totals publishes strictly increasing values between 0 and 100. */
  lemma PublishedMeans(ticks: seq<Tick>, sizes: Sizes, result: Result, published: seq<Percent>, ps: seq<Percent>)
    requires PollsTo(ticks, sizes, result, published, ps) && AllProper(ticks)
    ensures forall i, j :: 0 <= i < j < |published| ==> Less(published[i], published[j])
    ensures forall p <- published :: p.Num? && 0.0 <= p.value <= 100.0
  {
    TicksAreNumbers(ticks, sizes, ps);
    RecordsIncrease(ps);
  }

  /** It succeeds only at a snapshot in which every node is complete, and never looks past one. */
  lemma PollMeans(ticks: seq<Tick>, sizes: Sizes, result: Result, published: seq<Percent>, ps: seq<Percent>)
    requires PollsTo(ticks, sizes, result, published, ps) && AllProper(ticks)
    ensures result == Success ==> ps != [] && EveryNodeHas(ticks[|ps| - 1], sizes)
    ensures forall i :: 0 <= i < (if result == Success then |ps| - 1 else |ps|) ==> !EveryNodeHas(ticks[i], sizes)
  {
    TicksAreNumbers(ticks, sizes, ps);
    var quiet := if result == Success then ps[..|ps| - 1] else ps;
    assert NoSuccess(quiet) && forall p <- quiet :: p in ps;
    PollsUntilHundred(quiet);
    forall i | 0 <= i < |quiet| ensures !EveryNodeHas(ticks[i], sizes) {
      assert quiet[i] in quiet && quiet[i] == ps[i];
      TickMeans(ticks, sizes, ps, i);
    }
    if result == Success {
      TickMeans(ticks, sizes, ps, |ps| - 1);
    }
  }

  /** Why a poll ends. Every tick it looked at was a snapshot of a download that had not failed. Of the
      other ticks a failed download, an error or a cancellation ends it with that result; without
      one it goes on to the last tick. */
  lemma PollEnds(ticks: seq<Tick>, sizes: Sizes, result: Result, published: seq<Percent>, ps: seq<Percent>)
    requires PollsTo(ticks, sizes, result, published, ps)
    ensures forall i :: 0 <= i < |ps| ==> ticks[i].Snapshot? && ticks[i].im.state != Failed
    ensures result == Polling || result == Success || |ps| < |ticks|
    ensures result == DownloadFailed <==>
      |ps| < |ticks| && ticks[|ps|].Snapshot? && ticks[|ps|].im.state == Failed && result != Success
    ensures result == GetFailed <==> |ps| < |ticks| && ticks[|ps|] == GetError && result != Success
    ensures result == ContextCanceled <==> |ps| < |ticks| && ticks[|ps|] == ContextDone && result != Success
    ensures result == Polling ==> |ps| == |ticks|
  {
  }

  /** Every ImageManager the nodes can produce has its offsets within its totals. */
  lemma StoredWithinTotals(st: ImageProtocol.Setup, es: seq<ImageProtocol.Event>)
    ensures WithinTotals(ImageProtocol.Run(st, es).im.cond)
  {
    var c: Conditions := ImageProtocol.Run(st, es).im.cond;
    forall n: string, r: string | n in c && r in c[n] ensures 0 <= c[n][r].offset <= c[n][r].total {
      ImageProtocol.RunKeepsCond(st, es, n, r);
    }
  }

  // ---------------------------------------------------------------------------------------
  // What one image adds

  /** The size an image is taken to have: that of the first listed image of its name, or the
      fallback. */
  ghost predicate TakenSize(sizes: Sizes, ref: string, size: nat) {
    || (exists i :: 0 <= i < |sizes.list| && sizes.list[i] == ListedImage(ref, size)
                    && forall j :: 0 <= j < i ==> sizes.list[j].name != ref)
    || (size == sizes.fallback && forall i :: 0 <= i < |sizes.list| ==> sizes.list[i].name != ref)
  }

  lemma {:induction false} SizeFromMeans(sizes: Sizes, ref: string, k: nat)
    requires k <= |sizes.list| && forall j :: 0 <= j < k ==> sizes.list[j].name != ref
    ensures TakenSize(sizes, ref, SizeFrom(sizes, ref, k))
    decreases |sizes.list| - k
  {
    if k == |sizes.list| {
    } else if sizes.list[k].name != ref {
      SizeFromMeans(sizes, ref, k + 1);
    } else {
      assert sizes.list[k] == ListedImage(ref, sizes.list[k].size);
    }
  }

  /** There is only one such size, and it is the one that is found. */
  lemma SizeMeans(sizes: Sizes, ref: string, size: nat)
    ensures TakenSize(sizes, ref, size) <==> size == SizeOf(sizes, ref)
  {
    SizeFromMeans(sizes, ref, 0);
  }

  /** One more listed image. Without a stored status it adds nothing to the offset of a node, and its
      size to the total; with one, it adds what is stored. */
  lemma ImageAdds(c: Conditions, sizes: Sizes, node: string, refs: seq<string>, ref: string, size: nat)
    requires TakenSize(sizes, ref, size)
    ensures HeldAll(c, sizes, node, []) == NodeSum(0, 0)
    ensures
      var before, after := HeldAll(c, sizes, node, refs), HeldAll(c, sizes, node, refs + [ref]);
      if node in c && ref in c[node]
      then after.offset == before.offset + c[node][ref].offset && after.total == before.total + c[node][ref].total
      else after.offset == before.offset && after.total == before.total + size
  {
    SizeMeans(sizes, ref, size);
    SameHeld(c, sizes, node, refs, refs + [ref], |refs|);
  }

  lemma {:induction false} SameHeld(c: Conditions, sizes: Sizes, node: string, a: seq<string>, b: seq<string>, k: nat)
    requires k <= |a| && k <= |b| && a[..k] == b[..k]
    ensures HeldOf(c, sizes, node, a, k) == HeldOf(c, sizes, node, b, k)
  {
    if k == 0 {
    } else {
      assert a[k - 1] == a[..k][k - 1] == b[..k][k - 1] == b[k - 1];
      assert a[..k - 1] == a[..k][..k - 1] == b[..k][..k - 1] == b[..k - 1];
      SameHeld(c, sizes, node, a, b, k - 1);
    }
  }

  /** A node that is listed once counts once, whatever other nodes are listed. */
  lemma {:induction false} NodeCountsOnce(c: Conditions, sizes: Sizes, node: string, nodes: seq<string>,
                                          refs: seq<string>)
    requires node in nodes && forall i, j :: 0 <= i < j < |nodes| ==> nodes[i] != nodes[j]
    ensures SumFor(c, sizes, node, nodes, refs) == HeldAll(c, sizes, node, refs)
    decreases |nodes|
  {
    var before := nodes[..|nodes| - 1];
    assert nodes == before + [nodes[|nodes| - 1]];
    if nodes[|nodes| - 1] == node {
      UnlistedIsZero(c, sizes, node, before, refs);
    } else {
      NodeCountsOnce(c, sizes, node, before, refs);
    }
  }

  lemma {:induction false} MissingGap(c: Conditions, sizes: Sizes, node: string, refs: seq<string>, i: nat, k: nat)
    requires WithinTotals(c) && i < k <= |refs| && !Has(c, node, refs[i])
    ensures
      var h := HeldOf(c, sizes, node, refs, k);
      h.total - h.offset >= SizeOf(sizes, refs[i])
  {
    if i == k - 1 {
      HeldWithin(c, sizes, node, refs, k - 1);
    } else {
      MissingGap(c, sizes, node, refs, i, k - 1);
    }
  }

  /** What is missing of an image without status is missing of the node. */
  lemma {:induction false} SumGap(c: Conditions, sizes: Sizes, node: string, nodes: seq<string>,
                                  refs: seq<string>, i: nat)
    requires WithinTotals(c) && node in nodes && i < |refs| && !Has(c, node, refs[i])
    ensures
      var s := SumFor(c, sizes, node, nodes, refs);
      s.total - s.offset >= SizeOf(sizes, refs[i])
    decreases |nodes|
  {
    var before := nodes[..|nodes| - 1];
    assert nodes == before + [nodes[|nodes| - 1]];
    if nodes[|nodes| - 1] == node {
      MissingGap(c, sizes, node, refs, i, |refs|);
      SumWithin(c, sizes, node, before, refs);
    } else {
      SumGap(c, sizes, node, before, refs, i);
    }
  }

  /** A poll that succeeds has seen a stored status for every listed image on every node, except for
      images of at most 0.005% of the node's total. */
  lemma SuccessMeansStored(ticks: seq<Tick>, sizes: Sizes, published: seq<Percent>, ps: seq<Percent>,
                           node: string, ref: string, size: nat)
    requires PollsTo(ticks, sizes, Success, published, ps) && AllProper(ticks) && TakenSize(sizes, ref, size)
    requires ps != [] && node in ticks[|ps| - 1].sp.nodes && ref in ticks[|ps| - 1].sp.refs
    ensures
      var t := ticks[|ps| - 1];
      var total := SumFor(t.im.cond, sizes, node, t.sp.nodes, t.sp.refs).total;
      Has(t.im.cond, node, ref) || size as real <= 0.00005 * total as real
  {
    PollMeans(ticks, sizes, Success, published, ps);
    SizeMeans(sizes, ref, size);
    var t := ticks[|ps| - 1];
    if !Has(t.im.cond, node, ref) {
      var i :| 0 <= i < |t.sp.refs| && t.sp.refs[i] == ref;
      assert t in ticks;
      SumGap(t.im.cond, sizes, node, t.sp.nodes, t.sp.refs, i);
      var s := SumFor(t.im.cond, sizes, node, t.sp.nodes, t.sp.refs);
      assert 0.99995 * s.total as real <= s.offset as real;
      assert size as real <= s.total as real - s.offset as real;
    }
  }
}
