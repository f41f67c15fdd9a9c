/**
 The download status of one ImageManager, written by an agent on every node.

 Conditions are nested maps node -> image -> (offset, total). The progress writer reads and
 replaces the object under optimistic locking, so its read is current; the controller reads
 from a cache that may lag by any number of versions and sends a JSON merge patch
 (section 2 of RFC 7396). Each (node, image) is pulled once, with one image size, and a node
 only completes after its own pulls have ended.
 */
module ImageStatus {

  datatype Cond = Cond(offset: int, total: int)

  /** What is stored for an image that is not pulled: equal offset and total. */
  const PULLED := Cond(56782302, 56782302)

  type Conditions = map<string, map<string, Cond>>

  datatype ImState = Fresh | Downloading | Failed | Canceled | Completed

  datatype Image = Image(state: ImState, cond: Conditions)

  datatype Spec = Spec(nodes: seq<string>, refs: seq<string>)

  predicate Has(c: Conditions, node: string, ref: string) {
    node in c && ref in c[node]
  }

  function NodeOf(c: Conditions, node: string): map<string, Cond> {
    if node in c then c[node] else map[]
  }

  function Put(c: Conditions, node: string, ref: string, v: Cond): Conditions {
    c[node := NodeOf(c, node)[ref := v]]
  }

  // ---------------------------------------------------------------------------------------
  // The offset of a running pull

  datatype LayerKind = Layer | Manifest | Index | Config

  datatype LayerStatus = Waiting | Active | Done | Exists

  datatype StatusInfo = StatusInfo(kind: LayerKind, digest: string, status: LayerStatus, offset: nat, total: nat)

  /** Existing contents count with their size, manifests and configs only then; finished layers
      count with their total, all others with their offset. */
  function Counted(st: StatusInfo, seen: map<string, nat>): nat {
    if st.status.Exists? then (if st.digest in seen then seen[st.digest] else 0)
    else if !st.kind.Layer? then 0
    else if st.status.Done? then st.total
    else st.offset
  }

  function Sum(sts: seq<StatusInfo>, seen: map<string, nat>): nat {
    if sts == [] then 0 else Sum(sts[..|sts| - 1], seen) + Counted(sts[|sts| - 1], seen)
  }

  predicate Relevant(st: StatusInfo) {
    st.status.Exists? || st.kind.Layer?
  }

  predicate Finished(st: StatusInfo) {
    st.status.Exists? || st.status.Done?
  }

  /** Something counts, and everything that counts is finished. */
  ghost predicate AllFinished(sts: seq<StatusInfo>) {
    (exists st <- sts :: Relevant(st)) && forall st <- sts :: Relevant(st) ==> Finished(st)
  }

  ghost function OffsetOf(sts: seq<StatusInfo>, seen: map<string, nat>, imageSize: nat): nat {
    if AllFinished(sts) then imageSize else Sum(sts, seen)
  }

  method ComputeOffset(sts: seq<StatusInfo>, seen: map<string, nat>, imageSize: nat) returns (offset: nat)
    ensures offset == OffsetOf(sts, seen, imageSize)
  {
    offset := 0;
    var statusesLen, doneLayer := |sts|, 0;
    ghost var skipped := 0;
    for i := 0 to |sts|
      invariant offset == Sum(sts[..i], seen)
      invariant 0 <= doneLayer <= i - skipped && statusesLen == |sts| - skipped && 0 <= skipped <= i
      invariant doneLayer == i - skipped <==> forall j :: 0 <= j < i && Relevant(sts[j]) ==> Finished(sts[j])
      invariant skipped < i <==> exists j :: 0 <= j < i && Relevant(sts[j])
    {
      var st := sts[i];
      assert sts[..i + 1][..i] == sts[..i];
      if st.status.Exists? {
        offset := offset + if st.digest in seen then seen[st.digest] else 0;
        doneLayer := doneLayer + 1;
      } else if !st.kind.Layer? {
        statusesLen := statusesLen - 1;
        skipped := skipped + 1;
      } else if st.status.Done? {
        offset := offset + st.total;
        doneLayer := doneLayer + 1;
      } else {
        offset := offset + st.offset;
      }
    }
    assert sts[..|sts|] == sts;
    if doneLayer == statusesLen && doneLayer != 0 {
      offset := imageSize;
    }
  }

  /** What one more status adds: an existing content the size remembered for its digest, a finished
      layer its total, any other layer its offset; manifests, indexes and configs nothing. */
  lemma StatusAdds(sts: seq<StatusInfo>, st: StatusInfo, seen: map<string, nat>)
    ensures Sum([], seen) == 0
    ensures
      Sum(sts + [st], seen) - Sum(sts, seen) ==
      if st.status == Exists then (if st.digest in seen then seen[st.digest] else 0)
      else if st.kind == Layer then (if st.status == Done then st.total else st.offset)
      else 0
  {
    assert (sts + [st])[..|sts|] == sts;
  }

  /** The same content, later: its pull went on, or ended. */
  predicate Further(a: StatusInfo, b: StatusInfo) {
    && b.kind == a.kind && b.digest == a.digest && b.total == a.total
    && a.offset <= b.offset <= b.total
    && (a.status == b.status || a.status == Waiting || (a.status == Active && b.status == Done))
    && (b.status == Exists ==> a.status == Exists)
  }

  predicate AllFurther(a: seq<StatusInfo>, b: seq<StatusInfo>) {
    |a| == |b| && forall i :: 0 <= i < |a| ==> Further(a[i], b[i])
  }

  lemma {:induction false} SumNeverFalls(a: seq<StatusInfo>, b: seq<StatusInfo>, seen: map<string, nat>)
    requires AllFurther(a, b)
    ensures Sum(a, seen) <= Sum(b, seen)
  {
    if a == [] {
    } else {
      SumNeverFalls(a[..|a| - 1], b[..|b| - 1], seen);
    }
  }

  lemma FinishedStays(a: seq<StatusInfo>, b: seq<StatusInfo>)
    requires AllFurther(a, b) && AllFinished(a)
    ensures AllFinished(b)
  {
    var i :| 0 <= i < |a| && Relevant(a[i]);
    assert Relevant(b[i]) && b[i] in b;
    forall j | 0 <= j < |b| && Relevant(b[j]) ensures Finished(b[j]) {
      assert a[j] in a;
    }
  }

  /** As the contents of an image are pulled further, its offset never falls, as long as what is
      counted does not exceed the image size; and it is the image size exactly when something
      counts and all of that is finished, or the sum itself is that large. */
  lemma OffsetNeverFalls(a: seq<StatusInfo>, b: seq<StatusInfo>, seen: map<string, nat>, imageSize: nat)
    requires AllFurther(a, b) && Sum(a, seen) <= imageSize
    ensures OffsetOf(a, seen, imageSize) <= OffsetOf(b, seen, imageSize)
    ensures OffsetOf(a, seen, imageSize) == imageSize <==>
      || Sum(a, seen) == imageSize
      || ((exists st <- a :: st.status == Exists || st.kind == Layer)
          && forall st <- a :: st.kind == Layer || st.status == Exists ==> st.status == Done || st.status == Exists)
  {
    SumNeverFalls(a, b, seen);
    if AllFinished(a) {
      FinishedStays(a, b);
    }
  }

  // ---------------------------------------------------------------------------------------
  // The three writes, on values

  function OldOffset(c: Conditions, node: string, ref: string): int {
    if Has(c, node, ref) then c[node][ref].offset else 0
  }

  function ProgressWrite(c: Conditions, node: string, ref: string, offset: int, imageSize: int): Conditions {
    if OldOffset(c, node, ref) >= offset || offset > imageSize then c
    else Put(c, node, ref, Cond(offset, imageSize))
  }

  /** The entries a completing node fills in, given the object it read. */
  function Fill(sp: Spec, node: string, read: Conditions): map<string, Cond> {
    if node in sp.nodes then map r | r in sp.refs && !Has(read, node, r) :: PULLED else map[]
  }

  /** The conditions of an object after a merge patch with entries for one node. */
  function Merge(c: Conditions, node: string, patch: map<string, Cond>): Conditions {
    if patch == map[] then c else c[node := NodeOf(c, node) + patch]
  }

  ghost predicate AllCompleted(sp: Spec, c: Conditions) {
    forall n <- sp.nodes :: n in c && forall r <- sp.refs :: r in c[n] && c[n][r].offset == c[n][r].total
  }

  ghost function CompleteWrite(sp: Spec, node: string, read: Image, im: Image): Image {
    var patch := Fill(sp, node, read.cond);
    var done := AllCompleted(sp, Merge(read.cond, node, patch));
    Image(if done && read.state != Completed then Completed else im.state, Merge(im.cond, node, patch))
  }

  // ---------------------------------------------------------------------------------------
  // The writers, in place

  class ImageManager {
    var state: ImState
    var cond: Conditions

    constructor ()
      ensures Value() == Image(Fresh, map[])
    {
      state, cond := Fresh, map[];
    }

    function Value(): Image
      reads this
    {
      Image(state, cond)
    }

    method UpdateProgress(sts: seq<StatusInfo>, seen: map<string, nat>, imageSize: nat, node: string, ref: string)
      modifies this`cond
      ensures cond == ProgressWrite(old(cond), node, ref, OffsetOf(sts, seen, imageSize), imageSize)
    {
      var offset := ComputeOffset(sts, seen, imageSize);
      var oldOffset := 0;
      if node in cond && ref in cond[node] {
        oldOffset := cond[node][ref].offset;
      }
      if oldOffset >= offset || offset > imageSize {
        return;
      }
      if node !in cond {
        cond := cond[node := map[]];
      }
      cond := cond[node := cond[node][ref := Cond(offset, imageSize)]];
    }

    method SetPulledImageStatus(node: string, ref: string)
      modifies this`cond
      ensures cond == Put(old(cond), node, ref, PULLED)
    {
      if node !in cond {
        cond := cond[node := map[]];
      }
      cond := cond[node := cond[node][ref := PULLED]];
    }

    /** `read` is the object the agent of `node` found in its cache. */
    method CompleteStatus(sp: Spec, node: string, read: Image)
      modifies this
      ensures Value() == CompleteWrite(sp, node, read, old(Value()))
    {
      var patch := map[];
      for i := 0 to |sp.nodes|
        invariant patch == if node in sp.nodes[..i] then Fill(sp, node, read.cond) else map[]
      {
        assert sp.nodes[..i + 1] == sp.nodes[..i] + [sp.nodes[i]];
        if sp.nodes[i] != node {
          continue;
        }
        for j := 0 to |sp.refs|
          invariant forall r :: r in patch <==>
            (r in sp.refs[..j] || (node in sp.nodes[..i] && r in sp.refs)) && !Has(read.cond, node, r)
          invariant forall r <- patch :: patch[r] == PULLED
        {
          assert sp.refs[..j + 1] == sp.refs[..j] + [sp.refs[j]];
          if !Has(read.cond, node, sp.refs[j]) {
            patch := patch[sp.refs[j] := PULLED];
          }
        }
        assert sp.refs[..|sp.refs|] == sp.refs;
      }
      assert sp.nodes[..|sp.nodes|] == sp.nodes;
      var copy := Merge(read.cond, node, patch);
      var done := CheckAllCompleted(sp, copy);
      cond := Merge(cond, node, patch);
      if done && read.state != Completed {
        state := Completed;
      }
    }
  }

  method CheckAllCompleted(sp: Spec, c: Conditions) returns (done: bool)
    ensures done <==> AllCompleted(sp, c)
  {
    for i := 0 to |sp.nodes|
      invariant forall n <- sp.nodes[..i] ::
        n in c && forall r <- sp.refs :: r in c[n] && c[n][r].offset == c[n][r].total
    {
      var node := sp.nodes[i];
      assert sp.nodes[..i + 1] == sp.nodes[..i] + [node];
      if node !in c {
        return false;
      }
      for j := 0 to |sp.refs|
        invariant forall r <- sp.refs[..j] :: r in c[node] && c[node][r].offset == c[node][r].total
      {
        var ref := sp.refs[j];
        assert sp.refs[..j + 1] == sp.refs[..j] + [ref];
        if ref !in c[node] || c[node][ref].offset != c[node][ref].total {
          return false;
        }
      }
      assert sp.refs[..|sp.refs|] == sp.refs;
    }
    assert sp.nodes[..|sp.nodes|] == sp.nodes;
    return true;
  }
}
