/** The descriptors a pull meets on its walk, each digest kept once. */
module PullJobs {

  datatype Desc = Desc(digest: string, mediaType: string, size: nat)

  predicate Knows(ds: seq<Desc>, digest: string) {
    exists d <- ds :: d.digest == digest
  }

  /** The descriptors that were the first of their digest, in the order they came. */
  function Firsts(ds: seq<Desc>): seq<Desc> {
    if ds == [] then [] else
    var before, d := ds[..|ds| - 1], ds[|ds| - 1];
    if Knows(before, d.digest) then Firsts(before) else Firsts(before) + [d]
  }

  /** The kept descriptors are among those met, know the same digests, and none twice. */
  lemma {:induction false} FirstsAreDistinct(ds: seq<Desc>)
    ensures forall d <- Firsts(ds) :: d in ds
    ensures forall g :: Knows(Firsts(ds), g) <==> Knows(ds, g)
    ensures forall i, j :: 0 <= i < j < |Firsts(ds)| ==> Firsts(ds)[i].digest != Firsts(ds)[j].digest
  {
    if ds == [] {
    } else {
      var before, d := ds[..|ds| - 1], ds[|ds| - 1];
      FirstsAreDistinct(before);
      assert ds == before + [d];
      forall g ensures Knows(Firsts(ds), g) <==> Knows(ds, g) {
        assert Knows(Firsts(before), g) <==> Knows(before, g);
        assert Knows(before + [d], g) <==> Knows(before, g) || d.digest == g;
        assert Knows(Firsts(before) + [d], g) <==> Knows(Firsts(before), g) || d.digest == g;
      }
      if !Knows(before, d.digest) {
        assert !Knows(Firsts(before), d.digest);
      }
    }
  }

  /** The descriptor at i is the first of its digest. */
  predicate IsFirst(ds: seq<Desc>, i: nat)
    requires i < |ds|
  {
    forall j :: 0 <= j < i ==> ds[j].digest != ds[i].digest
  }

  lemma {:induction false} FirstIsKept(ds: seq<Desc>, i: nat) returns (k: nat)
    requires i < |ds| && IsFirst(ds, i)
    ensures k < |Firsts(ds)| && Firsts(ds)[k] == ds[i]
    decreases |ds|
  {
    var before := ds[..|ds| - 1];
    if i == |ds| - 1 {
      k := |Firsts(before)|;
      assert !Knows(before, ds[i].digest);
    } else {
      assert IsFirst(before, i);
      k := FirstIsKept(before, i);
    }
  }

  /** Those that are the first of their digest are kept, in the order they came. */
  lemma {:induction false} FirstsInOrder(ds: seq<Desc>, i: nat, j: nat) returns (k: nat, l: nat)
    requires i < j < |ds| && IsFirst(ds, i) && IsFirst(ds, j)
    ensures k < l < |Firsts(ds)| && Firsts(ds)[k] == ds[i] && Firsts(ds)[l] == ds[j]
    decreases |ds|
  {
    var before := ds[..|ds| - 1];
    assert IsFirst(before, i);
    if j == |ds| - 1 {
      k := FirstIsKept(before, i);
      l := |Firsts(before)|;
      assert !Knows(before, ds[j].digest);
    } else {
      assert IsFirst(before, j);
      k, l := FirstsInOrder(before, i, j);
    }
  }

  class Jobs {
    var added: set<string>
    var descs: seq<Desc>
    var resolved: bool
    ghost var met: seq<Desc>

    ghost predicate Valid()
      reads this
    {
      descs == Firsts(met) && forall g :: g in added <==> Knows(met, g)
    }

    constructor ()
      ensures Valid() && met == [] && !resolved
    {
      added, descs, resolved, met := {}, [], false, [];
    }

    method Add(desc: Desc)
      requires Valid()
      modifies this
      ensures Valid() && met == old(met) + [desc] && resolved
    {
      resolved := true;
      assert (met + [desc])[..|met|] == met;
      assert forall g :: Knows(met + [desc], g) <==> Knows(met, g) || desc.digest == g;
      met := met + [desc];
      if desc.digest in added {
        return;
      }
      descs := descs + [desc];
      added := added + {desc.digest};
    }
  }
}
