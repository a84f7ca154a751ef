/** The scan over the foreign master records that picks one of them (the loop of `bmc`). */
module RecordScan {
  import opened Octets
  import opened DataSets
  import opened Comparison

  /** Which of two records the scan keeps. The loop as written replaces its candidate by a
      record for which the comparison is negative, that is, by a worse one; section 9.3.2
      of IEEE Std 1588-2008 asks for the better one. */
  datatype Keep = Worse | Better {
    predicate Takes(comp: int) {
      if Better? then comp > 0 else comp < 0
    }
  }

  function Scan(ms: seq<Announcement>, receiver: ClockIdentity, keep: Keep): (best: nat)
    ensures best < |ms| || best == 0
  {
    if |ms| <= 1 then 0
    else
      var n := |ms| - 1;
      var best := Scan(ms[..n], receiver, keep);
      if keep.Takes(Compare(ms[n], ms[best], receiver)) then n else best
  }

  /** On orderly records "is not displaced by" composes, and strictly so if one link is. */
  lemma Chain(a: Announcement, b: Announcement, c: Announcement, receiver: ClockIdentity, keep: Keep)
    requires Orderly([a, b, c], receiver)
    requires !keep.Takes(Compare(b, a, receiver)) && !keep.Takes(Compare(c, b, receiver))
    ensures !keep.Takes(Compare(c, a, receiver))
    ensures keep.Takes(Compare(a, b, receiver)) || keep.Takes(Compare(b, c, receiver)) ==>
      keep.Takes(Compare(a, c, receiver))
  {
    var ms := [a, b, c];
    assert Coherent(ms[0], ms[1]) && Coherent(ms[1], ms[2]) && Coherent(ms[0], ms[2]);
    assert !Echo(ms[0], receiver) && !Echo(ms[1], receiver) && !Echo(ms[2], receiver);
    CompareIsAntisymmetric(a, b, receiver);
    CompareIsAntisymmetric(b, c, receiver);
    CompareIsAntisymmetric(a, c, receiver);
    if keep.Better? {
      CompareIsWeakOrder(a, b, c, receiver);
    } else {
      CompareIsWeakOrder(c, b, a, receiver);
    }
  }

  lemma OrderlyTriple(ms: seq<Announcement>, receiver: ClockIdentity, i: nat, j: nat, k: nat)
    requires Orderly(ms, receiver) && i < |ms| && j < |ms| && k < |ms|
    ensures Orderly([ms[i], ms[j], ms[k]], receiver)
  {
  }

  lemma NeverDisplacesItself(m: Announcement, receiver: ClockIdentity)
    ensures Compare(m, m, receiver) == 0
  {
    CompareIsAntisymmetric(m, m, receiver);
  }

  /** Nothing displaces the record, and it is the first such: it displaces all before it. */
  ghost predicate Extremal(ms: seq<Announcement>, receiver: ClockIdentity, keep: Keep, best: nat)
    requires best < |ms|
  {
    && (forall k :: 0 <= k < |ms| ==> !keep.Takes(Compare(ms[k], ms[best], receiver)))
    && (forall k :: 0 <= k < best ==> keep.Takes(Compare(ms[best], ms[k], receiver)))
  }

  lemma NewcomerWins(ms: seq<Announcement>, receiver: ClockIdentity, keep: Keep, best: nat)
    requires Orderly(ms, receiver) && best < |ms| - 1
    requires Extremal(ms[..|ms| - 1], receiver, keep, best)
    requires keep.Takes(Compare(ms[|ms| - 1], ms[best], receiver))
    ensures Extremal(ms, receiver, keep, |ms| - 1)
  {
    var n := |ms| - 1;
    forall k | 0 <= k < n
      ensures keep.Takes(Compare(ms[n], ms[k], receiver)) && !keep.Takes(Compare(ms[k], ms[n], receiver))
    {
      assert ms[..n][k] == ms[k] && ms[..n][best] == ms[best];
      CompareIsAntisymmetric(ms[n], ms[best], receiver);
      OrderlyTriple(ms, receiver, n, best, k);
      Chain(ms[n], ms[best], ms[k], receiver, keep);
    }
    NeverDisplacesItself(ms[n], receiver);
  }

  lemma CandidateStays(ms: seq<Announcement>, receiver: ClockIdentity, keep: Keep, best: nat)
    requires best < |ms| - 1
    requires Extremal(ms[..|ms| - 1], receiver, keep, best)
    requires !keep.Takes(Compare(ms[|ms| - 1], ms[best], receiver))
    ensures Extremal(ms, receiver, keep, best)
  {
  }

  /** On orderly records the scan finds the extremal one. */
  lemma {:induction false} ScanIsExtremal(ms: seq<Announcement>, receiver: ClockIdentity, keep: Keep)
    requires Orderly(ms, receiver) && ms != []
    ensures Extremal(ms, receiver, keep, Scan(ms, receiver, keep))
  {
    var n := |ms| - 1;
    if n == 0 {
      NeverDisplacesItself(ms[0], receiver);
    } else {
      ScanIsExtremal(ms[..n], receiver, keep);
      var best := Scan(ms[..n], receiver, keep);
      if keep.Takes(Compare(ms[n], ms[best], receiver)) {
        NewcomerWins(ms, receiver, keep, best);
      } else {
        CandidateStays(ms, receiver, keep, best);
      }
    }
  }

  /** The scan as written and the intended one pick equally good records only when there
      is nothing to choose: all records tie. */
  lemma ScansTieOnlyWhenAllTie(ms: seq<Announcement>, receiver: ClockIdentity)
    requires Orderly(ms, receiver) && ms != []
    ensures Compare(ms[Scan(ms, receiver, Worse)], ms[Scan(ms, receiver, Better)], receiver) == 0 <==>
      forall i, j :: 0 <= i < |ms| && 0 <= j < |ms| ==> Compare(ms[i], ms[j], receiver) == 0
  {
    var worst, best := Scan(ms, receiver, Worse), Scan(ms, receiver, Better);
    ScanIsExtremal(ms, receiver, Worse);
    ScanIsExtremal(ms, receiver, Better);
    if Compare(ms[worst], ms[best], receiver) == 0 {
      forall i, j | 0 <= i < |ms| && 0 <= j < |ms|
        ensures Compare(ms[i], ms[j], receiver) >= 0
      {
        CompareIsAntisymmetric(ms[j], ms[best], receiver);
        OrderlyTriple(ms, receiver, i, worst, best);
        CompareIsWeakOrder(ms[i], ms[worst], ms[best], receiver);
        OrderlyTriple(ms, receiver, i, best, j);
        CompareIsWeakOrder(ms[i], ms[best], ms[j], receiver);
      }
      forall i, j | 0 <= i < |ms| && 0 <= j < |ms|
        ensures Compare(ms[i], ms[j], receiver) == 0
      {
        CompareIsAntisymmetric(ms[i], ms[j], receiver);
      }
    }
  }
}
