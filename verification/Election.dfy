/** Several ordinary clocks with different identities on one network, each deciding its
    state from the data sets the others announce. */
module Election {
  import opened Octets
  import opened DataSets
  import opened Comparison
  import opened RecordScan
  import opened ForeignMasters
  import opened BestMasterClock

  ghost predicate Network(clocks: seq<DefaultDS>) {
    && 2 <= |clocks|
    && forall j, k :: 0 <= j < k < |clocks| ==> clocks[j].clockIdentity != clocks[k].clockIdentity
  }

  function DefaultKey(d: DefaultDS): (s: seq<int>)
    ensures |s| == 13
  {
    [d.priority1, d.clockQuality.clockClass, d.clockQuality.clockAccuracy,
     d.clockQuality.offsetScaledLogVariance, d.priority2] + d.clockIdentity
  }

  /** The order on clocks that the election is about. */
  predicate Preferred(a: DefaultDS, b: DefaultDS) {
    Memcmp(DefaultKey(a), DefaultKey(b)) < 0
  }

  lemma PreferredIsTotalOrder(a: DefaultDS, b: DefaultDS, c: DefaultDS)
    ensures a.clockIdentity != b.clockIdentity ==> Preferred(a, b) != Preferred(b, a)
    ensures Preferred(a, b) && Preferred(b, c) ==> Preferred(a, c)
  {
    MemcmpFlips(DefaultKey(a), DefaultKey(b));
    MemcmpZero(DefaultKey(a), DefaultKey(b));
    assert DefaultKey(a)[5..] == a.clockIdentity && DefaultKey(b)[5..] == b.clockIdentity;
    if Preferred(a, b) && Preferred(b, c) {
      MemcmpTransitive(DefaultKey(a), DefaultKey(b), DefaultKey(c));
    }
  }

  /** Announcements of different clocks about themselves are compared by that order. */
  lemma D0sCompareByPreference(x: Announcement, d: DefaultDS, y: Announcement, e: DefaultDS, receiver: ClockIdentity)
    requires IsD0(x, d) && IsD0(y, e) && d.clockIdentity != e.clockIdentity
    ensures Compare(x, y, receiver) == -Memcmp(DefaultKey(d), DefaultKey(e))
    ensures Compare(x, y, receiver) > 0 <==> Preferred(d, e)
  {
    MemcmpZero(d.clockIdentity, e.clockIdentity);
    AttributesDecideInOrder(x.announce, y.announce);
    assert GrandmasterKey(x.announce) == DefaultKey(d) && GrandmasterKey(y.announce) == DefaultKey(e);
  }

  /** Between two clocks equal in all five attributes the smaller MAC address wins. */
  lemma SmallerMacWins(x: Announcement, d: DefaultDS, y: Announcement, e: DefaultDS,
                       a: MacAddress, b: MacAddress, receiver: ClockIdentity)
    requires IsD0(x, d) && IsD0(y, e) && d.clockIdentity == Eui64(a) && e.clockIdentity == Eui64(b)
    requires a != b && d.clockQuality == e.clockQuality && d.priority1 == e.priority1 && d.priority2 == e.priority2
    ensures Compare(x, y, receiver) == -Memcmp(a, b) != 0
  {
    Eui64KeepsOrder(a, b);
    MemcmpZero(a, b);
    D0sCompareByPreference(x, d, y, e, receiver);
    var attributes := Attributes(x.announce);
    MemcmpZero(attributes, attributes);
    MemcmpConcat(attributes, attributes, d.clockIdentity, e.clockIdentity);
    assert DefaultKey(d) == attributes + d.clockIdentity && DefaultKey(e) == attributes + e.clockIdentity;
  }

  // ----- The view of one clock

  /** Clock k remembers some of the other clocks, and nobody else. */
  ghost predicate Remembers(c: Clock, clocks: seq<DefaultDS>, k: nat)
    requires k < |clocks|
  {
    && c.table.Addressable()
    && c.defaultDS == clocks[k] && c.portIdentity.clockIdentity == clocks[k].clockIdentity
    && (forall r :: 0 <= r < c.table.count ==> IsOthersD0(c.table.Live()[r], clocks, k))
  }

  /** Clock k has heard every other clock, and nobody else. */
  ghost predicate Hears(c: Clock, clocks: seq<DefaultDS>, k: nat)
    requires k < |clocks|
  {
    && Remembers(c, clocks, k)
    && (forall j :: 0 <= j < |clocks| && j != k ==> Announces(c.table.Live(), clocks[j]))
  }

  ghost predicate IsOthersD0(m: Announcement, clocks: seq<DefaultDS>, k: nat) {
    exists j :: 0 <= j < |clocks| && j != k && IsD0(m, clocks[j])
  }

  ghost predicate Announces(live: seq<Announcement>, d: DefaultDS) {
    exists r :: 0 <= r < |live| && IsD0(live[r], d)
  }

  /** The state of a clock that does not become master. */
  function Loser(d: DefaultDS): PortState {
    if d.clockQuality.clockClass < 128 then Passive else Slave
  }

  lemma HearsSomebody(c: Clock, clocks: seq<DefaultDS>, k: nat)
    requires Network(clocks) && k < |clocks| && Hears(c, clocks, k)
    ensures 0 < c.table.count
  {
    var other := if k == 0 then 1 else 0;
    assert Announces(c.table.Live(), clocks[other]);
  }

  lemma FieldIsOrderly(c: Clock, clocks: seq<DefaultDS>, k: nat)
    requires Network(clocks) && k < |clocks| && Remembers(c, clocks, k)
    ensures Orderly(Field(c), c.portIdentity.clockIdentity)
  {
    var field := Field(c);
    forall r | 0 <= r < |field|
      ensures exists j :: 0 <= j < |clocks| && IsD0(field[r], clocks[j])
    {
      if r == 0 {
        assert IsD0(field[0], clocks[k]);
      } else {
        assert IsOthersD0(c.table.Live()[r - 1], clocks, k);
      }
    }
    forall r, s | 0 <= r < |field| && 0 <= s < |field|
      ensures Coherent(field[r], field[s])
    {
      var i :| 0 <= i < |clocks| && IsD0(field[r], clocks[i]);
      var j :| 0 <= j < |clocks| && IsD0(field[s], clocks[j]);
      assert i < j || i == j || j < i;
    }
  }

  /** Each live record speaks for another clock. */
  lemma RecordSpeaksForClock(c: Clock, clocks: seq<DefaultDS>, k: nat, r: nat) returns (j: nat)
    requires Network(clocks) && k < |clocks| && Remembers(c, clocks, k) && r < c.table.count
    ensures j < |clocks| && j != k && Announces(c.table.Live(), clocks[j])
    ensures c.BeatsWithD0(c.table.Live()[r]) <==> Preferred(clocks[k], clocks[j])
  {
    var m := c.table.Live()[r];
    assert IsOthersD0(m, clocks, k);
    j :| 0 <= j < |clocks| && j != k && IsD0(m, clocks[j]);
    BeatsByPreference(c, clocks, k, m, j);
  }

  /** Each other clock that is remembered has a live record. */
  lemma ClockHasRecord(c: Clock, clocks: seq<DefaultDS>, k: nat, j: nat) returns (r: nat)
    requires Network(clocks) && k < |clocks| && Remembers(c, clocks, k)
    requires j < |clocks| && j != k && Announces(c.table.Live(), clocks[j])
    ensures r < c.table.count
    ensures c.BeatsWithD0(c.table.Live()[r]) <==> Preferred(clocks[k], clocks[j])
  {
    var live := c.table.Live();
    r :| 0 <= r < |live| && IsD0(live[r], clocks[j]);
    BeatsByPreference(c, clocks, k, live[r], j);
  }

  lemma MasterOrLoser(c: Clock, best: nat)
    requires best < |c.table.records| && 0 < c.table.count
    ensures c.Elect(best).1 == Master || c.Elect(best).1 == Loser(c.defaultDS)
    ensures Loser(c.defaultDS) != Master
  {
  }

  /** Clock k is preferred to another clock that it remembers. */
  ghost predicate BeatsRemembered(c: Clock, clocks: seq<DefaultDS>, k: nat)
    requires k < |clocks| && c.table.Addressable()
  {
    exists j :: 0 <= j < |clocks| && j != k && Announces(c.table.Live(), clocks[j]) && Preferred(clocks[k], clocks[j])
  }

  /** What clock k decides on the part of the network that it remembers. */
  lemma DecisionOnPart(c: Clock, clocks: seq<DefaultDS>, k: nat)
    requires Network(clocks) && k < |clocks| && Remembers(c, clocks, k) && 0 < c.table.count
    ensures c.Bmc().1 == if BeatsRemembered(c, clocks, k) then Master else Loser(clocks[k])
    ensures c.Elect(c.Pick(Better)).1 == Master <==>
      forall j :: 0 <= j < |clocks| && j != k && Announces(c.table.Live(), clocks[j]) ==>
        Preferred(clocks[k], clocks[j])
  {
    FieldIsOrderly(c, clocks, k);
    MasterOrLoser(c, c.Pick(Worse));
    MasterWhen(c);
    BeatsSome(c, clocks, k);
    BeatsAll(c, clocks, k);
  }

  /** What a clock decides that has heard all others, with either scan. */
  lemma Decision(c: Clock, clocks: seq<DefaultDS>, k: nat)
    requires Network(clocks) && k < |clocks| && Hears(c, clocks, k)
    ensures c.Bmc().1 ==
      if exists j :: 0 <= j < |clocks| && j != k && Preferred(clocks[k], clocks[j]) then Master else Loser(clocks[k])
    ensures c.Elect(c.Pick(Better)).1 ==
      if forall j :: 0 <= j < |clocks| && j != k ==> Preferred(clocks[k], clocks[j]) then Master else Loser(clocks[k])
  {
    HearsSomebody(c, clocks, k);
    DecisionOnPart(c, clocks, k);
    MasterOrLoser(c, c.Pick(Better));
  }

  lemma BeatsSome(c: Clock, clocks: seq<DefaultDS>, k: nat)
    requires Network(clocks) && k < |clocks| && Remembers(c, clocks, k)
    ensures (exists r :: 0 <= r < c.table.count && c.BeatsWithD0(c.table.Live()[r])) <==> BeatsRemembered(c, clocks, k)
  {
    if r :| 0 <= r < c.table.count && c.BeatsWithD0(c.table.Live()[r]) {
      var j := RecordSpeaksForClock(c, clocks, k, r);
    }
    if j :| 0 <= j < |clocks| && j != k && Announces(c.table.Live(), clocks[j]) && Preferred(clocks[k], clocks[j]) {
      var r := ClockHasRecord(c, clocks, k, j);
    }
  }

  lemma BeatsAll(c: Clock, clocks: seq<DefaultDS>, k: nat)
    requires Network(clocks) && k < |clocks| && Remembers(c, clocks, k)
    ensures (forall r :: 0 <= r < c.table.count ==> c.BeatsWithD0(c.table.Live()[r])) <==>
      forall j :: 0 <= j < |clocks| && j != k && Announces(c.table.Live(), clocks[j]) ==>
        Preferred(clocks[k], clocks[j])
  {
    if r :| 0 <= r < c.table.count && !c.BeatsWithD0(c.table.Live()[r]) {
      var j := RecordSpeaksForClock(c, clocks, k, r);
    }
    if j :| 0 <= j < |clocks| && j != k && Announces(c.table.Live(), clocks[j]) && !Preferred(clocks[k], clocks[j]) {
      var r := ClockHasRecord(c, clocks, k, j);
    }
  }

  lemma BeatsByPreference(c: Clock, clocks: seq<DefaultDS>, k: nat, m: Announcement, j: nat)
    requires Network(clocks) && k < |clocks| && j < |clocks| && j != k && c.defaultDS == clocks[k] && IsD0(m, clocks[j])
    ensures c.BeatsWithD0(m) <==> Preferred(clocks[k], clocks[j])
  {
    var d0 := D0(c.defaultDS);
    assert clocks[k].clockIdentity != clocks[j].clockIdentity;
    D0sCompareByPreference(d0, clocks[k], m, clocks[j], c.portIdentity.clockIdentity);
  }

  // ----- The whole network

  /** One clock is preferred to all others, or all others to it. */
  lemma {:induction false} Extreme(clocks: seq<DefaultDS>, most: bool, n: nat) returns (b: nat)
    requires Network(clocks) && 1 <= n <= |clocks|
    ensures b < n
    ensures forall j :: 0 <= j < n && j != b ==>
      if most then Preferred(clocks[b], clocks[j]) else Preferred(clocks[j], clocks[b])
  {
    b := 0;
    if 1 < n {
      b := Extreme(clocks, most, n - 1);
      PreferredIsTotalOrder(clocks[b], clocks[n - 1], clocks[b]);
      if Preferred(clocks[n - 1], clocks[b]) == most {
        forall j | 0 <= j < n - 1
          ensures if most then Preferred(clocks[n - 1], clocks[j]) else Preferred(clocks[j], clocks[n - 1])
        {
          PreferredIsTotalOrder(clocks[n - 1], clocks[b], clocks[j]);
          PreferredIsTotalOrder(clocks[j], clocks[b], clocks[n - 1]);
        }
        b := n - 1;
      }
    }
  }

  lemma NotBoth(clocks: seq<DefaultDS>, j: nat, k: nat)
    requires Network(clocks) && j < |clocks| && k < |clocks| && j != k
    ensures !(Preferred(clocks[j], clocks[k]) && Preferred(clocks[k], clocks[j]))
  {
    PreferredIsTotalOrder(clocks[j], clocks[k], clocks[j]);
    assert clocks[j].clockIdentity != clocks[k].clockIdentity;
  }

  ghost predicate AllHear(nodes: seq<Clock>, clocks: seq<DefaultDS>) {
    && Network(clocks) && |nodes| == |clocks|
    && forall k :: 0 <= k < |clocks| ==> Hears(nodes[k], clocks, k)
  }

  /** The election section 9.3 of IEEE Std 1588-2008 describes: if every clock decides on a
      record that none of the others' is better than, exactly one becomes master. */
  lemma UndominatedRecordsElectOneMaster(
    clocks: seq<DefaultDS>, nodes: seq<Clock>, seen: seq<nat>, ms: seq<Announcement>)
    returns (b: nat)
    requires Network(clocks) && |nodes| == |seen| == |ms| == |clocks|
    requires forall k :: 0 <= k < |clocks| ==> nodes[k].defaultDS == clocks[k] && !nodes[k].NothingHeard()
    requires forall k :: 0 <= k < |clocks| ==> seen[k] < |clocks| && seen[k] != k && IsD0(ms[k], clocks[seen[k]])
    requires forall k, j :: 0 <= k < |clocks| && 0 <= j < |clocks| && j != k && j != seen[k] ==>
      !Preferred(clocks[j], clocks[seen[k]])
    ensures b < |clocks|
    ensures forall k :: 0 <= k < |clocks| ==>
      nodes[k].StateDecision(ms[k]).1 == if k == b then Master else Loser(clocks[k])
  {
    b := Extreme(clocks, true, |clocks|);
    forall k | 0 <= k < |clocks|
      ensures nodes[k].StateDecision(ms[k]).1 == if k == b then Master else Loser(clocks[k])
    {
      BeatsByPreference(nodes[k], clocks, k, ms[k], seen[k]);
      if k != b {
        assert seen[k] == b;
        NotBoth(clocks, k, b);
      }
    }
  }

  /** The intended scan finds such records, so with it exactly one clock becomes master. */
  lemma IntendedScanElectsOneMaster(clocks: seq<DefaultDS>, nodes: seq<Clock>) returns (b: nat)
    requires AllHear(nodes, clocks)
    ensures b < |clocks|
    ensures forall k :: 0 <= k < |clocks| ==>
      nodes[k].Elect(nodes[k].Pick(Better)).1 == if k == b then Master else Loser(clocks[k])
  {
    b := Extreme(clocks, true, |clocks|);
    forall k | 0 <= k < |clocks|
      ensures nodes[k].Elect(nodes[k].Pick(Better)).1 == if k == b then Master else Loser(clocks[k])
    {
      Decision(nodes[k], clocks, k);
      if k != b {
        NotBoth(clocks, k, b);
      }
    }
  }

  /** The scan as written makes every clock master except the one all others are preferred
      to. */
  lemma ScanAsWrittenSparesOneClock(clocks: seq<DefaultDS>, nodes: seq<Clock>) returns (w: nat)
    requires AllHear(nodes, clocks)
    ensures w < |clocks|
    ensures forall k :: 0 <= k < |clocks| ==>
      nodes[k].Bmc().1 == if k == w then Loser(clocks[k]) else Master
  {
    w := Extreme(clocks, false, |clocks|);
    forall k | 0 <= k < |clocks|
      ensures nodes[k].Bmc().1 == if k == w then Loser(clocks[k]) else Master
    {
      Decision(nodes[k], clocks, k);
      if k == w {
        forall j | 0 <= j < |clocks| && j != w
          ensures !Preferred(clocks[w], clocks[j])
        {
          NotBoth(clocks, j, w);
        }
      } else {
        assert Preferred(clocks[k], clocks[w]);
      }
    }
  }

  ghost predicate OneMaster(states: seq<PortState>) {
    exists b :: 0 <= b < |states| && states[b] == Master &&
      forall k :: 0 <= k < |states| && k != b ==> states[k] != Master
  }

  lemma AllButOneMaster(states: seq<PortState>, w: nat)
    requires 2 <= |states| && w < |states|
    requires forall k :: 0 <= k < |states| ==> (states[k] == Master <==> k != w)
    ensures OneMaster(states) <==> |states| == 2
  {
    if |states| == 2 {
      assert states[1 - w] == Master;
    } else {
      var x := if w == 0 then 1 else 0;
      var y := if w <= 1 then 2 else 1;
      assert states[x] == Master && states[y] == Master;
    }
  }

  /** As the code stands, one master is elected exactly when there are two clocks. */
  lemma OneMasterExactlyForTwoClocks(clocks: seq<DefaultDS>, nodes: seq<Clock>)
    requires AllHear(nodes, clocks)
    ensures OneMaster(seq(|nodes|, k requires 0 <= k < |nodes| => nodes[k].Bmc().1)) <==> |clocks| == 2
  {
    var states := seq(|nodes|, k requires 0 <= k < |nodes| => nodes[k].Bmc().1);
    var w := ScanAsWrittenSparesOneClock(clocks, nodes);
    AllButOneMaster(states, w);
  }
}
