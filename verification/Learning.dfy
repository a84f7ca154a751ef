/** What one port that runs `doState` learns from a series of announcements, with an election
    before each of them. */
module Learning {
  import opened Octets
  import opened DataSets
  import opened Comparison
  import opened RecordScan
  import opened ForeignMasters
  import opened BestMasterClock
  import opened Election
  import opened Protocol
  import opened TableRuns

  /** A pass in which nothing is received, and one that receives an announcement. By then the
      port has qualified, should it have been waiting for that. */
  const SETTLE: Pass := IDLE.(qualificationExpired := true)

  function Receive(m: Announcement): Pass {
    SETTLE.(rx := Announce(m))
  }

  /** Hear the announcements one by one, deciding before each. */
  function Listen(ms: seq<Announcement>): seq<Pass> {
    if ms == [] then [] else Listen(ms[..|ms| - 1]) + [SETTLE, Receive(ms[|ms| - 1])]
  }

  // ----- What a port knows

  /** The messages on record. */
  function Messages(q: seq<ForeignMasterRecord>): (ms: seq<Announcement>)
    ensures |ms| == |q|
  {
    seq(|q|, r requires 0 <= r < |q| => q[r].Message())
  }

  ghost predicate SentBy(ms: seq<Announcement>, id: PortIdentity) {
    exists r :: 0 <= r < |ms| && ms[r].Sender() == id
  }

  /** A port with clock d that takes part in elections and has these messages on record. */
  ghost predicate Knows(c: Clock, d: DefaultDS, ms: seq<Announcement>) {
    && Kept(c) && !IsSlaveOnly(c) && c.defaultDS == d && !c.portState.Faulty? && !c.recommendedState.Listening?
    && Messages(c.table.Queue()) == ms
    && (c.recommendedState.Slave? ==> SentBy(ms, c.parentDS.parentPortIdentity) || StateDecision in c.events)
    && (StateDecision in c.events ==> ms != [])
  }

  /** The messages on record are those of the live slots, under the identities in the table. */
  lemma LiveMessages(t: Table, j: nat)
    requires t.Valid() && j < t.count
    ensures t.records[j].Message() in Messages(t.Queue()) && t.Identity(j) == t.records[j].Message().Sender()
    ensures j < |Messages(t.Queue())| && Messages(t.Queue())[j] in t.Live()
  {
    QueueIsLive(t, j);
    var r :| 0 <= r < |t.Queue()| && t.Queue()[r] == t.records[j];
    assert Messages(t.Queue())[r] == t.records[j].Message();
    var s :| 0 <= s < t.count && t.records[..t.count][s] == t.Queue()[j];
    assert t.Live()[s] == Messages(t.Queue())[j];
  }

  lemma ElectedParentIsKnown(c: Clock, own: DefaultDS, ms: seq<Announcement>)
    requires Knows(c, own, ms)
    ensures Decide(c).recommendedState.Slave? ==> SentBy(ms, Decide(c).parentDS.parentPortIdentity)
    ensures !Decide(c).recommendedState.Listening?
  {
    if StateDecision in c.events {
      var d := Decide(c);
      assert |c.table.Queue()| == c.table.count;
      ElectedParent(c);
      DecideSummary(c);
      if d.recommendedState.Slave? {
        LiveMessages(c.table, d.table.best);
      }
    }
  }

  lemma FollowKeepsParent(c: Clock)
    requires c.recommendedState in {Listening, Master, Passive, Slave}
    ensures Follow(c, true).parentDS == c.parentDS && Follow(c, true).defaultDS == c.defaultDS
    ensures c.portState.PreMaster? || c.portState.Master? ==> !Follow(c, true).portState.PreMaster?
  {
  }

  lemma NothingServed(c: Clock)
    requires Started(c) && !c.portState.Faulty?
    ensures var s := Served(c, SETTLE);
      && DoState(c, SETTLE) == s && StateDecision !in s.events
      && s.defaultDS == c.defaultDS && s.parentDS == Decide(c).parentDS && !s.portState.Faulty?
      && s.recommendedState == Decide(c).recommendedState && s.table == Decide(c).table
      && (c.portState.PreMaster? || c.portState.Master? ==> !s.portState.PreMaster?)
  {
    DecideSummary(c);
    DecideKeepsInitialised(c, Decide(c));
    FollowKeepsParent(Decide(c));
    FollowRuns(Decide(c), true);
  }

  lemma DecideKeepsQueue(c: Clock)
    requires Kept(c)
    ensures Decide(c).table.Valid() && Decide(c).table.Queue() == c.table.Queue()
  {
    DecideSummary(c);
  }

  /** A pass without messages holds a pending election and nothing else. */
  lemma Settles(c: Clock, d: DefaultDS, ms: seq<Announcement>)
    requires Knows(c, d, ms)
    ensures DoState(c, SETTLE) == Served(c, SETTLE) && Knows(DoState(c, SETTLE), d, ms)
    ensures StateDecision !in DoState(c, SETTLE).events
    ensures DoState(c, SETTLE).recommendedState == Decide(c).recommendedState
    ensures c.portState.PreMaster? || c.portState.Master? ==> !DoState(c, SETTLE).portState.PreMaster?
  {
    PassKeepsTable(c, SETTLE);
    DecideKeepsQueue(c);
    ElectedParentIsKnown(c, d, ms);
    NothingServed(c);
  }

  // ----- What it knows after a message

  function Last<T>(s: seq<T>, n: nat): seq<T> {
    if |s| <= n then s else s[|s| - n..]
  }

  /** A known message changes nothing; one of a new sender makes the oldest give way, should
      there be no room. */
  function Learn(ms: seq<Announcement>, capacity: nat, m: Announcement): seq<Announcement> {
    if m in ms then ms else Last(ms + [m], capacity)
  }

  ghost predicate Consistent(q: seq<ForeignMasterRecord>) {
    && (forall r :: 0 <= r < |q| ==> q[r].foreignMasterPortIdentity == q[r].Message().Sender())
    && (forall r, s :: 0 <= r < s < |q| ==> q[r].foreignMasterPortIdentity != q[s].foreignMasterPortIdentity)
  }

  lemma QueueIsConsistent(t: Table)
    requires t.Valid()
    ensures Consistent(t.Queue())
  {
    var q := t.Queue();
    forall r, s | 0 <= r < s < |q|
      ensures q[r].foreignMasterPortIdentity != q[s].foreignMasterPortIdentity
    {
      QueueAt(t, r);
      QueueAt(t, s);
    }
    forall r | 0 <= r < |q|
      ensures q[r].foreignMasterPortIdentity == q[r].Message().Sender()
    {
      QueueAt(t, r);
    }
  }

  lemma QueueLearns(q: seq<ForeignMasterRecord>, capacity: nat, m: Announcement)
    requires Consistent(q) && |q| <= capacity && 0 < capacity
    requires m in Messages(q) || !SentBy(Messages(q), m.Sender())
    ensures Messages(QueueAdd(q, capacity, m)) == Learn(Messages(q), capacity, m)
  {
    var p := Position(q, m.Sender());
    if m in Messages(q) {
      var r :| 0 <= r < |q| && Messages(q)[r] == m;
      assert p == r;
      assert Messages(q[p := Refreshed(q[p], m)]) == Messages(q);
    } else {
      assert forall r :: 0 <= r < |q| ==> Messages(q)[r].Sender() == q[r].foreignMasterPortIdentity;
      assert Messages(q + [NewRecord(m)]) == Messages(q) + [m];
      assert |q| == capacity ==> Messages(q[1..] + [NewRecord(m)]) == (Messages(q) + [m])[1..];
    }
  }

  /** The message is on record, or nothing of its sender is. */
  ghost predicate Agrees(ms: seq<Announcement>, m: Announcement) {
    m in ms || !SentBy(ms, m.Sender())
  }

  lemma HandledQueue(c: Clock, m: Announcement)
    requires KeptToServe(c) && c.table.Searchable()
    ensures Handle(c, Announce(m)).table.Valid()
    ensures Handle(c, Announce(m)).table.Queue() ==
      if Recorded(c, Announce(m)) then QueueAdd(c.table.Queue(), c.table.capacity, m) else c.table.Queue()
  {
    HandleSummary(c, Announce(m));
    AddRefinesQueue(c.table, m);
  }

  lemma SettledServes(c: Clock, m: Announcement)
    requires Kept(c) && !c.portState.Faulty? && !c.recommendedState.Listening? && StateDecision !in c.events
    ensures var s := Served(c, Receive(m));
      && KeptToServe(s) && s.table == c.table && s.table.Searchable() && s.defaultDS == c.defaultDS
      && s.parentDS == c.parentDS && s.recommendedState == c.recommendedState && s.portIdentity == c.portIdentity
      && StateDecision !in s.events
      && (HasParent(s.portState) || s.portState.Passive? || s.portState.Master?)
      && DoState(c, Receive(m)) == Handle(s, Announce(m))
  {
    var p := Receive(m);
    assert Decide(c) == c;
    FollowKeepsParent(c);
    FollowRuns(c, true);
    KeptIsServedKept(c, p);
  }

  /** A settled port learns what it receives, and an election is due. */
  lemma Receives(c: Clock, d: DefaultDS, ms: seq<Announcement>, m: Announcement)
    requires Knows(c, d, ms) && StateDecision !in c.events && Agrees(ms, m) && m.Sender() != c.portIdentity
    ensures var c' := DoState(c, Receive(m));
      Knows(c', d, Learn(ms, c.table.capacity, m)) && StateDecision in c'.events
      && c'.recommendedState == c.recommendedState
  {
    var s := Served(c, Receive(m));
    SettledServes(c, m);
    PassKeepsTable(c, Receive(m));
    HandleSummary(s, Announce(m));
    HandledQueue(s, m);
    QueueIsConsistent(c.table);
    QueueLearns(c.table.Queue(), c.table.capacity, m);
    LearnsFromParent(ms, m, c.table.capacity);
  }

  lemma LearnsFromParent(ms: seq<Announcement>, m: Announcement, capacity: nat)
    requires 0 < capacity
    ensures SentBy(ms, m.Sender()) && Agrees(ms, m) ==> Learn(ms, capacity, m) == ms
    ensures Learn(ms, capacity, m) != []
  {
  }

  // ----- What it knows after many

  function LearnAll(ms: seq<Announcement>, capacity: nat, news: seq<Announcement>): seq<Announcement> {
    if news == [] then ms
    else Learn(LearnAll(ms, capacity, news[..|news| - 1]), capacity, news[|news| - 1])
  }

  lemma SamePort(c: Clock, c': Clock)
    requires Started(c) && Started(c') && c.defaultDS == c'.defaultDS && c.rtOpts == c'.rtOpts
    ensures c'.portIdentity == c.portIdentity && c'.table.capacity == c.table.capacity
  {
  }

  lemma RunOfTwo(c: Clock, p: Pass, p': Pass)
    requires Started(c)
    ensures Started(DoState(c, p)) && RunPasses(c, [p, p']) == DoState(DoState(c, p), p')
  {
    PassKeepsStarted(c, p);
    RunConcat(c, [p], [p']);
    RunOfOne(c, p);
    RunOfOne(DoState(c, p), p');
    assert [p] + [p'] == [p, p'];
  }

  lemma SettleAndReceive(c: Clock, d: DefaultDS, ms: seq<Announcement>, m: Announcement)
    requires Knows(c, d, ms) && Agrees(ms, m) && m.Sender() != c.portIdentity
    ensures var c' := RunPasses(c, [SETTLE, Receive(m)]);
      && Knows(c', d, Learn(ms, c.table.capacity, m)) && c'.rtOpts == c.rtOpts && StateDecision in c'.events
      && c'.recommendedState == Decide(c).recommendedState
  {
    var c1 := DoState(c, SETTLE);
    Settles(c, d, ms);
    PassKeepsOptions(c, SETTLE);
    SamePort(c, c1);
    Receives(c1, d, ms, m);
    PassKeepsOptions(c1, Receive(m));
    RunOfTwo(c, SETTLE, Receive(m));
  }

  /** No message contradicts what is on record when it comes, and none is the port's own. */
  ghost predicate CanLearn(c: Clock, ms: seq<Announcement>, news: seq<Announcement>)
    requires Started(c)
  {
    forall n :: 0 <= n < |news| ==>
      Agrees(LearnAll(ms, c.table.capacity, news[..n]), news[n]) && news[n].Sender() != c.portIdentity
  }

  lemma {:induction false} Learns(c: Clock, d: DefaultDS, ms: seq<Announcement>, news: seq<Announcement>)
    requires Knows(c, d, ms) && CanLearn(c, ms, news)
    ensures var c' := RunPasses(c, Listen(news));
      && Knows(c', d, LearnAll(ms, c.table.capacity, news)) && c'.rtOpts == c.rtOpts
      && (news != [] ==> StateDecision in c'.events)
      && (news == [] ==> c' == c)
    decreases |news|
  {
    if news != [] {
      var n := |news| - 1;
      CanLearnPrefix(c, ms, news);
      Learns(c, d, ms, news[..n]);
      var c1 := RunPasses(c, Listen(news[..n]));
      SamePort(c, c1);
      SettleAndReceive(c1, d, LearnAll(ms, c.table.capacity, news[..n]), news[n]);
      RunConcat(c, Listen(news[..n]), [SETTLE, Receive(news[n])]);
    }
  }

  lemma CanLearnPrefix(c: Clock, ms: seq<Announcement>, news: seq<Announcement>)
    requires Started(c) && CanLearn(c, ms, news) && news != []
    ensures CanLearn(c, ms, news[..|news| - 1])
    ensures Agrees(LearnAll(ms, c.table.capacity, news[..|news| - 1]), news[|news| - 1])
    ensures news[|news| - 1].Sender() != c.portIdentity
  {
    forall n | 0 <= n < |news| - 1
      ensures news[..|news| - 1][..n] == news[..n] && news[..|news| - 1][n] == news[n]
    {
    }
  }

  /** From nothing a port learns the last messages of different senders. */
  lemma {:induction false} LearnsLast(capacity: nat, news: seq<Announcement>)
    requires forall r, s :: 0 <= r < s < |news| ==> news[r].Sender() != news[s].Sender()
    ensures LearnAll([], capacity, news) == Last(news, capacity)
    decreases |news|
  {
    if news != [] {
      var n := |news| - 1;
      LearnsLast(capacity, news[..n]);
      LastIsPart(news[..n], capacity);
      LastOfLast(news[..n], news[n], capacity);
      assert news == news[..n] + [news[n]];
    }
  }

  lemma LastIsPart<T(!new)>(s: seq<T>, n: nat)
    ensures forall x :: x in Last(s, n) ==> x in s
  {
  }

  lemma LastOfLast<T(!new)>(s: seq<T>, x: T, n: nat)
    ensures Last(Last(s, n) + [x], n) == Last(s + [x], n)
  {
  }

  /** Nothing is learnt from what is known. */
  lemma {:induction false} LearnsNothing(ms: seq<Announcement>, capacity: nat, news: seq<Announcement>)
    requires forall m :: m in news ==> m in ms
    ensures LearnAll(ms, capacity, news) == ms
    decreases |news|
  {
    if news != [] {
      LearnsNothing(ms, capacity, news[..|news| - 1]);
    }
  }
}
