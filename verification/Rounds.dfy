/** Rounds of announcements in a network of ports that run `doState`: in each round every
    port hears, one after the other, what the masters among the others announce. */
module Rounds {
  import opened Octets
  import opened DataSets
  import opened Comparison
  import opened ForeignMasters
  import opened BestMasterClock
  import opened Election
  import opened Protocol
  import opened TableRuns
  import opened Learning

  // ----- Who announces what

  /** What port k hears of the first n ports. */
  function Announced(nodes: seq<Clock>, k: nat, n: nat): seq<Announcement>
    requires n <= |nodes|
  {
    if n == 0 then []
    else if n - 1 == k || !nodes[n - 1].portState.Master? then Announced(nodes, k, n - 1)
    else Announced(nodes, k, n - 1) + [IssuedAnnounce(nodes[n - 1])]
  }

  ghost predicate IsAnnouncer(nodes: seq<Clock>, k: nat, j: nat, m: Announcement) {
    j < |nodes| && j != k && nodes[j].portState.Master? && m == IssuedAnnounce(nodes[j])
  }

  lemma {:induction false} AnnouncedByMasters(nodes: seq<Clock>, k: nat, n: nat)
    requires n <= |nodes|
    ensures forall m :: m in Announced(nodes, k, n) <==> exists j :: 0 <= j < n && IsAnnouncer(nodes, k, j, m)
  {
    if n > 0 {
      AnnouncedByMasters(nodes, k, n - 1);
      var last := IssuedAnnounce(nodes[n - 1]);
      forall m
        ensures m in Announced(nodes, k, n) <==> exists j :: 0 <= j < n && IsAnnouncer(nodes, k, j, m)
      {
        if j :| 0 <= j < n && IsAnnouncer(nodes, k, j, m) {
          assert j < n - 1 || (j == n - 1 && m == last);
        }
        if m in Announced(nodes, k, n) && m !in Announced(nodes, k, n - 1) {
          assert IsAnnouncer(nodes, k, n - 1, m);
        }
      }
    }
  }

  /** Initialised ports with different identities. */
  ghost predicate Different(nodes: seq<Clock>) {
    && (forall k :: 0 <= k < |nodes| ==> Started(nodes[k]))
    && forall j, k :: 0 <= j < k < |nodes| ==>
      nodes[j].defaultDS.clockIdentity != nodes[k].defaultDS.clockIdentity
  }

  lemma DifferentPorts(nodes: seq<Clock>, j: nat, k: nat)
    requires Different(nodes) && j < |nodes| && k < |nodes| && j != k
    ensures nodes[j].portIdentity != nodes[k].portIdentity
  {
    assert nodes[j].defaultDS.clockIdentity != nodes[k].defaultDS.clockIdentity;
  }

  lemma NotAnnouncedBy(nodes: seq<Clock>, k: nat, n: nat, other: nat)
    requires Different(nodes) && n <= |nodes| && other < |nodes| && (n <= other || other == k)
    ensures forall r :: 0 <= r < |Announced(nodes, k, n)| ==>
      Announced(nodes, k, n)[r].Sender() != nodes[other].portIdentity
  {
    var ms := Announced(nodes, k, n);
    AnnouncedByMasters(nodes, k, n);
    forall r | 0 <= r < |ms|
      ensures ms[r].Sender() != nodes[other].portIdentity
    {
      assert ms[r] in ms;
      var j :| 0 <= j < n && IsAnnouncer(nodes, k, j, ms[r]);
      DifferentPorts(nodes, j, other);
    }
  }

  ghost predicate DistinctSenders(ms: seq<Announcement>) {
    forall r, s :: 0 <= r < s < |ms| ==> ms[r].Sender() != ms[s].Sender()
  }

  lemma OneMoreSender(ms: seq<Announcement>, m: Announcement)
    requires DistinctSenders(ms)
    requires forall r :: 0 <= r < |ms| ==> ms[r].Sender() != m.Sender()
    ensures DistinctSenders(ms + [m])
  {
  }

  lemma {:induction false} AnnouncedAreDistinct(nodes: seq<Clock>, k: nat, n: nat)
    requires Different(nodes) && k < |nodes| && n <= |nodes|
    ensures DistinctSenders(Announced(nodes, k, n))
  {
    if n > 0 {
      AnnouncedAreDistinct(nodes, k, n - 1);
      NotAnnouncedBy(nodes, k, n - 1, n - 1);
      if n - 1 != k && nodes[n - 1].portState.Master? {
        OneMoreSender(Announced(nodes, k, n - 1), IssuedAnnounce(nodes[n - 1]));
      }
    }
  }

  /** A master announces the same as long as its configuration is the same. */
  lemma SameAnnouncement(c: Clock, c': Clock)
    requires Started(c) && Started(c') && c.recommendedState.Master? && c'.recommendedState.Master?
    requires c'.defaultDS == c.defaultDS && c'.rtOpts == c.rtOpts
    ensures IssuedAnnounce(c') == IssuedAnnounce(c)
  {
  }

  // ----- One round

  ghost predicate IsFreshMaster(c: Clock) {
    && Kept(c) && c.portState.Master? && c.recommendedState.Master?
    && c.table.count == 0 && StateDecision !in c.events
  }

  /** Masters with different identities and no records. */
  ghost predicate Masters(nodes: seq<Clock>) {
    2 <= |nodes| && Different(nodes) && forall k :: 0 <= k < |nodes| ==> IsFreshMaster(nodes[k])
  }

  /** So are ports that were powered up and heard nothing until the timeout. */
  lemma SilenceMakesMasters(c: Clock)
    requires Starting(c) && c.portState.Initializing? && !WillBeSlaveOnly(c.rtOpts)
    ensures var c' := RunPasses(c, [IDLE, IDLE.(announceExpired := true)]);
      && IsFreshMaster(c') && c'.table.capacity == c.rtOpts.maxForeignRecords
      && c'.defaultDS.clockIdentity == Eui64(c.portUuidField)
  {
    var p := IDLE.(announceExpired := true);
    var c1 := DoState(c, IDLE);
    RunOfTwoFromStart(c, IDLE, p);
    StartingBecomesKept(c, IDLE);
    assert Kept(c1) && c1.portState.Listening? && c1.table.count == 0 && c1.events == {};
    PassKeepsTable(c1, p);
    assert Served(c1, p) == c1 && DoState(c1, p) == GiveUp(c1);
  }

  lemma RunOfTwoFromStart(c: Clock, p: Pass, p': Pass)
    requires Starting(c)
    ensures Starting(DoState(c, p)) || Started(DoState(c, p))
    ensures RunPasses(c, [p, p']) == DoState(DoState(c, p), p')
  {
    StartingKept(c, p);
    RunOfOne(c, p);
    RunConcat(c, [p], [p']);
    assert [p] + [p'] == [p, p'];
    RunOfOne(DoState(c, p), p');
  }

  function RoundPasses(nodes: seq<Clock>, k: nat): seq<Pass> {
    Listen(Announced(nodes, k, |nodes|)) + [SETTLE, SETTLE]
  }

  ghost predicate Up(nodes: seq<Clock>) {
    forall k :: 0 <= k < |nodes| ==> Starting(nodes[k]) || Started(nodes[k])
  }

  /** Every port hears the masters, holds its last election and carries it out. */
  ghost function NextRound(nodes: seq<Clock>): (next: seq<Clock>)
    requires Up(nodes)
    ensures |next| == |nodes| && Up(next)
  {
    seq(|nodes|, k requires 0 <= k < |nodes| => RunPasses(nodes[k], RoundPasses(nodes, k)))
  }

  /** Any number of rounds, one after the other. */
  ghost predicate Succession(rounds: seq<seq<Clock>>) {
    && rounds != [] && (forall i :: 0 <= i < |rounds| ==> Up(rounds[i]))
    && forall i :: 0 <= i < |rounds| - 1 ==> rounds[i + 1] == NextRound(rounds[i])
  }

  lemma SettlesTwice(c: Clock, d: DefaultDS, ms: seq<Announcement>)
    requires Knows(c, d, ms)
    ensures var c' := RunPasses(c, [SETTLE, SETTLE]);
      && Knows(c', d, ms) && c'.rtOpts == c.rtOpts && StateDecision !in c'.events
      && c'.recommendedState == Decide(c).recommendedState && !c'.portState.PreMaster?
  {
    var c1 := DoState(c, SETTLE);
    Settles(c, d, ms);
    PassKeepsOptions(c, SETTLE);
    Settles(c1, d, ms);
    PassKeepsOptions(c1, SETTLE);
    RunOfTwo(c, SETTLE, SETTLE);
  }

  /** A port at the end of its round is what its last election makes of what it has learnt. */
  lemma RoundEnds(c: Clock, d: DefaultDS, ms: seq<Announcement>, news: seq<Announcement>)
    requires Knows(c, d, ms) && CanLearn(c, ms, news)
    ensures var c1, c' := RunPasses(c, Listen(news)), RunPasses(c, Listen(news) + [SETTLE, SETTLE]);
      && Knows(c', d, LearnAll(ms, c.table.capacity, news)) && c'.rtOpts == c.rtOpts && StateDecision !in c'.events
      && c'.recommendedState == Decide(c1).recommendedState && !c'.portState.PreMaster?
  {
    Learns(c, d, ms, news);
    SettlesTwice(RunPasses(c, Listen(news)), d, LearnAll(ms, c.table.capacity, news));
    RunConcat(c, Listen(news), [SETTLE, SETTLE]);
  }

  // ----- The first round

  /** Port k is preferred to one of those that it has heard last, as many as it has room for. */
  ghost predicate BeatsLast(nodes: seq<Clock>, k: nat)
    requires k < |nodes|
  {
    exists j, m :: 0 <= j < |nodes| && IsAnnouncer(nodes, k, j, m)
      && m in Last(Announced(nodes, k, |nodes|), nodes[k].table.capacity)
      && Preferred(nodes[k].defaultDS, nodes[j].defaultDS)
  }

  lemma FreshMasterKnowsNothing(nodes: seq<Clock>, k: nat)
    requires Masters(nodes) && k < |nodes|
    ensures Knows(nodes[k], nodes[k].defaultDS, [])
    ensures IsD0(IssuedAnnounce(nodes[k]), nodes[k].defaultDS)
  {
  }

  lemma FirstRoundIsLearnt(nodes: seq<Clock>, k: nat)
    requires Masters(nodes) && k < |nodes|
    ensures var news, capacity := Announced(nodes, k, |nodes|), nodes[k].table.capacity;
      CanLearn(nodes[k], [], news) && LearnAll([], capacity, news) == Last(news, capacity)
  {
    AnnouncedAreDistinct(nodes, k, |nodes|);
    NotAnnouncedBy(nodes, k, |nodes|, k);
    LearnsDistinct(nodes[k], Announced(nodes, k, |nodes|));
  }

  lemma LearnsDistinct(c: Clock, news: seq<Announcement>)
    requires Started(c) && DistinctSenders(news)
    requires forall r :: 0 <= r < |news| ==> news[r].Sender() != c.portIdentity
    ensures CanLearn(c, [], news) && LearnAll([], c.table.capacity, news) == Last(news, c.table.capacity)
  {
    LearnsLast(c.table.capacity, news);
    forall n | 0 <= n < |news|
      ensures Agrees(LearnAll([], c.table.capacity, news[..n]), news[n])
    {
      AgreesWhenNew(news, n, c.table.capacity);
    }
  }

  lemma AgreesWhenNew(news: seq<Announcement>, n: nat, capacity: nat)
    requires DistinctSenders(news) && n < |news|
    ensures Agrees(LearnAll([], capacity, news[..n]), news[n])
  {
    LearnsLast(capacity, news[..n]);
    LastIsPart(news[..n], capacity);
    NewAfter(news, n, Last(news[..n], capacity));
  }

  lemma NewAfter(news: seq<Announcement>, n: nat, ms: seq<Announcement>)
    requires DistinctSenders(news) && n < |news| && forall m :: m in ms ==> m in news[..n]
    ensures !SentBy(ms, news[n].Sender())
  {
    forall r | 0 <= r < |ms|
      ensures ms[r].Sender() != news[n].Sender()
    {
      assert ms[r] in news[..n];
    }
  }

  function DefaultDSs(nodes: seq<Clock>): (clocks: seq<DefaultDS>)
    ensures |clocks| == |nodes|
  {
    seq(|nodes|, k requires 0 <= k < |nodes| => nodes[k].defaultDS)
  }

  lemma MastersAreNetwork(nodes: seq<Clock>)
    requires Masters(nodes)
    ensures Network(DefaultDSs(nodes))
  {
  }

  /** What is on record is what the ports heard last have announced. */
  lemma OnRecord(nodes: seq<Clock>, k: nat, c: Clock, ms: seq<Announcement>)
    requires Masters(nodes) && k < |nodes| && Knows(c, nodes[k].defaultDS, ms)
    requires forall m :: m in ms ==> m in Announced(nodes, k, |nodes|)
    ensures Remembers(c, DefaultDSs(nodes), k)
  {
    var clocks := DefaultDSs(nodes);
    AnnouncedByMasters(nodes, k, |nodes|);
    forall r | 0 <= r < c.table.count
      ensures IsOthersD0(c.table.Live()[r], clocks, k)
    {
      LiveMessages(c.table, r);
      var m := c.table.records[r].Message();
      var j :| 0 <= j < |nodes| && IsAnnouncer(nodes, k, j, m);
      FreshMasterKnowsNothing(nodes, j);
      assert IsD0(m, clocks[j]);
    }
  }

  /** A clock is announced by the records of a port exactly if its message is among them. */
  lemma AnnouncedOnRecord(nodes: seq<Clock>, k: nat, c: Clock, ms: seq<Announcement>, j: nat)
    requires Masters(nodes) && k < |nodes| && Knows(c, nodes[k].defaultDS, ms)
    requires forall m :: m in ms ==> m in Announced(nodes, k, |nodes|)
    requires j < |nodes| && j != k
    ensures Announces(c.table.Live(), nodes[j].defaultDS) <==> IssuedAnnounce(nodes[j]) in ms
  {
    var live, m := c.table.Live(), IssuedAnnounce(nodes[j]);
    AnnouncedByMasters(nodes, k, |nodes|);
    FreshMasterKnowsNothing(nodes, j);
    assert |c.table.Queue()| == c.table.count;
    if m in ms {
      var s :| 0 <= s < |ms| && ms[s] == m;
      LiveMessages(c.table, s);
      var r :| 0 <= r < |live| && live[r] == m;
      assert IsD0(live[r], nodes[j].defaultDS);
    }
    if r :| 0 <= r < |live| && IsD0(live[r], nodes[j].defaultDS) {
      LiveMessages(c.table, r);
      var i :| 0 <= i < |nodes| && IsAnnouncer(nodes, k, i, live[r]);
      FreshMasterKnowsNothing(nodes, i);
      assert i < j || i == j || j < i;
    }
  }

  lemma LastDecision(c: Clock)
    requires Started(c) && !IsSlaveOnly(c) && Active(c.portState) && StateDecision in c.events
    ensures Decide(c).recommendedState == c.Bmc().1
  {
  }

  lemma FirstRoundHeard(nodes: seq<Clock>, k: nat)
    requires Masters(nodes) && k < |nodes|
    ensures Announced(nodes, k, |nodes|) != [] && Last(Announced(nodes, k, |nodes|), nodes[k].table.capacity) != []
  {
    var other := if k == 0 then 1 else 0;
    AnnouncedByMasters(nodes, k, |nodes|);
    assert IsAnnouncer(nodes, k, other, IssuedAnnounce(nodes[other]));
  }

  /** What the last election of port k decides on what it has heard last. */
  lemma ElectionOfLast(nodes: seq<Clock>, k: nat, c: Clock)
    requires Masters(nodes) && k < |nodes| && StateDecision in c.events
    requires Knows(c, nodes[k].defaultDS, Last(Announced(nodes, k, |nodes|), nodes[k].table.capacity))
    ensures Decide(c).recommendedState == if BeatsLast(nodes, k) then Master else Loser(nodes[k].defaultDS)
  {
    var clocks, ms := DefaultDSs(nodes), Last(Announced(nodes, k, |nodes|), nodes[k].table.capacity);
    FirstRoundHeard(nodes, k);
    LastIsPart(Announced(nodes, k, |nodes|), nodes[k].table.capacity);
    MastersAreNetwork(nodes);
    OnRecord(nodes, k, c, ms);
    assert |c.table.Queue()| == c.table.count;
    LastDecision(c);
    DecisionOnPart(c, clocks, k);
    BeatsLastIsRemembered(nodes, k, c, ms);
  }

  lemma BeatsLastIsRemembered(nodes: seq<Clock>, k: nat, c: Clock, ms: seq<Announcement>)
    requires Masters(nodes) && k < |nodes| && Knows(c, nodes[k].defaultDS, ms)
    requires ms == Last(Announced(nodes, k, |nodes|), nodes[k].table.capacity)
    ensures BeatsRemembered(c, DefaultDSs(nodes), k) <==> BeatsLast(nodes, k)
  {
    var clocks := DefaultDSs(nodes);
    LastIsPart(Announced(nodes, k, |nodes|), nodes[k].table.capacity);
    if j :| 0 <= j < |clocks| && j != k && Announces(c.table.Live(), clocks[j]) && Preferred(clocks[k], clocks[j]) {
      AnnouncedOnRecord(nodes, k, c, ms, j);
      assert IsAnnouncer(nodes, k, j, IssuedAnnounce(nodes[j]));
    }
    if j, m :| 0 <= j < |nodes| && IsAnnouncer(nodes, k, j, m) && m in ms
               && Preferred(nodes[k].defaultDS, nodes[j].defaultDS) {
      AnnouncedOnRecord(nodes, k, c, ms, j);
      assert Announces(c.table.Live(), clocks[j]) && Preferred(clocks[k], clocks[j]);
    }
  }

  /** Port k comes out of the first round as master if it is preferred to one of those that it
      has heard last, and otherwise passive or following one of them, however many ports there
      are and however few records it has room for. */
  lemma RoundDecides(nodes: seq<Clock>, k: nat)
    requires Masters(nodes) && k < |nodes|
    ensures var c := NextRound(nodes)[k];
      && Knows(c, nodes[k].defaultDS, Last(Announced(nodes, k, |nodes|), nodes[k].table.capacity))
      && c.rtOpts == nodes[k].rtOpts && StateDecision !in c.events
      && c.recommendedState == (if BeatsLast(nodes, k) then Master else Loser(nodes[k].defaultDS))
      && CarriesOut(c.portState, c.recommendedState) && !c.portState.PreMaster?
  {
    var d, news := nodes[k].defaultDS, Announced(nodes, k, |nodes|);
    FreshMasterKnowsNothing(nodes, k);
    FirstRoundIsLearnt(nodes, k);
    FirstRoundHeard(nodes, k);
    Learns(nodes[k], d, [], news);
    RoundEnds(nodes[k], d, [], news);
    ElectionOfLast(nodes, k, RunPasses(nodes[k], Listen(news)));
  }

  // ----- With room for all

  ghost predicate HasRoom(nodes: seq<Clock>) {
    forall k :: 0 <= k < |nodes| ==> |nodes| - 1 <= nodes[k].table.capacity
  }

  /** What the election among all clocks decides for port k. */
  function Outcome(nodes: seq<Clock>, k: nat): PortState
    requires k < |nodes|
  {
    if exists j :: 0 <= j < |nodes| && j != k && Preferred(nodes[k].defaultDS, nodes[j].defaultDS) then Master
    else Loser(nodes[k].defaultDS)
  }

  lemma {:induction false} AnnouncedAtMost(nodes: seq<Clock>, k: nat, n: nat)
    requires n <= |nodes|
    ensures |Announced(nodes, k, n)| <= if k < n then n - 1 else n
  {
    if n > 0 {
      AnnouncedAtMost(nodes, k, n - 1);
    }
  }

  lemma AllIsLast(nodes: seq<Clock>, k: nat)
    requires Masters(nodes) && HasRoom(nodes) && k < |nodes|
    ensures Last(Announced(nodes, k, |nodes|), nodes[k].table.capacity) == Announced(nodes, k, |nodes|)
    ensures Outcome(nodes, k) == if BeatsLast(nodes, k) then Master else Loser(nodes[k].defaultDS)
  {
    AnnouncedAtMost(nodes, k, |nodes|);
    AnnouncedByMasters(nodes, k, |nodes|);
    if j :| 0 <= j < |nodes| && j != k && Preferred(nodes[k].defaultDS, nodes[j].defaultDS) {
      assert IsAnnouncer(nodes, k, j, IssuedAnnounce(nodes[j]));
    }
  }

  /** A port that has settled in the state that the election among all clocks decides. */
  ghost predicate SteadyPort(start: seq<Clock>, k: nat, c: Clock)
    requires k < |start|
  {
    && Knows(c, start[k].defaultDS, Announced(start, k, |start|))
    && c.rtOpts == start[k].rtOpts && StateDecision !in c.events
    && c.recommendedState == Outcome(start, k) && !c.portState.PreMaster?
  }

  ghost predicate Steady(start: seq<Clock>, nodes: seq<Clock>) {
    |nodes| == |start| && forall k :: 0 <= k < |nodes| ==> SteadyPort(start, k, nodes[k])
  }

  lemma FirstRoundIsSteady(nodes: seq<Clock>)
    requires Masters(nodes) && HasRoom(nodes)
    ensures Steady(nodes, NextRound(nodes))
  {
    forall k | 0 <= k < |nodes|
      ensures SteadyPort(nodes, k, NextRound(nodes)[k])
    {
      RoundDecides(nodes, k);
      AllIsLast(nodes, k);
    }
  }

  lemma OutcomeIsElected(start: seq<Clock>, k: nat, c: Clock)
    requires Masters(start) && HasRoom(start) && k < |start| && StateDecision in c.events
    requires Knows(c, start[k].defaultDS, Announced(start, k, |start|))
    ensures Decide(c).recommendedState == Outcome(start, k)
  {
    AllIsLast(start, k);
    ElectionOfLast(start, k, c);
  }

  /** All that a master announces later has been announced in the first round. */
  lemma NothingNewAnnounced(start: seq<Clock>, nodes: seq<Clock>, k: nat)
    requires Masters(start) && Steady(start, nodes) && k < |nodes|
    ensures forall m :: m in Announced(nodes, k, |nodes|) ==> m in Announced(start, k, |start|)
  {
    AnnouncedByMasters(nodes, k, |nodes|);
    AnnouncedByMasters(start, k, |start|);
    forall m | m in Announced(nodes, k, |nodes|)
      ensures m in Announced(start, k, |start|)
    {
      var j :| 0 <= j < |nodes| && IsAnnouncer(nodes, k, j, m);
      assert SteadyPort(start, j, nodes[j]);
      SameAnnouncement(start[j], nodes[j]);
      assert IsAnnouncer(start, k, j, m);
    }
  }

  lemma CanLearnNothing(c: Clock, ms: seq<Announcement>, news: seq<Announcement>)
    requires Started(c) && forall m :: m in news ==> m in ms && m.Sender() != c.portIdentity
    ensures CanLearn(c, ms, news) && LearnAll(ms, c.table.capacity, news) == ms
  {
    LearnsNothing(ms, c.table.capacity, news);
    forall n | 0 <= n < |news|
      ensures Agrees(LearnAll(ms, c.table.capacity, news[..n]), news[n])
    {
      LearnsNothing(ms, c.table.capacity, news[..n]);
    }
  }

  lemma NoneIsOwn(start: seq<Clock>, nodes: seq<Clock>, k: nat)
    requires Masters(start) && Steady(start, nodes) && k < |nodes|
    ensures forall m :: m in Announced(start, k, |start|) ==> m.Sender() != nodes[k].portIdentity
  {
    NotAnnouncedBy(start, k, |start|, k);
    assert SteadyPort(start, k, nodes[k]);
    SamePort(start[k], nodes[k]);
  }

  lemma PortStaysSteady(start: seq<Clock>, nodes: seq<Clock>, k: nat)
    requires Masters(start) && HasRoom(start) && Steady(start, nodes) && k < |nodes|
    ensures Started(nodes[k]) && SteadyPort(start, k, RunPasses(nodes[k], RoundPasses(nodes, k)))
  {
    var c, d, ms, news := nodes[k], start[k].defaultDS, Announced(start, k, |start|), Announced(nodes, k, |nodes|);
    assert SteadyPort(start, k, c);
    NothingNewAnnounced(start, nodes, k);
    NoneIsOwn(start, nodes, k);
    CanLearnNothing(c, ms, news);
    Learns(c, d, ms, news);
    RoundEnds(c, d, ms, news);
    if news != [] {
      OutcomeIsElected(start, k, RunPasses(c, Listen(news)));
    } else {
      assert Decide(c) == c;
    }
  }

  lemma RoundStaysSteady(start: seq<Clock>, nodes: seq<Clock>)
    requires Masters(start) && HasRoom(start) && Steady(start, nodes) && Up(nodes)
    ensures Steady(start, NextRound(nodes))
  {
    forall k | 0 <= k < |nodes|
      ensures SteadyPort(start, k, NextRound(nodes)[k])
    {
      PortStaysSteady(start, nodes, k);
    }
  }

  lemma NextIsSteady(start: seq<Clock>, before: seq<Clock>, after: seq<Clock>)
    requires Masters(start) && HasRoom(start) && (before == start || Steady(start, before))
    requires Up(before) && after == NextRound(before)
    ensures Steady(start, after)
  {
    if before == start {
      FirstRoundIsSteady(start);
    } else {
      RoundStaysSteady(start, before);
    }
  }

  /** The first round settles the network for good. */
  lemma {:induction false} RoundsAreSteady(rounds: seq<seq<Clock>>, i: nat)
    requires Succession(rounds) && Masters(rounds[0]) && HasRoom(rounds[0]) && 1 <= i < |rounds|
    ensures Steady(rounds[0], rounds[i])
    decreases i
  {
    if 1 < i {
      RoundsAreSteady(rounds, i - 1);
    }
    NextIsSteady(rounds[0], rounds[i - 1], rounds[i]);
  }

  /** One clock is not preferred to any other. */
  lemma OneIsLeast(nodes: seq<Clock>) returns (w: nat)
    requires Masters(nodes)
    ensures w < |nodes|
    ensures forall k :: 0 <= k < |nodes| ==> (Outcome(nodes, k) == Master <==> k != w)
  {
    var clocks := DefaultDSs(nodes);
    MastersAreNetwork(nodes);
    w := Extreme(clocks, false, |clocks|);
    forall k | 0 <= k < |nodes|
      ensures Outcome(nodes, k) == Master <==> k != w
    {
      if k == w {
        forall j | 0 <= j < |nodes| && j != w
          ensures !Preferred(nodes[w].defaultDS, nodes[j].defaultDS)
        {
          NotBoth(clocks, j, w);
        }
      } else {
        assert Preferred(nodes[k].defaultDS, nodes[w].defaultDS) by {
          assert Preferred(clocks[k], clocks[w]);
        }
      }
    }
  }

  lemma SteadyState(start: seq<Clock>, k: nat, c: Clock)
    requires k < |start| && SteadyPort(start, k, c)
    ensures if Outcome(start, k) == Master then c.portState == Master
            else c.portState != Master && CarriesOut(c.portState, Loser(start[k].defaultDS))
  {
  }

  /** All ports but one are master; that one is passive, or follows one of the others. */
  ghost predicate AllMasterBut(start: seq<Clock>, w: nat, nodes: seq<Clock>) {
    && w < |start| == |nodes|
    && (forall k :: 0 <= k < |nodes| ==> (nodes[k].portState == Master <==> k != w))
    && CarriesOut(nodes[w].portState, Loser(start[w].defaultDS))
  }

  lemma SteadySparesOne(start: seq<Clock>, w: nat, nodes: seq<Clock>)
    requires Steady(start, nodes) && w < |start|
    requires forall k :: 0 <= k < |start| ==> (Outcome(start, k) == Master <==> k != w)
    ensures AllMasterBut(start, w, nodes)
  {
    forall k | 0 <= k < |nodes|
      ensures nodes[k].portState == Master <==> k != w
      ensures k == w ==> CarriesOut(nodes[k].portState, Loser(start[k].defaultDS))
    {
      assert SteadyPort(start, k, nodes[k]);
      SteadyState(start, k, nodes[k]);
    }
  }

  /** After any number of rounds, from the first on, it is the same port that is not master: the
      one whose clock all others are preferred to. */
  lemma RoundsSpareOneClock(rounds: seq<seq<Clock>>) returns (w: nat)
    requires Succession(rounds) && Masters(rounds[0]) && HasRoom(rounds[0])
    ensures forall i :: 1 <= i < |rounds| ==> AllMasterBut(rounds[0], w, rounds[i])
  {
    w := OneIsLeast(rounds[0]);
    forall i | 1 <= i < |rounds|
      ensures AllMasterBut(rounds[0], w, rounds[i])
    {
      RoundsAreSteady(rounds, i);
      SteadySparesOne(rounds[0], w, rounds[i]);
    }
  }

  lemma OneMasterOfTwo(start: seq<Clock>, w: nat, nodes: seq<Clock>)
    requires AllMasterBut(start, w, nodes) && 2 <= |nodes|
    ensures OneMaster(seq(|nodes|, k requires 0 <= k < |nodes| => nodes[k].portState)) <==> |nodes| == 2
  {
    AllButOneMaster(seq(|nodes|, k requires 0 <= k < |nodes| => nodes[k].portState), w);
  }

  /** So rounds of announcements among masters leave one of them exactly when there are two. */
  lemma RoundsLeaveOneMasterOnlyOfTwo(rounds: seq<seq<Clock>>, i: nat)
    requires Succession(rounds) && Masters(rounds[0]) && HasRoom(rounds[0]) && 1 <= i < |rounds|
    ensures var nodes := rounds[i];
      OneMaster(seq(|nodes|, k requires 0 <= k < |nodes| => nodes[k].portState)) <==> |rounds[0]| == 2
  {
    var w := RoundsSpareOneClock(rounds);
    assert AllMasterBut(rounds[0], w, rounds[i]);
    OneMasterOfTwo(rounds[0], w, rounds[i]);
  }
}
