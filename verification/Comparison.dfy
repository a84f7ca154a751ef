/** Data set comparison between two announcements (`bmcDataSetComparison`; section 9.3.4 of
    IEEE Std 1588-2008, Figures 27 and 28), and when it is an order. */
module Comparison {
  import opened Octets
  import opened DataSets

  const A_BETTER: int := 1
  const B_BETTER: int := -1
  const ERROR: int := 0

  /** The smaller field is the better one; 0 leaves the decision to the next field. */
  function BetterField(a: int, b: int): int {
    if a > b then B_BETTER else if b > a then A_BETTER else 0
  }

  /** Figure 27: different grandmasters. */
  function CompareGrandmasters(a: MsgAnnounce, b: MsgAnnounce, identities: int): int {
    var priority1 := BetterField(a.grandmasterPriority1, b.grandmasterPriority1);
    if priority1 != 0 then priority1 else
    var clockClass := BetterField(a.grandmasterClockQuality.clockClass, b.grandmasterClockQuality.clockClass);
    if clockClass != 0 then clockClass else
    var accuracy := BetterField(a.grandmasterClockQuality.clockAccuracy, b.grandmasterClockQuality.clockAccuracy);
    if accuracy != 0 then accuracy else
    var variance := BetterField(a.grandmasterClockQuality.offsetScaledLogVariance,
                                b.grandmasterClockQuality.offsetScaledLogVariance);
    if variance != 0 then variance else
    var priority2 := BetterField(a.grandmasterPriority2, b.grandmasterPriority2);
    if priority2 != 0 then priority2 else
    if identities > 0 then B_BETTER else A_BETTER
  }

  /** Figure 28: the same grandmaster seen along two paths. When the paths differ by one
      step, the farther sender is compared with the receiver; either way the nearer one
      wins, unless the farther sender is the receiver itself. */
  function CompareTopology(a: Announcement, b: Announcement, receiver: ClockIdentity): int {
    var stepsA: int, stepsB: int := a.announce.stepsRemoved, b.announce.stepsRemoved;
    if stepsA > stepsB + 1 then B_BETTER
    else if stepsB > stepsA + 1 then A_BETTER
    else if stepsA > stepsB then
      var comp := Memcmp(a.Sender().clockIdentity, receiver);
      if comp > 0 then B_BETTER else if comp < 0 then B_BETTER else ERROR
    else if stepsA < stepsB then
      var comp := Memcmp(b.Sender().clockIdentity, receiver);
      if comp > 0 then A_BETTER else if comp < 0 then A_BETTER else ERROR
    else
      var comp := Memcmp(a.Sender().clockIdentity, b.Sender().clockIdentity);
      if comp > 0 then B_BETTER else if comp < 0 then A_BETTER else ERROR
  }

  /** Positive when `a` is better, negative when `b` is. */
  function Compare(a: Announcement, b: Announcement, receiver: ClockIdentity): int {
    var identities := Memcmp(a.announce.grandmasterIdentity, b.announce.grandmasterIdentity);
    if identities != 0 then CompareGrandmasters(a.announce, b.announce, identities)
    else CompareTopology(a, b, receiver)
  }

  // ----- What holds of every pair of announcements

  /** The farther of two announcements that are one step apart comes from the receiver. */
  predicate FartherIsReceiver(a: Announcement, b: Announcement, receiver: ClockIdentity) {
    || (a.announce.stepsRemoved == b.announce.stepsRemoved + 1 && a.Sender().clockIdentity == receiver)
    || (b.announce.stepsRemoved == a.announce.stepsRemoved + 1 && b.Sender().clockIdentity == receiver)
  }

  lemma CompareIsAntisymmetric(a: Announcement, b: Announcement, receiver: ClockIdentity)
    ensures Compare(a, b, receiver) == -Compare(b, a, receiver)
    ensures Compare(a, b, receiver) in {A_BETTER, B_BETTER, ERROR}
  {
    MemcmpFlips(a.announce.grandmasterIdentity, b.announce.grandmasterIdentity);
    MemcmpFlips(a.Sender().clockIdentity, b.Sender().clockIdentity);
  }

  /** No decision is reached exactly for the same grandmaster, and then only from the same
      sender at the same distance, or when the farther sender is the receiver. */
  lemma CompareIsZero(a: Announcement, b: Announcement, receiver: ClockIdentity)
    ensures Compare(a, b, receiver) == 0 <==>
      && a.announce.grandmasterIdentity == b.announce.grandmasterIdentity
      && (|| (a.announce.stepsRemoved == b.announce.stepsRemoved
              && a.Sender().clockIdentity == b.Sender().clockIdentity)
          || FartherIsReceiver(a, b, receiver))
  {
    MemcmpZero(a.announce.grandmasterIdentity, b.announce.grandmasterIdentity);
    MemcmpZero(a.Sender().clockIdentity, b.Sender().clockIdentity);
    MemcmpZero(a.Sender().clockIdentity, receiver);
    MemcmpZero(b.Sender().clockIdentity, receiver);
  }

  // ----- The comparison as a lexicographic order

  /** The five advertised attributes of the grandmaster, most significant first. */
  function Attributes(a: MsgAnnounce): (s: seq<int>)
    ensures |s| == 5
  {
    [a.grandmasterPriority1, a.grandmasterClockQuality.clockClass, a.grandmasterClockQuality.clockAccuracy,
     a.grandmasterClockQuality.offsetScaledLogVariance, a.grandmasterPriority2]
  }

  /** The sort key; the smaller key is the better announcement. */
  function Key(m: Announcement): (s: seq<int>)
    ensures |s| == 22
  {
    GrandmasterKey(m.announce) + PathKey(m)
  }

  function GrandmasterKey(a: MsgAnnounce): (s: seq<int>)
    ensures |s| == 13
  {
    Attributes(a) + a.grandmasterIdentity
  }

  function PathKey(m: Announcement): (s: seq<int>)
    ensures |s| == 9
  {
    [m.announce.stepsRemoved] + m.Sender().clockIdentity
  }

  /** Announcements of one grandmaster agree on what they say about it. */
  predicate Coherent(a: Announcement, b: Announcement) {
    a.announce.grandmasterIdentity == b.announce.grandmasterIdentity ==>
      Attributes(a.announce) == Attributes(b.announce)
  }

  /** An announcement that claims to come, over at least one hop, from the receiver. */
  predicate Echo(m: Announcement, receiver: ClockIdentity) {
    m.announce.stepsRemoved > 0 && m.Sender().clockIdentity == receiver
  }

  lemma AttributesDecideInOrder(a: MsgAnnounce, b: MsgAnnounce)
    ensures var identities := Memcmp(a.grandmasterIdentity, b.grandmasterIdentity);
      identities != 0 ==> CompareGrandmasters(a, b, identities) == -Memcmp(GrandmasterKey(a), GrandmasterKey(b))
  {
    var (x, y) := (Attributes(a), Attributes(b));
    MemcmpConcat(x, y, a.grandmasterIdentity, b.grandmasterIdentity);
    MemcmpFive(x, y);
  }

  lemma MemcmpFive(x: seq<int>, y: seq<int>)
    requires |x| == |y| == 5
    ensures Memcmp(x, y) == -(
      if x[0] != y[0] then BetterField(x[0], y[0])
      else if x[1] != y[1] then BetterField(x[1], y[1])
      else if x[2] != y[2] then BetterField(x[2], y[2])
      else if x[3] != y[3] then BetterField(x[3], y[3])
      else BetterField(x[4], y[4]))
  {
    assert x[1..][1..] == x[2..] && y[1..][1..] == y[2..];
    assert x[2..][1..] == x[3..] && y[2..][1..] == y[3..];
    assert x[3..][1..] == x[4..] && y[3..][1..] == y[4..];
    assert x[4..][1..] == [] && y[4..][1..] == [];
    assert Memcmp(x[4..], y[4..]) == -BetterField(x[4], y[4]);
    assert Memcmp(x[3..], y[3..]) == if x[3] != y[3] then -BetterField(x[3], y[3]) else Memcmp(x[4..], y[4..]);
    assert Memcmp(x[2..], y[2..]) == if x[2] != y[2] then -BetterField(x[2], y[2]) else Memcmp(x[3..], y[3..]);
    assert Memcmp(x[1..], y[1..]) == if x[1] != y[1] then -BetterField(x[1], y[1]) else Memcmp(x[2..], y[2..]);
  }

  lemma PathsDecideInOrder(a: Announcement, b: Announcement, receiver: ClockIdentity)
    ensures CompareTopology(a, b, receiver) ==
      if FartherIsReceiver(a, b, receiver) then 0 else -Memcmp(PathKey(a), PathKey(b))
    ensures FartherIsReceiver(a, b, receiver) ==> Memcmp(PathKey(a), PathKey(b)) != 0
  {
    var (x, y) := ([a.announce.stepsRemoved], [b.announce.stepsRemoved]);
    MemcmpConcat(x, y, a.Sender().clockIdentity, b.Sender().clockIdentity);
    assert x[1..] == [] && y[1..] == [];
    MemcmpZero(a.Sender().clockIdentity, receiver);
    MemcmpZero(b.Sender().clockIdentity, receiver);
  }

  /** Whatever else the messages say: different grandmasters are compared by their attributes
      and then by identity, and two paths to one grandmaster by distance and then by sender,
      unless the farther of two paths one step apart is an echo. */
  lemma CompareByKeys(a: Announcement, b: Announcement, receiver: ClockIdentity)
    ensures a.announce.grandmasterIdentity != b.announce.grandmasterIdentity ==>
      Compare(a, b, receiver) == -Memcmp(GrandmasterKey(a.announce), GrandmasterKey(b.announce)) != 0
    ensures a.announce.grandmasterIdentity == b.announce.grandmasterIdentity ==>
      Compare(a, b, receiver) == if FartherIsReceiver(a, b, receiver) then 0 else -Memcmp(PathKey(a), PathKey(b))
  {
    var (x, y) := (a.announce, b.announce);
    MemcmpZero(x.grandmasterIdentity, y.grandmasterIdentity);
    MemcmpZero(GrandmasterKey(x), GrandmasterKey(y));
    AttributesDecideInOrder(x, y);
    PathsDecideInOrder(a, b, receiver);
    assert GrandmasterKey(x)[5..] == x.grandmasterIdentity && GrandmasterKey(y)[5..] == y.grandmasterIdentity;
  }

  /** The one case in which the order is lost: two paths to one grandmaster, one step apart,
      the farther of which is an echo. */
  predicate HiddenByEcho(a: Announcement, b: Announcement, receiver: ClockIdentity) {
    a.announce.grandmasterIdentity == b.announce.grandmasterIdentity && FartherIsReceiver(a, b, receiver)
  }

  /** Between coherent announcements the comparison is the sign of comparing the keys, unless
      an echo hides the order; then it decides nothing, but never the wrong way. */
  lemma CompareRefinesKeyOrder(a: Announcement, b: Announcement, receiver: ClockIdentity)
    requires Coherent(a, b)
    ensures Compare(a, b, receiver) == -Memcmp(Key(a), Key(b)) <==> !HiddenByEcho(a, b, receiver)
    ensures HiddenByEcho(a, b, receiver) ==> Compare(a, b, receiver) == 0
  {
    var (x, y) := (a.announce, b.announce);
    MemcmpConcat(GrandmasterKey(x), GrandmasterKey(y), PathKey(a), PathKey(b));
    MemcmpZero(GrandmasterKey(x), GrandmasterKey(y));
    CompareByKeys(a, b, receiver);
    PathsDecideInOrder(a, b, receiver);
    assert GrandmasterKey(x)[5..] == x.grandmasterIdentity && GrandmasterKey(y)[5..] == y.grandmasterIdentity;
  }

  /** A set of announcements on which the comparison is an order. */
  ghost predicate Orderly(ms: seq<Announcement>, receiver: ClockIdentity) {
    && (forall i, j :: 0 <= i < |ms| && 0 <= j < |ms| ==> Coherent(ms[i], ms[j]))
    && (forall i :: 0 <= i < |ms| ==> !Echo(ms[i], receiver))
  }

  /** It is then a strict weak order: not being better is transitive, and a tie along a
      chain needs ties all along it. */
  lemma CompareIsWeakOrder(a: Announcement, b: Announcement, c: Announcement, receiver: ClockIdentity)
    requires Orderly([a, b, c], receiver)
    requires Compare(a, b, receiver) >= 0 && Compare(b, c, receiver) >= 0
    ensures Compare(a, c, receiver) >= 0
    ensures Compare(a, c, receiver) == 0 ==> Compare(a, b, receiver) == 0 && Compare(b, c, receiver) == 0
  {
    var ms := [a, b, c];
    assert Coherent(ms[0], ms[1]) && Coherent(ms[1], ms[2]) && Coherent(ms[0], ms[2]);
    assert !Echo(ms[0], receiver) && !Echo(ms[1], receiver) && !Echo(ms[2], receiver);
    CompareRefinesKeyOrder(a, b, receiver);
    CompareRefinesKeyOrder(b, c, receiver);
    CompareRefinesKeyOrder(a, c, receiver);
    MemcmpTransitive(Key(a), Key(b), Key(c));
  }

  // ----- Where it is not an order

  /** The same message as heard over another path. */
  function Via(m: Announcement, steps: UInt16, sender: ClockIdentity): Announcement {
    Announcement(
      m.header.(sourcePortIdentity := m.header.sourcePortIdentity.(clockIdentity := sender)),
      m.announce.(stepsRemoved := steps))
  }

  ghost predicate Cycle(a: Announcement, b: Announcement, c: Announcement, receiver: ClockIdentity) {
    Compare(a, b, receiver) > 0 && Compare(b, c, receiver) > 0 && Compare(c, a, receiver) > 0
  }

  /** Two messages that never take part in a cycle of preferences, whatever path they are
      heard over and whatever third, coherent message is heard beside them, echoes included. */
  ghost predicate NeverCyclic(a: Announcement, b: Announcement, receiver: ClockIdentity) {
    forall stepsA, stepsB, senderA, senderB, c ::
      var (a', b') := (Via(a, stepsA, senderA), Via(b, stepsB, senderB));
      Coherent(a, c) && Coherent(b, c) ==> !Cycle(a', c, b', receiver) && !Cycle(b', c, a', receiver)
  }

  /** Coherence is exactly what rules cycles out: whenever two messages disagree about a
      grandmaster, there are paths for them and a third message that close a cycle. */
  lemma NeverCyclicIffCoherent(a: Announcement, b: Announcement, receiver: ClockIdentity)
    ensures NeverCyclic(a, b, receiver) <==> Coherent(a, b)
  {
    if Coherent(a, b) {
      forall stepsA, stepsB, senderA, senderB, c | Coherent(a, c) && Coherent(b, c)
        ensures !Cycle(Via(a, stepsA, senderA), c, Via(b, stepsB, senderB), receiver)
        ensures !Cycle(Via(b, stepsB, senderB), c, Via(a, stepsA, senderA), receiver)
      {
        var (a', b') := (Via(a, stepsA, senderA), Via(b, stepsB, senderB));
        NoCycle(a', c, b', receiver);
        NoCycle(b', c, a', receiver);
      }
    } else {
      MemcmpZero(Attributes(a.announce), Attributes(b.announce));
      MemcmpFlips(Attributes(a.announce), Attributes(b.announce));
      if Memcmp(Attributes(a.announce), Attributes(b.announce)) < 0 {
        var near, far, third := IncoherenceMakesCycle(a, b, receiver);
      } else {
        var near, far, third := IncoherenceMakesCycle(b, a, receiver);
      }
    }
  }

  lemma NoCycle(a: Announcement, b: Announcement, c: Announcement, receiver: ClockIdentity)
    requires Coherent(a, b) && Coherent(b, c) && Coherent(a, c)
    ensures !Cycle(a, b, c, receiver)
  {
    CompareRefinesKeyOrder(a, b, receiver);
    CompareRefinesKeyOrder(b, c, receiver);
    CompareRefinesKeyOrder(c, a, receiver);
    if Cycle(a, b, c, receiver) {
      MemcmpTransitive(Key(a), Key(b), Key(c));
      MemcmpFlips(Key(a), Key(c));
    }
  }

  /** Any other clock identity. */
  function Other(id: ClockIdentity): (r: ClockIdentity)
    ensures r != id
  {
    var r: ClockIdentity := id[0 := if id[0] == 0 then 1 else 0];
    assert r[0] != id[0];
    r
  }

  /** `a` says better things of a grandmaster than `b` does, but is heard from farther
      away. A third grandmaster fits between the two claims and closes the cycle. */
  lemma IncoherenceMakesCycle(a: Announcement, b: Announcement, receiver: ClockIdentity)
    returns (far: Announcement, near: Announcement, third: Announcement)
    requires a.announce.grandmasterIdentity == b.announce.grandmasterIdentity
    requires Memcmp(Attributes(a.announce), Attributes(b.announce)) < 0
    ensures far == Via(a, 2, Other(receiver)) && near == Via(b, 0, Other(receiver))
    ensures Coherent(a, third) && Coherent(b, third)
    ensures !Echo(far, receiver) && !Echo(near, receiver) && !Echo(third, receiver)
    ensures Cycle(far, third, near, receiver)
  {
    var grandmaster := a.announce.grandmasterIdentity;
    var other := Other(grandmaster);
    far, near := Via(a, 2, Other(receiver)), Via(b, 0, Other(receiver));
    MemcmpZero(grandmaster, grandmaster);
    MemcmpZero(grandmaster, other);
    MemcmpFlips(grandmaster, other);
    third := if Memcmp(grandmaster, other) < 0
      then Announcement(near.header, a.announce.(grandmasterIdentity := other, stepsRemoved := 0))
      else Announcement(near.header, b.announce.(grandmasterIdentity := other, stepsRemoved := 0));
    MemcmpZero(Attributes(a.announce), Attributes(a.announce));
    MemcmpZero(Attributes(b.announce), Attributes(b.announce));
    AttributesDecideInOrder(far.announce, third.announce);
    AttributesDecideInOrder(third.announce, near.announce);
    MemcmpConcat(Attributes(far.announce), Attributes(third.announce), grandmaster, third.announce.grandmasterIdentity);
    MemcmpConcat(Attributes(third.announce), Attributes(near.announce),
                 third.announce.grandmasterIdentity, grandmaster);
  }

  /** Nor are ties transitive when an echo is heard: it ties with two messages one step
      nearer that do not tie with each other. */
  lemma EchoBreaksTies(m: Announcement, receiver: ClockIdentity, x: ClockIdentity, y: ClockIdentity)
    requires x != y
    ensures Echo(m, receiver) <==>
      && m.announce.stepsRemoved > 0
      && Compare(m, Via(m, m.announce.stepsRemoved - 1, x), receiver) == 0
      && Compare(m, Via(m, m.announce.stepsRemoved - 1, y), receiver) == 0
      && Compare(Via(m, m.announce.stepsRemoved - 1, x), Via(m, m.announce.stepsRemoved - 1, y), receiver) != 0
  {
    if m.announce.stepsRemoved > 0 {
      var (near, near') := (Via(m, m.announce.stepsRemoved - 1, x), Via(m, m.announce.stepsRemoved - 1, y));
      CompareIsZero(m, near, receiver);
      CompareIsZero(m, near', receiver);
      CompareIsZero(near, near', receiver);
    }
  }
}
