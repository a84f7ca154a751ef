/** The table of foreign masters (`addForeign` in `PTPv2/src/bmc.c`): a ring of records, and
    the insertion-ordered queue it stands for. */
module ForeignMasters {
  import opened Octets
  import opened DataSets
  import opened RecordScan

  /** The record kept for a sender when it is first heard. */
  function NewRecord(m: Announcement): ForeignMasterRecord {
    ForeignMasterRecord(m.Sender(), 0, m.header, m.announce)
  }

  /** The record after another message; the 16-bit message counter wraps. */
  function Refreshed(r: ForeignMasterRecord, m: Announcement): ForeignMasterRecord {
    r.(foreignMasterAnnounceMessages := (r.foreignMasterAnnounceMessages + 1) % 0x1_0000,
       header := m.header, announce := m.announce)
  }

  datatype Table = Table(records: seq<ForeignMasterRecord>, count: nat, capacity: nat, i: nat, best: nat) {
    /** No operation on the table leaves the array of records. */
    predicate Addressable() {
      && 0 < capacity <= |records| && capacity <= 0x7fff
      && count <= capacity && i < capacity && best < capacity
    }

    function Identity(j: nat): PortIdentity
      requires j < |records|
    {
      records[j].foreignMasterPortIdentity
    }

    /** The slot looked at in step k of the search, which starts at `best` and goes round
        the live part. */
    function Visited(k: nat): (j: nat)
      requires Addressable() && 0 < count
      ensures j < |records| && (0 < k || best < count ==> j < count)
    {
      if k == 0 then best else (Visited(k - 1) + 1) % count
    }

    /** The slot where the search, resumed at step k, meets the identity. */
    function Search(id: PortIdentity, k: nat): Option<nat>
      requires Addressable() && k <= count
      decreases count - k
    {
      if k == count then None
      else if IsSamePortIdentity(id, Identity(Visited(k))) then Some(Visited(k))
      else Search(id, k + 1)
    }

    /** The record in slot j takes another message. */
    function Refresh(j: nat, m: Announcement): Table
      requires j < |records|
    {
      this.(records := records[j := Refreshed(records[j], m)])
    }

    /** A record for a new sender goes into slot i; a full table loses what was there. */
    function Insert(m: Announcement): Table
      requires Addressable()
    {
      this.(records := records[i := NewRecord(m)],
            count := if count < capacity then count + 1 else count,
            i := (i + 1) % capacity)
    }

    function Add(m: Announcement): Table
      requires Addressable()
    {
      SearchResult(this, m.Sender(), 0);
      match Search(m.Sender(), 0)
      case Some(j) => Refresh(j, m)
      case None => Insert(m)
    }

    /** The announce receipt timeout forgets the records, but not `best`. */
    function TimedOut(): Table {
      this.(count := 0, i := 0)
    }

    function Live(): seq<Announcement>
      requires Addressable()
    {
      seq(count, j requires 0 <= j < count => records[j].Message())
    }

    /** The invariant of the table. `best` plays no part in it. */
    ghost predicate Valid() {
      && Addressable() && |records| == capacity
      && (count < capacity ==> i == count)
      && (forall j, k :: 0 <= j < k < count ==> Identity(j) != Identity(k))
      && (forall j :: 0 <= j < count ==> Identity(j) == records[j].header.sourcePortIdentity)
    }

    /** The search starts inside the live part. */
    predicate Searchable() {
      best < count || count == 0
    }

    /** The live records, oldest first. */
    function Queue(): (q: seq<ForeignMasterRecord>)
      requires Addressable() && |records| == capacity
    {
      if count < capacity then records[..count] else records[i..] + records[..i]
    }
  }

  lemma {:induction false} SearchResult(t: Table, id: PortIdentity, k: nat)
    requires t.Addressable() && k <= t.count
    ensures match t.Search(id, k)
      case Some(j) => exists s :: k <= s < t.count && j == t.Visited(s) && t.Identity(j) == id
      case None => forall s :: k <= s < t.count ==> t.Identity(t.Visited(s)) != id
    ensures t.Search(id, k).Some? ==> t.Search(id, k).value < |t.records|
    decreases t.count - k
  {
    if k < t.count && !IsSamePortIdentity(id, t.Identity(t.Visited(k))) {
      SearchResult(t, id, k + 1);
    }
  }

  // ----- What the search sees

  function Wrap(x: nat, n: nat): int {
    if x < n then x else x - n
  }

  /** One step round a ring, from anywhere. */
  lemma NextInRing(x: nat, n: nat)
    requires 0 < n
    ensures (x + 1) % n == Wrap(x % n + 1, n)
  {
    var q, r := x / n, x % n;
    assert x == q * n + r;
    if r + 1 < n {
      RemainderIsUnique(x + 1, n, q, r + 1);
    } else {
      assert (q + 1) * n == q * n + n;
      RemainderIsUnique(x + 1, n, q + 1, 0);
    }
  }

  lemma RemainderIsUnique(x: nat, n: nat, q: nat, r: nat)
    requires 0 < n && x == q * n + r && r < n
    ensures x % n == r
  {
    var q' := x / n;
    MulOrdered(q, q', n);
    MulOrdered(q', q, n);
  }

  lemma MulOrdered(a: nat, b: nat, n: nat)
    ensures a < b ==> (a + 1) * n <= b * n
  {
  }

  /** Where step k of the search is. With `best` outside the live part only the first step
      is out of place; the others go on from the slot that `best` is congruent to. */
  lemma {:induction false} VisitedAt(t: Table, k: nat)
    requires t.Addressable() && k < t.count
    ensures k > 0 || t.Searchable() ==> t.Visited(k) == Wrap(t.best % t.count + k, t.count)
  {
    if k == 0 {
      if t.best < t.count {
        RemainderIsUnique(t.best, t.count, 0, t.best);
      }
    } else {
      VisitedAt(t, k - 1);
      NextInRing(t.best, t.count);
      NextInRing(t.Visited(k - 1), t.count);
      RemainderIsUnique(t.best % t.count, t.count, 0, t.best % t.count);
      if k > 1 {
        RemainderIsUnique(t.Visited(k - 1), t.count, 0, t.Visited(k - 1));
      }
    }
  }

  /** The step in which a live slot is visited. */
  function StepOf(t: Table, j: nat): int
    requires t.Addressable() && 0 < t.count
  {
    var start := t.best % t.count;
    if start <= j then j - start else j - start + t.count
  }

  lemma VisitedInStep(t: Table, j: nat)
    requires t.Addressable() && j < t.count
    requires t.Searchable() || j != t.best % t.count
    ensures 0 <= StepOf(t, j) < t.count && t.Visited(StepOf(t, j)) == j
  {
    VisitedAt(t, StepOf(t, j));
  }

  /** From inside the live part the search visits every live slot exactly once. */
  lemma SearchVisitsEachSlotOnce(t: Table)
    requires t.Addressable() && t.Searchable() && 0 < t.count
    ensures forall k :: 0 <= k < t.count ==> t.Visited(k) < t.count && StepOf(t, t.Visited(k)) == k
    ensures forall j :: 0 <= j < t.count ==> 0 <= StepOf(t, j) < t.count && t.Visited(StepOf(t, j)) == j
  {
    forall k | 0 <= k < t.count
      ensures t.Visited(k) < t.count && StepOf(t, t.Visited(k)) == k
    {
      VisitedAt(t, k);
    }
    forall j | 0 <= j < t.count
      ensures 0 <= StepOf(t, j) < t.count && t.Visited(StepOf(t, j)) == j
    {
      VisitedInStep(t, j);
    }
  }

  /** The search agrees with looking through the live records. */
  ghost predicate Finds(t: Table, id: PortIdentity)
    requires t.Addressable()
  {
    match t.Search(id, 0)
    case Some(j) => j < t.count && t.Identity(j) == id
    case None => forall j :: 0 <= j < t.count ==> t.Identity(j) != id
  }

  lemma SearchableFinds(t: Table, id: PortIdentity)
    requires t.Addressable() && t.Searchable()
    ensures Finds(t, id)
  {
    SearchResult(t, id, 0);
    forall j | 0 <= j < t.count && t.Identity(j) == id
      ensures t.Search(id, 0).Some?
    {
      VisitedInStep(t, j);
    }
  }

  /** When `best` has been left behind by a timeout, the search looks at one dead slot, that
      of `best`, and misses one live one. An identity in neither of them is safe. */
  predicate Safe(t: Table, id: PortIdentity)
    requires t.Addressable()
  {
    t.Searchable() || (t.Identity(t.best) != id && t.Identity(t.best % t.count) != id)
  }

  /** The search goes wrong for exactly the identities that are not safe. */
  lemma SearchIsRightExactlyWhen(t: Table, id: PortIdentity)
    requires t.Valid()
    ensures Finds(t, id) <==> Safe(t, id)
  {
    SearchResult(t, id, 0);
    if t.Searchable() {
      SearchableFinds(t, id);
    } else if t.Identity(t.best) == id {
      assert t.Search(id, 0) == Some(t.best);
    } else {
      forall j | 0 <= j < t.count && j != t.best % t.count && t.Identity(j) == id
        ensures t.Search(id, 0).Some?
      {
        VisitedInStep(t, j);
      }
      if t.Search(id, 0).Some? {
        MissedSlot(t, id);
      }
    }
  }

  lemma MissedSlot(t: Table, id: PortIdentity)
    requires t.Valid() && !t.Searchable() && t.Search(id, 0).Some? && t.Identity(t.best) != id
    ensures t.Search(id, 0).value < t.count && t.Identity(t.Search(id, 0).value) == id
    ensures t.Identity(t.best % t.count) != id
  {
    SearchResult(t, id, 0);
    var s :| 0 <= s < t.count && t.Search(id, 0).value == t.Visited(s) && t.Identity(t.Visited(s)) == id;
    VisitedAt(t, s);
  }

  lemma AddToEmpty(t: Table, m: Announcement)
    requires t.Addressable() && t.count == 0
    ensures t.Add(m) == t.Insert(m) && t.Insert(m).count == 1
    ensures t.i == 0 && 1 < t.capacity ==> t.Insert(m).i == 1
  {
  }

  // ----- The bounded queue

  /** Index of the first record with the identity, or the length. */
  function Position(q: seq<ForeignMasterRecord>, id: PortIdentity): (p: nat)
    ensures p <= |q|
    ensures forall k :: 0 <= k < p ==> q[k].foreignMasterPortIdentity != id
    ensures p < |q| ==> q[p].foreignMasterPortIdentity == id
  {
    if q == [] || q[0].foreignMasterPortIdentity == id then 0 else 1 + Position(q[1..], id)
  }

  /** A bounded queue in order of insertion: a known sender is refreshed where it stands, a
      new one goes to the end, and the oldest makes room when the queue is full. */
  function QueueAdd(q: seq<ForeignMasterRecord>, capacity: nat, m: Announcement): seq<ForeignMasterRecord> {
    var p := Position(q, m.Sender());
    if p < |q| then q[p := Refreshed(q[p], m)]
    else if |q| < capacity then q + [NewRecord(m)]
    else if q == [] then []
    else q[1..] + [NewRecord(m)]
  }

  /** Where the ring keeps the record at a position of the queue. */
  function Slot(t: Table, p: nat): nat
    requires t.Addressable() && p < t.count
  {
    if t.count < t.capacity || t.i + p < t.capacity then
      (if t.count < t.capacity then p else t.i + p)
    else t.i + p - t.capacity
  }

  lemma QueueAt(t: Table, p: nat)
    requires t.Valid() && p < t.count
    ensures |t.Queue()| == t.count && Slot(t, p) < t.count && t.Queue()[p] == t.records[Slot(t, p)]
  {
  }

  lemma RefreshKeepsValid(t: Table, m: Announcement, j: nat)
    requires t.Valid() && j < t.count && t.Identity(j) == m.Sender()
    ensures t.Refresh(j, m).Valid()
  {
  }

  lemma RefreshedQueue(t: Table, m: Announcement, j: nat, p: nat)
    requires t.Valid() && p < t.count && Slot(t, p) == j && t.Refresh(j, m).Valid()
    ensures p < |t.Queue()| && t.Refresh(j, m).Queue() == t.Queue()[p := Refreshed(t.records[j], m)]
  {
  }

  lemma RefreshRefinesQueue(t: Table, m: Announcement, j: nat)
    requires t.Valid() && j < t.count && t.Identity(j) == m.Sender()
    requires t.Refresh(j, m).Valid()
    ensures t.Refresh(j, m).Queue() == QueueAdd(t.Queue(), t.capacity, m)
  {
    var q := t.Queue();
    var p := if t.count < t.capacity then j else if t.i <= j then j - t.i else j + t.capacity - t.i;
    QueueAt(t, p);
    assert Slot(t, p) == j;
    var p' := Position(q, m.Sender());
    assert p' == p by {
      QueueAt(t, p');
    }
    RefreshedQueue(t, m, j, p);
  }

  lemma NewSenderHasNoPosition(t: Table, id: PortIdentity)
    requires t.Valid()
    requires forall j :: 0 <= j < t.count ==> t.Identity(j) != id
    ensures Position(t.Queue(), id) == |t.Queue()|
  {
  }

  lemma InsertKeepsValid(t: Table, m: Announcement)
    requires t.Valid()
    requires forall j :: 0 <= j < t.count ==> t.Identity(j) != m.Sender()
    ensures t.Insert(m).Valid()
    ensures t.Insert(m).i == if t.i + 1 < t.capacity then t.i + 1 else 0
  {
    NextInRing(t.i, t.capacity);
    RemainderIsUnique(t.i, t.capacity, 0, t.i);
  }

  lemma InsertRefinesQueue(t: Table, m: Announcement)
    requires t.Valid() && t.Insert(m).Valid()
    requires t.Insert(m).i == if t.i + 1 < t.capacity then t.i + 1 else 0
    requires Position(t.Queue(), m.Sender()) == |t.Queue()|
    ensures t.Insert(m).Queue() == QueueAdd(t.Queue(), t.capacity, m)
  {
    if t.count < t.capacity {
      assert t.Insert(m).Queue() == t.Queue() + [NewRecord(m)];
    } else {
      OldestMakesRoom(t, t.Insert(m), m);
    }
  }

  lemma OldestMakesRoom(t: Table, t': Table, m: Announcement)
    requires t.Valid() && t.count == t.capacity && t'.Valid() && t'.count == t'.capacity == t.capacity
    requires t'.records == t.records[t.i := NewRecord(m)]
    requires t'.i == if t.i + 1 < t.capacity then t.i + 1 else 0
    ensures t'.Queue() == t.Queue()[1..] + [NewRecord(m)]
  {
  }

  lemma RightSearchRefinesQueue(t: Table, m: Announcement)
    requires t.Valid() && Finds(t, m.Sender())
    ensures t.Add(m).Valid() && t.Add(m).Queue() == QueueAdd(t.Queue(), t.capacity, m)
  {
    match t.Search(m.Sender(), 0)
    case Some(j) =>
      RefreshKeepsValid(t, m, j);
      RefreshRefinesQueue(t, m, j);
    case None =>
      InsertKeepsValid(t, m);
      NewSenderHasNoPosition(t, m.Sender());
      InsertRefinesQueue(t, m);
  }

  /** A dead record takes the message: the queue stays as it was, where it should have taken
      in the message. */
  lemma DeadSlotLosesMessage(t: Table, m: Announcement)
    requires t.Valid() && !t.Searchable() && t.Identity(t.best) == m.Sender()
    ensures t.Add(m).Queue() == t.Queue() != QueueAdd(t.Queue(), t.capacity, m)
  {
    assert t.Search(m.Sender(), 0) == Some(t.best);
    var p := Position(t.Queue(), m.Sender());
    assert p < |t.Queue()| ==> Refreshed(t.Queue()[p], m) != t.Queue()[p];
  }

  /** The missed record is joined by a second one of the same sender. */
  lemma MissedSlotIsDoubled(t: Table, m: Announcement)
    requires t.Valid() && !t.Searchable()
    requires t.Identity(t.best) != m.Sender() && t.Identity(t.best % t.count) == m.Sender()
    ensures t.Add(m) == t.Insert(m) && t.count < t.Add(m).count
    ensures t.Add(m).Identity(t.count) == t.Add(m).Identity(t.best % t.count) == m.Sender()
  {
    if t.Search(m.Sender(), 0).Some? {
      MissedSlot(t, m.Sender());
      assert false;
    }
  }

  /** The ring stays valid and does what the queue does, unless `best` has been left behind
      and the sender is one of two: the one in the dead slot that `best` points at, whose
      message is lost, or the one in the live slot that the search misses, which is doubled. */
  lemma AddRefinesQueue(t: Table, m: Announcement)
    requires t.Valid()
    ensures t.Add(m).Valid() && t.Add(m).Queue() == QueueAdd(t.Queue(), t.capacity, m) <==>
      Safe(t, m.Sender())
  {
    SearchIsRightExactlyWhen(t, m.Sender());
    if Finds(t, m.Sender()) {
      RightSearchRefinesQueue(t, m);
    } else if t.Identity(t.best) == m.Sender() {
      DeadSlotLosesMessage(t, m);
    } else {
      MissedSlotIsDoubled(t, m);
    }
  }

  /** Some record of the queue is in every live slot, and every record of it in some slot. */
  lemma QueueIsLive(t: Table, p: nat)
    requires t.Valid() && p < t.count
    ensures |t.Queue()| == t.count
    ensures t.Queue()[p] in t.records[..t.count] && t.records[p] in t.Queue()
  {
    QueueAt(t, p);
    assert t.records[..t.count][Slot(t, p)] == t.records[Slot(t, p)];
    var q := if t.count < t.capacity then p else if t.i <= p then p - t.i else p + t.capacity - t.i;
    QueueAt(t, q);
    assert Slot(t, q) == p;
  }

  // ----- What the queue remembers

  /** The record of a sender. */
  function Lookup(q: seq<ForeignMasterRecord>, id: PortIdentity): (r: Option<ForeignMasterRecord>)
    ensures r.Some? ==> r.value in q && r.value.foreignMasterPortIdentity == id
  {
    if Position(q, id) < |q| then Some(q[Position(q, id)]) else None
  }

  function Senders(q: seq<ForeignMasterRecord>): (ids: seq<PortIdentity>)
    ensures |ids| == |q|
  {
    seq(|q|, p requires 0 <= p < |q| => q[p].foreignMasterPortIdentity)
  }

  ghost predicate DistinctRecords(q: seq<ForeignMasterRecord>) {
    forall j, k :: 0 <= j < k < |q| ==> q[j].foreignMasterPortIdentity != q[k].foreignMasterPortIdentity
  }

  lemma QueueIsDistinct(t: Table)
    requires t.Valid()
    ensures DistinctRecords(t.Queue()) && |t.Queue()| == t.count <= t.capacity
  {
    var q := t.Queue();
    forall j, k | 0 <= j < k < |q|
      ensures q[j].foreignMasterPortIdentity != q[k].foreignMasterPortIdentity
    {
      QueueAt(t, j);
      QueueAt(t, k);
    }
  }

  lemma PositionIs(q: seq<ForeignMasterRecord>, p: nat)
    requires DistinctRecords(q) && p < |q|
    ensures Position(q, q[p].foreignMasterPortIdentity) == p
  {
  }

  /** What one message does to what the queue remembers: its sender is on record with exactly
      this message, counted from 0 in 16 bits; every other record stays as it is, but for
      the oldest when there is no room; and nobody changes places. */
  ghost predicate StoresMessage(
    q: seq<ForeignMasterRecord>, q': seq<ForeignMasterRecord>, capacity: nat, m: Announcement)
    requires 0 < capacity
  {
    var id := m.Sender();
    && Lookup(q', id).Some? && Lookup(q', id).value.Message() == m
    && Lookup(q', id).value.foreignMasterAnnounceMessages ==
        (if Lookup(q, id).Some? then (Lookup(q, id).value.foreignMasterAnnounceMessages + 1) % 0x1_0000 else 0)
    && (forall other :: other != id ==>
        if Lookup(q, id) == None && |q| == capacity && other == q[0].foreignMasterPortIdentity
        then Lookup(q', other) == None else Lookup(q', other) == Lookup(q, other))
    && Senders(q') == if Lookup(q, id).Some? then Senders(q)
                      else (if |q| < capacity then Senders(q) else Senders(q)[1..]) + [id]
  }

  lemma {:induction false} KnownIsRemembered(q: seq<ForeignMasterRecord>, capacity: nat, m: Announcement)
    requires DistinctRecords(q) && |q| <= capacity && 0 < capacity && Position(q, m.Sender()) < |q|
    ensures StoresMessage(q, QueueAdd(q, capacity, m), capacity, m)
  {
    var p, q' := Position(q, m.Sender()), QueueAdd(q, capacity, m);
    assert q'[p] == Refreshed(q[p], m);
    assert Senders(q') == Senders(q);
    SamePositions(q, q');
  }

  lemma SamePositions(q: seq<ForeignMasterRecord>, q': seq<ForeignMasterRecord>)
    requires Senders(q') == Senders(q)
    ensures forall id :: Position(q', id) == Position(q, id)
  {
    assert |q'| == |q|;
    forall id
      ensures Position(q', id) == Position(q, id)
    {
      var (p, p') := (Position(q, id), Position(q', id));
      assert p < |q| ==> Senders(q)[p] == Senders(q')[p];
      assert p' < |q| ==> Senders(q)[p'] == Senders(q')[p'];
    }
  }

  /** A record at the end is found, and hides nothing. */
  lemma {:induction false} JoinedAtEnd(kept: seq<ForeignMasterRecord>, m: Announcement)
    requires Position(kept, m.Sender()) == |kept|
    ensures var q' := kept + [NewRecord(m)];
      && Lookup(q', m.Sender()) == Some(NewRecord(m)) && Senders(q') == Senders(kept) + [m.Sender()]
      && forall other :: other != m.Sender() ==> Lookup(q', other) == Lookup(kept, other)
  {
    var q' := kept + [NewRecord(m)];
    forall other
      ensures Position(q', other) == if other == m.Sender() then |kept| else
        if Position(kept, other) < |kept| then Position(kept, other) else |q'|
    {
      var p := Position(q', other);
      assert p < |kept| ==> kept[p] == q'[p];
      assert Position(kept, other) < |kept| ==> q'[Position(kept, other)] == kept[Position(kept, other)];
      assert q'[|kept|] == NewRecord(m);
    }
  }

  lemma {:induction false} NewIsRemembered(q: seq<ForeignMasterRecord>, capacity: nat, m: Announcement)
    requires DistinctRecords(q) && |q| <= capacity && 0 < capacity && Position(q, m.Sender()) == |q|
    ensures StoresMessage(q, QueueAdd(q, capacity, m), capacity, m)
  {
    if |q| < capacity {
      JoinedAtEnd(q, m);
    } else {
      forall other
        ensures Lookup(q[1..], other) == if other == q[0].foreignMasterPortIdentity then None else Lookup(q, other)
      {
        WithoutOldest(q, other);
      }
      WithoutOldest(q, m.Sender());
      assert Senders(q[1..]) == Senders(q)[1..];
      JoinedAtEnd(q[1..], m);
    }
  }

  lemma WithoutOldest(q: seq<ForeignMasterRecord>, id: PortIdentity)
    requires DistinctRecords(q) && q != []
    ensures Position(q[1..], id) == if id == q[0].foreignMasterPortIdentity then |q| - 1 else Position(q, id) - 1
  {
  }

  /** The table stores every message of a safe sender, and so does a live record of it. */
  lemma AddStoresMessage(t: Table, m: Announcement) returns (j: nat)
    requires t.Valid() && Safe(t, m.Sender())
    ensures var t' := t.Add(m);
      && t'.Valid() && StoresMessage(t.Queue(), t'.Queue(), t.capacity, m)
      && j < t'.count && t'.Identity(j) == m.Sender() && t'.records[j].Message() == m
  {
    var q, t' := t.Queue(), t.Add(m);
    AddRefinesQueue(t, m);
    QueueIsDistinct(t);
    QueueIsDistinct(t');
    if Position(q, m.Sender()) < |q| {
      KnownIsRemembered(q, t.capacity, m);
    } else {
      NewIsRemembered(q, t.capacity, m);
    }
    var p := Position(t'.Queue(), m.Sender());
    QueueAt(t', p);
    j := Slot(t', p);
  }

  // ----- Runs

  /** What happens to a table: a message is heard, an election leaves `best` at the record
      its scan picks, or the announce receipt timeout expires. */
  datatype TableEvent = Heard(m: Announcement) | Elected(receiver: ClockIdentity) | Timeout

  function Apply(t: Table, e: TableEvent): (t': Table)
    requires t.Addressable()
    ensures t'.Addressable() && |t'.records| == |t.records| && t'.capacity == t.capacity
  {
    match e
    case Heard(m) => SearchResult(t, m.Sender(), 0); t.Add(m)
    case Elected(receiver) => t.(best := Scan(t.Live(), receiver, Worse))
    case Timeout => t.TimedOut()
  }

  function ApplyToQueue(q: seq<ForeignMasterRecord>, capacity: nat, e: TableEvent): seq<ForeignMasterRecord> {
    match e
    case Heard(m) => QueueAdd(q, capacity, m)
    case Elected(_) => q
    case Timeout => []
  }

  function Run(t: Table, es: seq<TableEvent>): (t': Table)
    requires t.Addressable()
    ensures t'.Addressable()
    decreases |es|
  {
    if es == [] then t else Run(Apply(t, es[0]), es[1..])
  }

  function RunQueue(q: seq<ForeignMasterRecord>, capacity: nat, es: seq<TableEvent>): seq<ForeignMasterRecord>
    decreases |es|
  {
    if es == [] then q else RunQueue(ApplyToQueue(q, capacity, es[0]), capacity, es[1..])
  }

  /** Every message of the run comes from a sender that is safe when it is heard. */
  predicate Regular(t: Table, es: seq<TableEvent>)
    requires t.Addressable()
    decreases |es|
  {
    es != [] ==> (es[0].Heard? ==> Safe(t, es[0].m.Sender())) && Regular(Apply(t, es[0]), es[1..])
  }

  lemma EventRefinesQueue(t: Table, e: TableEvent)
    requires t.Valid()
    ensures var t' := Apply(t, e);
      t'.Valid() && t'.Queue() == ApplyToQueue(t.Queue(), t.capacity, e) <==> (e.Heard? ==> Safe(t, e.m.Sender()))
  {
    if e.Heard? {
      AddRefinesQueue(t, e.m);
    }
  }

  /** After any regular run the table is valid and holds exactly the queue. */
  lemma {:induction false} RunRefinesQueue(t: Table, es: seq<TableEvent>)
    requires t.Valid() && Regular(t, es)
    ensures Run(t, es).Valid()
    ensures Run(t, es).Queue() == RunQueue(t.Queue(), t.capacity, es)
    decreases |es|
  {
    if es != [] {
      EventRefinesQueue(t, es[0]);
      RunRefinesQueue(Apply(t, es[0]), es[1..]);
    }
  }

  /** The last message heard from a sender. */
  function LastHeard(es: seq<TableEvent>, id: PortIdentity): Option<Announcement> {
    if es == [] then None
    else if LastHeard(es[1..], id).Some? then LastHeard(es[1..], id)
    else if es[0].Heard? && es[0].m.Sender() == id then Some(es[0].m)
    else None
  }

  /** After any regular run every record holds the last message heard from its sender, or is
      what it was before the run if none was. */
  lemma {:induction false} RunKeepsLastHeard(t: Table, es: seq<TableEvent>, id: PortIdentity)
    requires t.Valid() && Regular(t, es)
    ensures Run(t, es).Valid()
    ensures var r := Lookup(Run(t, es).Queue(), id);
      r.Some? ==> if LastHeard(es, id).Some? then r.value.Message() == LastHeard(es, id).value
                  else r == Lookup(t.Queue(), id)
    decreases |es|
  {
    if es != [] {
      EventRefinesQueue(t, es[0]);
      RunKeepsLastHeard(Apply(t, es[0]), es[1..], id);
      if es[0].Heard? {
        var j := AddStoresMessage(t, es[0].m);
      }
    }
  }

  /** After the first k events the table is valid and holds exactly the queue. */
  ghost predicate HoldsQueueAfter(t: Table, es: seq<TableEvent>, k: nat)
    requires t.Valid() && k <= |es|
  {
    Run(t, es[..k]).Valid() && Run(t, es[..k]).Queue() == RunQueue(t.Queue(), t.capacity, es[..k])
  }

  /** And only after such a run: it is regular exactly when the table is the queue all along. */
  lemma {:induction false} RegularExactlyWhileQueue(t: Table, es: seq<TableEvent>)
    requires t.Valid()
    ensures Regular(t, es) <==> forall k :: 0 <= k <= |es| ==> HoldsQueueAfter(t, es, k)
    decreases |es|
  {
    if es == [] {
      assert es[..0] == [];
    } else {
      EventRefinesQueue(t, es[0]);
      HoldsQueueAfterOne(t, es);
      var t' := Apply(t, es[0]);
      if es[0].Heard? ==> Safe(t, es[0].m.Sender()) {
        RegularExactlyWhileQueue(t', es[1..]);
        if Regular(t', es[1..]) {
          forall k | 0 <= k <= |es|
            ensures HoldsQueueAfter(t, es, k)
          {
            if k > 0 {
              HoldsQueueLater(t, es, k - 1);
            }
          }
        } else {
          var k :| 0 <= k <= |es[1..]| && !HoldsQueueAfter(t', es[1..], k);
          HoldsQueueLater(t, es, k);
        }
      } else {
        assert !HoldsQueueAfter(t, es, 1);
      }
    }
  }

  lemma HoldsQueueLater(t: Table, es: seq<TableEvent>, k: nat)
    requires t.Valid() && k < |es| && Apply(t, es[0]).Valid()
    requires Apply(t, es[0]).Queue() == ApplyToQueue(t.Queue(), t.capacity, es[0])
    ensures HoldsQueueAfter(t, es, k + 1) <==> HoldsQueueAfter(Apply(t, es[0]), es[1..], k)
  {
    assert es[..k + 1] == [es[0]] + es[1..][..k];
    RunCons(t, es[0], es[1..][..k]);
    RunQueueCons(t.Queue(), t.capacity, es[0], es[1..][..k]);
  }

  lemma HoldsQueueAfterOne(t: Table, es: seq<TableEvent>)
    requires t.Valid() && es != []
    ensures HoldsQueueAfter(t, es, 1) <==>
      Apply(t, es[0]).Valid() && Apply(t, es[0]).Queue() == ApplyToQueue(t.Queue(), t.capacity, es[0])
  {
    assert es[..1] == [es[0]];
    RunCons(t, es[0], []);
    RunQueueCons(t.Queue(), t.capacity, es[0], []);
    assert [es[0]] + [] == [es[0]];
  }

  lemma {:induction false} RunsConcat(t: Table, es: seq<TableEvent>, fs: seq<TableEvent>)
    requires t.Addressable()
    ensures Run(t, es + fs) == Run(Run(t, es), fs)
    ensures Regular(t, es + fs) <==> Regular(t, es) && Regular(Run(t, es), fs)
    decreases |es|
  {
    if es == [] {
      assert es + fs == fs;
    } else {
      assert (es + fs)[1..] == es[1..] + fs;
      RunsConcat(Apply(t, es[0]), es[1..], fs);
    }
  }

  /** Every run of messages and elections from the reset state is regular, and `best` stays
      inside the live part; only a timeout can leave it outside. */
  lemma {:induction false} RunsWithoutTimeoutAreRegular(t: Table, es: seq<TableEvent>)
    requires t.Addressable() && (t.best < t.count || t.best == 0 == t.count)
    requires forall e :: e in es ==> !e.Timeout?
    ensures Regular(t, es)
    ensures var t' := Run(t, es); t'.best < t'.count || t'.best == 0 == t'.count
    decreases |es|
  {
    if es != [] {
      RunsWithoutTimeoutAreRegular(Apply(t, es[0]), es[1..]);
    }
  }

  /** A timeout with `best` beyond the first slot, then the same sender twice before the
      next election: the run is not regular, and the table ends up with two records of one
      sender where the queue has one. */
  lemma DuplicateAfterTimeout(t: Table, m: Announcement)
    requires t.Valid() && t.capacity > 1 && t.best > 0 && t.Identity(t.best) != m.Sender()
    ensures var t' := Run(t, [Timeout, Heard(m), Heard(m)]);
      t'.count == 2 && t'.Identity(0) == t'.Identity(1) == m.Sender()
    ensures |RunQueue(t.Queue(), t.capacity, [Timeout, Heard(m), Heard(m)])| == 1
  {
    var t1 := t.TimedOut();
    var t2 := t1.Insert(m);
    assert t1.Add(m) == t2;
    RemainderIsUnique(1, t.capacity, 0, 1);
    assert t2.Search(m.Sender(), 0) == t2.Search(m.Sender(), 1) == None;
    assert t2.Add(m) == t2.Insert(m);
    RunOfThree(t, Timeout, Heard(m), Heard(m));
    var q := [NewRecord(m)];
    assert QueueAdd([], t.capacity, m) == q;
    RunQueueOfThree(t.Queue(), t.capacity, Timeout, Heard(m), Heard(m));
  }

  lemma RunOfThree(t: Table, a: TableEvent, b: TableEvent, c: TableEvent)
    requires t.Addressable()
    ensures Run(t, [a, b, c]) == Apply(Apply(Apply(t, a), b), c)
  {
    RunCons(Apply(Apply(t, a), b), c, []);
    RunCons(Apply(t, a), b, [c]);
    RunCons(t, a, [b, c]);
  }

  lemma RunCons(t: Table, e: TableEvent, es: seq<TableEvent>)
    requires t.Addressable()
    ensures Run(t, [e] + es) == Run(Apply(t, e), es)
  {
  }

  lemma RunQueueOfThree(q: seq<ForeignMasterRecord>, capacity: nat, a: TableEvent, b: TableEvent, c: TableEvent)
    ensures RunQueue(q, capacity, [a, b, c]) ==
      ApplyToQueue(ApplyToQueue(ApplyToQueue(q, capacity, a), capacity, b), capacity, c)
  {
    RunQueueCons(ApplyToQueue(ApplyToQueue(q, capacity, a), capacity, b), capacity, c, []);
    RunQueueCons(ApplyToQueue(q, capacity, a), capacity, b, [c]);
    RunQueueCons(q, capacity, a, [b, c]);
  }

  lemma RunQueueCons(q: seq<ForeignMasterRecord>, capacity: nat, e: TableEvent, es: seq<TableEvent>)
    ensures RunQueue(q, capacity, [e] + es) == RunQueue(ApplyToQueue(q, capacity, e), capacity, es)
  {
  }

  // ----- The object

  class ForeignMasterDS {
    var records: array<ForeignMasterRecord>
    var count: nat
    var capacity: nat
    var i: nat
    var best: nat

    function Value(): Table
      reads this, records
    {
      Table(records[..], count, capacity, i, best)
    }

    constructor (foreign: array<ForeignMasterRecord>)
      ensures records == foreign && Value() == Table(foreign[..], 0, 0, 0, 0)
    {
      records, count, capacity, i, best := foreign, 0, 0, 0, 0;
    }

    method AddForeign(header: MsgHeader, announce: MsgAnnounce)
      requires Value().Addressable()
      modifies this`count, this`i, records
      ensures Value() == old(Value()).Add(Announcement(header, announce))
    {
      var found := false;
      var j := best;
      var k := 0;
      ghost var t, id := Value(), header.sourcePortIdentity;
      while k < count
        invariant k <= count && !found
        invariant Value() == t
        invariant k < count ==> j == t.Visited(k)
        invariant k <= t.count && t.Search(id, 0) == t.Search(id, k)
      {
        if IsSamePortIdentity(header.sourcePortIdentity, records[j].foreignMasterPortIdentity) {
          records[j] := records[j].(
            foreignMasterAnnounceMessages := (records[j].foreignMasterAnnounceMessages + 1) % 0x1_0000);
          found := true;
          records[j] := records[j].(header := header);
          records[j] := records[j].(announce := announce);
          assert records[..] == t.Refresh(j, Announcement(header, announce)).records;
          break;
        }
        j := (j + 1) % count;
        k := k + 1;
      }
      if !found {
        if count < capacity {
          count := count + 1;
        }
        j := i;
        records[j] := ForeignMasterRecord(header.sourcePortIdentity, 0, header, announce);
        assert records[..] == t.Insert(Announcement(header, announce)).records;
        i := (i + 1) % capacity;
      }
    }
  }
}
