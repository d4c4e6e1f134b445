/**
  The key-value store shared by the producer and the queue manager, seen
  through the repository facade. Message ids are used directly as keys; the
  three id lists are the published, processing and dead lists of one queue,
  and the notification channel is a log of the ids announced on it.

  The store's own operations are not part of this model: `Store` gives each of
  them the contract the queue logic relies on, and those contracts are
  ASSUMPTIONS about the repository, not derived from its code.
*/
module Repository {
  import opened Wrappers

  /** One message record; timestamps are integer milliseconds since the epoch. */
  datatype Message = Message(
    id: nat,
    payload: string,
    createdDt: int,
    updatedDt: int,
    receiveCount: nat,
    receivedDt: Option<int>)

  /** The whole queue state held by the store. */
  datatype StoreState = StoreState(
    counter: nat,
    records: map<nat, Message>,
    published: seq<nat>,
    processing: seq<nat>,
    dead: seq<nat>,
    notifications: seq<nat>)

  ghost predicate NoDup(xs: seq<nat>) {
    forall i, j :: 0 <= i < j < |xs| ==> xs[i] != xs[j]
  }

  ghost predicate Disjoint(xs: seq<nat>, ys: seq<nat>) {
    forall x :: x in xs ==> x !in ys
  }

  /** Every id is in at most one of the published, processing and dead lists. */
  ghost predicate AtMostOneList(s: StoreState) {
    && Disjoint(s.published, s.processing)
    && Disjoint(s.published, s.dead)
    && Disjoint(s.processing, s.dead)
  }

  /** Every id in `xs` has already been handed out by the counter. */
  ghost predicate Allocated(xs: seq<nat>, counter: nat) {
    forall x :: x in xs ==> 0 < x <= counter
  }

  /** The store invariant: no list holds an id twice, no id is in two lists, and
      every id in a list or a record key has been allocated by the counter. */
  ghost predicate Inv(s: StoreState) {
    && NoDup(s.published) && NoDup(s.processing) && NoDup(s.dead)
    && AtMostOneList(s)
    && Allocated(s.published, s.counter)
    && Allocated(s.processing, s.counter)
    && Allocated(s.dead, s.counter)
    && (forall k :: k in s.records ==> 0 < k <= s.counter && s.records[k].id == k)
  }

  /** The record stored under `id`, if any. */
  function Lookup(s: StoreState, id: nat): Option<Message> {
    if id in s.records then Some(s.records[id]) else None
  }

  /** `xs` with every occurrence of `x` taken out, the rest in order. */
  function Remove(xs: seq<nat>, x: nat): (r: seq<nat>)
    ensures forall y :: y in r <==> y in xs && y != x
    ensures x !in xs ==> r == xs
    ensures NoDup(xs) ==> NoDup(r)
  {
    if xs == [] then []
    else if xs[0] == x then Remove(xs[1..], x)
    else
      var rest := Remove(xs[1..], x);
      assert NoDup(xs) ==> xs[0] !in xs[1..];
      [xs[0]] + rest
  }

  /** The record after a redelivery: one more receive, refreshed update time,
      lease cleared. */
  function AfterRedelivery(m: Message, now: int): (r: Message)
    ensures r.receiveCount == m.receiveCount + 1
    ensures r.id == m.id && r.payload == m.payload && r.createdDt == m.createdDt
    ensures r.updatedDt == now && r.receivedDt.None?
  {
    m.(receiveCount := m.receiveCount + 1, updatedDt := now, receivedDt := None)
  }

  /** Assumed effect of the repository's move to the published list. */
  function MovedToPublished(s: StoreState, id: nat, now: int): StoreState
    requires id in s.records
  {
    s.(processing := Remove(s.processing, id),
       published := s.published + [id],
       records := s.records[id := AfterRedelivery(s.records[id], now)])
  }

  /** Assumed effect of the repository's move to the dead list. */
  function MovedToDead(s: StoreState, id: nat, now: int): StoreState
    requires id in s.records
  {
    s.(processing := Remove(s.processing, id),
       dead := s.dead + [id],
       records := s.records[id := s.records[id].(updatedDt := now)])
  }

  /** Effect of the producer's multi/exec unit: every field of `m` written under
      its id and the id pushed onto the head of the published list. */
  function Enqueued(s: StoreState, m: Message): StoreState {
    s.(records := s.records[m.id := m], published := [m.id] + s.published)
  }

  lemma MovedToPublishedKeepsInv(s: StoreState, id: nat, now: int)
    requires Inv(s) && id in s.processing && id in s.records
    ensures Inv(MovedToPublished(s, id, now))
    ensures AtMostOneList(MovedToPublished(s, id, now))
  {
    var t := MovedToPublished(s, id, now);
    assert id !in s.published;
    forall i, j | 0 <= i < j < |t.published|
      ensures t.published[i] != t.published[j]
    {
      if j == |s.published| {
        assert t.published[i] == s.published[i];
      }
    }
  }

  lemma MovedToDeadKeepsInv(s: StoreState, id: nat, now: int)
    requires Inv(s) && id in s.processing && id in s.records
    ensures Inv(MovedToDead(s, id, now))
  {
    var t := MovedToDead(s, id, now);
    assert id !in s.dead;
    forall i, j | 0 <= i < j < |t.dead|
      ensures t.dead[i] != t.dead[j]
    {
      if j == |s.dead| {
        assert t.dead[i] == s.dead[i];
      }
    }
  }

  /** The store as a mutable object; each method is one store operation. */
  class Store {
    var counter: nat
    var records: map<nat, Message>
    var published: seq<nat>
    var processing: seq<nat>
    var dead: seq<nat>
    var notifications: seq<nat>

    function State(): StoreState
      reads this
    {
      StoreState(counter, records, published, processing, dead, notifications)
    }

    ghost predicate Valid()
      reads this
    {
      Inv(State())
    }

    constructor ()
      ensures Valid()
      ensures State() == StoreState(0, map[], [], [], [], [])
    {
      counter, records := 0, map[];
      published, processing, dead, notifications := [], [], [], [];
    }

    /** INCR on the queue's id counter: returns the new counter value. */
    method Incr() returns (id: nat)
      modifies this
      ensures id == old(counter) + 1
      ensures State() == old(State()).(counter := id)
    {
      counter := counter + 1;
      id := counter;
    }

    /** The producer's multi/exec unit, applied all at once. */
    method ExecEnqueue(m: Message)
      modifies this
      ensures State() == Enqueued(old(State()), m)
    {
      records := records[m.id := m];
      published := [m.id] + published;
    }

    /** A publish of `id` on the queue's notification channel. */
    method SendNotification(id: nat)
      modifies this
      ensures State() == old(State()).(notifications := old(notifications) + [id])
    {
      notifications := notifications + [id];
    }

    /** LRANGE 0 -1 of the processing list. */
    method ReadProcessing() returns (ids: seq<nat>)
      ensures ids == processing
    {
      ids := processing;
    }

    /** The repository's metadata read: the record, or nothing when absent. */
    method GetMessageMetadata(id: nat) returns (m: Option<Message>)
      ensures m == Lookup(State(), id)
      ensures m.Some? ==> m.value == records[id]
    {
      m := if id in records then Some(records[id]) else None;
    }

    /** ASSUMED contract of the repository's atomic move processing -> published.
        `accepted` is the store's verdict, which this model does not derive. */
    method MoveToPublishedQueue(id: nat, now: int, accepted: bool) returns (ok: bool)
      requires id in records
      modifies this
      ensures ok == accepted
      ensures State() == if ok then MovedToPublished(old(State()), id, now) else old(State())
    {
      ok := accepted;
      if ok {
        processing := Remove(processing, id);
        published := published + [id];
        records := records[id := AfterRedelivery(records[id], now)];
      }
    }

    /** ASSUMED contract of the repository's atomic move processing -> dead. */
    method MoveToDeadQueue(id: nat, now: int, accepted: bool) returns (ok: bool)
      requires id in records
      modifies this
      ensures ok == accepted
      ensures State() == if ok then MovedToDead(old(State()), id, now) else old(State())
    {
      ok := accepted;
      if ok {
        processing := Remove(processing, id);
        dead := dead + [id];
        records := records[id := records[id].(updatedDt := now)];
      }
    }
  }
}
