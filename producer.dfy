/**
  The producer: allocates an id from the queue's counter, writes the message
  record and pushes the id onto the head of the published list in one
  multi/exec unit, then announces the id on the notification channel.
*/
module Producing {
  import opened Wrappers
  import opened Repository

  /** The store calls a send makes, in order. */
  datatype StoreOp = Incr | Exec | Notify

  /** What `send` resolves or rejects with. */
  datatype ActionResult = Sent(id: nat) | Failed(cause: StoreOp) {
    predicate IsSuccess() { Sent? }
  }

  /** The record a send writes. */
  function NewMessage(id: nat, payload: string, now: int): (m: Message)
    ensures m.id == id && m.payload == payload
    ensures m.createdDt == now && m.updatedDt == now
    ensures m.receiveCount == 0 && m.receivedDt.None?
  {
    Message(id, payload, now, now, 0, None)
  }

  /** The effect of one send at time `now`; `fault` names the first store call
      that raises, if any. */
  function SendEffect(s: StoreState, payload: string, now: int, fault: Option<StoreOp>): (r: (StoreState, ActionResult))
    ensures r.1.IsSuccess() <==> fault.None?
    ensures r.1.Failed? ==> r.1.cause == fault.value
  {
    var id := s.counter + 1;
    var advanced := s.(counter := id);
    var written := Enqueued(advanced, NewMessage(id, payload, now));
    match fault
    case Some(Incr) => (s, Failed(Incr))
    case Some(Exec) => (advanced, Failed(Exec))
    case Some(Notify) => (written, Failed(Notify))
    case None => (written.(notifications := written.notifications + [id]), Sent(id))
  }

  /** A successful send takes the next counter value, which no record and no
      list holds yet and which is larger than every id allocated before. */
  lemma SendAllocatesFreshId(s: StoreState, payload: string, now: int, fault: Option<StoreOp>)
    requires Inv(s)
    ensures var (t, res) := SendEffect(s, payload, now, fault);
      res.Sent? ==>
        && res.id == s.counter + 1 == t.counter
        && res.id !in s.records && res.id !in s.published
        && res.id !in s.processing && res.id !in s.dead
        && (forall k :: k in s.records ==> k < res.id)
  {
  }

  /** The counter never goes back, and it stays advanced when the write fails:
      a failed write leaves a gap in the ids. */
  lemma SendCounter(s: StoreState, payload: string, now: int, fault: Option<StoreOp>)
    ensures var t := SendEffect(s, payload, now, fault).0;
      && (fault == Some(Incr) ==> t == s)
      && (fault != Some(Incr) ==> t.counter == s.counter + 1)
  {
  }

  /** The record and the list push are one unit: after a successful exec the
      record and the head of the published list are both there; when exec fails
      neither is, and nothing but the counter has changed. */
  lemma SendIsAtomic(s: StoreState, payload: string, now: int, fault: Option<StoreOp>)
    ensures var t := SendEffect(s, payload, now, fault).0; var id := s.counter + 1;
      && (fault == Some(Exec) ==> t == s.(counter := id))
      && (fault.None? || fault == Some(Notify) ==>
            && t.records == s.records[id := NewMessage(id, payload, now)]
            && t.published == [id] + s.published
            && t.processing == s.processing && t.dead == s.dead)
  {
  }

  /** The id is announced only by a send that succeeded, after its write. */
  lemma SendAnnounces(s: StoreState, payload: string, now: int, fault: Option<StoreOp>)
    ensures var (t, res) := SendEffect(s, payload, now, fault);
      && (res.Sent? ==> t.notifications == s.notifications + [res.id] && res.id in t.records && res.id in t.published)
      && (res.Failed? ==> t.notifications == s.notifications)
  {
  }

  /** A send keeps the store invariant: the new id is in exactly the published list. */
  lemma SendKeepsInv(s: StoreState, payload: string, now: int, fault: Option<StoreOp>)
    requires Inv(s)
    ensures Inv(SendEffect(s, payload, now, fault).0)
  {
    var id := s.counter + 1;
    var t := SendEffect(s, payload, now, fault).0;
    if fault != Some(Incr) && fault != Some(Exec) {
      assert id !in s.published;
      assert t.published == [id] + s.published;
      forall i, j | 0 <= i < j < |t.published|
        ensures t.published[i] != t.published[j]
      {
        if i == 0 {
          assert t.published[j] == s.published[j - 1];
        } else {
          assert t.published[i] == s.published[i - 1] && t.published[j] == s.published[j - 1];
        }
      }
    }
  }

  /** Two successful sends in a row get increasing ids. */
  lemma SuccessiveSendsIncrease(s: StoreState, p1: string, t1: int, p2: string, t2: int)
    ensures var (s1, r1) := SendEffect(s, p1, t1, None);
      var (s2, r2) := SendEffect(s1, p2, t2, None);
      r1.Sent? && r2.Sent? && r1.id < r2.id
  {
  }

  class Producer {
    const store: Store

    constructor (store: Store)
      ensures this.store == store
    {
      this.store := store;
    }

    /** Sends `payload` at time `now`; `fault` names the store call that raises. */
    method Send(payload: string, now: int, fault: Option<StoreOp>) returns (result: ActionResult)
      modifies store
      ensures (store.State(), result) == SendEffect(old(store.State()), payload, now, fault)
      ensures old(store.Valid()) ==> store.Valid()
    {
      ghost var s0 := store.State();
      if Inv(s0) {
        SendKeepsInv(s0, payload, now, fault);
      }
      if fault == Some(Incr) {
        return Failed(Incr);
      }
      var id := store.Incr();
      var message := NewMessage(id, payload, now);
      if fault == Some(Exec) {
        return Failed(Exec);
      }
      store.ExecEnqueue(message);
      if fault.Some? {
        return Failed(Notify);
      }
      store.SendNotification(id);
      result := Sent(id);
    }
  }
}
