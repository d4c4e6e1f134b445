/**
  The earlier producer (`add`): allocates a job id from the queue key counter,
  writes a two-field record (creation time and payload) and appends the job id
  to the tail of the published list in one multi/exec unit, then publishes the
  job id on the notification channel. It comes from an earlier key layout (a
  job counter and two-field records), so the model gives it a store of its own.
*/
module LegacyProducing {
  import opened Wrappers
  import opened Repository

  /** The record the earlier producer stores: no id and no receive count. */
  datatype QueueData = QueueData(createdDt: int, payload: string)

  datatype LegacyState = LegacyState(
    keyCounter: nat,
    data: map<nat, QueueData>,
    published: seq<nat>,
    notifications: seq<nat>)

  /** No job id is published twice, and every published id and data key has
      been allocated by the counter. */
  ghost predicate LegacyInv(s: LegacyState) {
    && NoDup(s.published)
    && Allocated(s.published, s.keyCounter)
    && (forall k :: k in s.data ==> 0 < k <= s.keyCounter)
  }

  datatype StoreOp = Incr | Exec | Publish

  datatype ActionResult = Added(jobId: nat) | Failed(cause: StoreOp) {
    predicate IsSuccess() { Added? }
  }

  /** The effect of one add at time `now`; `fault` names the first store call
      that raises, if any. */
  function AddEffect(s: LegacyState, payload: string, now: int, fault: Option<StoreOp>): (r: (LegacyState, ActionResult))
    ensures r.1.IsSuccess() <==> fault.None?
    ensures r.1.Failed? ==> r.1.cause == fault.value
  {
    var jobId := s.keyCounter + 1;
    var advanced := s.(keyCounter := jobId);
    var written := advanced.(data := s.data[jobId := QueueData(now, payload)],
                             published := s.published + [jobId]);
    match fault
    case Some(Incr) => (s, Failed(Incr))
    case Some(Exec) => (advanced, Failed(Exec))
    case Some(Publish) => (written, Failed(Publish))
    case None => (written.(notifications := s.notifications + [jobId]), Added(jobId))
  }

  /** A successful add takes the next counter value, fresh and larger than every
      job id allocated before; the stored record holds exactly the creation time
      and the payload. */
  lemma AddAllocatesFreshJob(s: LegacyState, payload: string, now: int, fault: Option<StoreOp>)
    requires LegacyInv(s)
    ensures var (t, res) := AddEffect(s, payload, now, fault);
      res.Added? ==>
        && res.jobId == s.keyCounter + 1 == t.keyCounter
        && res.jobId !in s.data && res.jobId !in s.published
        && (forall k :: k in s.data ==> k < res.jobId)
        && t.data == s.data[res.jobId := QueueData(now, payload)]
  {
  }

  /** The record write and the push onto the tail of the published list are one
      unit; a failed exec changes nothing but the counter. */
  lemma AddIsAtomic(s: LegacyState, payload: string, now: int, fault: Option<StoreOp>)
    ensures var t := AddEffect(s, payload, now, fault).0; var jobId := s.keyCounter + 1;
      && (fault == Some(Incr) ==> t == s)
      && (fault == Some(Exec) ==> t == s.(keyCounter := jobId))
      && (fault.None? || fault == Some(Publish) ==>
            t.data == s.data[jobId := QueueData(now, payload)] && t.published == s.published + [jobId])
  {
  }

  /** The job id is published only after a committed write, and only on success. */
  lemma AddPublishes(s: LegacyState, payload: string, now: int, fault: Option<StoreOp>)
    ensures var (t, res) := AddEffect(s, payload, now, fault);
      && (res.Added? ==> t.notifications == s.notifications + [res.jobId] && res.jobId in t.data && res.jobId in t.published)
      && (res.Failed? ==> t.notifications == s.notifications)
  {
  }

  /** An add keeps the invariant: the new job id appears once, at the tail. */
  lemma AddKeepsInv(s: LegacyState, payload: string, now: int, fault: Option<StoreOp>)
    requires LegacyInv(s)
    ensures LegacyInv(AddEffect(s, payload, now, fault).0)
  {
    var jobId := s.keyCounter + 1;
    var t := AddEffect(s, payload, now, fault).0;
    if fault.None? || fault == Some(Publish) {
      assert jobId !in s.published;
      forall i, j | 0 <= i < j < |t.published|
        ensures t.published[i] != t.published[j]
      {
        if j == |s.published| {
          assert t.published[i] == s.published[i];
        }
      }
    }
  }

  /** The keys the earlier producer uses in the store. */
  class LegacyStore {
    var keyCounter: nat
    var data: map<nat, QueueData>
    var published: seq<nat>
    var notifications: seq<nat>

    function State(): LegacyState
      reads this
    {
      LegacyState(keyCounter, data, published, notifications)
    }

    ghost predicate Valid()
      reads this
    {
      LegacyInv(State())
    }

    constructor ()
      ensures Valid()
      ensures State() == LegacyState(0, map[], [], [])
    {
      keyCounter, data, published, notifications := 0, map[], [], [];
    }

    /** INCR on the queue key counter. */
    method Incr() returns (jobId: nat)
      modifies this
      ensures jobId == old(keyCounter) + 1
      ensures State() == old(State()).(keyCounter := jobId)
    {
      keyCounter := keyCounter + 1;
      jobId := keyCounter;
    }

    /** The multi/exec unit: both fields written and the job id appended. */
    method ExecAdd(jobId: nat, record: QueueData)
      modifies this
      ensures State() == old(State()).(data := old(data)[jobId := record], published := old(published) + [jobId])
    {
      data := data[jobId := record];
      published := published + [jobId];
    }

    /** PUBLISH of the job id on the notification channel. */
    method Publish(jobId: nat)
      modifies this
      ensures State() == old(State()).(notifications := old(notifications) + [jobId])
    {
      notifications := notifications + [jobId];
    }
  }

  class LegacyProducer {
    const store: LegacyStore

    constructor (store: LegacyStore)
      ensures this.store == store
    {
      this.store := store;
    }

    /** Adds `payload` at time `now`; `fault` names the store call that raises. */
    method Add(payload: string, now: int, fault: Option<StoreOp>) returns (result: ActionResult)
      modifies store
      ensures (store.State(), result) == AddEffect(old(store.State()), payload, now, fault)
      ensures old(store.Valid()) ==> store.Valid()
    {
      ghost var s0 := store.State();
      if LegacyInv(s0) {
        AddKeepsInv(s0, payload, now, fault);
      }
      if fault == Some(Incr) {
        return Failed(Incr);
      }
      var jobId := store.Incr();
      var record := QueueData(now, payload);
      if fault == Some(Exec) {
        return Failed(Exec);
      }
      store.ExecAdd(jobId, record);
      if fault.Some? {
        return Failed(Publish);
      }
      store.Publish(jobId);
      result := Added(jobId);
    }
  }
}
