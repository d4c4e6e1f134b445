/**
  The queue manager (the reaper). Every sweep reads the processing list once
  and, for each id in that snapshot, decides whether the message's lease has
  expired and, if so, whether to send it back to the published list or to
  the dead list.
*/
module Manager {
  import opened Wrappers
  import opened Repository

  /** The configuration the queue manager is built from; a field is `None`
      when it is undefined. */
  datatype AppConfiguration = AppConfiguration(
    visibilityTimeout: Option<int>,
    maxReceiveCount: Option<int>)

  datatype ConfigError = Configuration

  /** Visibility timeout in seconds and the receive budget. */
  datatype Settings = Settings(visibilityTimeout: int, maxReceiveCount: int)

  /** Construction check: every required value must be defined, and is then
      kept as given. */
  function ValidateConfig(config: Option<AppConfiguration>): (r: Result<Settings, ConfigError>)
    ensures r.Success? <==>
      config.Some? && config.value.visibilityTimeout.Some? && config.value.maxReceiveCount.Some?
    ensures r.Success? ==>
      r.value.visibilityTimeout == config.value.visibilityTimeout.value &&
      r.value.maxReceiveCount == config.value.maxReceiveCount.value
    ensures r.Failure? ==> r.error == Configuration
  {
    match config
    case None => Failure(Configuration)
    case Some(c) =>
      if c.visibilityTimeout.None? || c.maxReceiveCount.None? then Failure(Configuration)
      else Success(Settings(c.visibilityTimeout.value, c.maxReceiveCount.value))
  }

  /** Period of the recurring sweep, in milliseconds: 90% of the visibility timeout. */
  function SweepPeriod(visibilityTimeout: int): (ms: int)
    ensures visibilityTimeout > 0 ==> 0 < ms < visibilityTimeout * 1000
  {
    visibilityTimeout * 900
  }

  /** A lease has expired when strictly more than the visibility timeout has
      passed since it was taken; a missing lease time never expires. */
  predicate LeaseExpired(now: int, receivedDt: Option<int>, visibilityTimeout: int) {
    receivedDt.Some? && now - receivedDt.value > visibilityTimeout * 1000
  }

  datatype Decision = Skip | Redeliver | DeadLetter | MissingMetadata

  /** What the reaper does with one processing message, given its metadata. */
  function Decide(now: int, meta: Option<Message>, visibilityTimeout: int, maxReceiveCount: int): (d: Decision)
    ensures d == MissingMetadata <==> meta.None?
    ensures meta.Some? ==> (d == Skip <==> !LeaseExpired(now, meta.value.receivedDt, visibilityTimeout))
    ensures d == Redeliver ==>
      meta.value.receiveCount == 0 || meta.value.receiveCount < maxReceiveCount
    ensures d == DeadLetter ==>
      meta.value.receiveCount != 0 && meta.value.receiveCount >= maxReceiveCount
  {
    match meta
    case None => MissingMetadata
    case Some(m) =>
      match m.receivedDt
      case None => Skip
      case Some(received) =>
        if now - received > visibilityTimeout * 1000 then
          if m.receiveCount == 0 || m.receiveCount < maxReceiveCount then Redeliver
          else DeadLetter
        else Skip
  }

  /** What happened to one id of the snapshot. */
  datatype Outcome =
    | Skipped
    | Redelivered
    | DeadLettered
    | MetadataNotFound
    | RedeliveryFailed
    | DeadLetterFailed

  /** One id of a sweep: the decision, the move and, after a successful move to
      the published list, the notification. `rejected` holds the ids whose
      atomic move the store reports as failed. */
  function Process(s: StoreState, id: nat, now: int, cfg: Settings, rejected: set<nat>): (r: (StoreState, Outcome))
    ensures var d := Decide(now, Lookup(s, id), cfg.visibilityTimeout, cfg.maxReceiveCount);
      && (r.1 == MetadataNotFound <==> d == MissingMetadata)
      && (r.1 == Skipped <==> d == Skip)
      && (r.1 == Redelivered <==> d == Redeliver && id !in rejected)
      && (r.1 == RedeliveryFailed <==> d == Redeliver && id in rejected)
      && (r.1 == DeadLettered <==> d == DeadLetter && id !in rejected)
      && (r.1 == DeadLetterFailed <==> d == DeadLetter && id in rejected)
    ensures r.1 in {Skipped, MetadataNotFound, RedeliveryFailed, DeadLetterFailed} ==> r.0 == s
    ensures r.1 == Redelivered ==>
      id in s.records && r.0 == MovedToPublished(s, id, now).(notifications := s.notifications + [id])
    ensures r.1 == DeadLettered ==> id in s.records && r.0 == MovedToDead(s, id, now)
  {
    match Decide(now, Lookup(s, id), cfg.visibilityTimeout, cfg.maxReceiveCount)
    case MissingMetadata => (s, MetadataNotFound)
    case Skip => (s, Skipped)
    case Redeliver =>
      if id in rejected then (s, RedeliveryFailed)
      else
        var moved := MovedToPublished(s, id, now);
        (moved.(notifications := moved.notifications + [id]), Redelivered)
    case DeadLetter =>
      if id in rejected then (s, DeadLetterFailed)
      else (MovedToDead(s, id, now), DeadLettered)
  }

  /** A whole sweep over the snapshot `ids`, one id after the other: the final
      state and one outcome per id, in snapshot order. */
  function SweepEffect(s: StoreState, ids: seq<nat>, now: int, cfg: Settings, rejected: set<nat>): (r: (StoreState, seq<Outcome>))
    ensures |r.1| == |ids|
    decreases |ids|
  {
    if ids == [] then (s, [])
    else
      var before := SweepEffect(s, ids[..|ids| - 1], now, cfg, rejected);
      var step := Process(before.0, ids[|ids| - 1], now, cfg, rejected);
      (step.0, before.1 + [step.1])
  }

  // ---------------------------------------------------------------------------
  // One step

  /** Processing one id leaves every other id where it was, with the same record. */
  lemma ProcessFrame(s: StoreState, id: nat, now: int, cfg: Settings, rejected: set<nat>, x: nat)
    requires x != id
    ensures var t := Process(s, id, now, cfg, rejected).0;
      && (x in t.published <==> x in s.published)
      && (x in t.processing <==> x in s.processing)
      && (x in t.dead <==> x in s.dead)
      && Lookup(t, x) == Lookup(s, x)
  {
  }

  /** Processing an id that is in the processing list keeps the store invariant. */
  lemma ProcessKeepsInv(s: StoreState, id: nat, now: int, cfg: Settings, rejected: set<nat>)
    requires Inv(s) && id in s.processing
    ensures Inv(Process(s, id, now, cfg, rejected).0)
  {
    var r := Process(s, id, now, cfg, rejected);
    if r.1 == Redelivered {
      MovedToPublishedKeepsInv(s, id, now);
    } else if r.1 == DeadLettered {
      MovedToDeadKeepsInv(s, id, now);
    }
  }

  /** The outcome for an id depends only on that id's record. */
  lemma ProcessOutcomeLocal(s: StoreState, t: StoreState, id: nat, now: int, cfg: Settings, rejected: set<nat>)
    requires Lookup(s, id) == Lookup(t, id)
    ensures Process(s, id, now, cfg, rejected).1 == Process(t, id, now, cfg, rejected).1
  {
  }

  // ---------------------------------------------------------------------------
  // A whole sweep

  /** Ids outside the snapshot stay in the lists they were in, with the same record. */
  lemma {:induction false} SweepFrame(s: StoreState, ids: seq<nat>, now: int, cfg: Settings, rejected: set<nat>, x: nat)
    requires x !in ids
    ensures var t := SweepEffect(s, ids, now, cfg, rejected).0;
      && (x in t.published <==> x in s.published)
      && (x in t.processing <==> x in s.processing)
      && (x in t.dead <==> x in s.dead)
      && Lookup(t, x) == Lookup(s, x)
    decreases |ids|
  {
    if ids != [] {
      var init := ids[..|ids| - 1];
      SweepFrame(s, init, now, cfg, rejected, x);
      var before := SweepEffect(s, init, now, cfg, rejected);
      ProcessFrame(before.0, ids[|ids| - 1], now, cfg, rejected, x);
    }
  }

  /** Key invariant: a sweep over the snapshot of the processing list keeps
      every id in at most one list (and the rest of the store invariant). */
  lemma {:induction false} SweepKeepsInv(s: StoreState, ids: seq<nat>, now: int, cfg: Settings, rejected: set<nat>)
    requires Inv(s)
    requires NoDup(ids) && forall x :: x in ids ==> x in s.processing
    ensures Inv(SweepEffect(s, ids, now, cfg, rejected).0)
    ensures AtMostOneList(SweepEffect(s, ids, now, cfg, rejected).0)
    decreases |ids|
  {
    if ids != [] {
      var init := ids[..|ids| - 1];
      var last := ids[|ids| - 1];
      assert forall x :: x in init ==> x in ids;
      SweepKeepsInv(s, init, now, cfg, rejected);
      assert last !in init by {
        forall k | 0 <= k < |init| ensures init[k] != last {
          assert init[k] == ids[k];
        }
      }
      SweepFrame(s, init, now, cfg, rejected, last);
      var before := SweepEffect(s, init, now, cfg, rejected);
      ProcessKeepsInv(before.0, last, now, cfg, rejected);
    }
  }

  /** Isolation: the outcome reported for the k-th id is the one that id's own
      record in the initial state calls for, whatever happens to the others. */
  lemma {:induction false} SweepIsolation(s: StoreState, ids: seq<nat>, now: int, cfg: Settings, rejected: set<nat>, k: nat)
    requires NoDup(ids) && k < |ids|
    ensures SweepEffect(s, ids, now, cfg, rejected).1[k] == Process(s, ids[k], now, cfg, rejected).1
    decreases |ids|
  {
    var init := ids[..|ids| - 1];
    var before := SweepEffect(s, init, now, cfg, rejected);
    if k < |ids| - 1 {
      SweepIsolation(s, init, now, cfg, rejected, k);
    } else {
      assert ids[k] !in init by {
        forall j | 0 <= j < |init| ensures init[j] != ids[k] {
          assert init[j] == ids[j];
        }
      }
      SweepFrame(s, init, now, cfg, rejected, ids[k]);
      ProcessOutcomeLocal(before.0, s, ids[k], now, cfg, rejected);
    }
  }

  /** The dead list only grows at its end: nothing ever leaves it. */
  lemma {:induction false} SweepDeadOnlyGrows(s: StoreState, ids: seq<nat>, now: int, cfg: Settings, rejected: set<nat>)
    ensures s.dead <= SweepEffect(s, ids, now, cfg, rejected).0.dead
    decreases |ids|
  {
    if ids != [] {
      SweepDeadOnlyGrows(s, ids[..|ids| - 1], now, cfg, rejected);
    }
  }

  /** The ids of `ids` whose outcome was a successful redelivery, in order. */
  function RedeliveredIds(ids: seq<nat>, report: seq<Outcome>): (r: seq<nat>)
    requires |ids| == |report|
    ensures forall x :: x in r ==> x in ids
    ensures forall k :: 0 <= k < |ids| && report[k] == Redelivered ==> ids[k] in r
    decreases |ids|
  {
    if ids == [] then []
    else
      var n := |ids| - 1;
      RedeliveredIds(ids[..n], report[..n]) + (if report[n] == Redelivered then [ids[n]] else [])
  }

  /** A sweep announces exactly the ids it moved back to the published list,
      in the order it moved them; dead-lettering and failures announce nothing. */
  lemma {:induction false} SweepAnnouncesRedeliveries(s: StoreState, ids: seq<nat>, now: int, cfg: Settings, rejected: set<nat>)
    ensures var r := SweepEffect(s, ids, now, cfg, rejected);
      r.0.notifications == s.notifications + RedeliveredIds(ids, r.1)
    decreases |ids|
  {
    if ids != [] {
      var n := |ids| - 1;
      SweepAnnouncesRedeliveries(s, ids[..n], now, cfg, rejected);
      var r := SweepEffect(s, ids, now, cfg, rejected);
      var before := SweepEffect(s, ids[..n], now, cfg, rejected);
      assert r.1[..n] == before.1;
    }
  }

  /** Where each snapshot id ends up after a sweep, according to its outcome. */
  lemma SweepPlacement(s: StoreState, ids: seq<nat>, now: int, cfg: Settings, rejected: set<nat>, k: nat)
    requires Inv(s)
    requires NoDup(ids) && (forall x :: x in ids ==> x in s.processing) && k < |ids|
    ensures var r := SweepEffect(s, ids, now, cfg, rejected); var id := ids[k];
      && (r.1[k] == Redelivered ==>
            id in r.0.published && id !in r.0.processing && id !in r.0.dead &&
            id in s.records && id in r.0.records &&
            r.0.records[id].receiveCount == s.records[id].receiveCount + 1)
      && (r.1[k] == DeadLettered ==>
            id in r.0.dead && id !in r.0.processing && id !in r.0.published &&
            id in s.records && id in r.0.records &&
            r.0.records[id].receiveCount == s.records[id].receiveCount)
      && (r.1[k] !in {Redelivered, DeadLettered} ==>
            id in r.0.processing && Lookup(r.0, id) == Lookup(s, id))
  {
    var id := ids[k];
    var r := SweepEffect(s, ids, now, cfg, rejected);
    SweepKeepsInv(s, ids, now, cfg, rejected);
    SweepIsolation(s, ids, now, cfg, rejected, k);
    // The sweep splits into the part before id, the step on id, and the part after it.
    SweepSplit(s, ids, now, cfg, rejected, k);
    var pre := SweepEffect(s, ids[..k], now, cfg, rejected);
    var mid := Process(pre.0, id, now, cfg, rejected);
    var post := ids[k + 1..];
    assert id !in ids[..k] && id !in post by {
      forall j | 0 <= j < |ids| && j != k ensures ids[j] != id { }
    }
    SweepFrame(s, ids[..k], now, cfg, rejected, id);
    ProcessOutcomeLocal(pre.0, s, id, now, cfg, rejected);
    SweepFrame(mid.0, post, now, cfg, rejected, id);
    assert r.0 == SweepEffect(mid.0, post, now, cfg, rejected).0;
  }

  /** What a sweep does with each snapshot id, read off its record at the start
      of the sweep: a missing record or a lease that has not expired leaves the
      id in processing; an expired lease within the budget sends it back to the
      published list and announces it; an expired lease over the budget sends it
      to the dead list; a move the store rejects leaves it in processing. */
  lemma SweepReclaims(s: StoreState, ids: seq<nat>, now: int, cfg: Settings, rejected: set<nat>, k: nat)
    requires Inv(s)
    requires NoDup(ids) && (forall x :: x in ids ==> x in s.processing) && k < |ids|
    ensures var r := SweepEffect(s, ids, now, cfg, rejected); var id := ids[k];
      && (id !in s.records ==>
            r.1[k] == MetadataNotFound && id in r.0.processing && id !in r.0.records)
      && (id in s.records && !LeaseExpired(now, s.records[id].receivedDt, cfg.visibilityTimeout) ==>
            r.1[k] == Skipped && id in r.0.processing && Lookup(r.0, id) == Lookup(s, id))
      && (id in s.records && LeaseExpired(now, s.records[id].receivedDt, cfg.visibilityTimeout) &&
          (s.records[id].receiveCount == 0 || s.records[id].receiveCount < cfg.maxReceiveCount) ==>
            if id in rejected then
              r.1[k] == RedeliveryFailed && id in r.0.processing && Lookup(r.0, id) == Lookup(s, id)
            else
              && r.1[k] == Redelivered
              && id in r.0.published && id !in r.0.processing && id !in r.0.dead
              && id in r.0.records && r.0.records[id].receiveCount == s.records[id].receiveCount + 1
              && id in r.0.notifications)
      && (id in s.records && LeaseExpired(now, s.records[id].receivedDt, cfg.visibilityTimeout) &&
          s.records[id].receiveCount != 0 && s.records[id].receiveCount >= cfg.maxReceiveCount ==>
            if id in rejected then
              r.1[k] == DeadLetterFailed && id in r.0.processing && Lookup(r.0, id) == Lookup(s, id)
            else
              && r.1[k] == DeadLettered
              && id in r.0.dead && id !in r.0.processing && id !in r.0.published
              && id in r.0.records && r.0.records[id].receiveCount == s.records[id].receiveCount)
  {
    var r := SweepEffect(s, ids, now, cfg, rejected);
    SweepIsolation(s, ids, now, cfg, rejected, k);
    SweepPlacement(s, ids, now, cfg, rejected, k);
    SweepAnnouncesRedeliveries(s, ids, now, cfg, rejected);
  }

  /** A sweep over `ids` is the sweep over its first k ids, then the k-th id,
      then the sweep over the rest. */
  lemma {:induction false} SweepSplit(s: StoreState, ids: seq<nat>, now: int, cfg: Settings, rejected: set<nat>, k: nat)
    requires k < |ids|
    ensures SweepEffect(s, ids, now, cfg, rejected).0 ==
      SweepEffect(Process(SweepEffect(s, ids[..k], now, cfg, rejected).0, ids[k], now, cfg, rejected).0,
                  ids[k + 1..], now, cfg, rejected).0
    decreases |ids|
  {
    var n := |ids| - 1;
    var init := ids[..n];
    var mid := Process(SweepEffect(s, ids[..k], now, cfg, rejected).0, ids[k], now, cfg, rejected).0;
    var post := ids[k + 1..];
    assert SweepEffect(s, ids, now, cfg, rejected).0 ==
      Process(SweepEffect(s, init, now, cfg, rejected).0, ids[n], now, cfg, rejected).0;
    if k < n {
      assert init[..k] == ids[..k] && init[k] == ids[k];
      SweepSplit(s, init, now, cfg, rejected, k);
      assert init[k + 1..] == post[..|post| - 1];
      assert post[|post| - 1] == ids[n];
      assert SweepEffect(mid, post, now, cfg, rejected).0 ==
        Process(SweepEffect(mid, post[..|post| - 1], now, cfg, rejected).0, ids[n], now, cfg, rejected).0;
    } else {
      assert init == ids[..k];
      assert post == [];
    }
  }

  // ---------------------------------------------------------------------------
  // Bounded redelivery

  /** Number of redeliveries a message gets before it is dead-lettered: the
      receive budget, but at least one, because a message never received
      before is always redelivered. */
  function RedeliveryBudget(maxReceiveCount: int): (b: nat)
    ensures b >= 1 && b >= maxReceiveCount
    ensures maxReceiveCount >= 1 ==> b == maxReceiveCount
  {
    if maxReceiveCount < 1 then 1 else maxReceiveCount
  }

  /** The decisions over consecutive sweeps and the record left at the end. */
  datatype LeaseRun = LeaseRun(decisions: seq<Decision>, last: Message)

  /** `n` consecutive sweeps of a message that is leased again at `lease` after
      each redelivery and whose lease has always expired by `now`. A run stops at
      dead-lettering, which is terminal. */
  function ExpiredLeaseRun(m: Message, lease: int, now: int, cfg: Settings, n: nat): LeaseRun
    decreases n
  {
    var leased := m.(receivedDt := Some(lease));
    if n == 0 then LeaseRun([], m)
    else
      var d := Decide(now, Some(leased), cfg.visibilityTimeout, cfg.maxReceiveCount);
      if d == Redeliver then
        var rest := ExpiredLeaseRun(AfterRedelivery(leased, now), lease, now, cfg, n - 1);
        LeaseRun([d] + rest.decisions, rest.last)
      else LeaseRun([d], leased)
  }

  /** Bounded retry: a message whose lease keeps expiring is redelivered until
      its receive count reaches the budget and is then dead-lettered, with the
      budget as its final receive count. */
  lemma {:induction false} BoundedRetry(m: Message, lease: int, now: int, cfg: Settings, n: nat)
    requires now - lease > cfg.visibilityTimeout * 1000
    requires m.receiveCount <= RedeliveryBudget(cfg.maxReceiveCount)
    requires n > RedeliveryBudget(cfg.maxReceiveCount) - m.receiveCount
    ensures var run := ExpiredLeaseRun(m, lease, now, cfg, n);
      && run.decisions == seq(RedeliveryBudget(cfg.maxReceiveCount) - m.receiveCount, _ => Redeliver) + [DeadLetter]
      && run.last.receiveCount == RedeliveryBudget(cfg.maxReceiveCount)
    decreases n
  {
    var budget := RedeliveryBudget(cfg.maxReceiveCount);
    var leased := m.(receivedDt := Some(lease));
    if m.receiveCount < budget {
      var next := AfterRedelivery(leased, now);
      BoundedRetry(next, lease, now, cfg, n - 1);
      var rest := ExpiredLeaseRun(next, lease, now, cfg, n - 1);
      assert [Redeliver] + seq(budget - next.receiveCount, _ => Redeliver) == seq(budget - m.receiveCount, _ => Redeliver);
    } else {
      assert seq(budget - m.receiveCount, _ => Redeliver) == [];
    }
  }

  /** With a budget of zero or less a message is still redelivered once. */
  lemma ZeroBudgetRedeliversOnce(m: Message, lease: int, now: int, cfg: Settings)
    requires now - lease > cfg.visibilityTimeout * 1000
    requires cfg.maxReceiveCount <= 0 && m.receiveCount == 0
    ensures ExpiredLeaseRun(m, lease, now, cfg, 2).decisions == [Redeliver, DeadLetter]
  {
    BoundedRetry(m, lease, now, cfg, 2);
  }

  /** Visibility timeout 5 s, budget 2, every lease expiring after 6 s: two
      redeliveries, then the dead list, with a final receive count of 2. */
  lemma TwoRedeliveriesThenDead(m: Message)
    requires m.receiveCount == 0
    ensures ExpiredLeaseRun(m, 0, 6000, Settings(5, 2), 3).decisions == [Redeliver, Redeliver, DeadLetter]
    ensures ExpiredLeaseRun(m, 0, 6000, Settings(5, 2), 3).last.receiveCount == 2
  {
    BoundedRetry(m, 0, 6000, Settings(5, 2), 3);
    assert seq(2, _ => Redeliver) == [Redeliver, Redeliver];
  }

  /** The manager of one queue. */
  class QueueManager {
    const store: Store
    const visibilityTimeout: int
    const maxReceiveCount: int

    constructor (store: Store, settings: Settings)
      ensures this.store == store
      ensures visibilityTimeout == settings.visibilityTimeout
      ensures maxReceiveCount == settings.maxReceiveCount
    {
      this.store := store;
      visibilityTimeout := settings.visibilityTimeout;
      maxReceiveCount := settings.maxReceiveCount;
    }

    /** Construction: fails with a configuration error when a required value is
        undefined, otherwise keeps both values unchanged. */
    static method Create(store: Store, config: Option<AppConfiguration>) returns (r: Result<QueueManager, ConfigError>)
      ensures r.Failure? <==> ValidateConfig(config).Failure?
      ensures r.Failure? ==> r.error == Configuration
      ensures r.Success? ==>
        && fresh(r.value)
        && r.value.store == store
        && r.value.visibilityTimeout == config.value.visibilityTimeout.value
        && r.value.maxReceiveCount == config.value.maxReceiveCount.value
    {
      match ValidateConfig(config)
      case Failure(e) =>
        r := Failure(e);
      case Success(settings) =>
        var qm := new QueueManager(store, settings);
        r := Success(qm);
    }

    function Config(): Settings
    {
      Settings(visibilityTimeout, maxReceiveCount)
    }

    /** One sweep at time `now`: reads the processing list once and handles each
        id of that snapshot in turn. */
    method Sweep(now: int, rejected: set<nat>) returns (report: seq<Outcome>)
      modifies store
      ensures old(store.Valid()) ==> store.Valid()
      ensures (store.State(), report) == SweepEffect(old(store.State()), old(store.processing), now, Config(), rejected)
    {
      ghost var s0 := store.State();
      var ids := store.ReadProcessing();
      report := [];
      var i := 0;
      while i < |ids|
        invariant 0 <= i <= |ids|
        invariant (store.State(), report) == SweepEffect(s0, ids[..i], now, Config(), rejected)
      {
        var id := ids[i];
        ghost var before := store.State();
        var meta := store.GetMessageMetadata(id);
        var outcome: Outcome;
        match Decide(now, meta, visibilityTimeout, maxReceiveCount) {
          case MissingMetadata =>
            outcome := MetadataNotFound;
          case Skip =>
            outcome := Skipped;
          case Redeliver =>
            var ok := store.MoveToPublishedQueue(id, now, id !in rejected);
            if ok {
              store.SendNotification(id);
              outcome := Redelivered;
            } else {
              outcome := RedeliveryFailed;
            }
          case DeadLetter =>
            var ok := store.MoveToDeadQueue(id, now, id !in rejected);
            outcome := if ok then DeadLettered else DeadLetterFailed;
        }
        assert (store.State(), outcome) == Process(before, id, now, Config(), rejected);
        report := report + [outcome];
        assert ids[..i + 1][..i] == ids[..i];
        i := i + 1;
      }
      assert ids[..i] == ids;
      if Inv(s0) {
        SweepKeepsInv(s0, ids, now, Config(), rejected);
      }
    }
  }
}
