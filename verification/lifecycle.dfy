/**
 * Properties of the service over many requests: the order in which
 * dequeue hands out jobs, and what every sequence of requests preserves.
 */
module Lifecycle {
  import opened Wrappers
  import opened Enums
  import opened Jobs
  import opened Handlers

  /** The IDs of the `QUEUED` jobs, in insertion order: the line dequeue serves. */
  function QueuedIds(store: Store): seq<Id>
  {
    if |store| == 0 then []
    else (if store[0].1.status == Queued then [store[0].1.id] else []) + QueuedIds(store[1..])
  }

  /** Appending an entry extends the line by that entry's job when it is `QUEUED`. */
  lemma {:induction false} QueuedIdsAppend(store: Store, e: (Id, Job))
    ensures QueuedIds(store + [e]) == QueuedIds(store) + (if e.1.status == Queued then [e.1.id] else [])
  {
    if |store| == 0 {
      assert store + [e] == [e];
      assert [e][1..] == [];
    } else {
      assert (store + [e])[1..] == store[1..] + [e];
      QueuedIdsAppend(store[1..], e);
    }
  }

  /** The line is empty exactly when there is no `QUEUED` job to pick. */
  lemma {:induction false} QueuedIdsEmpty(store: Store)
    ensures QueuedIds(store) == [] <==> FirstQueued(store).None?
  {
    if |store| > 0 {
      QueuedIdsEmpty(store[1..]);
    }
  }

  /**
   * The job dequeue picks heads the line, and claiming it removes exactly
   * that head from the line.
   */
  lemma {:induction false} ClaimTakesHead(store: Store)
    requires FirstQueued(store).Some?
    ensures var i := FirstQueued(store).value;
      && QueuedIds(store) != []
      && store[i].1.id == QueuedIds(store)[0]
      && QueuedIds(SetStatus(store, i, InProgress)) == QueuedIds(store)[1..]
  {
    var i := FirstQueued(store).value;
    var s' := SetStatus(store, i, InProgress);
    if store[0].1.status == Queued {
      assert i == 0;
      assert s'[1..] == store[1..];
    } else {
      var rest := store[1..];
      assert FirstQueued(rest) == Some(i - 1);
      ClaimTakesHead(rest);
      assert s'[1..] == SetStatus(rest, i - 1, InProgress);
    }
  }

  /** The answers to `n` dequeue requests in a row, and the store they leave. */
  function DequeueMany(store: Store, n: nat): (r: (seq<Result<Job, Error>>, Store))
    ensures |r.0| == n
    ensures Keeps(store, r.1) && |r.1| == |store|
    decreases n
  {
    if n == 0 then ([], store)
    else
      var first := Dequeue(store);
      var rest := DequeueMany(first.1, n - 1);
      KeepsTransitive(store, first.1, rest.1);
      ([first.0] + rest.0, rest.1)
  }

  /**
   * FIFO: `n` dequeues in a row, with `n` no more than the jobs waiting,
   * answer with the first `n` waiting jobs in insertion order, and leave
   * the rest of the line waiting.
   */
  lemma {:induction false} DequeueServesInOrder(store: Store, n: nat)
    requires n <= |QueuedIds(store)|
    ensures var r := DequeueMany(store, n);
      && (forall k :: 0 <= k < n ==> r.0[k].Ok? && r.0[k].value.id == QueuedIds(store)[k])
      && QueuedIds(r.1) == QueuedIds(store)[n..]
    decreases n
  {
    if n > 0 {
      QueuedIdsEmpty(store);
      ClaimTakesHead(store);
      var first := Dequeue(store);
      DequeueServesInOrder(first.1, n - 1);
    }
  }

  /** Every id is new: none is already stored, and no two are equal. */
  predicate FreshIds(store: Store, ids: seq<Id>)
  {
    && (forall i :: 0 <= i < |ids| ==> !Contains(store, ids[i]))
    && (forall i, j :: 0 <= i < j < |ids| ==> ids[i] != ids[j])
  }

  /** Enqueueing a fresh id keeps the remaining ids fresh. */
  lemma FreshAfterEnqueue(store: Store, ids: seq<Id>, body: Body)
    requires |ids| > 0 && FreshIds(store, ids)
    ensures FreshIds(Enqueue(store, ids[0], body).1, ids[1..])
  {
    var s1 := Enqueue(store, ids[0], body).1;
    forall i | 0 <= i < |ids| - 1
      ensures !Contains(s1, ids[1..][i])
    {
      assert ids[1..][i] == ids[i + 1] != ids[0];
      assert !Contains(store, ids[i + 1]);
    }
  }

  /**
   * One accepted enqueue request per id, in order. Enqueueing a batch
   * appends the batch to the line, and keeps every existing job.
   */
  function EnqueueAll(store: Store, ids: seq<Id>, body: Body): (r: Store)
    requires FreshIds(store, ids)
    requires ReadType(body).Ok?
    ensures QueuedIds(r) == QueuedIds(store) + ids
    ensures Keeps(store, r)
    decreases |ids|
  {
    if |ids| == 0 then store
    else
      var s1 := Enqueue(store, ids[0], body).1;
      FreshAfterEnqueue(store, ids, body);
      assert s1 == store + [s1[|store|]];
      QueuedIdsAppend(store, s1[|store|]);
      assert ids == [ids[0]] + ids[1..];
      var r := EnqueueAll(s1, ids[1..], body);
      KeepsTransitive(store, s1, r);
      r
  }

  /**
   * FIFO across producers and consumers: after a batch of enqueues, as
   * many dequeues as there are waiting jobs hand out first the jobs that
   * were already waiting and then the batch, in the order it was enqueued.
   */
  lemma Fifo(store: Store, ids: seq<Id>, body: Body)
    requires FreshIds(store, ids)
    requires ReadType(body).Ok?
    ensures var waiting := QueuedIds(store) + ids;
      var r := DequeueMany(EnqueueAll(store, ids, body), |waiting|);
      forall k :: 0 <= k < |waiting| ==> r.0[k].Ok? && r.0[k].value.id == waiting[k]
  {
    var s := EnqueueAll(store, ids, body);
    DequeueServesInOrder(s, |QueuedIds(s)|);
  }

  /**
   * The worked example: on a fresh store, enqueue J1, J2, J3; three
   * dequeues answer with J1, J2 and J3 in that order, and a fourth finds
   * nothing to dequeue.
   */
  lemma ThreeJobsInOrder()
    ensures var s := EnqueueAll(EmptyStore, ["J1", "J2", "J3"], NoBody);
      var r := DequeueMany(s, 3);
      && r.0[0].Ok? && r.0[0].value.id == "J1"
      && r.0[1].Ok? && r.0[1].value.id == "J2"
      && r.0[2].Ok? && r.0[2].value.id == "J3"
      && Dequeue(r.1).0 == Err(NoJobsToDequeue)
  {
    var ids: seq<Id> := ["J1", "J2", "J3"];
    assert FreshIds(EmptyStore, ids);
    var s := EnqueueAll(EmptyStore, ids, NoBody);
    assert QueuedIds(s) == ids;
    DequeueServesInOrder(s, 3);
    var r := DequeueMany(s, 3);
    assert |s| >= 3 by {
      assert |QueuedIds(s)| == 3;
      QueuedIdsLength(s);
    }
    QueuedIdsEmpty(r.1);
  }

  /** The line is never longer than the store. */
  lemma {:induction false} QueuedIdsLength(store: Store)
    ensures |QueuedIds(store)| <= |store|
  {
    if |store| > 0 {
      QueuedIdsLength(store[1..]);
    }
  }

  /** A request reaching the service, its path parameter and body already decoded. */
  datatype Request =
    | EnqueueRequest(id: Id, body: Body)
    | DequeueRequest
    | ConcludeRequest(jobId: Id)
    | GetInfoRequest(jobId: Id)

  /** The identifier an enqueue request draws is not already a stored key. */
  predicate Admissible(store: Store, req: Request)
  {
    req.EnqueueRequest? ==> !Contains(store, req.id)
  }

  /** How far along the lifecycle a status is. */
  function Rank(s: Status): nat
  {
    match s
    case Queued => 0
    case InProgress => 1
    case Concluded => 2
  }

  /** No job of `store` has gone back along the lifecycle in `store'`. */
  predicate NoRegression(store: Store, store': Store)
    requires |store| <= |store'|
  {
    forall j :: 0 <= j < |store| ==> Rank(store[j].1.status) <= Rank(store'[j].1.status)
  }

  /**
   * The store after serving one request. No request removes or reorders a
   * job or rewrites its ID or Type, no status moves backwards, and keys
   * stay unique.
   */
  function Step(store: Store, req: Request): (r: Store)
    requires Admissible(store, req)
    ensures Keeps(store, r)
    ensures NoRegression(store, r)
    ensures WellFormed(store) ==> WellFormed(r)
  {
    match req
    case EnqueueRequest(id, body) =>
      var r := Enqueue(store, id, body).1;
      assert WellFormed(store) ==> WellFormed(r) by {
        if WellFormed(store) { EnqueueWellFormed(store, id, body); }
      }
      r
    case DequeueRequest =>
      var r := Dequeue(store).1;
      assert WellFormed(store) ==> WellFormed(r) by {
        if WellFormed(store) { DequeueWellFormed(store); }
      }
      r
    case ConcludeRequest(id) =>
      var r := Conclude(store, id).1;
      assert WellFormed(store) ==> WellFormed(r) by {
        if WellFormed(store) { ConcludeWellFormed(store, id); }
      }
      r
    case GetInfoRequest(_) => store
  }

  /** Every enqueue request of the run draws an identifier that is fresh at that moment. */
  predicate ValidRun(store: Store, reqs: seq<Request>)
    decreases |reqs|
  {
    |reqs| == 0 || (Admissible(store, reqs[0]) && ValidRun(Step(store, reqs[0]), reqs[1..]))
  }

  /** The store after serving the requests one after another. */
  function Run(store: Store, reqs: seq<Request>): (r: Store)
    requires ValidRun(store, reqs)
    ensures Keeps(store, r)
    ensures NoRegression(store, r)
    ensures WellFormed(store) ==> WellFormed(r)
    decreases |reqs|
  {
    if |reqs| == 0 then store
    else
      var s1 := Step(store, reqs[0]);
      var r := Run(s1, reqs[1..]);
      KeepsTransitive(store, s1, r);
      r
  }

  /** A concluded job stays concluded, whatever requests follow. */
  lemma ConcludedIsTerminal(store: Store, reqs: seq<Request>, j: nat)
    requires ValidRun(store, reqs)
    requires j < |store| && store[j].1.status == Concluded
    ensures Run(store, reqs)[j].1.status == Concluded
  {
    var r := Run(store, reqs);
    assert Rank(store[j].1.status) <= Rank(r[j].1.status);
  }

  /** The IDs of the jobs handed out by the successful dequeues of a run, in order. */
  function Served(store: Store, reqs: seq<Request>): seq<Id>
    requires ValidRun(store, reqs)
    decreases |reqs|
  {
    if |reqs| == 0 then []
    else
      var served := Dequeue(store).0;
      var head := if reqs[0].DequeueRequest? && served.Ok? then [served.value.id] else [];
      head + Served(Step(store, reqs[0]), reqs[1..])
  }

  /** `d` names no stored job, or names one that is `QUEUED`. */
  predicate WaitingOrNew(store: Store, d: Id)
  {
    match IndexOf(store, d)
    case None => true
    case Some(k) => store[k].1.status == Queued
  }

  /**
   * If `d` is waiting or new after a request, it was waiting or new before:
   * no request puts a stored job back in the line.
   */
  lemma StepKeepsWaitingOrNew(store: Store, req: Request, d: Id)
    requires WellFormed(store)
    requires Admissible(store, req)
    requires WaitingOrNew(Step(store, req), d)
    ensures WaitingOrNew(store, d)
  {
    var s1 := Step(store, req);
    if Contains(store, d) {
      var k := IndexOf(store, d).value;
      assert SameEntry(store[k], s1[k]);
      IndexOfUnique(s1, d, k);
      assert Rank(store[k].1.status) <= Rank(s1[k].1.status);
    }
  }

  /**
   * Every job a run hands out was either waiting in the store at the start
   * of the run, or enqueued during it.
   */
  lemma {:induction false} ServedWereWaiting(store: Store, reqs: seq<Request>)
    requires WellFormed(store)
    requires ValidRun(store, reqs)
    ensures forall d :: d in Served(store, reqs) ==> WaitingOrNew(store, d)
    decreases |reqs|
  {
    if |reqs| > 0 {
      var s1 := Step(store, reqs[0]);
      ServedWereWaiting(s1, reqs[1..]);
      forall d | d in Served(s1, reqs[1..])
        ensures WaitingOrNew(store, d)
      {
        StepKeepsWaitingOrNew(store, reqs[0], d);
      }
      if reqs[0].DequeueRequest? && Dequeue(store).0.Ok? {
        var i := FirstQueued(store).value;
        IndexOfUnique(store, Dequeue(store).0.value.id, i);
      }
    }
  }

  /** No identifier occurs twice. */
  predicate Distinct(ids: seq<Id>)
  {
    forall a, b :: 0 <= a < b < |ids| ==> ids[a] != ids[b]
  }

  /** Putting a new identifier in front of a list without repeats gives a list without repeats. */
  lemma DistinctPrepend(d: Id, ids: seq<Id>)
    requires Distinct(ids) && d !in ids
    ensures Distinct([d] + ids)
  {
  }

  /** A job just handed out by a dequeue is never handed out again later in the run. */
  lemma ClaimedNotServedAgain(store: Store, reqs: seq<Request>)
    requires WellFormed(store)
    requires Dequeue(store).0.Ok?
    requires ValidRun(Dequeue(store).1, reqs)
    ensures Dequeue(store).0.value.id !in Served(Dequeue(store).1, reqs)
  {
    var s1 := Dequeue(store).1;
    var i := FirstQueued(store).value;
    var d := Dequeue(store).0.value.id;
    DequeueWellFormed(store);
    assert s1[i].0 == d && s1[i].1.status == InProgress;
    ServedWereWaiting(s1, reqs);
    IndexOfUnique(s1, d, i);
    assert !WaitingOrNew(s1, d);
  }

  /** No job is handed out by two dequeues, whatever the sequence of requests, when requests are served one at a time. */
  lemma {:induction false} NoJobServedTwice(store: Store, reqs: seq<Request>)
    requires WellFormed(store)
    requires ValidRun(store, reqs)
    ensures Distinct(Served(store, reqs))
    decreases |reqs|
  {
    if |reqs| > 0 {
      var s1 := Step(store, reqs[0]);
      NoJobServedTwice(s1, reqs[1..]);
      if reqs[0].DequeueRequest? && Dequeue(store).0.Ok? {
        ClaimedNotServedAgain(store, reqs[1..]);
        DistinctPrepend(Dequeue(store).0.value.id, Served(s1, reqs[1..]));
      }
    }
  }
}
