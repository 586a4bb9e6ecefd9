/**
 * The four request handlers of main.py with the web framework removed:
 * each is a pure function from the current store (and the request's inputs)
 * to the handler's result and the store it leaves behind.
 */
module Handlers {
  import opened Wrappers
  import opened Enums
  import opened Jobs

  /** The failures a handler can report. */
  datatype Error =
    /** The enqueue body could not be read, or lacks the `time_critical` key (answered with 400). */
    | MissingTimeCriticalKey
    /** Dequeue found the store empty (answered with 404). */
    | NoJobsExist
    /** Dequeue found jobs, but none of them `QUEUED` (answered with 404). */
    | NoJobsToDequeue
    /** A job id that is not in the store was looked up; the lookup raises, so the handler does not answer. */
    | UnknownJob
    /** Conclude was asked for a job that does not exist (answered with 404). */
    | JobNotFound

  /**
   * The JSON body of an enqueue request, as the handler sees it:
   * - `NoBody`: no body, or one that is falsy (`null`, `{}`, `[]`, ...);
   * - `Unreadable`: reading the body raises, or it is truthy but cannot be indexed by a key;
   * - `Object(flag)`: a non-empty object; `flag` is its `time_critical` value, `None` when the key is absent.
   */
  datatype Body = NoBody | Unreadable | Object(timeCritical: Option<bool>)

  /** The `Type` an enqueue body asks for, or the error it provokes. */
  function ReadType(body: Body): (r: Result<JobType, Error>)
    ensures r == Ok(TimeCritical) <==> body == Object(Some(true))
    ensures r.Err? <==> body.Unreadable? || body == Object(None)
    ensures r.Err? ==> r.error == MissingTimeCriticalKey
  {
    match body
    case NoBody => Ok(NotTimeCritical)
    case Unreadable => Err(MissingTimeCriticalKey)
    case Object(None) => Err(MissingTimeCriticalKey)
    case Object(Some(flag)) => Ok(if flag then TimeCritical else NotTimeCritical)
  }

  /**
   * `enqueue`: insert a new `QUEUED` job under the fresh identifier `id`
   * and answer with that identifier. `id` stands for the random UUID the
   * handler draws; it is assumed not to collide with a stored key.
   */
  function Enqueue(store: Store, id: Id, body: Body): (r: (Result<Id, Error>, Store))
    requires !Contains(store, id)
    ensures r.0.Ok? <==> ReadType(body).Ok?
    ensures r.0.Err? ==> r.0.error == MissingTimeCriticalKey && r.1 == store
    ensures r.0.Ok? ==> r.0.value == id
    ensures r.0.Ok? ==> |r.1| == |store| + 1 && r.1[..|store|] == store
    ensures r.0.Ok? ==> r.1[|store|].0 == id && r.1[|store|].1 == Job(id, ReadType(body).value, Queued)
  {
    match ReadType(body)
    case Err(e) => (Err(e), store)
    case Ok(t) => (Ok(id), store + [(id, Job(id, t, Queued))])
  }

  /**
   * Dequeue picked the job at position `i`: the first `QUEUED` entry in
   * insertion order. In `store'` that job alone changed, to `IN_PROGRESS`,
   * and `job` is its new record.
   */
  predicate ClaimedFirst(store: Store, store': Store, i: nat, job: Job)
  {
    && i < |store|
    && store[i].1.status == Queued
    && (forall j :: 0 <= j < i ==> store[j].1.status != Queued)
    && OnlyStatusChangedAt(store, store', i)
    && store'[i].1 == job
    && job.status == InProgress
  }

  /**
   * `dequeue`: move the first `QUEUED` job, in insertion order, to
   * `IN_PROGRESS` and answer with its record. An empty store and a store
   * without a `QUEUED` job fail with different results.
   */
  function Dequeue(store: Store): (r: (Result<Job, Error>, Store))
    ensures r.0 == Err(NoJobsExist) <==> |store| == 0
    ensures r.0 == Err(NoJobsToDequeue) <==>
      |store| > 0 && forall j :: 0 <= j < |store| ==> store[j].1.status != Queued
    ensures r.0.Ok? <==> FirstQueued(store).Some?
    ensures r.0.Err? ==> r.1 == store
    ensures r.0.Ok? ==> FirstQueued(store).Some? && ClaimedFirst(store, r.1, FirstQueued(store).value, r.0.value)
  {
    if |store| == 0 then (Err(NoJobsExist), store)
    else match FirstQueued(store)
      case None => (Err(NoJobsToDequeue), store)
      case Some(i) =>
        var store' := SetStatus(store, i, InProgress);
        (Ok(store'[i].1), store')
  }

  /**
   * The handler's own loop: walk the entries in insertion order and claim
   * the first `QUEUED` one. It computes what `Dequeue` defines.
   */
  method DequeueScan(store: Store) returns (res: Result<Job, Error>, store': Store)
    ensures (res, store') == Dequeue(store)
  {
    if |store| == 0 {
      return Err(NoJobsExist), store;
    }
    var k := 0;
    while k < |store|
      invariant 0 <= k <= |store|
      invariant forall j :: 0 <= j < k ==> store[j].1.status != Queued
    {
      if store[k].1.status == Queued {
        store' := SetStatus(store, k, InProgress);
        return Ok(store'[k].1), store';
      }
      k := k + 1;
    }
    return Err(NoJobsToDequeue), store;
  }

  /**
   * `conclude` as written: look the job up, and if its record is truthy
   * set it to `CONCLUDED`, whatever its status was. The lookup of a
   * missing id raises before the truthiness test, and a job record always
   * holds its three keys, so the "Job not found" answer is never given.
   */
  function ConcludeAsWritten(store: Store, id: Id): (r: (Result<Job, Error>, Store))
    ensures r.0.Err? <==> !Contains(store, id)
    ensures r.0.Err? ==> r.0.error == UnknownJob && r.1 == store
    ensures r.0 != Err(JobNotFound)
  {
    match IndexOf(store, id)
    case None => (Err(UnknownJob), store)
    case Some(i) =>
      if IsTruthy(store[i].1) then
        var store' := SetStatus(store, i, Concluded);
        (Ok(store'[i].1), store')
      else
        (Err(JobNotFound), store)
  }

  /**
   * `conclude` as its not-found branch shows it was meant to behave: set
   * the job stored under `id` to `CONCLUDED`, whatever its status was, and
   * answer with its record; answer "Job not found" for a missing id.
   */
  function Conclude(store: Store, id: Id): (r: (Result<Job, Error>, Store))
    ensures r.0.Err? <==> !Contains(store, id)
    ensures r.0.Err? ==> r.0.error == JobNotFound && r.1 == store
    ensures r.0.Ok? ==>
      var i := IndexOf(store, id).value;
      && OnlyStatusChangedAt(store, r.1, i)
      && r.1[i].1 == r.0.value
      && r.0.value.status == Concluded
  {
    match IndexOf(store, id)
    case None => (Err(JobNotFound), store)
    case Some(i) =>
      var store' := SetStatus(store, i, Concluded);
      (Ok(store'[i].1), store')
  }

  /**
   * For a missing id the code as written fails in the lookup, where the
   * intended behaviour is the "Job not found" answer. For example, any
   * conclude on the empty store.
   */
  lemma MissingJobNotReported(store: Store, id: Id)
    requires !Contains(store, id)
    ensures ConcludeAsWritten(store, id).0 == Err(UnknownJob)
    ensures Conclude(store, id).0 == Err(JobNotFound)
  {
  }

  /**
   * The correction changes nothing else: both versions leave the same
   * store, and they give the same answer whenever the job exists.
   */
  lemma ConcludeCorrectionAgrees(store: Store, id: Id)
    ensures ConcludeAsWritten(store, id).1 == Conclude(store, id).1
    ensures Contains(store, id) ==> ConcludeAsWritten(store, id) == Conclude(store, id)
  {
    if Contains(store, id) {
      var i := IndexOf(store, id).value;
      assert IsTruthy(store[i].1);
    }
  }

  /** `get_info`: the record stored under `id`; a missing id makes the lookup fail. */
  function GetInfo(store: Store, id: Id): (r: Result<Job, Error>)
    ensures r.Err? <==> !Contains(store, id)
    ensures r.Err? ==> r.error == UnknownJob
    ensures r.Ok? ==> exists i :: 0 <= i < |store| && store[i] == (id, r.value)
  {
    match IndexOf(store, id)
    case None => Err(UnknownJob)
    case Some(i) => Ok(store[i].1)
  }

  /** The job's `Type` is `TIME_CRITICAL` exactly when the body's `time_critical` is true. */
  lemma EnqueueType(store: Store, id: Id, body: Body)
    requires !Contains(store, id)
    ensures var r := Enqueue(store, id, body);
      r.0.Ok? ==> (r.1[|store|].1.jobType == TimeCritical <==> body == Object(Some(true)))
    ensures body.NoBody? ==> Enqueue(store, id, body).1[|store|].1.jobType == NotTimeCritical
  {
  }

  /** A fresh enqueue keeps keys unique and every key naming its own job. */
  lemma EnqueueWellFormed(store: Store, id: Id, body: Body)
    requires WellFormed(store)
    requires !Contains(store, id)
    ensures WellFormed(Enqueue(store, id, body).1)
  {
  }

  /** Changing one status keeps a store well-formed. */
  lemma StatusChangeWellFormed(store: Store, store': Store, i: nat)
    requires WellFormed(store)
    requires OnlyStatusChangedAt(store, store', i)
    ensures WellFormed(store')
  {
    forall a, b | 0 <= a < b < |store'|
      ensures store'[a].0 != store'[b].0
    {
      assert SameEntry(store[a], store'[a]) && SameEntry(store[b], store'[b]);
    }
  }

  /** Dequeue keeps a store well-formed. */
  lemma DequeueWellFormed(store: Store)
    requires WellFormed(store)
    ensures WellFormed(Dequeue(store).1)
  {
    var r := Dequeue(store);
    if r.0.Ok? {
      StatusChangeWellFormed(store, r.1, FirstQueued(store).value);
    }
  }

  /** Conclude keeps a store well-formed. */
  lemma ConcludeWellFormed(store: Store, id: Id)
    requires WellFormed(store)
    ensures WellFormed(Conclude(store, id).1)
  {
    var r := Conclude(store, id);
    if r.0.Ok? {
      StatusChangeWellFormed(store, r.1, IndexOf(store, id).value);
    }
  }

  /**
   * Which job dequeue picks depends on the statuses alone: two stores
   * whose entries have the same statuses, whatever their types, yield the
   * same position.
   */
  lemma {:induction false} DequeueIgnoresType(store: Store, other: Store)
    requires |other| == |store|
    requires forall j :: 0 <= j < |store| ==> other[j].1.status == store[j].1.status
    ensures FirstQueued(other) == FirstQueued(store)
    ensures Dequeue(other).0.Err? <==> Dequeue(store).0.Err?
  {
    var a, b := FirstQueued(store), FirstQueued(other);
    if a.Some? {
      assert other[a.value].1.status == Queued;
    }
    if b.Some? {
      assert store[b.value].1.status == Queued;
    }
  }

  /** Concluding twice is the same as concluding once, in answer and in store. */
  lemma ConcludeIdempotent(store: Store, id: Id)
    ensures var once := Conclude(store, id);
      Conclude(once.1, id) == once
  {
    var once := Conclude(store, id);
    if once.0.Ok? {
      var i := IndexOf(store, id).value;
      IndexOfIgnoresStatus(store, once.1, i, id);
      assert once.1[i].1.status == Concluded;
      assert SetStatus(once.1, i, Concluded) == once.1;
    }
  }

  /**
   * Conclude does not require the job to be in progress: a job still
   * `QUEUED` goes straight to `CONCLUDED`, skipping `IN_PROGRESS`.
   */
  lemma ConcludeSkipsInProgress(store: Store, id: Id)
    requires IndexOf(store, id).Some?
    requires store[IndexOf(store, id).value].1.status == Queued
    ensures var r := Conclude(store, id);
      r.0.Ok? && r.0.value.status == Concluded
      && r.1[IndexOf(store, id).value].1.status == Concluded
  {
  }

  /** Reading a job right after enqueueing it shows it `QUEUED` with the requested type. */
  lemma GetAfterEnqueue(store: Store, id: Id, body: Body)
    requires !Contains(store, id)
    requires ReadType(body).Ok?
    ensures GetInfo(Enqueue(store, id, body).1, id) == Ok(Job(id, ReadType(body).value, Queued))
  {
    var s' := Enqueue(store, id, body).1;
    assert s'[|store|].0 == id;
  }

  /** The record dequeue answers with is what a later read of that job shows. */
  lemma GetAfterDequeue(store: Store)
    requires WellFormed(store)
    requires Dequeue(store).0.Ok?
    ensures var r := Dequeue(store);
      GetInfo(r.1, r.0.value.id) == r.0
  {
    var r := Dequeue(store);
    var i := FirstQueued(store).value;
    StatusChangeWellFormed(store, r.1, i);
    IndexOfUnique(r.1, r.0.value.id, i);
  }

  /** The record conclude answers with is what a later read of that job shows. */
  lemma GetAfterConclude(store: Store, id: Id)
    requires Contains(store, id)
    ensures var r := Conclude(store, id);
      GetInfo(r.1, id) == r.0
  {
    var r := Conclude(store, id);
    IndexOfIgnoresStatus(store, r.1, IndexOf(store, id).value, id);
  }
}
