/**
 * The data model of the service (main.py): job records and the module-level
 * `job_queue` dictionary, kept as its insertion-ordered list of entries.
 */
module Jobs {
  import opened Wrappers
  import opened Enums

  /** A job identifier: the text of a random UUID in the service, any string here. */
  type Id = string

  /** A job's `Type` field. It is stored but never consulted when choosing a job. */
  datatype JobType = TimeCritical | NotTimeCritical

  /** A job record: the dictionary with keys `ID`, `Type` and `Status`. */
  datatype Job = Job(id: Id, jobType: JobType, status: Status)

  /** The keys of every job record, in insertion order. */
  const JobKeys: seq<string> := ["ID", "Type", "Status"]

  /**
   * Python truthiness of a job record: a dictionary is true when it holds a
   * key, and every job record holds the three `JobKeys`.
   */
  predicate IsTruthy(job: Job)
  {
    |JobKeys| > 0
  }

  /** The `job_queue` dictionary as its entries in insertion order. */
  type Store = seq<(Id, Job)>

  /** The store as the process starts it. */
  const EmptyStore: Store := []

  /** Dictionary lookup: the position of the entry whose key is `id`, if any. */
  function IndexOf(store: Store, id: Id): (r: Option<nat>)
    ensures r.Some? ==> r.value < |store| && store[r.value].0 == id
    ensures r.Some? ==> forall j :: 0 <= j < r.value ==> store[j].0 != id
    ensures r.None? ==> forall j :: 0 <= j < |store| ==> store[j].0 != id
  {
    if |store| == 0 then None
    else if store[0].0 == id then Some(0)
    else match IndexOf(store[1..], id)
      case None => None
      case Some(k) => Some(k + 1)
  }

  /** `id in job_queue`. */
  predicate Contains(store: Store, id: Id)
  {
    IndexOf(store, id).Some?
  }

  /** The position of the first entry, in insertion order, whose job is `QUEUED`. */
  function FirstQueued(store: Store): (r: Option<nat>)
    ensures r.Some? ==> r.value < |store| && store[r.value].1.status == Queued
    ensures r.Some? ==> forall j :: 0 <= j < r.value ==> store[j].1.status != Queued
    ensures r.None? ==> forall j :: 0 <= j < |store| ==> store[j].1.status != Queued
  {
    if |store| == 0 then None
    else if store[0].1.status == Queued then Some(0)
    else match FirstQueued(store[1..])
      case None => None
      case Some(k) => Some(k + 1)
  }

  /** Entries `e` and `e'` agree on key, job ID and job Type. */
  predicate SameEntry(e: (Id, Job), e': (Id, Job))
  {
    e.0 == e'.0 && e.1.id == e'.1.id && e.1.jobType == e'.1.jobType
  }

  /** Only entry `i` differs between the stores, and only in its job's status. */
  predicate OnlyStatusChangedAt(store: Store, store': Store, i: nat)
  {
    && |store'| == |store|
    && i < |store|
    && SameEntry(store[i], store'[i])
    && forall j :: 0 <= j < |store| && j != i ==> store'[j] == store[j]
  }

  /**
   * Every entry of `store` is still present in `store'`, at the same
   * position, with the same key, ID and Type: nothing was removed or
   * reordered, and only statuses may differ.
   */
  predicate Keeps(store: Store, store': Store)
  {
    && |store| <= |store'|
    && forall j :: 0 <= j < |store| ==> SameEntry(store[j], store'[j])
  }

  /** Every key names its own job, and no key occurs twice. */
  predicate WellFormed(store: Store)
  {
    && (forall i :: 0 <= i < |store| ==> store[i].1.id == store[i].0)
    && (forall i, j :: 0 <= i < j < |store| ==> store[i].0 != store[j].0)
  }

  /** `job_queue[key]["Status"] = s` for the entry at position `i`. */
  function SetStatus(store: Store, i: nat, s: Status): (r: Store)
    requires i < |store|
    ensures OnlyStatusChangedAt(store, r, i)
    ensures r[i].1.status == s
  {
    store[i := (store[i].0, store[i].1.(status := s))]
  }

  /** Lookup depends only on the keys, so changing a status does not move any entry. */
  lemma IndexOfIgnoresStatus(store: Store, store': Store, i: nat, id: Id)
    requires OnlyStatusChangedAt(store, store', i)
    ensures IndexOf(store', id) == IndexOf(store, id)
  {
    var a, b := IndexOf(store, id), IndexOf(store', id);
    if a.Some? {
      assert store'[a.value].0 == id;
    }
    if b.Some? {
      assert store[b.value].0 == id;
    }
  }

  /** In a well-formed store, the lookup finds exactly the entry carrying the key. */
  lemma IndexOfUnique(store: Store, id: Id, i: nat)
    requires WellFormed(store)
    requires i < |store|
    ensures IndexOf(store, id) == Some(i) <==> store[i].0 == id
  {
  }

  /** `Keeps` is transitive, so it holds across any sequence of operations. */
  lemma KeepsTransitive(a: Store, b: Store, c: Store)
    requires Keeps(a, b) && Keeps(b, c)
    ensures Keeps(a, c)
  {
  }
}
