# Job queue service: lifecycle model

A Dafny model of a small in-memory job queue service. Producers enqueue
jobs, consumers dequeue the oldest waiting job, and a job is then concluded.
The service keeps every job in one module-level dictionary, `job_queue`,
from job ID to a record `{ID, Type, Status}`. `Status` is an enumeration
(`QUEUED`, `IN_PROGRESS`, `CONCLUDED`), and a JSON encoder hook renders it
as its value string.

The model removes the web framework. Each of the four handlers becomes a
pure function that takes the current store and returns the handler's result
together with the store it leaves behind:

- `Wrappers`: `Option` and `Result`.
- `Enums` (enums.py): the `Status` datatype, member values, lookup by value,
  and the encoder hook `StatusEncoder.default`.
- `Jobs` (main.py): `Job`, `JobType`, and the store. The store is a
  `seq<(Id, Job)>` because a Python dict keeps insertion order. This module
  also holds dictionary lookup, the scan for the first `QUEUED` entry, and
  the frame predicates `OnlyStatusChangedAt` and `Keeps`.
- `Handlers` (main.py): `Enqueue`, `Dequeue` (plus `DequeueScan`, the
  handler's loop), `ConcludeAsWritten` / `Conclude`, and `GetInfo`, with
  lemmas about each one.
- `Lifecycle`: properties over many requests. It covers FIFO order, what
  every run of requests preserves, and that no job is handed out twice
  when requests are served one at a time.
- `Render`: the record a handler answers with. This is the job dictionary
  passed through `json.dumps` with the status encoder, modelled as its list
  of key/value pairs.

Facts about the code that the model keeps as they are:

- The service has no consumer identity and no ownership check.
- `conclude` has no status guard: a `QUEUED` job can be concluded directly.
- `dequeue` distinguishes an empty store from a store with nothing `QUEUED`.
- An unknown id in `conclude` or `get_info` is a failing dictionary lookup.
- The `Type` of a job is stored but never affects which job dequeue picks.

Statuses never move backwards (`Run`, `ConcludedIsTerminal`). They can,
however, skip `IN_PROGRESS` (`ConcludeSkipsInProgress`).

## Model

| member | source | states |
|---|---|---|
| Enums.FromValue | enums.py:5-8 | lookup by value gives the member carrying that value, and gives nothing only when no member has it |
| Enums.ExactlyThreeMembers | enums.py:5-8 | the enumeration has exactly three members, `QUEUED`, `IN_PROGRESS` and `CONCLUDED`, each listed once |
| Enums.ValueRoundTrip | enums.py:6-8 | looking up a member's value gives that member back |
| Enums.ValueInjective | enums.py:6-8 | distinct members have distinct values |
| Enums.EncodeDefault | enums.py:11-15 | the hook yields a string exactly for enum members; that string is the member's value and decodes back to the member; every other object is delegated to the base encoder |
| Jobs.IndexOf | main.py:64 | dictionary lookup finds the first entry carrying the key, or reports that no entry carries it |
| Jobs.FirstQueued | main.py:52-54 | the scan finds the first entry in insertion order whose status is `QUEUED`, or reports that none is |
| Jobs.SetStatus | main.py:55 | writing a job's status changes that one entry's status and nothing else |
| Jobs.IndexOfIgnoresStatus | main.py:55 | a status write moves no entry, so every lookup finds the same position afterwards |
| Jobs.IndexOfUnique | main.py:36 | in a store with unique keys, the lookup of a key finds exactly the entry carrying it |
| Handlers.ReadType | main.py:18-31 | the type is `TIME_CRITICAL` iff a non-empty body has `time_critical` true; an unreadable body or a missing key is the 400 error; no body means `NOT_TIME_CRITICAL` |
| Handlers.Enqueue | main.py:16-38 | an accepted enqueue answers with the fresh id and appends exactly one `QUEUED` job with that id, keeping earlier entries and their order; a rejected one changes nothing |
| Handlers.EnqueueType | main.py:18-28 | the stored `Type` is `TIME_CRITICAL` exactly when the body's flag is true, and `NOT_TIME_CRITICAL` without a body |
| Handlers.EnqueueWellFormed | main.py:17-36 | enqueueing a fresh id keeps keys unique and each key naming its own job |
| Handlers.Dequeue | main.py:42-57 | an empty store fails with "no jobs exist"; a store with nothing `QUEUED` fails with "no jobs to dequeue"; both leave the store unchanged; dequeue succeeds exactly when some job is `QUEUED`, and then the first `QUEUED` job becomes `IN_PROGRESS` and is answered, and nothing else changes |
| Handlers.DequeueScan | main.py:49-57 | the handler's loop over the entries in insertion order computes exactly the dequeue defined above |
| Handlers.DequeueIgnoresType | main.py:52-54 | which job dequeue picks depends only on the statuses, never on the types |
| Handlers.DequeueWellFormed | main.py:52-56 | dequeue keeps keys unique |
| Handlers.StatusChangeWellFormed | main.py:55 | a change of one status keeps keys unique |
| Handlers.ConcludeAsWritten | main.py:61-67 | as written, conclude fails in the lookup for a missing id, and it never produces the "Job not found" answer; it changes nothing on failure |
| Handlers.Conclude | main.py:61-67 | an existing job becomes `CONCLUDED` whatever its prior status, and only its status changes; a missing id answers "Job not found" and changes nothing |
| Handlers.MissingJobNotReported | main.py:64-67 | for a missing id the code as written fails in the lookup, where the intended answer is "Job not found" |
| Handlers.ConcludeCorrectionAgrees | main.py:64-66 | the corrected conclude leaves the same store as the code as written, and gives the same answer whenever the job exists |
| Handlers.ConcludeWellFormed | main.py:64-65 | conclude keeps keys unique |
| Handlers.ConcludeIdempotent | main.py:64-66 | concluding twice gives the same answer and store as concluding once |
| Handlers.ConcludeSkipsInProgress | main.py:63-65 | a `QUEUED` job is concluded directly, skipping `IN_PROGRESS` |
| Handlers.GetInfo | main.py:70-72 | a read answers with the record stored under the id, and fails for a missing id |
| Handlers.GetAfterEnqueue | main.py:36-38 | right after an enqueue, reading the new id shows a `QUEUED` job of the requested type |
| Handlers.GetAfterDequeue | main.py:55-56 | the record dequeue answers with is what a later read of that job shows |
| Handlers.GetAfterConclude | main.py:65-66 | the record conclude answers with is what a later read of that job shows |
| Lifecycle.QueuedIdsAppend | main.py:36 | adding an entry at the end extends the line of waiting jobs by that job if it is `QUEUED` |
| Lifecycle.QueuedIdsEmpty | main.py:52-57 | the line of waiting jobs is empty exactly when the dequeue scan finds nothing |
| Lifecycle.ClaimTakesHead | main.py:52-56 | the job dequeue picks is at the head of the line, and claiming it removes exactly that head |
| Lifecycle.DequeueMany | main.py:42-57 | repeated dequeues give one answer each and keep every job in place |
| Lifecycle.DequeueServesInOrder | main.py:52-56 | n dequeues, with n no more than the jobs waiting, answer with the first n waiting jobs in insertion order and leave the rest waiting |
| Lifecycle.FreshAfterEnqueue | main.py:17 | after one fresh id is enqueued, the remaining ids of a fresh batch are still fresh |
| Lifecycle.EnqueueAll | main.py:36 | enqueueing a batch of fresh ids appends the batch to the line of waiting jobs and keeps every existing job |
| Lifecycle.Fifo | main.py:52-56 | after a batch of enqueues, dequeues hand out the jobs already waiting and then the batch, in enqueue order |
| Lifecycle.ThreeJobsInOrder | main.py:49-57 | enqueue J1, J2, J3 on a fresh store: three dequeues answer J1, J2, J3 in that order, and a fourth finds nothing to dequeue |
| Lifecycle.Step | main.py:15-72 | no request removes or reorders a job, rewrites its ID or Type, or moves a status backwards, and keys stay unique |
| Lifecycle.Run | main.py:11-72 | over any run of requests, every job stays in place with its ID and Type, no status moves backwards, and keys stay unique |
| Lifecycle.ConcludedIsTerminal | main.py:54-55 | a concluded job stays concluded whatever requests follow |
| Lifecycle.StepKeepsWaitingOrNew | main.py:54-55 | no request puts a stored job back in the line of waiting jobs |
| Lifecycle.ServedWereWaiting | main.py:54-55 | every job a run hands out was waiting at the start of the run or was enqueued during it |
| Lifecycle.ClaimedNotServedAgain | main.py:54-55 | a job just handed out by a dequeue is never handed out again later in the run |
| Lifecycle.NoJobServedTwice | main.py:52-56 | in any run of requests served one at a time, no job is handed out by two dequeues |
| Render.TypeFromValue | main.py:8-9 | a `Type` string decodes to the job type spelled that way, and decodes to nothing only when no type is spelled that way |
| Render.RenderJob | main.py:56 | a rendered job has exactly its ID, its Type string, and a status string that decodes to its status |
| Render.ParseRender | main.py:56 | parsing a rendered job gives the job back |
| Render.RenderInjective | main.py:56 | distinct jobs render as distinct responses |

## Findings

| source | as written | input that shows it | evidently intended | confidence | as-written member | corrected member |
|---|---|---|---|---|---|---|
| main.py:64-67 | `if job_queue[job_id]:` indexes the dict, which raises for a missing id; a job record is never empty, so the `return ... "Job not found", 404` branch is dead | conclude any id on the empty store | answer "Job not found" with 404 for a missing id | high, not executed | Handlers.MissingJobNotReported | Handlers.Conclude |

`Handlers.ConcludeAsWritten` models the code as written. The request
dispatcher `Lifecycle.Step` uses the corrected `Handlers.Conclude`.
`Handlers.ConcludeCorrectionAgrees` shows that both versions leave the same
store.

## Left out

- HTTP routing, request decoding, status codes and JSON text: handlers return
  a `Result` with one error constructor per failure, and a response record is
  its list of key/value pairs, not its JSON text.
- The random UUID drawn by enqueue is a parameter. A precondition requires
  that it is not already a key. If an id did collide, Python would overwrite
  the existing entry in place; that case is not modelled.
- The `print(key)` in the dequeue loop is logging only.
- Python truthiness corner cases of the `time_critical` value, such as
  `1 == True`: the flag is an optional boolean, and `None` means the key is
  missing. A body that is falsy (`null`, `{}`, ...) counts as no body. A body
  that cannot be read or indexed counts as the missing-key error.
- An unknown id in `get_info`, or in the code-as-written `conclude`, raises
  an exception that the framework turns into a server error. It is modelled
  as `Err(UnknownJob)`.
- `StatusEncoder.default` accepts any enum member. The program has only
  `Status`, so the model's objects are `Status` members or "other". The base
  encoder's own behaviour (raising a type error) is outside the model.
- Concurrency: the code has no locking, and the model serves requests one at a
  time. The development server started by `app.run` may serve requests in
  threads; two dequeues that both pass the status test before either writes
  the new status could hand out the same job, which `NoJobServedTwice` does
  not cover.
- Process start-up (`app.run`).
