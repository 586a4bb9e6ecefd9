/**
 * How a job record is serialized in a response: `json.dumps` over the job
 * dictionary with `StatusEncoder` as the hook for the `Status` member.
 * The JSON text itself (quoting, separators) is not modelled; a rendered
 * record is its list of key/value pairs in key order.
 */
module Render {
  import opened Wrappers
  import opened Enums
  import opened Jobs

  /** The string stored in a job's `Type` field. */
  function TypeValue(t: JobType): string
  {
    match t
    case TimeCritical => "TIME_CRITICAL"
    case NotTimeCritical => "NOT_TIME_CRITICAL"
  }

  /** The job type a `Type` string stands for, if any. */
  function TypeFromValue(v: string): (r: Option<JobType>)
    ensures r.Some? ==> TypeValue(r.value) == v
    ensures r.None? ==> forall t :: TypeValue(t) != v
  {
    if v == "TIME_CRITICAL" then Some(TimeCritical)
    else if v == "NOT_TIME_CRITICAL" then Some(NotTimeCritical)
    else None
  }

  /** A serialized job: its keys and their string values, in insertion order. */
  type Fields = seq<(string, string)>

  /**
   * The record a handler answers with. The `Status` member is not JSON
   * serializable by itself; the encoder hook turns it into its value.
   */
  function RenderJob(job: Job): (r: Fields)
    ensures |r| == 3
    ensures r[0] == ("ID", job.id)
    ensures r[1] == ("Type", TypeValue(job.jobType))
    ensures r[2].0 == "Status" && FromValue(r[2].1) == Some(job.status)
  {
    var status := EncodeDefault(EnumMember(job.status));
    [("ID", job.id), ("Type", TypeValue(job.jobType)), ("Status", status.text)]
  }

  /** Reads a serialized job back, failing on anything `RenderJob` cannot produce. */
  function ParseJob(fields: Fields): (r: Option<Job>)
    ensures r.Some? ==> RenderJob(r.value) == fields
  {
    if |fields| != 3 || fields[0].0 != "ID" || fields[1].0 != "Type" || fields[2].0 != "Status" then None
    else match (TypeFromValue(fields[1].1), FromValue(fields[2].1))
      case (Some(t), Some(s)) => Some(Job(fields[0].1, t, s))
      case _ => None
  }

  /** Parsing a rendered job gives the job back: the response loses nothing. */
  lemma ParseRender(job: Job)
    ensures ParseJob(RenderJob(job)) == Some(job)
  {
    var f := RenderJob(job);
    ValueRoundTrip(job.status);
    assert TypeFromValue(TypeValue(job.jobType)) == Some(job.jobType);
  }

  /** Distinct jobs render as distinct responses. */
  lemma RenderInjective(a: Job, b: Job)
    ensures RenderJob(a) == RenderJob(b) ==> a == b
  {
    ParseRender(a);
    ParseRender(b);
  }
}
