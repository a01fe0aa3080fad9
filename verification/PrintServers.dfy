/** A print server as its clients can know it: it may refuse a request, never hear it, or carry it
    out and have its answer lost. What it may do to a job follows sections 4.2.4, 4.3.1 and 4.3.3 of
    RFC 8011. */
module PrintServers {
  import opened Wrappers
  import opened Errors
  import opened Snapshots

  type Document = string

  /** A job, by the printer's URI and the id the printer gave it. */
  datatype Ref = Ref(uri: string, id: JobId)

  datatype JobPhase = Open | Closed | Canceled
  datatype ServerJob = ServerJob(docs: seq<Document>, phase: JobPhase)
  type Jobs = map<Ref, ServerJob>

  datatype Request =
    | CreateJob(uri: string)
    | SendDocument(job: Ref, doc: Document, last: bool)
    | CloseJob(job: Ref)
    | CancelJob(job: Ref)

  /** What becomes of a request on its way. `id` is the one a new job would get; `shown` says whether
      the answer to a Create-Job carries it. */
  datatype Fate =
    | Undelivered(error: Error)
    | Refused(error: Error)
    | AnswerLost(id: JobId, error: Error)
    | Answered(id: JobId, shown: bool)

  /** What a request came to: acknowledged, carried out unbeknownst to the client, or not carried out. */
  datatype Outcome = Acked(id: Option<JobId>) | Unheard(error: Error) | Denied(error: Error)

  datatype Exchange = Exchange(request: Request, outcome: Outcome)

  const NOT_POSSIBLE: Error := "client-error-not-possible"
  const NO_JOB_ID: Error := "cannot decode attribute job-id"

  predicate Willing(fate: Fate) { fate.AnswerLost? || fate.Answered? }

  predicate CarriedOut(outcome: Outcome) { !outcome.Denied? }

  predicate Accepting(jobs: Jobs, ref: Ref) {
    ref in jobs && jobs[ref].phase.Open?
  }

  /** Whether a server may carry the request out. */
  predicate Possible(jobs: Jobs, request: Request, id: JobId) {
    match request
    case CreateJob(uri) => Ref(uri, id) !in jobs
    case SendDocument(ref, _, _) => Accepting(jobs, ref)
    case CloseJob(ref) => ref in jobs && !jobs[ref].phase.Canceled?
    case CancelJob(ref) => ref in jobs && !jobs[ref].phase.Canceled?
  }

  function Effect(jobs: Jobs, request: Request, id: JobId): Jobs
    requires Possible(jobs, request, id)
  {
    match request
    case CreateJob(uri) => jobs[Ref(uri, id) := ServerJob([], Open)]
    case SendDocument(ref, doc, last) =>
      jobs[ref := ServerJob(jobs[ref].docs + [doc], if last then Closed else Open)]
    case CloseJob(ref) => jobs[ref := jobs[ref].(phase := Closed)]
    case CancelJob(ref) => jobs[ref := jobs[ref].(phase := Canceled)]
  }

  function Serve(jobs: Jobs, request: Request, fate: Fate): (Jobs, Outcome) {
    if !Willing(fate) then (jobs, Denied(fate.error))
    else if !Possible(jobs, request, fate.id) then (jobs, Denied(NOT_POSSIBLE))
    else if fate.AnswerLost? then (Effect(jobs, request, fate.id), Unheard(fate.error))
    else (Effect(jobs, request, fate.id), Acked(if fate.shown then Some(fate.id) else None))
  }

  /** What the client learns: an acknowledgement exactly when the request was carried out and its answer
      came back, and otherwise the error met on the way or the refusal. */
  lemma LearnsExactly(jobs: Jobs, request: Request, fate: Fate)
    ensures var outcome := Serve(jobs, request, fate).1;
            && (outcome.Acked? <==> fate.Answered? && Possible(jobs, request, fate.id))
            && (outcome.Unheard? <==> fate.AnswerLost? && Possible(jobs, request, fate.id))
            && (outcome.Acked? ==> outcome.id == if fate.shown then Some(fate.id) else None)
            && (!outcome.Acked? ==> outcome.error == if fate.Answered? || (fate.AnswerLost? && outcome.Denied?)
                                                     then NOT_POSSIBLE else fate.error)
  {
  }

  /** The job a request is about; a Create-Job makes it. */
  function About(request: Request, id: JobId): Ref {
    if request.CreateJob? then Ref(request.uri, id) else request.job
  }

  /** What the server does: nothing to any other job, and nothing at all if it refuses. Otherwise a
      document joins those before it, the last one closes the job, closing adds none, and cancelling
      leaves what was there. */
  lemma DoesExactly(jobs: Jobs, request: Request, fate: Fate, ref: Ref)
    ensures var (after, outcome) := Serve(jobs, request, fate);
            && (outcome.Denied? ==> after == jobs)
            && (!outcome.Denied? && ref != About(request, fate.id) ==>
                  (ref in after <==> ref in jobs) && (ref in jobs ==> after[ref] == jobs[ref]))
            && (!outcome.Denied? && ref == About(request, fate.id) ==>
                  && ref in after
                  && (ref in jobs <==> !request.CreateJob?)
                  && after[ref].docs == (if request.CreateJob? then [] else jobs[ref].docs)
                                        + (if request.SendDocument? then [request.doc] else [])
                  && (after[ref].phase.Open? <==> request.CreateJob? || (request.SendDocument? && !request.last))
                  && (after[ref].phase.Canceled? <==> request.CancelJob?))
  {
  }

  class PrintServer {
    var jobs: Jobs

    /** Sends one request and reads its status. */
    method Send(request: Request, fate: Fate) returns (outcome: Outcome)
      modifies this
      ensures (jobs, outcome) == Serve(old(jobs), request, fate)
    {
      if fate.Undelivered? || fate.Refused? {
        return Denied(fate.error);
      }
      if !Possible(jobs, request, fate.id) {
        return Denied(NOT_POSSIBLE);
      }
      jobs := Effect(jobs, request, fate.id);
      if fate.AnswerLost? {
        outcome := Unheard(fate.error);
      } else {
        outcome := Acked(if fate.shown then Some(fate.id) else None);
      }
    }
  }
}
