/** `print_stream_at`: one document as a job of its own, taken back out if it could not be sent (client.rs). */
module PrintStreams {
  import opened Wrappers
  import opened Errors
  import opened Snapshots
  import opened PrintServers

  /** Everything outside the client's control: whether each request can be built, and its fate. */
  datatype Plan = Plan(
    buildCreate: Option<Error>, create: Fate,
    buildSend: Option<Error>, send: Fate,
    buildCancel: Option<Error>, cancel: Fate)

  /** A finished call: the server as it left it, what it returned, and what it sent. */
  datatype Printed = Printed(jobs: Jobs, result: Result<JobId, Error>, log: seq<Exchange>)

  function Print(jobs: Jobs, uri: string, doc: Document, plan: Plan): Printed {
    if plan.buildCreate.Some? then Printed(jobs, Err(plan.buildCreate.value), [])
    else
      var (made, created) := Serve(jobs, CreateJob(uri), plan.create);
      var log := [Exchange(CreateJob(uri), created)];
      match created
      case Denied(e) => Printed(made, Err(e), log)
      case Unheard(e) => Printed(made, Err(e), log)
      case Acked(None) => Printed(made, Err(NO_JOB_ID), log)
      case Acked(Some(id)) => Deliver(made, Ref(uri, id), doc, log, plan)
  }

  /** The rest of the call, once it knows its job. */
  function Deliver(jobs: Jobs, job: Ref, doc: Document, log: seq<Exchange>, plan: Plan): Printed {
    if plan.buildSend.Some? then Printed(jobs, Err(plan.buildSend.value), log)
    else
      var (offered, sent) := Serve(jobs, SendDocument(job, doc, true), plan.send);
      var log := log + [Exchange(SendDocument(job, doc, true), sent)];
      if sent.Acked? then Printed(offered, Ok(job.id), log)
      else if plan.buildCancel.Some? then Printed(offered, Err(sent.error), log)
      else
        var (after, canceled) := Serve(offered, CancelJob(job), plan.cancel);
        Printed(after, Err(sent.error), log + [Exchange(CancelJob(job), canceled)])
  }

  method PrintStreamAt(server: PrintServer, uri: string, doc: Document, plan: Plan)
    returns (result: Result<JobId, Error>, log: seq<Exchange>)
    modifies server
    ensures Printed(server.jobs, result, log) == Print(old(server.jobs), uri, doc, plan)
  {
    log := [];
    if plan.buildCreate.Some? {
      return Err(plan.buildCreate.value), log;
    }
    var created := server.Send(CreateJob(uri), plan.create);
    log := log + [Exchange(CreateJob(uri), created)];
    if !created.Acked? {
      return Err(created.error), log;
    }
    if created.id.None? {
      return Err(NO_JOB_ID), log;
    }
    var job := Ref(uri, created.id.value);

    if plan.buildSend.Some? {
      return Err(plan.buildSend.value), log;
    }
    var sent := server.Send(SendDocument(job, doc, true), plan.send);
    log := log + [Exchange(SendDocument(job, doc, true), sent)];
    if sent.Acked? {
      return Ok(job.id), log;
    }

    if plan.buildCancel.None? {
      var canceled := server.Send(CancelJob(job), plan.cancel);
      log := log + [Exchange(CancelJob(job), canceled)];
    }
    result := Err(sent.error);
  }

  /** The requests of every call, in order: at most one of each kind, all about the one job created. */
  lemma RequestOrder(jobs: Jobs, uri: string, doc: Document, plan: Plan)
    ensures var log := Print(jobs, uri, doc, plan).log;
            && |log| <= 3
            && (|log| >= 1 ==> log[0].request == CreateJob(uri))
            && (|log| >= 2 ==>
                  exists id :: log[0].outcome == Acked(Some(id)) &&
                               log[1].request == SendDocument(Ref(uri, id), doc, true) &&
                               (|log| == 3 ==> log[2].request == CancelJob(Ref(uri, id))))
  {
  }

  /** How far the call gets: it asks for a job if it can build that request, sends the document if it was
      told the job and can build that one. */
  lemma GoesAsFar(jobs: Jobs, uri: string, doc: Document, plan: Plan)
    ensures var log := Print(jobs, uri, doc, plan).log;
            && (|log| >= 1 <==> plan.buildCreate.None?)
            && (|log| >= 2 <==> |log| >= 1 && log[0].outcome.Acked? && log[0].outcome.id.Some? && plan.buildSend.None?)
  {
  }

  lemma DeliveredInTurn(jobs: Jobs, job: Ref, doc: Document, log: seq<Exchange>, plan: Plan)
    requires |log| == 1
    ensures var p := Deliver(jobs, job, doc, log, plan);
            var sent := if |p.log| >= 2 then Serve(jobs, p.log[1].request, plan.send).0 else jobs;
            && 1 <= |p.log| <= 3 && p.log[0] == log[0]
            && (|p.log| >= 2 ==> p.log[1].outcome == Serve(jobs, p.log[1].request, plan.send).1)
            && (|p.log| == 3 ==> p.log[2].outcome == Serve(sent, p.log[2].request, plan.cancel).1)
            && p.jobs == if |p.log| == 3 then Serve(sent, p.log[2].request, plan.cancel).0 else sent
  {
    hide Serve;
  }

  /** Each outcome recorded is what the server made of that request, in turn, and the server is left as
      the last of them left it. */
  lemma ServedInTurn(jobs: Jobs, uri: string, doc: Document, plan: Plan)
    ensures var p := Print(jobs, uri, doc, plan);
            var made := if |p.log| >= 1 then Serve(jobs, p.log[0].request, plan.create).0 else jobs;
            var sent := if |p.log| >= 2 then Serve(made, p.log[1].request, plan.send).0 else made;
            && (|p.log| >= 1 ==> p.log[0].outcome == Serve(jobs, p.log[0].request, plan.create).1)
            && (|p.log| >= 2 ==> p.log[1].outcome == Serve(made, p.log[1].request, plan.send).1)
            && (|p.log| == 3 ==> p.log[2].outcome == Serve(sent, p.log[2].request, plan.cancel).1)
            && p.jobs == if |p.log| == 3 then Serve(sent, p.log[2].request, plan.cancel).0 else sent
  {
    hide Serve, Deliver;
    var (made, created) := Serve(jobs, CreateJob(uri), plan.create);
    if plan.buildCreate.None? && created.Acked? && created.id.Some? {
      DeliveredInTurn(made, Ref(uri, created.id.value), doc, [Exchange(CreateJob(uri), created)], plan);
    }
  }

  /** A call that never sends its document reports the first thing that went wrong. */
  lemma FirstFailureTold(jobs: Jobs, uri: string, doc: Document, plan: Plan)
    ensures var p := Print(jobs, uri, doc, plan);
            && (|p.log| == 0 ==> plan.buildCreate.Some? && p.result == Err(plan.buildCreate.value))
            && (|p.log| == 1 ==>
                  match p.log[0].outcome
                  case Acked(Some(_)) => plan.buildSend.Some? && p.result == Err(plan.buildSend.value)
                  case Acked(None) => p.result == Err(NO_JOB_ID)
                  case Unheard(e) => p.result == Err(e)
                  case Denied(e) => p.result == Err(e))
  {
  }

  /** Success is exactly an acknowledged last document, and the id returned is that of its job. */
  lemma SuccessExactly(jobs: Jobs, uri: string, doc: Document, plan: Plan, id: JobId)
    ensures var p := Print(jobs, uri, doc, plan);
            p.result == Ok(id) <==>
            |p.log| == 2 && p.log[1].request == SendDocument(Ref(uri, id), doc, true) && p.log[1].outcome.Acked?
    ensures var p := Print(jobs, uri, doc, plan);
            p.result == Ok(id) ==> Ref(uri, id) in p.jobs && p.jobs[Ref(uri, id)] == ServerJob([doc], Closed)
  {
  }

  /** A document that was sent and not acknowledged is followed by exactly one Cancel-Job if one can be
      built, and by nothing otherwise; nothing else is ever followed by one. */
  lemma CompensatedExactly(jobs: Jobs, uri: string, doc: Document, plan: Plan)
    ensures var log := Print(jobs, uri, doc, plan).log;
            |log| == 3 <==> |log| >= 2 && !log[1].outcome.Acked? && plan.buildCancel.None?
  {
  }

  /** The error reported is the document's own, whatever becomes of the cancellation. */
  lemma OriginalErrorKept(jobs: Jobs, uri: string, doc: Document, plan: Plan, build: Option<Error>, cancel: Fate)
    ensures var p := Print(jobs, uri, doc, plan);
            && Print(jobs, uri, doc, plan.(buildCancel := build, cancel := cancel)).result == p.result
            && (|p.log| >= 2 && !p.log[1].outcome.Acked? ==> p.result == Err(p.log[1].outcome.error))
  {
  }

  // ---- What a failed call leaves behind ----

  predicate JobMade(jobs: Jobs, uri: string, plan: Plan) {
    plan.buildCreate.None? && Willing(plan.create) && Ref(uri, plan.create.id) !in jobs
  }

  /** The job was made and the client learnt its id. */
  predicate JobKnown(jobs: Jobs, uri: string, plan: Plan) {
    JobMade(jobs, uri, plan) && plan.create.Answered? && plan.create.shown
  }

  predicate CancelLands(plan: Plan) {
    plan.buildCancel.None? && Willing(plan.cancel)
  }

  /** The comment promises that a job whose document could not be sent does not stay behind. A failed
      call leaves an open job with no document exactly when the answer that named the job was lost or
      did not name it, when the document request could not be built, or when neither the document nor
      the cancellation got through. */
  lemma OrphanExactly(jobs: Jobs, uri: string, doc: Document, plan: Plan)
    requires JobMade(jobs, uri, plan)
    ensures var p := Print(jobs, uri, doc, plan);
            var ref := Ref(uri, plan.create.id);
            (ref in p.jobs && p.jobs[ref] == ServerJob([], Open)) <==>
            (JobKnown(jobs, uri, plan) ==> plan.buildSend.Some? || (!Willing(plan.send) && !CancelLands(plan)))
  {
  }

  /** A call that reports failure still prints exactly when the document got through, its answer was
      lost, and the cancellation did not land. */
  lemma PrintsAfterAllExactly(jobs: Jobs, uri: string, doc: Document, plan: Plan)
    requires JobMade(jobs, uri, plan)
    ensures var p := Print(jobs, uri, doc, plan);
            var ref := Ref(uri, plan.create.id);
            (p.result.Err? && ref in p.jobs && p.jobs[ref] == ServerJob([doc], Closed)) <==>
            (JobKnown(jobs, uri, plan) && plan.buildSend.None? && plan.send.AnswerLost? && !CancelLands(plan))
  {
  }

  /** In every other failure the job ends cancelled. */
  lemma CanceledOtherwise(jobs: Jobs, uri: string, doc: Document, plan: Plan)
    requires JobMade(jobs, uri, plan)
    ensures var p := Print(jobs, uri, doc, plan);
            var ref := Ref(uri, plan.create.id);
            && ref in p.jobs
            && (p.result.Err? ==> p.jobs[ref].phase.Canceled? || p.jobs[ref] == ServerJob([], Open)
                                  || p.jobs[ref] == ServerJob([doc], Closed))
            && (p.jobs[ref].phase.Canceled? <==>
                JobKnown(jobs, uri, plan) && plan.buildSend.None? && !plan.send.Answered? && CancelLands(plan))
  {
  }

  const LOST: Error := "connection reset"

  /** The promise can fail: neither the document nor the cancellation arrives, and the job stays. */
  lemma OrphanStays(uri: string, doc: Document)
    ensures var plan := Plan(None, Answered(1, true), None, Undelivered(LOST), None, Undelivered(LOST));
            var p := Print(map[], uri, doc, plan);
            p.result == Err(LOST) && |p.log| == 3 && p.jobs == map[Ref(uri, 1) := ServerJob([], Open)]
  {
    assert Serve(map[], CreateJob(uri), Answered(1, true)).0 == map[Ref(uri, 1) := ServerJob([], Open)];
  }

  /** And a call may report failure and print: the document arrives unheard, the cancellation does not. */
  lemma PrintsThoughFailed(uri: string, doc: Document)
    ensures var plan := Plan(None, Answered(1, true), None, AnswerLost(1, LOST), None, Undelivered(LOST));
            var p := Print(map[], uri, doc, plan);
            p.result == Err(LOST) && p.jobs == map[Ref(uri, 1) := ServerJob([doc], Closed)]
  {
    var made: Jobs := map[Ref(uri, 1) := ServerJob([], Open)];
    assert Serve(map[], CreateJob(uri), Answered(1, true)).0 == made;
    assert made[Ref(uri, 1)].docs + [doc] == [doc];
    assert Serve(made, SendDocument(Ref(uri, 1), doc, true), AnswerLost(1, LOST)).0 ==
           map[Ref(uri, 1) := ServerJob([doc], Closed)];
  }
}
