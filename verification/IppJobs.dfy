/** The handle on a job that takes several documents: `create_job`, `add_document`, `close` and `cancel` (client.rs). */
module IppJobs {
  import opened Wrappers
  import opened Errors
  import opened Snapshots
  import opened PrintServers

  /** One handle's life as a value: what the handle knows, whether `close` or `cancel` has consumed
      it, what it has sent, and the server's jobs. */
  datatype Life = Life(closed: bool, spent: bool, log: seq<Exchange>, jobs: Jobs)

  /** What can happen next: a call on the handle, with its request's fate decided elsewhere, or
      something the handle has no part in. */
  datatype Action =
    | AddDocument(doc: Document, last: bool, build: Option<Error>, fate: Fate)
    | Close(build: Option<Error>, fate: Fate)
    | Cancel(build: Option<Error>, fate: Fate)
    | Elsewhere(jobs: Jobs)

  /** What others may do to this job meanwhile: finish, abort or forget it, but not reopen it or put
      documents in it. */
  predicate Drifts(before: Jobs, after: Jobs, ref: Ref) {
    ref in after ==>
      && ref in before
      && after[ref].docs == before[ref].docs
      && (Accepting(after, ref) ==> Accepting(before, ref))
  }

  function Send(s: Life, request: Request, fate: Fate): (Life, Outcome) {
    var (jobs, outcome) := Serve(s.jobs, request, fate);
    (s.(jobs := jobs, log := s.log + [Exchange(request, outcome)]), outcome)
  }

  function Answer(ref: Ref, outcome: Outcome): Result<JobId, Error> {
    if outcome.Acked? then Ok(ref.id) else Err(outcome.error)
  }

  function AddStep(s: Life, ref: Ref, doc: Document, last: bool, build: Option<Error>, fate: Fate)
    : (Life, Result<JobId, Error>)
  {
    if build.Some? then (s, Err(build.value))
    else
      var (t, outcome) := Send(s, SendDocument(ref, doc, last), fate);
      (t.(closed := s.closed || (outcome.Acked? && last)), Answer(ref, outcome))
  }

  function CloseStep(s: Life, ref: Ref, build: Option<Error>, fate: Fate): (Life, Result<JobId, Error>) {
    var s := s.(spent := true);
    if s.closed then (s, Ok(ref.id))
    else if build.Some? then (s, Err(build.value))
    else
      var (t, outcome) := Send(s, CloseJob(ref), fate);
      (t.(closed := outcome.Acked?), Answer(ref, outcome))
  }

  function CancelStep(s: Life, ref: Ref, build: Option<Error>, fate: Fate): (Life, Result<JobId, Error>) {
    var s := s.(spent := true);
    if build.Some? then (s, Err(build.value))
    else
      var (t, outcome) := Send(s, CancelJob(ref), fate);
      (t, Answer(ref, outcome))
  }

  /** One step. A consumed handle can no longer be called. */
  function Next(s: Life, ref: Ref, a: Action): Life {
    match a
    case Elsewhere(jobs) => if Drifts(s.jobs, jobs, ref) then s.(jobs := jobs) else s
    case AddDocument(doc, last, build, fate) => if s.spent then s else AddStep(s, ref, doc, last, build, fate).0
    case Close(build, fate) => if s.spent then s else CloseStep(s, ref, build, fate).0
    case Cancel(build, fate) => if s.spent then s else CancelStep(s, ref, build, fate).0
  }

  function Exec(s: Life, ref: Ref, actions: seq<Action>): Life
    decreases |actions|
  {
    if actions == [] then s else Exec(Next(s, ref, actions[0]), ref, actions[1..])
  }

  // ---- The handle itself ----

  class IppJob {
    const server: PrintServer
    const ref: Ref
    var closed: bool
    ghost var spent: bool
    ghost var log: seq<Exchange>

    ghost function Current(): Life
      reads this, server
    {
      Life(closed, spent, log, server.jobs)
    }

    constructor (server: PrintServer, ref: Ref)
      ensures this.server == server && this.ref == ref
      ensures Current() == Life(false, false, [], server.jobs)
    {
      this.server, this.ref := server, ref;
      closed, spent, log := false, false, [];
    }

    method AddDocument(doc: Document, last: bool, build: Option<Error>, fate: Fate)
      returns (result: Result<JobId, Error>)
      requires !spent
      modifies this, server
      ensures (Current(), result) == AddStep(old(Current()), ref, doc, last, build, fate)
    {
      if build.Some? {
        return Err(build.value);
      }
      var outcome := server.Send(SendDocument(ref, doc, last), fate);
      log := log + [Exchange(SendDocument(ref, doc, last), outcome)];
      if !outcome.Acked? {
        return Err(outcome.error);
      }
      if last {
        closed := true;
      }
      result := Ok(ref.id);
    }

    method Close(build: Option<Error>, fate: Fate) returns (result: Result<JobId, Error>)
      requires !spent
      modifies this, server
      ensures (Current(), result) == CloseStep(old(Current()), ref, build, fate)
    {
      spent := true;
      if closed {
        return Ok(ref.id);
      }
      if build.Some? {
        return Err(build.value);
      }
      var outcome := server.Send(CloseJob(ref), fate);
      log := log + [Exchange(CloseJob(ref), outcome)];
      if !outcome.Acked? {
        return Err(outcome.error);
      }
      closed := true;
      result := Ok(ref.id);
    }

    method Cancel(build: Option<Error>, fate: Fate) returns (result: Result<JobId, Error>)
      requires !spent
      modifies this, server
      ensures (Current(), result) == CancelStep(old(Current()), ref, build, fate)
    {
      spent := true;
      if build.Some? {
        return Err(build.value);
      }
      var outcome := server.Send(CancelJob(ref), fate);
      log := log + [Exchange(CancelJob(ref), outcome)];
      result := if outcome.Acked? then Ok(ref.id) else Err(outcome.error);
    }
  }

  /** The job `create_job` hands out, or the error it reports. */
  function Creation(jobs: Jobs, uri: string, build: Option<Error>, fate: Fate): (Jobs, Result<Ref, Error>) {
    if build.Some? then (jobs, Err(build.value))
    else
      var (after, outcome) := Serve(jobs, CreateJob(uri), fate);
      if !outcome.Acked? then (after, Err(outcome.error))
      else if outcome.id.None? then (after, Err(NO_JOB_ID))
      else (after, Ok(Ref(uri, outcome.id.value)))
  }

  /** `create_job`: a handle on a job the server has just made, or an error. */
  method CreateIppJob(server: PrintServer, uri: string, build: Option<Error>, fate: Fate)
    returns (result: Result<IppJob, Error>)
    modifies server
    ensures var (jobs, made) := Creation(old(server.jobs), uri, build, fate);
            && server.jobs == jobs
            && (made.Err? ==> result == Err(made.error))
            && (made.Ok? ==>
                  && result.Ok? && fresh(result.value)
                  && result.value.server == server && result.value.ref == made.value
                  && result.value.Current() == Life(false, false, [], jobs))
  {
    if build.Some? {
      return Err(build.value);
    }
    var outcome := server.Send(CreateJob(uri), fate);
    if !outcome.Acked? {
      return Err(outcome.error);
    }
    if outcome.id.None? {
      return Err(NO_JOB_ID);
    }
    var job := new IppJob(server, Ref(uri, outcome.id.value));
    result := Ok(job);
  }

  /** A handle is handed out exactly when the server makes the job and its answer, which comes back,
      names it. It is on that job, which is new, open and empty. Otherwise the first thing that went
      wrong is reported, and a job is made without a handle exactly when the answer that named it was
      lost or did not name it. */
  lemma CreationExactly(jobs: Jobs, uri: string, build: Option<Error>, fate: Fate)
    ensures var (after, made) := Creation(jobs, uri, build, fate);
            var outcome := Serve(jobs, CreateJob(uri), fate).1;
            && (made.Ok? <==> build.None? && fate.Answered? && fate.shown && Ref(uri, fate.id) !in jobs)
            && (made.Ok? ==> made.value == Ref(uri, fate.id) && Opened(Life(false, false, [], after), made.value))
            && (made.Err? ==> made.error == if build.Some? then build.value
                                            else if outcome.Acked? then NO_JOB_ID else outcome.error)
            && (Willing(fate) && Ref(uri, fate.id) !in jobs ==>
                  (made.Err? && Ref(uri, fate.id) in after <==> build.None? && (fate.AnswerLost? || !fate.shown)))
            && (build.Some? || outcome.Denied? ==> after == jobs)
  {
  }

  /** A handle as `create_job` returns it. */
  predicate Opened(s: Life, ref: Ref) {
    !s.closed && !s.spent && s.log == [] && ref in s.jobs && s.jobs[ref] == ServerJob([], Open)
  }

  // ---- What each call sends and says ----

  /** The call sent just this request, and its answer is what the server made of it. */
  ghost predicate Asked(s: Life, t: Life, result: Result<JobId, Error>, request: Request, fate: Fate) {
    var (jobs, outcome) := Serve(s.jobs, request, fate);
    && t.log == s.log + [Exchange(request, outcome)] && t.jobs == jobs
    && (result.Ok? <==> outcome.Acked?)
    && (result.Err? ==> result.error == outcome.error)
  }

  /** The call sent nothing. */
  predicate Silent(s: Life, t: Life) { t.log == s.log && t.jobs == s.jobs }

  /** A document that can be offered is sent, once, and the call returns as its answer says; one that
      cannot is not. */
  lemma AddExactly(s: Life, ref: Ref, doc: Document, last: bool, build: Option<Error>, fate: Fate)
    ensures var (t, result) := AddStep(s, ref, doc, last, build, fate);
            && t.spent == s.spent
            && (build.None? ==> Asked(s, t, result, SendDocument(ref, doc, last), fate))
            && (build.Some? ==> Silent(s, t) && result == Err(build.value))
            && (t.closed <==> s.closed || (last && result.Ok?))
  {
  }

  /** Closing asks the server exactly when the handle does not know the job closed, and returns its id
      exactly when it then does. */
  lemma CloseExactly(s: Life, ref: Ref, build: Option<Error>, fate: Fate)
    ensures var (t, result) := CloseStep(s, ref, build, fate);
            && t.spent
            && (s.closed ==> Silent(s, t))
            && (!s.closed && build.None? ==> Asked(s, t, result, CloseJob(ref), fate))
            && (!s.closed && build.Some? ==> Silent(s, t) && result == Err(build.value))
            && (t.closed <==> result.Ok?) && (result.Ok? ==> result.value == ref.id)
  {
  }

  /** Cancelling asks the server whatever the handle knows. */
  lemma CancelExactly(s: Life, ref: Ref, build: Option<Error>, fate: Fate)
    ensures var (t, result) := CancelStep(s, ref, build, fate);
            && t.spent && t.closed == s.closed
            && (build.None? ==> Asked(s, t, result, CancelJob(ref), fate))
            && (build.Some? ==> Silent(s, t) && result == Err(build.value))
  {
  }

  // ---- What every life of a handle keeps ----

  predicate Closes(r: Request) { r.CloseJob? || (r.SendDocument? && r.last) }
  predicate Ends(r: Request) { Closes(r) || r.CancelJob? }

  /** Somebody acknowledged that the job takes no more documents. */
  ghost predicate CloseAcked(log: seq<Exchange>) {
    exists i :: 0 <= i < |log| && Closes(log[i].request) && log[i].outcome.Acked?
  }

  /** The server carried out a request that ends the job, whether the handle heard so or not. */
  ghost predicate EndCarriedOut(log: seq<Exchange>) {
    exists i :: 0 <= i < |log| && Ends(log[i].request) && CarriedOut(log[i].outcome)
  }

  /** The documents of a log, by how their requests fared. */
  function SentDocs(log: seq<Exchange>): seq<Document> {
    if log == [] then []
    else
      var e := log[|log| - 1];
      var rest := SentDocs(log[..|log| - 1]);
      if e.request.SendDocument? then rest + [e.request.doc] else rest
  }

  function KeptDocs(log: seq<Exchange>): seq<Document> {
    if log == [] then []
    else
      var e := log[|log| - 1];
      var rest := KeptDocs(log[..|log| - 1]);
      if e.request.SendDocument? && CarriedOut(e.outcome) then rest + [e.request.doc] else rest
  }

  function AckedDocs(log: seq<Exchange>): seq<Document> {
    if log == [] then []
    else
      var e := log[|log| - 1];
      var rest := AckedDocs(log[..|log| - 1]);
      if e.request.SendDocument? && e.outcome.Acked? then rest + [e.request.doc] else rest
  }

  ghost predicate Inv(s: Life, ref: Ref) {
    && (s.closed <==> CloseAcked(s.log))
    && (EndCarriedOut(s.log) ==> !Accepting(s.jobs, ref))
    && (ref in s.jobs ==> s.jobs[ref].docs == KeptDocs(s.log))
    && ConsumedLast(s.log, s.spent)
    && ClosedOnce(s.log)
  }

  /** Close-Job and Cancel-Job are the last thing a handle sends. */
  ghost predicate ConsumedLast(log: seq<Exchange>, spent: bool) {
    forall i | 0 <= i < |log| && (log[i].request.CloseJob? || log[i].request.CancelJob?) ::
      spent && i == |log| - 1
  }

  /** No Close-Job goes out after an acknowledged close. */
  ghost predicate ClosedOnce(log: seq<Exchange>) {
    forall i, j | 0 <= i < j < |log| && log[j].request.CloseJob? ::
      !(Closes(log[i].request) && log[i].outcome.Acked?)
  }

  lemma ShapeGrows(log: seq<Exchange>, e: Exchange)
    requires ConsumedLast(log, false) && ClosedOnce(log) && (e.request.CloseJob? ==> !CloseAcked(log))
    ensures ConsumedLast(log + [e], !e.request.SendDocument?) && ClosedOnce(log + [e])
  {
    assert forall i | 0 <= i < |log| :: (log + [e])[i] == log[i];
  }

  lemma SendInv(s: Life, ref: Ref, request: Request, fate: Fate)
    requires Inv(s, ref) && !s.spent
    requires request.SendDocument? || request.CloseJob? || request.CancelJob?
    requires request.job == ref && (request.CloseJob? ==> !s.closed)
    ensures var (t, outcome) := Send(s, request, fate);
            Inv(t.(closed := s.closed || (outcome.Acked? && Closes(request)), spent := !request.SendDocument?), ref)
  {
    var (t, outcome) := Send(s, request, fate);
    var e := Exchange(request, outcome);
    assert t.log[..|s.log|] == s.log && t.log[|s.log|] == e;
    LogGrows(s.log, e);
    ShapeGrows(s.log, e);
  }

  lemma LogGrows(log: seq<Exchange>, e: Exchange)
    ensures CloseAcked(log + [e]) <==> CloseAcked(log) || (Closes(e.request) && e.outcome.Acked?)
    ensures EndCarriedOut(log + [e]) <==> EndCarriedOut(log) || (Ends(e.request) && CarriedOut(e.outcome))
  {
    var more := log + [e];
    assert more[|log|] == e;
    if CloseAcked(log) {
      var i :| 0 <= i < |log| && Closes(log[i].request) && log[i].outcome.Acked?;
      assert more[i] == log[i];
    }
    if EndCarriedOut(log) {
      var i :| 0 <= i < |log| && Ends(log[i].request) && CarriedOut(log[i].outcome);
      assert more[i] == log[i];
    }
  }

  lemma NextInv(s: Life, ref: Ref, a: Action)
    requires Inv(s, ref)
    ensures Inv(Next(s, ref, a), ref)
  {
    if !s.spent {
      match a
      case AddDocument(doc, last, build, fate) => SendInv(s, ref, SendDocument(ref, doc, last), fate);
      case Close(build, fate) => if !s.closed { SendInv(s, ref, CloseJob(ref), fate); }
      case Cancel(build, fate) => SendInv(s, ref, CancelJob(ref), fate);
      case Elsewhere(_) =>
    }
  }

  lemma {:induction false} ExecInv(s: Life, ref: Ref, actions: seq<Action>)
    requires Inv(s, ref)
    ensures Inv(Exec(s, ref, actions), ref)
    decreases |actions|
  {
    if actions != [] {
      NextInv(s, ref, actions[0]);
      ExecInv(Next(s, ref, actions[0]), ref, actions[1..]);
    }
  }

  /** In every life of a handle, whatever is lost, refused or done elsewhere: it believes its job
      closed exactly when a closing request was acknowledged, and then the server takes no more
      documents; the server holds just the documents carried out; and Close-Job is sent at most once,
      as the last thing said, never after an acknowledged last document. */
  lemma EveryLife(s: Life, ref: Ref, actions: seq<Action>)
    requires Opened(s, ref)
    ensures var t := Exec(s, ref, actions);
            && (t.closed <==> CloseAcked(t.log))
            && (t.closed ==> !Accepting(t.jobs, ref))
            && (ref in t.jobs ==> t.jobs[ref].docs == KeptDocs(t.log))
            && (forall i | 0 <= i < |t.log| && t.log[i].request.CloseJob? ::
                  i == |t.log| - 1 && !CloseAcked(t.log[..i]))
  {
    ExecInv(s, ref, actions);
    var t := Exec(s, ref, actions);
    if CloseAcked(t.log) {
      var i :| 0 <= i < |t.log| && Closes(t.log[i].request) && t.log[i].outcome.Acked?;
      assert Ends(t.log[i].request) && CarriedOut(t.log[i].outcome);
    }
  }

  /** `close` returning a job id means the server's job takes no more documents. */
  lemma CloseIsTrue(s: Life, ref: Ref, actions: seq<Action>, build: Option<Error>, fate: Fate)
    requires Opened(s, ref)
    ensures var (t, result) := CloseStep(Exec(s, ref, actions), ref, build, fate);
            result.Ok? ==> !Accepting(t.jobs, ref)
  {
    EveryLife(s, ref, actions);
  }

  // ---- What a handle cannot know ----

  predicate Alone(actions: seq<Action>) { forall a | a in actions :: !a.Elsewhere? }

  /** The server has the job, and it is closed exactly when a request that ends it was carried out. */
  ghost predicate Tracked(jobs: Jobs, ref: Ref, log: seq<Exchange>) {
    ref in jobs && (Accepting(jobs, ref) <==> !EndCarriedOut(log))
  }

  lemma SendAlone(s: Life, ref: Ref, request: Request, fate: Fate)
    requires Tracked(s.jobs, ref, s.log) && !request.CreateJob? && request.job == ref
    ensures var t := Send(s, request, fate).0; Tracked(t.jobs, ref, t.log)
  {
    LogGrows(s.log, Exchange(request, Serve(s.jobs, request, fate).1));
  }

  lemma NextAlone(s: Life, ref: Ref, a: Action)
    requires Tracked(s.jobs, ref, s.log) && !a.Elsewhere?
    ensures var t := Next(s, ref, a); Tracked(t.jobs, ref, t.log)
  {
    match a
    case AddDocument(doc, last, _, fate) => SendAlone(s, ref, SendDocument(ref, doc, last), fate);
    case Close(_, fate) => SendAlone(s.(spent := true), ref, CloseJob(ref), fate);
    case Cancel(_, fate) => SendAlone(s.(spent := true), ref, CancelJob(ref), fate);
  }

  /** When nobody else meddles, the server's job is closed exactly when a request that ends it was
      carried out, heard or not. */
  lemma {:induction false} ServerClosedExactly(s: Life, ref: Ref, actions: seq<Action>)
    requires Tracked(s.jobs, ref, s.log) && Alone(actions)
    ensures var t := Exec(s, ref, actions); Tracked(t.jobs, ref, t.log)
    decreases |actions|
  {
    if actions != [] {
      assert actions[0] in actions;
      NextAlone(s, ref, actions[0]);
      ServerClosedExactly(Next(s, ref, actions[0]), ref, actions[1..]);
    }
  }

  /** Once a request that ends the job was carried out, every later document is turned away. */
  ghost predicate LateTurnedAway(log: seq<Exchange>) {
    forall i, j | 0 <= i < j < |log| && log[j].request.SendDocument? ::
      Ends(log[i].request) && CarriedOut(log[i].outcome) ==> log[j].outcome.Denied?
  }

  lemma NextTurnsAway(s: Life, ref: Ref, a: Action)
    requires Inv(s, ref) && LateTurnedAway(s.log)
    ensures LateTurnedAway(Next(s, ref, a).log)
  {
    var t := Next(s, ref, a);
    if |t.log| > |s.log| {
      var n := |s.log|;
      assert t.log == s.log + [t.log[n]];
      if t.log[n].request.SendDocument? && !Accepting(s.jobs, ref) {
        assert t.log[n].outcome.Denied?;
      }
    }
  }

  lemma {:induction false} ExecTurnsAway(s: Life, ref: Ref, actions: seq<Action>)
    requires Inv(s, ref) && LateTurnedAway(s.log)
    ensures LateTurnedAway(Exec(s, ref, actions).log)
    decreases |actions|
  {
    if actions != [] {
      NextInv(s, ref, actions[0]);
      NextTurnsAway(s, ref, actions[0]);
      ExecTurnsAway(Next(s, ref, actions[0]), ref, actions[1..]);
    }
  }

  /** A last document the server took without the handle hearing so. */
  ghost predicate LastUnheard(log: seq<Exchange>) {
    exists i :: 0 <= i < |log| && log[i].request.SendDocument? && log[i].request.last && log[i].outcome.Unheard?
  }

  lemma EndUnheard(log: seq<Exchange>)
    requires LateTurnedAway(log) && forall e | e in log :: e.request.SendDocument?
    ensures EndCarriedOut(log) && !CloseAcked(log) <==> LastUnheard(log)
  {
    if LastUnheard(log) {
      var i :| 0 <= i < |log| && log[i].request.SendDocument? && log[i].request.last && log[i].outcome.Unheard?;
      assert Ends(log[i].request) && CarriedOut(log[i].outcome);
      forall j | 0 <= j < |log| && Closes(log[j].request) ensures !log[j].outcome.Acked? {
        assert log[j] in log;
      }
    }
    if EndCarriedOut(log) && !CloseAcked(log) {
      var i :| 0 <= i < |log| && Ends(log[i].request) && CarriedOut(log[i].outcome);
      assert log[i] in log && log[i].outcome.Unheard?;
    }
  }

  lemma {:induction false} NothingButDocuments(s: Life, ref: Ref, actions: seq<Action>)
    requires s.spent || forall e | e in s.log :: e.request.SendDocument?
    ensures var t := Exec(s, ref, actions); t.spent || forall e | e in t.log :: e.request.SendDocument?
    decreases |actions|
  {
    if actions != [] {
      NothingButDocuments(Next(s, ref, actions[0]), ref, actions[1..]);
    }
  }

  /** A handle is wrong about its job exactly when a request that ended it was carried out and no closing
      request was ever acknowledged. For one that can still be used that is exactly when it lost the
      answer to a last document. */
  lemma UnawareExactly(s: Life, ref: Ref, actions: seq<Action>)
    requires Opened(s, ref) && Alone(actions)
    ensures var t := Exec(s, ref, actions);
            && (t.closed != !Accepting(t.jobs, ref) <==> EndCarriedOut(t.log) && !CloseAcked(t.log))
            && (!t.spent ==> (t.closed != !Accepting(t.jobs, ref) <==> LastUnheard(t.log)))
  {
    var t := Exec(s, ref, actions);
    EveryLife(s, ref, actions);
    ServerClosedExactly(s, ref, actions);
    ExecInv(s, ref, actions);
    ExecTurnsAway(s, ref, actions);
    if !t.spent {
      NothingButDocuments(s, ref, actions);
      EndUnheard(t.log);
    }
  }

  /** It can be: a last document whose answer is lost closes the job unbeknownst to the handle, which
      then sends a Close-Job for it. */
  lemma LostAnswerMisleads(s: Life, ref: Ref, doc: Document, id: JobId, error: Error, fate: Fate)
    requires Opened(s, ref)
    ensures var t := Next(s, ref, AddDocument(doc, true, None, AnswerLost(id, error)));
            var log := CloseStep(t, ref, None, fate).0.log;
            !t.closed && !Accepting(t.jobs, ref) && |log| == 2 && log[1].request == CloseJob(ref)
  {
  }

  // ---- The order of documents ----

  /** `a` is what is left of `b` after crossing some entries out. */
  predicate Within(a: seq<Document>, b: seq<Document>) {
    a == [] ||
    (b != [] && (Within(a, b[..|b| - 1]) ||
                 (a[|a| - 1] == b[|b| - 1] && Within(a[..|a| - 1], b[..|b| - 1]))))
  }

  lemma WithinGrows(a: seq<Document>, b: seq<Document>, x: Document)
    requires Within(a, b)
    ensures Within(a, b + [x]) && Within(a + [x], b + [x])
  {
    assert (b + [x])[..|b|] == b && (a + [x])[..|a|] == a;
  }

  lemma {:induction false} AckedWithinKept(log: seq<Exchange>)
    ensures Within(AckedDocs(log), KeptDocs(log))
    ensures (forall e | e in log :: !e.outcome.Unheard?) ==> AckedDocs(log) == KeptDocs(log)
  {
    if log != [] {
      var front, e := log[..|log| - 1], log[|log| - 1];
      AckedWithinKept(front);
      assert e in log && forall x | x in front :: x in log;
      if e.request.SendDocument? && CarriedOut(e.outcome) {
        WithinGrows(AckedDocs(front), KeptDocs(front), e.request.doc);
      }
    }
  }

  lemma {:induction false} KeptWithinSent(log: seq<Exchange>)
    ensures Within(KeptDocs(log), SentDocs(log))
  {
    if log != [] {
      var front, e := log[..|log| - 1], log[|log| - 1];
      KeptWithinSent(front);
      if e.request.SendDocument? {
        WithinGrows(KeptDocs(front), SentDocs(front), e.request.doc);
      }
    }
  }

  /** The documents whose requests can be built, up to the call that consumes the handle: what a life
      has to send, told from what its caller does alone. */
  function Sendable(actions: seq<Action>): seq<Document>
    decreases |actions|
  {
    if actions == [] then []
    else
      match actions[0]
      case AddDocument(doc, _, build, _) => (if build.None? then [doc] else []) + Sendable(actions[1..])
      case Elsewhere(_) => Sendable(actions[1..])
      case Close(_, _) => []
      case Cancel(_, _) => []
  }

  /** What one step sends, and what it confirms. */
  function NextSent(s: Life, a: Action): seq<Document> {
    if a.AddDocument? && !s.spent && a.build.None? then [a.doc] else []
  }

  function NextConfirmed(s: Life, ref: Ref, a: Action): seq<Document> {
    if a.AddDocument? && !s.spent && AddStep(s, ref, a.doc, a.last, a.build, a.fate).1.Ok? then [a.doc] else []
  }

  /** The documents whose calls return Ok. */
  function Confirmed(s: Life, ref: Ref, actions: seq<Action>): seq<Document>
    decreases |actions|
  {
    if actions == [] then []
    else NextConfirmed(s, ref, actions[0]) + Confirmed(Next(s, ref, actions[0]), ref, actions[1..])
  }

  lemma NextSends(s: Life, ref: Ref, a: Action)
    ensures var t := Next(s, ref, a);
            && SentDocs(t.log) == SentDocs(s.log) + NextSent(s, a)
            && AckedDocs(t.log) == AckedDocs(s.log) + NextConfirmed(s, ref, a)
  {
    var t := Next(s, ref, a);
    if |t.log| > |s.log| {
      assert t.log[..|t.log| - 1] == s.log;
    }
  }

  function StillSendable(s: Life, actions: seq<Action>): seq<Document> {
    if s.spent then [] else Sendable(actions)
  }

  lemma SendableFirst(s: Life, ref: Ref, actions: seq<Action>)
    requires actions != []
    ensures StillSendable(s, actions) ==
            NextSent(s, actions[0]) + StillSendable(Next(s, ref, actions[0]), actions[1..])
  {
  }

  lemma {:induction false} ExecSends(s: Life, ref: Ref, actions: seq<Action>)
    ensures SentDocs(Exec(s, ref, actions).log) == SentDocs(s.log) + StillSendable(s, actions)
    decreases |actions|
  {
    hide Next, SentDocs, NextSent, StillSendable;
    if actions == [] {
      SendableNothing(s);
    } else {
      NextSends(s, ref, actions[0]);
      SendableFirst(s, ref, actions);
      ExecSends(Next(s, ref, actions[0]), ref, actions[1..]);
    }
  }

  lemma SendableNothing(s: Life)
    ensures StillSendable(s, []) == []
  {
  }

  lemma {:induction false} ExecConfirms(s: Life, ref: Ref, actions: seq<Action>)
    ensures AckedDocs(Exec(s, ref, actions).log) == AckedDocs(s.log) + Confirmed(s, ref, actions)
    decreases |actions|
  {
    hide Next, AckedDocs, NextConfirmed;
    if actions != [] {
      NextSends(s, ref, actions[0]);
      ExecConfirms(Next(s, ref, actions[0]), ref, actions[1..]);
    }
  }

  /** A life sends every document it can, in order and once, until the handle is consumed. Those whose
      calls return Ok are among those the server's copy of the job holds, in order, and these among those
      sent; the server holds just the confirmed ones if no answer was lost. */
  lemma ServerHolds(s: Life, ref: Ref, actions: seq<Action>)
    requires Opened(s, ref)
    ensures var t := Exec(s, ref, actions);
            var sent, confirmed := Sendable(actions), Confirmed(s, ref, actions);
            && SentDocs(t.log) == sent && AckedDocs(t.log) == confirmed
            && (ref in t.jobs ==> Within(confirmed, t.jobs[ref].docs) && Within(t.jobs[ref].docs, sent))
            && (ref in t.jobs && (forall e | e in t.log :: !e.outcome.Unheard?) ==> t.jobs[ref].docs == confirmed)
  {
    EveryLife(s, ref, actions);
    ExecSends(s, ref, actions);
    ExecConfirms(s, ref, actions);
    AckedWithinKept(Exec(s, ref, actions).log);
    KeptWithinSent(Exec(s, ref, actions).log);
  }
}
