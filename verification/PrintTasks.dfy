/** Any number of `print_stream_at` calls at once: each awaits its requests one after another, any of
    them may be dropped by its caller, even with a request under way, and others use the server too. */
module PrintTasks {
  import opened Wrappers
  import opened Errors
  import opened Snapshots
  import opened PrintServers
  import PrintStreams

  /** Where a call is: not started, knowing its job, with its document unsent, finished, or dropped. */
  datatype Stage =
    | Fresh
    | Made(id: JobId)
    | Unsent(id: JobId, error: Error)
    | Done(result: Result<JobId, Error>)
    | Dropped

  /** A call, and its history: the requests it sent, the job the server made for it, told or untold,
      and whether one of its requests could not be built. */
  datatype Task = Task(uri: string, doc: Document, stage: Stage, log: seq<Exchange>, made: Option<Ref>, unbuilt: bool)

  /** The server's jobs, every reference it ever gave out, and the calls. */
  datatype State = State(jobs: Jobs, used: set<Ref>, tasks: seq<Task>)

  /** One call's next request, which may not be buildable, whose fate is decided elsewhere, and whose
      answer finds the caller gone or not; or a call dropped between requests; or others at work. */
  datatype Action =
    | Create(task: nat, build: Option<Error>, fate: Fate, gone: bool)
    | Send(task: nat, build: Option<Error>, fate: Fate, gone: bool)
    | Cancel(task: nat, build: Option<Error>, fate: Fate, gone: bool)
    | Drop(task: nat)
    | Others(jobs: Jobs)

  /** Others may make jobs of their own and finish, abort or purge any; but a job that stays keeps its
      documents and does not open again, and a reference once given out is not given out again. */
  ghost predicate OthersMay(s: State, after: Jobs) {
    forall ref | ref in after ::
      if ref in s.jobs then after[ref].docs == s.jobs[ref].docs && (Accepting(after, ref) ==> Accepting(s.jobs, ref))
      else ref !in s.used
  }

  /** The call sends a request and goes on at `stage`. */
  function Asks(s: State, t: nat, request: Request, fate: Fate, stage: Stage, made: Option<Ref>): State
    requires t < |s.tasks|
  {
    var (jobs, outcome) := Serve(s.jobs, request, fate);
    var task := s.tasks[t].(stage := stage, log := s.tasks[t].log + [Exchange(request, outcome)], made := made);
    State(jobs, s.used + jobs.Keys, s.tasks[t := task])
  }

  /** The call ends because its next request could not be built. */
  function GivesUp(s: State, t: nat, error: Error): State
    requires t < |s.tasks|
  {
    s.(tasks := s.tasks[t := s.tasks[t].(stage := Done(Err(error)), unbuilt := true)])
  }

  function AfterCreate(outcome: Outcome, gone: bool): Stage {
    if gone then Dropped
    else
      match outcome
      case Acked(Some(id)) => Made(id)
      case Acked(None) => Done(Err(NO_JOB_ID))
      case Unheard(e) => Done(Err(e))
      case Denied(e) => Done(Err(e))
  }

  function AfterSend(id: JobId, outcome: Outcome, gone: bool): Stage {
    if gone then Dropped
    else if outcome.Acked? then Done(Ok(id)) else Unsent(id, outcome.error)
  }

  /** A server does not make a job under a reference it has given out before. */
  function CreateFate(s: State, uri: string, fate: Fate): Fate {
    if Willing(fate) && Ref(uri, fate.id) in s.used then Refused(NOT_POSSIBLE) else fate
  }

  function CreateStep(s: State, t: nat, fate: Fate, gone: bool): State
    requires t < |s.tasks|
  {
    var uri := s.tasks[t].uri;
    var fate := CreateFate(s, uri, fate);
    var outcome := Serve(s.jobs, CreateJob(uri), fate).1;
    Asks(s, t, CreateJob(uri), fate, AfterCreate(outcome, gone),
         if CarriedOut(outcome) then Some(Ref(uri, fate.id)) else None)
  }

  function SendStep(s: State, t: nat, fate: Fate, gone: bool): State
    requires t < |s.tasks| && s.tasks[t].stage.Made?
  {
    var id := s.tasks[t].stage.id;
    var request := SendDocument(Ref(s.tasks[t].uri, id), s.tasks[t].doc, true);
    Asks(s, t, request, fate, AfterSend(id, Serve(s.jobs, request, fate).1, gone), s.tasks[t].made)
  }

  function CancelStep(s: State, t: nat, fate: Fate, gone: bool): State
    requires t < |s.tasks| && s.tasks[t].stage.Unsent?
  {
    Asks(s, t, CancelJob(Ref(s.tasks[t].uri, s.tasks[t].stage.id)), fate,
         if gone then Dropped else Done(Err(s.tasks[t].stage.error)), s.tasks[t].made)
  }

  /** One step; a step that is not enabled changes nothing. */
  ghost function Next(s: State, a: Action): State {
    match a
    case Others(jobs) => if OthersMay(s, jobs) then s.(jobs := jobs, used := s.used + jobs.Keys) else s
    case Drop(t) =>
      if t < |s.tasks| && !s.tasks[t].stage.Done? then s.(tasks := s.tasks[t := s.tasks[t].(stage := Dropped)]) else s
    case Create(t, build, fate, gone) =>
      if t >= |s.tasks| || !s.tasks[t].stage.Fresh? then s
      else if build.Some? then GivesUp(s, t, build.value)
      else CreateStep(s, t, fate, gone)
    case Send(t, build, fate, gone) =>
      if t >= |s.tasks| || !s.tasks[t].stage.Made? then s
      else if build.Some? then GivesUp(s, t, build.value)
      else SendStep(s, t, fate, gone)
    case Cancel(t, build, fate, gone) =>
      if t >= |s.tasks| || !s.tasks[t].stage.Unsent? then s
      else if build.Some? then GivesUp(s, t, s.tasks[t].stage.error)
      else CancelStep(s, t, fate, gone)
  }

  ghost function Exec(s: State, actions: seq<Action>): State
    decreases |actions|
  {
    if actions == [] then s else Exec(Next(s, actions[0]), actions[1..])
  }

  // ---- What a call's history says ----

  /** The answer to its Create-Job named the job. */
  predicate Named(task: Task) {
    task.log != [] && task.log[0].outcome.Acked? && task.log[0].outcome.id.Some?
  }

  /** The requests sent: Create-Job, then the document to the job it named, then, if that was not
      acknowledged, Cancel-Job for the same job. */
  predicate InOrder(task: Task) {
    var log := task.log;
    && |log| <= 3
    && (|log| >= 1 ==> log[0].request == CreateJob(task.uri))
    && (task.made.Some? <==> |log| >= 1 && CarriedOut(log[0].outcome))
    && (Named(task) ==> task.made == Some(Ref(task.uri, log[0].outcome.id.value)))
    && (|log| >= 2 ==> Named(task) && log[1].request == SendDocument(task.made.value, task.doc, true))
    && (|log| == 3 ==> log[2].request == CancelJob(task.made.value) && !log[1].outcome.Acked?)
  }

  /** What the call knows is what its log says, and its result is honest: success is an acknowledged
      document; a failure after an unacknowledged one reports that document's own error, and has sent
      its Cancel-Job unless that could not be built. */
  predicate Knows(task: Task)
    requires InOrder(task)
  {
    var log := task.log;
    match task.stage
    case Fresh => log == [] && !task.unbuilt
    case Made(id) => |log| == 1 && Named(task) && task.made.value.id == id && !task.unbuilt
    case Unsent(id, e) =>
      && |log| == 2 && Named(task) && task.made.value.id == id && !task.unbuilt
      && !log[1].outcome.Acked? && log[1].outcome.error == e
    case Done(Ok(id)) => |log| == 2 && Named(task) && task.made.value.id == id && log[1].outcome.Acked? && !task.unbuilt
    case Done(Err(e)) =>
      && (|log| == 0 ==> task.unbuilt)
      && (|log| == 1 ==> (task.unbuilt <==> Named(task)))
      && (|log| >= 2 ==>
            && !log[1].outcome.Acked? && log[1].outcome.error == e
            && (|log| == 3 <==> !task.unbuilt))
    case Dropped => true
  }

  predicate Sent(task: Task) { |task.log| >= 2 && CarriedOut(task.log[1].outcome) }
  predicate TakenBack(task: Task) { |task.log| == 3 && CarriedOut(task.log[2].outcome) }

  /** The job as this call alone would leave it. */
  function Standing(task: Task): ServerJob {
    ServerJob(if Sent(task) then [task.doc] else [],
              if TakenBack(task) then Canceled else if Sent(task) then Closed else Open)
  }

  /** Its job, while the server has it, holds its document exactly if that was carried out and nothing
      else ever, and takes no more once the document or the cancellation was; with nobody but calls
      at work, it is there and just as the call left it. */
  predicate Kept(task: Task, jobs: Jobs, alone: bool) {
    task.made.Some? ==>
      && (task.made.value in jobs ==>
            && jobs[task.made.value].docs == Standing(task).docs
            && (Accepting(jobs, task.made.value) ==> Standing(task).phase.Open?))
      && (alone ==> task.made.value in jobs && jobs[task.made.value] == Standing(task))
  }

  predicate Sound(task: Task, jobs: Jobs, alone: bool) {
    InOrder(task) && Knows(task) && Kept(task, jobs, alone)
  }

  /** References are fresh: every job made for a call was its own. */
  ghost predicate Apart(s: State) {
    && s.jobs.Keys <= s.used
    && (forall u | 0 <= u < |s.tasks| && s.tasks[u].made.Some? :: s.tasks[u].made.value in s.used)
    && (forall u, v | 0 <= u < v < |s.tasks| && s.tasks[u].made.Some? :: s.tasks[u].made != s.tasks[v].made)
  }

  ghost predicate Inv(s: State, alone: bool) {
    Apart(s) && forall t | 0 <= t < |s.tasks| :: Sound(s.tasks[t], s.jobs, alone)
  }

  // ---- One step ----

  /** A request a call may send: for a job of its own making, or to make one. */
  predicate OwnRequest(s: State, t: nat, request: Request, fate: Fate)
    requires t < |s.tasks|
  {
    if request.CreateJob? then s.tasks[t].made.None? && (Willing(fate) ==> Ref(request.uri, fate.id) !in s.used)
    else s.tasks[t].made == Some(request.job)
  }

  lemma ServeElsewhere(s: State, t: nat, request: Request, fate: Fate, ref: Ref)
    requires t < |s.tasks| && OwnRequest(s, t, request, fate)
    requires ref in s.used && s.tasks[t].made != Some(ref)
    ensures SameAt(s.jobs, Serve(s.jobs, request, fate).0, ref)
  {
  }

  predicate SameAt(before: Jobs, after: Jobs, ref: Ref) {
    (ref in before <==> ref in after) && (ref in before ==> after[ref] == before[ref])
  }

  lemma CreateIsOwn(s: State, t: nat, fate: Fate)
    requires t < |s.tasks| && InOrder(s.tasks[t]) && Knows(s.tasks[t]) && s.tasks[t].stage.Fresh?
    ensures OwnRequest(s, t, CreateJob(s.tasks[t].uri), CreateFate(s, s.tasks[t].uri, fate))
  {
  }

  predicate Acts(a: Action, t: nat) { !a.Others? && a.task == t }

  lemma OthersSame(s: State, a: Action, t: nat)
    requires t < |s.tasks| && Acts(a, t)
    ensures |Next(s, a).tasks| == |s.tasks|
    ensures forall u | 0 <= u < |s.tasks| && u != t :: Next(s, a).tasks[u] == s.tasks[u]
  {
  }

  /** A step of one call leaves every other call as it was, and every job that was not made for it. */
  lemma OnlyItsOwn(s: State, a: Action, t: nat, ref: Ref)
    requires t < |s.tasks| && InOrder(s.tasks[t]) && Knows(s.tasks[t]) && Acts(a, t)
    requires ref in s.used && s.tasks[t].made != Some(ref)
    ensures |Next(s, a).tasks| == |s.tasks|
    ensures forall u | 0 <= u < |s.tasks| && u != t :: Next(s, a).tasks[u] == s.tasks[u]
    ensures SameAt(s.jobs, Next(s, a).jobs, ref)
  {
    match a
    case Drop(_) =>
    case Create(_, build, fate, _) =>
      if s.tasks[t].stage.Fresh? && build.None? {
        CreateIsOwn(s, t, fate);
        ServeElsewhere(s, t, CreateJob(s.tasks[t].uri), CreateFate(s, s.tasks[t].uri, fate), ref);
      }
    case Send(_, build, fate, _) =>
      if s.tasks[t].stage.Made? && build.None? {
        ServeElsewhere(s, t, SendDocument(s.tasks[t].made.value, s.tasks[t].doc, true), fate, ref);
      }
    case Cancel(_, build, fate, _) =>
      if s.tasks[t].stage.Unsent? && build.None? {
        ServeElsewhere(s, t, CancelJob(s.tasks[t].made.value), fate, ref);
      }
  }

  lemma CreateSound(s: State, t: nat, fate: Fate, gone: bool, alone: bool)
    requires s.jobs.Keys <= s.used && t < |s.tasks| && Sound(s.tasks[t], s.jobs, alone) && s.tasks[t].stage.Fresh?
    ensures var r := CreateStep(s, t, fate, gone); Sound(r.tasks[t], r.jobs, alone)
  {
  }

  lemma SendSound(s: State, t: nat, fate: Fate, gone: bool, alone: bool)
    requires t < |s.tasks| && Sound(s.tasks[t], s.jobs, alone) && s.tasks[t].stage.Made?
    ensures var r := SendStep(s, t, fate, gone); Sound(r.tasks[t], r.jobs, alone)
  {
  }

  lemma CancelSound(s: State, t: nat, fate: Fate, gone: bool, alone: bool)
    requires t < |s.tasks| && Sound(s.tasks[t], s.jobs, alone) && s.tasks[t].stage.Unsent?
    ensures var r := CancelStep(s, t, fate, gone); Sound(r.tasks[t], r.jobs, alone)
  {
  }

  lemma GivesUpSound(s: State, t: nat, error: Error, alone: bool)
    requires t < |s.tasks| && Sound(s.tasks[t], s.jobs, alone)
    requires match s.tasks[t].stage
             case Fresh => true
             case Made(_) => true
             case Unsent(_, e) => error == e
             case _ => false
    ensures Sound(GivesUp(s, t, error).tasks[t], s.jobs, alone)
  {
  }

  lemma DropSound(task: Task, jobs: Jobs, alone: bool)
    requires Sound(task, jobs, alone)
    ensures Sound(task.(stage := Dropped), jobs, alone)
  {
  }

  lemma StepSound(s: State, a: Action, t: nat, alone: bool)
    requires s.jobs.Keys <= s.used && t < |s.tasks| && Sound(s.tasks[t], s.jobs, alone) && Acts(a, t)
    ensures var r := Next(s, a); |r.tasks| == |s.tasks| && Sound(r.tasks[t], r.jobs, alone)
  {
    hide Sound;
    match a
    case Drop(_) => DropSound(s.tasks[t], s.jobs, alone);
    case Create(_, build, fate, gone) =>
      if s.tasks[t].stage.Fresh? {
        if build.Some? { GivesUpSound(s, t, build.value, alone); } else { CreateSound(s, t, fate, gone, alone); }
      }
    case Send(_, build, fate, gone) =>
      if s.tasks[t].stage.Made? {
        if build.Some? { GivesUpSound(s, t, build.value, alone); } else { SendSound(s, t, fate, gone, alone); }
      }
    case Cancel(_, build, fate, gone) =>
      if s.tasks[t].stage.Unsent? {
        if build.Some? {
          GivesUpSound(s, t, s.tasks[t].stage.error, alone);
        } else {
          CancelSound(s, t, fate, gone, alone);
        }
      }
  }

  lemma SoundElsewhere(task: Task, before: Jobs, after: Jobs, alone: bool)
    requires Sound(task, before, alone) && (task.made.Some? ==> SameAt(before, after, task.made.value))
    ensures Sound(task, after, alone)
  {
  }

  lemma StepMade(s: State, a: Action, t: nat)
    requires s.jobs.Keys <= s.used && t < |s.tasks| && InOrder(s.tasks[t]) && Knows(s.tasks[t]) && Acts(a, t)
    ensures var r := Next(s, a);
            && |r.tasks| == |s.tasks| && s.used <= r.used && r.jobs.Keys <= r.used
            && (r.tasks[t].made == s.tasks[t].made ||
                (r.tasks[t].made.Some? && r.tasks[t].made.value in r.used && r.tasks[t].made.value !in s.used))
  {
  }

  lemma StepApart(s: State, a: Action, t: nat)
    requires Apart(s) && t < |s.tasks| && InOrder(s.tasks[t]) && Knows(s.tasks[t]) && Acts(a, t)
    ensures Apart(Next(s, a))
  {
    var r := Next(s, a);
    StepMade(s, a, t);
    OthersSame(s, a, t);
    forall u, v | 0 <= u < v < |r.tasks| && r.tasks[u].made.Some? ensures r.tasks[u].made != r.tasks[v].made {
      assert u != t ==> r.tasks[u] == s.tasks[u];
      assert v != t ==> r.tasks[v] == s.tasks[v];
    }
  }

  lemma OthersInv(s: State, jobs: Jobs)
    requires Inv(s, false) && OthersMay(s, jobs)
    ensures Inv(s.(jobs := jobs, used := s.used + jobs.Keys), false)
  {
    forall u | 0 <= u < |s.tasks| ensures Sound(s.tasks[u], jobs, false) {
      assert Sound(s.tasks[u], s.jobs, false);
    }
  }

  lemma NextInv(s: State, a: Action, alone: bool)
    requires Inv(s, alone) && (alone ==> !a.Others?)
    ensures Inv(Next(s, a), alone) && |Next(s, a).tasks| == |s.tasks|
  {
    if a.Others? {
      if OthersMay(s, a.jobs) { OthersInv(s, a.jobs); }
    } else if a.task < |s.tasks| {
      var r, t := Next(s, a), a.task;
      assert Sound(s.tasks[t], s.jobs, alone);
      StepSound(s, a, t, alone);
      StepApart(s, a, t);
      OthersSame(s, a, t);
      forall u | 0 <= u < |r.tasks| ensures Sound(r.tasks[u], r.jobs, alone) {
        if u != t {
          assert Sound(s.tasks[u], s.jobs, alone);
          if s.tasks[u].made.Some? {
            assert s.tasks[t].made != s.tasks[u].made by { if u < t { assert u < t; } else { assert t < u; } }
            OnlyItsOwn(s, a, t, s.tasks[u].made.value);
          }
          SoundElsewhere(s.tasks[u], s.jobs, r.jobs, alone);
        }
      }
    }
  }

  lemma {:induction false} ExecInv(s: State, actions: seq<Action>, alone: bool)
    requires Inv(s, alone) && (alone ==> forall a | a in actions :: !a.Others?)
    ensures Inv(Exec(s, actions), alone) && |Exec(s, actions).tasks| == |s.tasks|
    decreases |actions|
  {
    if actions != [] {
      assert actions[0] in actions;
      NextInv(s, actions[0], alone);
      ExecInv(Next(s, actions[0]), actions[1..], alone);
    }
  }

  // ---- Whole runs ----

  /** Calls that have not started, on a server with any jobs. */
  ghost predicate Starting(s: State) {
    && s.jobs.Keys <= s.used
    && forall t | 0 <= t < |s.tasks| ::
         s.tasks[t].stage == Fresh && s.tasks[t].log == [] && s.tasks[t].made == None && !s.tasks[t].unbuilt
  }

  /** However the calls interleave, whatever is lost, dropped or done by others: each sends at most one
      Create-Job, one Send-Document and one Cancel-Job, in that order and all for its own job; it
      succeeds only on an acknowledged document and reports that document's own error otherwise, having
      sent its Cancel-Job unless that could not be built; and its job never holds anything but that
      document. */
  lemma EveryInterleaving(s: State, actions: seq<Action>, t: nat)
    requires Starting(s) && t < |s.tasks|
    ensures var r := Exec(s, actions); t < |r.tasks| && Sound(r.tasks[t], r.jobs, false)
  {
    ExecInv(s, actions, false);
  }

  /** No call ever cancels, or prints into, a job made for another, even one the other was never told of. */
  lemma NoneTouchesAnother(s: State, actions: seq<Action>, t: nat, u: nat, i: nat)
    requires Starting(s) && t < |s.tasks| && u < |s.tasks| && t != u
    requires var r := Exec(s, actions);
             |r.tasks| == |s.tasks| && r.tasks[u].made.Some? && 1 <= i < |r.tasks[t].log|
    ensures var r := Exec(s, actions);
            !r.tasks[t].log[i].request.CreateJob? && r.tasks[t].log[i].request.job != r.tasks[u].made.value
  {
    ExecInv(s, actions, false);
    var r := Exec(s, actions);
    assert Sound(r.tasks[t], r.jobs, false);
    assert i == 1 || i == 2;
    assert r.tasks[t].made != r.tasks[u].made by { if t < u { assert t < u; } else { assert u < t; } }
  }

  /** With any number of calls and nobody else at work, every job made for a call stands exactly as
      that call's own requests leave it: open and empty if neither its document nor its cancellation
      was carried out, closed around its document if only that was, cancelled otherwise. */
  lemma LeftExactly(s: State, actions: seq<Action>, t: nat)
    requires Starting(s) && t < |s.tasks| && forall a | a in actions :: !a.Others?
    ensures var r := Exec(s, actions);
            && t < |r.tasks|
            && (r.tasks[t].made.Some? ==>
                  && r.tasks[t].made.value in r.jobs
                  && var job := r.jobs[r.tasks[t].made.value];
                     && (job == ServerJob([], Open) <==> !Sent(r.tasks[t]) && !TakenBack(r.tasks[t]))
                     && (job == ServerJob([r.tasks[t].doc], Closed) <==> Sent(r.tasks[t]) && !TakenBack(r.tasks[t]))
                     && (job.phase.Canceled? <==> TakenBack(r.tasks[t])))
  {
    ExecInv(s, actions, true);
  }

  /** A call that reports failure leaves its job open and empty exactly when it was never told of it,
      its document could not be built, or neither the document nor a cancellation was carried out. */
  lemma OrphanedExactly(s: State, actions: seq<Action>, t: nat)
    requires Starting(s) && t < |s.tasks| && forall a | a in actions :: !a.Others?
    requires var r := Exec(s, actions);
             |r.tasks| == |s.tasks| && r.tasks[t].made.Some? && r.tasks[t].stage.Done? && r.tasks[t].stage.result.Err?
    ensures var r := Exec(s, actions);
            var task := r.tasks[t];
            && task.made.value in r.jobs
            && (r.jobs[task.made.value] == ServerJob([], Open) <==>
                || !Named(task)
                || (|task.log| == 1 && task.unbuilt)
                || (|task.log| == 2 && task.log[1].outcome.Denied? && task.unbuilt)
                || (|task.log| == 3 && task.log[1].outcome.Denied? && task.log[2].outcome.Denied?))
  {
    ExecInv(s, actions, true);
    assert Sound(Exec(s, actions).tasks[t], Exec(s, actions).jobs, true);
  }

  /** A call whose caller is gone as an answer arrives is dropped. */
  lemma GoneIsDropped(s: State, a: Action, t: nat)
    requires t < |s.tasks| && Acts(a, t) && !a.Drop? && a.gone && Next(s, a).tasks[t].log != s.tasks[t].log
    ensures Next(s, a).tasks[t].stage.Dropped?
  {
  }

  /** And a dropped call does nothing more: whatever was to follow, its Cancel-Job included, is not sent. */
  lemma {:induction false} DroppedStays(s: State, actions: seq<Action>, t: nat)
    requires t < |s.tasks| && s.tasks[t].stage.Dropped?
    ensures var r := Exec(s, actions); t < |r.tasks| && r.tasks[t] == s.tasks[t]
    decreases |actions|
  {
    if actions != [] {
      DroppedStays(Next(s, actions[0]), actions[1..], t);
    }
  }

  // ---- A call that nothing interrupts ----

  /** A finished call, as PrintStreams speaks of it. */
  function AsPrinted(jobs: Jobs, task: Task): PrintStreams.Printed
    requires task.stage.Done?
  {
    PrintStreams.Printed(jobs, task.stage.result, task.log)
  }

  lemma DoneStays(s: State, build: Option<Error>, fate: Fate)
    requires |s.tasks| == 1 && s.tasks[0].stage.Done?
    ensures Next(s, Send(0, build, fate, false)) == s && Next(s, Cancel(0, build, fate, false)) == s
  {
  }

  lemma Delivers(s1: State, plan: PrintStreams.Plan)
    requires |s1.tasks| == 1 && s1.tasks[0].stage.Made?
    ensures var task := s1.tasks[0];
            var p := PrintStreams.Deliver(s1.jobs, Ref(task.uri, task.stage.id), task.doc, task.log, plan);
            var s2 := Next(s1, Send(0, plan.buildSend, plan.send, false));
            var s3 := Next(s2, Cancel(0, plan.buildCancel, plan.cancel, false));
            |s3.tasks| == 1 && s3.tasks[0].stage.Done? && AsPrinted(s3.jobs, s3.tasks[0]) == p
  {
    var s2 := Next(s1, Send(0, plan.buildSend, plan.send, false));
    assert |s2.tasks| == 1;
    if s2.tasks[0].stage.Done? {
      DoneStays(s2, plan.buildCancel, plan.cancel);
    }
  }

  lemma Creates(jobs: Jobs, uri: string, doc: Document, plan: PrintStreams.Plan)
    ensures var p := PrintStreams.Print(jobs, uri, doc, plan);
            var s0 := State(jobs, jobs.Keys, [Task(uri, doc, Fresh, [], None, false)]);
            var s1 := Next(s0, Create(0, plan.buildCreate, plan.create, false));
            && |s1.tasks| == 1
            && var task := s1.tasks[0];
               && (task.stage.Done? || task.stage.Made?)
               && (task.stage.Done? ==> AsPrinted(s1.jobs, task) == p)
               && (task.stage.Made? ==>
                     p == PrintStreams.Deliver(s1.jobs, Ref(task.uri, task.stage.id), task.doc, task.log, plan))
  {
  }

  lemma Rest(s1: State, plan: PrintStreams.Plan)
    requires |s1.tasks| == 1 && (s1.tasks[0].stage.Done? || s1.tasks[0].stage.Made?)
    ensures var task := s1.tasks[0];
            var s2 := Next(s1, Send(0, plan.buildSend, plan.send, false));
            var s3 := Next(s2, Cancel(0, plan.buildCancel, plan.cancel, false));
            && |s3.tasks| == 1 && s3.tasks[0].stage.Done?
            && AsPrinted(s3.jobs, s3.tasks[0]) ==
               if task.stage.Done? then AsPrinted(s1.jobs, task)
               else PrintStreams.Deliver(s1.jobs, Ref(task.uri, task.stage.id), task.doc, task.log, plan)
  {
    if s1.tasks[0].stage.Done? {
      DoneStays(s1, plan.buildSend, plan.send);
      DoneStays(s1, plan.buildCancel, plan.cancel);
    } else {
      Delivers(s1, plan);
    }
  }

  /** Left alone, a call takes these steps back to back and does what PrintStreams.PrintStreamAt promises. */
  lemma UninterruptedCall(jobs: Jobs, uri: string, doc: Document, plan: PrintStreams.Plan)
    ensures var s0 := State(jobs, jobs.Keys, [Task(uri, doc, Fresh, [], None, false)]);
            var s1 := Next(s0, Create(0, plan.buildCreate, plan.create, false));
            var s2 := Next(s1, Send(0, plan.buildSend, plan.send, false));
            var s3 := Next(s2, Cancel(0, plan.buildCancel, plan.cancel, false));
            |s3.tasks| == 1 && s3.tasks[0].stage.Done? &&
            AsPrinted(s3.jobs, s3.tasks[0]) == PrintStreams.Print(jobs, uri, doc, plan)
  {
    Creates(jobs, uri, doc, plan);
    var s0 := State(jobs, jobs.Keys, [Task(uri, doc, Fresh, [], None, false)]);
    Rest(Next(s0, Create(0, plan.buildCreate, plan.create, false)), plan);
  }
}
