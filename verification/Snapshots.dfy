/** Snapshots of the print system and the events that lead from one to the next (events.rs). */
module Snapshots {
  import opened Wrappers

  type JobId = int

  // `details` stands for every field the diff only ever compares as a whole.
  datatype Job = Job(id: JobId, details: string)
  datatype Printer = Printer(name: string, isDefault: bool, details: string)

  datatype Snapshot = Snapshot(printers: seq<Printer>, jobs: seq<Job>)

  datatype PrinterEvent =
    | JobAdded(job: Job)
    | JobChanged(job: Job)
    | JobRemoved(id: JobId)
    | PrinterChanged(printer: Printer)
    | PrinterRemoved(name: string)
    | Resynchronised(printers: seq<Printer>, jobs: seq<Job>)

  /** The first job with this id, as `iter().find` returns it. */
  function FindJob(jobs: seq<Job>, id: JobId): Option<Job>
  {
    if jobs == [] then None
    else if jobs[0].id == id then Some(jobs[0])
    else FindJob(jobs[1..], id)
  }

  /** The first printer with this name. */
  function FindPrinter(printers: seq<Printer>, name: string): Option<Printer>
  {
    if printers == [] then None
    else if printers[0].name == name then Some(printers[0])
    else FindPrinter(printers[1..], name)
  }

  /** What one entry of a list contributes to the diff. */
  function JobLeaves(job: Job, next: seq<Job>): seq<PrinterEvent> {
    if FindJob(next, job.id).None? then [JobRemoved(job.id)] else []
  }

  function JobArrives(job: Job, before: seq<Job>): seq<PrinterEvent> {
    match FindJob(before, job.id)
    case None => [JobAdded(job)]
    case Some(previous) => if previous != job then [JobChanged(job)] else []
  }

  function PrinterLeaves(printer: Printer, next: seq<Printer>): seq<PrinterEvent> {
    if FindPrinter(next, printer.name).None? then [PrinterRemoved(printer.name)] else []
  }

  function PrinterArrives(printer: Printer, before: seq<Printer>): seq<PrinterEvent> {
    if FindPrinter(before, printer.name) == Some(printer) then [] else [PrinterChanged(printer)]
  }

  /** The four stretches of a diff, one per loop: what the loop's first `n` rounds push. */
  function JobsLeaving(before: seq<Job>, next: seq<Job>, n: nat): seq<PrinterEvent>
    requires n <= |before|
  {
    if n == 0 then [] else JobsLeaving(before, next, n - 1) + JobLeaves(before[n - 1], next)
  }

  function JobsArriving(before: seq<Job>, next: seq<Job>, n: nat): seq<PrinterEvent>
    requires n <= |next|
  {
    if n == 0 then [] else JobsArriving(before, next, n - 1) + JobArrives(next[n - 1], before)
  }

  function PrintersLeaving(before: seq<Printer>, next: seq<Printer>, n: nat): seq<PrinterEvent>
    requires n <= |before|
  {
    if n == 0 then [] else PrintersLeaving(before, next, n - 1) + PrinterLeaves(before[n - 1], next)
  }

  function PrintersArriving(before: seq<Printer>, next: seq<Printer>, n: nat): seq<PrinterEvent>
    requires n <= |next|
  {
    if n == 0 then [] else PrintersArriving(before, next, n - 1) + PrinterArrives(next[n - 1], before)
  }

  /** The events of a diff; DiffLaws says what they mean. */
  function DiffEvents(a: Snapshot, b: Snapshot): seq<PrinterEvent> {
    JobsLeaving(a.jobs, b.jobs, |a.jobs|) + JobsArriving(a.jobs, b.jobs, |b.jobs|)
    + PrintersLeaving(a.printers, b.printers, |a.printers|)
    + PrintersArriving(a.printers, b.printers, |b.printers|)
  }

  lemma NothingYet(a: Snapshot, b: Snapshot)
    ensures JobsLeaving(a.jobs, b.jobs, 0) == [] && JobsArriving(a.jobs, b.jobs, 0) == []
    ensures PrintersLeaving(a.printers, b.printers, 0) == [] && PrintersArriving(a.printers, b.printers, 0) == []
  {
  }

  lemma OneJobLeaves(pushed: seq<PrinterEvent>, before: seq<Job>, next: seq<Job>, i: nat)
    requires i < |before|
    ensures pushed + JobsLeaving(before, next, i + 1) ==
            pushed + JobsLeaving(before, next, i) + JobLeaves(before[i], next)
  {
  }

  lemma OneJobArrives(pushed: seq<PrinterEvent>, before: seq<Job>, next: seq<Job>, i: nat)
    requires i < |next|
    ensures pushed + JobsArriving(before, next, i + 1) ==
            pushed + JobsArriving(before, next, i) + JobArrives(next[i], before)
  {
  }

  lemma OnePrinterLeaves(pushed: seq<PrinterEvent>, before: seq<Printer>, next: seq<Printer>, i: nat)
    requires i < |before|
    ensures pushed + PrintersLeaving(before, next, i + 1) ==
            pushed + PrintersLeaving(before, next, i) + PrinterLeaves(before[i], next)
  {
  }

  lemma OnePrinterArrives(pushed: seq<PrinterEvent>, before: seq<Printer>, next: seq<Printer>, i: nat)
    requires i < |next|
    ensures pushed + PrintersArriving(before, next, i + 1) ==
            pushed + PrintersArriving(before, next, i) + PrinterArrives(next[i], before)
  {
  }

  /** `Snapshot::diff`: four loops pushing onto one growing list. */
  method Diff(self: Snapshot, next: Snapshot) returns (events: seq<PrinterEvent>)
    ensures events == DiffEvents(self, next)
  {
    hide FindJob, FindPrinter, JobsLeaving, JobsArriving, PrintersLeaving, PrintersArriving;
    NothingYet(self, next);
    events := [];
    for i := 0 to |self.jobs|
      invariant events == [] + JobsLeaving(self.jobs, next.jobs, i)
    {
      OneJobLeaves([], self.jobs, next.jobs, i);
      var job := self.jobs[i];
      if FindJob(next.jobs, job.id).None? {
        events := events + [JobRemoved(job.id)];
      }
    }

    ghost var pushed := events;
    for i := 0 to |next.jobs|
      invariant events == pushed + JobsArriving(self.jobs, next.jobs, i)
    {
      OneJobArrives(pushed, self.jobs, next.jobs, i);
      var job := next.jobs[i];
      var found := FindJob(self.jobs, job.id);
      if found.None? {
        events := events + [JobAdded(job)];
      } else if found.value != job {
        events := events + [JobChanged(job)];
      }
    }

    pushed := events;
    for i := 0 to |self.printers|
      invariant events == pushed + PrintersLeaving(self.printers, next.printers, i)
    {
      OnePrinterLeaves(pushed, self.printers, next.printers, i);
      var printer := self.printers[i];
      if FindPrinter(next.printers, printer.name).None? {
        events := events + [PrinterRemoved(printer.name)];
      }
    }

    pushed := events;
    for i := 0 to |next.printers|
      invariant events == pushed + PrintersArriving(self.printers, next.printers, i)
    {
      OnePrinterArrives(pushed, self.printers, next.printers, i);
      var printer := next.printers[i];
      if FindPrinter(self.printers, printer.name) != Some(printer) {
        events := events + [PrinterChanged(printer)];
      }
    }
  }
}
