/** The order of a diff's events: which removals come first, and when all of them do. */
module DiffOrder {
  import opened Wrappers
  import opened Snapshots
  import opened DiffLaws

  predicate Removes(e: PrinterEvent) { e.JobRemoved? || e.PrinterRemoved? }

  /** No removal follows an event of any other sort. */
  ghost predicate RemovalsFirst(es: seq<PrinterEvent>) {
    forall i, j | 0 <= i < j < |es| && Removes(es[j]) :: Removes(es[i])
  }

  /** Every listed job is the very one a diff finds in the old list. */
  predicate JobsSettled(before: seq<Job>, next: seq<Job>) {
    forall job | job in next :: FindJob(before, job.id) == Some(job)
  }

  /** Every printer is still listed, under its name at least. */
  predicate PrintersStay(before: seq<Printer>, next: seq<Printer>) {
    forall p | p in before :: FindPrinter(next, p.name).Some?
  }

  lemma LeavingRemoves(a: Snapshot, b: Snapshot, e: PrinterEvent)
    ensures e in JobsLeaving(a.jobs, b.jobs, |a.jobs|) ==> e.JobRemoved?
    ensures e in PrintersLeaving(a.printers, b.printers, |a.printers|) ==> e.PrinterRemoved?
  {
    JobsLeavingHas(a.jobs, b.jobs, |a.jobs|, e);
    PrintersLeavingHas(a.printers, b.printers, |a.printers|, e);
  }

  lemma ArrivingKeeps(a: Snapshot, b: Snapshot, e: PrinterEvent)
    ensures e in JobsArriving(a.jobs, b.jobs, |b.jobs|) ==> e.JobAdded? || e.JobChanged?
    ensures e in PrintersArriving(a.printers, b.printers, |b.printers|) ==> e.PrinterChanged?
  {
    JobsArrivingHas(a.jobs, b.jobs, |b.jobs|, e);
    PrintersArrivingHas(a.printers, b.printers, |b.printers|, e);
  }

  lemma {:induction false} NoneArrives(before: seq<Job>, next: seq<Job>, n: nat)
    requires n <= |next|
    ensures JobsArriving(before, next, n) == [] <==>
            forall i | 0 <= i < n :: FindJob(before, next[i].id) == Some(next[i])
  {
    hide FindJob;
    if n > 0 { NoneArrives(before, next, n - 1); }
  }

  lemma {:induction false} NoneLeaves(before: seq<Printer>, next: seq<Printer>, n: nat)
    requires n <= |before|
    ensures PrintersLeaving(before, next, n) == [] <==>
            forall i | 0 <= i < n :: FindPrinter(next, before[i].name).Some?
  {
    hide FindPrinter;
    if n > 0 { NoneLeaves(before, next, n - 1); }
  }

  lemma InStretch(l: seq<PrinterEvent>, r: seq<PrinterEvent>, p: seq<PrinterEvent>, q: seq<PrinterEvent>, k: nat)
    requires k < |l + r + p + q|
    ensures (l + r + p + q)[k] in
            (if k < |l| then l else if k < |l + r| then r else if k < |l + r + p| then p else q)
  {
  }

  lemma FourStretches(l: seq<PrinterEvent>, r: seq<PrinterEvent>, p: seq<PrinterEvent>, q: seq<PrinterEvent>)
    requires forall e | e in l || e in p :: Removes(e)
    requires forall e | e in r || e in q :: !Removes(e)
    ensures RemovalsFirst(l + r + p + q) <==> r == [] || p == []
  {
    var es := l + r + p + q;
    if r != [] && p != [] {
      assert es[|l|] == r[0] && es[|l + r|] == p[0];
      assert r[0] in r && p[0] in p;
    } else {
      forall i, j | 0 <= i < j < |es| && Removes(es[j]) ensures Removes(es[i]) {
        InStretch(l, r, p, q, i);
        InStretch(l, r, p, q, j);
      }
    }
  }

  /** Removals of jobs come before every other event and removals of printers before every printer's
      change, in any diff. */
  lemma RemovalsFirstWithinKind(a: Snapshot, b: Snapshot, i: nat, j: nat)
    requires i < j < |DiffEvents(a, b)|
    ensures var es := DiffEvents(a, b);
            && (es[j].JobRemoved? ==> es[i].JobRemoved?)
            && (es[j].PrinterRemoved? ==> !es[i].PrinterChanged?)
  {
    hide JobsLeaving, JobsArriving, PrintersLeaving, PrintersArriving;
    var es := DiffEvents(a, b);
    forall e { LeavingRemoves(a, b, e); }
    forall e { ArrivingKeeps(a, b, e); }
    StretchesApart(JobsLeaving(a.jobs, b.jobs, |a.jobs|), JobsArriving(a.jobs, b.jobs, |b.jobs|),
                   PrintersLeaving(a.printers, b.printers, |a.printers|),
                   PrintersArriving(a.printers, b.printers, |b.printers|), i, j);
  }

  lemma StretchesApart(l: seq<PrinterEvent>, r: seq<PrinterEvent>, p: seq<PrinterEvent>, q: seq<PrinterEvent>,
                       i: nat, j: nat)
    requires forall e :: (e in l ==> e.JobRemoved?) && (e in r ==> e.JobAdded? || e.JobChanged?)
    requires forall e :: (e in p ==> e.PrinterRemoved?) && (e in q ==> e.PrinterChanged?)
    requires i < j < |l + r + p + q|
    ensures var es := l + r + p + q;
            (es[j].JobRemoved? ==> es[i].JobRemoved?) && (es[j].PrinterRemoved? ==> !es[i].PrinterChanged?)
  {
    InStretch(l, r, p, q, i);
    InStretch(l, r, p, q, j);
  }

  /** The comment has removals come first. For any two snapshots all of them do exactly when no job
      arrives or changes, or no printer leaves. */
  lemma RemovalsFirstExactly(a: Snapshot, b: Snapshot)
    ensures RemovalsFirst(DiffEvents(a, b)) <==> JobsSettled(a.jobs, b.jobs) || PrintersStay(a.printers, b.printers)
  {
    hide JobsLeaving, JobsArriving, PrintersLeaving, PrintersArriving;
    forall e { LeavingRemoves(a, b, e); }
    forall e { ArrivingKeeps(a, b, e); }
    FourStretches(JobsLeaving(a.jobs, b.jobs, |a.jobs|), JobsArriving(a.jobs, b.jobs, |b.jobs|),
                  PrintersLeaving(a.printers, b.printers, |a.printers|),
                  PrintersArriving(a.printers, b.printers, |b.printers|));
    NoneArrives(a.jobs, b.jobs, |b.jobs|);
    NoneLeaves(a.printers, b.printers, |a.printers|);
  }

  /** A queue gone and a job new: the removal comes last. */
  lemma RemovalComesLast()
    ensures var a, b := Snapshot([Printer("laser", false, "")], []), Snapshot([], [Job(1, "held")]);
            DiffEvents(a, b) == [JobAdded(Job(1, "held")), PrinterRemoved("laser")] && !RemovalsFirst(DiffEvents(a, b))
  {
    var a, b := Snapshot([Printer("laser", false, "")], []), Snapshot([], [Job(1, "held")]);
    assert JobsArriving(a.jobs, b.jobs, 1) == JobsArriving(a.jobs, b.jobs, 0) + JobArrives(b.jobs[0], a.jobs);
    assert PrintersLeaving(a.printers, b.printers, 1) ==
           PrintersLeaving(a.printers, b.printers, 0) + PrinterLeaves(a.printers[0], b.printers);
    var es := DiffEvents(a, b);
    assert es == [JobAdded(Job(1, "held")), PrinterRemoved("laser")];
    assert Removes(es[1]) && !Removes(es[0]);
  }
}
