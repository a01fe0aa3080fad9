/** What `Snapshot::diff` promises, stated over the pictures a consumer holds. */
module DiffLaws {
  import opened Wrappers
  import opened Snapshots
  import opened Consumers

  // ---- Keys within one snapshot ----

  /** Entries under one key never disagree (duplicates, if any, are copies). */
  ghost predicate ConsistentJobs(jobs: seq<Job>) {
    forall i, j | 0 <= i < |jobs| && 0 <= j < |jobs| && jobs[i].id == jobs[j].id :: jobs[i] == jobs[j]
  }

  ghost predicate ConsistentPrinters(printers: seq<Printer>) {
    forall i, j | 0 <= i < |printers| && 0 <= j < |printers| && printers[i].name == printers[j].name ::
      printers[i] == printers[j]
  }

  ghost predicate Consistent(s: Snapshot) {
    ConsistentJobs(s.jobs) && ConsistentPrinters(s.printers)
  }

  ghost predicate UniqueJobs(jobs: seq<Job>) {
    forall i, j | 0 <= i < j < |jobs| :: jobs[i].id != jobs[j].id
  }

  ghost predicate UniquePrinters(printers: seq<Printer>) {
    forall i, j | 0 <= i < j < |printers| :: printers[i].name != printers[j].name
  }

  ghost predicate Unique(s: Snapshot) {
    UniqueJobs(s.jobs) && UniquePrinters(s.printers)
  }

  // ---- Finding and filing agree ----

  lemma {:induction false} FindJobIs(jobs: seq<Job>, id: JobId)
    ensures FindJob(jobs, id).None? <==> id !in JobMap(jobs)
    ensures FindJob(jobs, id).Some? ==> FindJob(jobs, id).value in jobs && FindJob(jobs, id).value.id == id
  {
    if jobs != [] && jobs[0].id != id {
      FindJobIs(jobs[1..], id);
      assert jobs == [jobs[0]] + jobs[1..];
      if id in JobMap(jobs) {
        assert JobMap(jobs)[id] in jobs[1..];
      }
    }
  }

  lemma {:induction false} FindPrinterIs(printers: seq<Printer>, name: string)
    ensures FindPrinter(printers, name).None? <==> name !in PrinterMap(printers)
    ensures FindPrinter(printers, name).Some? ==>
              FindPrinter(printers, name).value in printers && FindPrinter(printers, name).value.name == name
  {
    if printers != [] && printers[0].name != name {
      FindPrinterIs(printers[1..], name);
      assert printers == [printers[0]] + printers[1..];
      if name in PrinterMap(printers) {
        assert PrinterMap(printers)[name] in printers[1..];
      }
    }
  }

  // ---- The events, one by one ----

  lemma {:induction false} JobsLeavingHas(before: seq<Job>, next: seq<Job>, n: nat, e: PrinterEvent)
    requires n <= |before|
    ensures e in JobsLeaving(before, next, n) <==>
            exists i :: 0 <= i < n && e in JobLeaves(before[i], next)
  {
    if n > 0 { JobsLeavingHas(before, next, n - 1, e); }
  }

  lemma {:induction false} JobsArrivingHas(before: seq<Job>, next: seq<Job>, n: nat, e: PrinterEvent)
    requires n <= |next|
    ensures e in JobsArriving(before, next, n) <==>
            exists i :: 0 <= i < n && e in JobArrives(next[i], before)
  {
    if n > 0 { JobsArrivingHas(before, next, n - 1, e); }
  }

  lemma {:induction false} PrintersLeavingHas(before: seq<Printer>, next: seq<Printer>, n: nat, e: PrinterEvent)
    requires n <= |before|
    ensures e in PrintersLeaving(before, next, n) <==>
            exists i :: 0 <= i < n && e in PrinterLeaves(before[i], next)
  {
    if n > 0 { PrintersLeavingHas(before, next, n - 1, e); }
  }

  lemma {:induction false} PrintersArrivingHas(before: seq<Printer>, next: seq<Printer>, n: nat, e: PrinterEvent)
    requires n <= |next|
    ensures e in PrintersArriving(before, next, n) <==>
            exists i :: 0 <= i < n && e in PrinterArrives(next[i], before)
  {
    if n > 0 { PrintersArrivingHas(before, next, n - 1, e); }
  }

  /** An event that reports a real difference between two pictures, in the words that fit it. */
  ghost predicate Reports(c: Consumer, d: Consumer, e: PrinterEvent) {
    match e
    case JobAdded(job) => job.id !in c.jobs && job.id in d.jobs && d.jobs[job.id] == job
    case JobChanged(job) =>
      job.id in c.jobs && job.id in d.jobs && d.jobs[job.id] == job && c.jobs[job.id] != job
    case JobRemoved(id) => id in c.jobs && id !in d.jobs
    case PrinterChanged(p) =>
      p.name in d.printers && d.printers[p.name] == p && !(p.name in c.printers && c.printers[p.name] == p)
    case PrinterRemoved(name) => name in c.printers && name !in d.printers
    case Resynchronised(_, _) => false
  }

  lemma JobLeavesReports(a: Snapshot, b: Snapshot, i: nat, e: PrinterEvent)
    requires i < |a.jobs| && e in JobLeaves(a.jobs[i], b.jobs)
    ensures e.JobRemoved? && Reports(View(a), View(b), e)
  {
    FindJobIs(b.jobs, a.jobs[i].id);
    assert a.jobs[i] in a.jobs;
  }

  lemma JobRemovalReported(a: Snapshot, b: Snapshot, e: PrinterEvent)
    requires e.JobRemoved? && Reports(View(a), View(b), e)
    ensures exists i :: 0 <= i < |a.jobs| && e in JobLeaves(a.jobs[i], b.jobs)
  {
    FindJobIs(b.jobs, e.id);
    var i :| 0 <= i < |a.jobs| && a.jobs[i] == JobMap(a.jobs)[e.id];
    assert e in JobLeaves(a.jobs[i], b.jobs);
  }

  lemma JobsLeavingReport(a: Snapshot, b: Snapshot, e: PrinterEvent)
    ensures e in JobsLeaving(a.jobs, b.jobs, |a.jobs|) <==>
            e.JobRemoved? && Reports(View(a), View(b), e)
  {
    JobsLeavingHas(a.jobs, b.jobs, |a.jobs|, e);
    if i :| 0 <= i < |a.jobs| && e in JobLeaves(a.jobs[i], b.jobs) {
      JobLeavesReports(a, b, i, e);
    }
    if e.JobRemoved? && Reports(View(a), View(b), e) {
      JobRemovalReported(a, b, e);
    }
  }

  lemma JobFound(jobs: seq<Job>, id: JobId)
    requires ConsistentJobs(jobs)
    ensures FindJob(jobs, id) == if id in JobMap(jobs) then Some(JobMap(jobs)[id]) else None
  {
    FindJobIs(jobs, id);
  }

  lemma ArrivalReports(c: Consumer, d: Consumer, job: Job, e: PrinterEvent)
    requires job.id in d.jobs && d.jobs[job.id] == job
    ensures e in (if job.id !in c.jobs then [JobAdded(job)]
                  else if c.jobs[job.id] != job then [JobChanged(job)] else []) <==>
            (e.JobAdded? || e.JobChanged?) && e.job == job && Reports(c, d, e)
  {
  }

  lemma JobArrivesReports(a: Snapshot, b: Snapshot, job: Job, e: PrinterEvent)
    requires ConsistentJobs(a.jobs) && ConsistentJobs(b.jobs) && job in b.jobs
    ensures e in JobArrives(job, a.jobs) <==>
            (e.JobAdded? || e.JobChanged?) && e.job == job && Reports(View(a), View(b), e)
  {
    JobFound(a.jobs, job.id);
    assert JobMap(b.jobs)[job.id] == job;
    ArrivalReports(View(a), View(b), job, e);
  }

  lemma JobsArrivingReport(a: Snapshot, b: Snapshot, e: PrinterEvent)
    requires ConsistentJobs(a.jobs) && ConsistentJobs(b.jobs)
    ensures e in JobsArriving(a.jobs, b.jobs, |b.jobs|) <==>
            (e.JobAdded? || e.JobChanged?) && Reports(View(a), View(b), e)
  {
    JobsArrivingHas(a.jobs, b.jobs, |b.jobs|, e);
    if i :| 0 <= i < |b.jobs| && e in JobArrives(b.jobs[i], a.jobs) {
      JobArrivesReports(a, b, b.jobs[i], e);
    }
    if (e.JobAdded? || e.JobChanged?) && Reports(View(a), View(b), e) {
      var i :| 0 <= i < |b.jobs| && b.jobs[i] == e.job;
      JobArrivesReports(a, b, b.jobs[i], e);
    }
  }

  lemma PrinterLeavesReports(a: Snapshot, b: Snapshot, i: nat, e: PrinterEvent)
    requires i < |a.printers| && e in PrinterLeaves(a.printers[i], b.printers)
    ensures e.PrinterRemoved? && Reports(View(a), View(b), e)
  {
    FindPrinterIs(b.printers, a.printers[i].name);
    assert a.printers[i] in a.printers;
  }

  lemma PrinterRemovalReported(a: Snapshot, b: Snapshot, e: PrinterEvent)
    requires e.PrinterRemoved? && Reports(View(a), View(b), e)
    ensures exists i :: 0 <= i < |a.printers| && e in PrinterLeaves(a.printers[i], b.printers)
  {
    FindPrinterIs(b.printers, e.name);
    var i :| 0 <= i < |a.printers| && a.printers[i] == PrinterMap(a.printers)[e.name];
    assert e in PrinterLeaves(a.printers[i], b.printers);
  }

  lemma PrintersLeavingReport(a: Snapshot, b: Snapshot, e: PrinterEvent)
    ensures e in PrintersLeaving(a.printers, b.printers, |a.printers|) <==>
            e.PrinterRemoved? && Reports(View(a), View(b), e)
  {
    PrintersLeavingHas(a.printers, b.printers, |a.printers|, e);
    if i :| 0 <= i < |a.printers| && e in PrinterLeaves(a.printers[i], b.printers) {
      PrinterLeavesReports(a, b, i, e);
    }
    if e.PrinterRemoved? && Reports(View(a), View(b), e) {
      PrinterRemovalReported(a, b, e);
    }
  }

  lemma PrinterFound(printers: seq<Printer>, name: string)
    requires ConsistentPrinters(printers)
    ensures FindPrinter(printers, name) ==
            if name in PrinterMap(printers) then Some(PrinterMap(printers)[name]) else None
  {
    FindPrinterIs(printers, name);
  }

  lemma PrinterArrivalReports(c: Consumer, d: Consumer, p: Printer, e: PrinterEvent)
    requires p.name in d.printers && d.printers[p.name] == p
    ensures e in (if p.name in c.printers && c.printers[p.name] == p then [] else [PrinterChanged(p)])
            <==> e.PrinterChanged? && e.printer == p && Reports(c, d, e)
  {
  }

  lemma PrinterArrivesReports(a: Snapshot, b: Snapshot, p: Printer, e: PrinterEvent)
    requires ConsistentPrinters(a.printers) && ConsistentPrinters(b.printers) && p in b.printers
    ensures e in PrinterArrives(p, a.printers) <==>
            e.PrinterChanged? && e.printer == p && Reports(View(a), View(b), e)
  {
    PrinterFound(a.printers, p.name);
    assert PrinterMap(b.printers)[p.name] == p;
    PrinterArrivalReports(View(a), View(b), p, e);
  }

  lemma PrintersArrivingReport(a: Snapshot, b: Snapshot, e: PrinterEvent)
    requires ConsistentPrinters(a.printers) && ConsistentPrinters(b.printers)
    ensures e in PrintersArriving(a.printers, b.printers, |b.printers|) <==>
            e.PrinterChanged? && Reports(View(a), View(b), e)
  {
    PrintersArrivingHas(a.printers, b.printers, |b.printers|, e);
    if i :| 0 <= i < |b.printers| && e in PrinterArrives(b.printers[i], a.printers) {
      PrinterArrivesReports(a, b, b.printers[i], e);
    }
    if e.PrinterChanged? && Reports(View(a), View(b), e) {
      var i :| 0 <= i < |b.printers| && b.printers[i] == e.printer;
      PrinterArrivesReports(a, b, b.printers[i], e);
    }
  }

  /** A diff holds exactly the events that report a difference. */
  lemma DiffReports(a: Snapshot, b: Snapshot, e: PrinterEvent)
    requires Consistent(a) && Consistent(b)
    ensures e in DiffEvents(a, b) <==> Reports(View(a), View(b), e)
  {
    JobsLeavingReport(a, b, e);
    JobsArrivingReport(a, b, e);
    PrintersLeavingReport(a, b, e);
    PrintersArrivingReport(a, b, e);
  }

  ghost predicate WellFiled(c: Consumer) {
    && (forall id | id in c.jobs :: c.jobs[id].id == id)
    && (forall n | n in c.printers :: c.printers[n].name == n)
  }

  /** The event that reports a disagreement. */
  ghost function Reporter(c: Consumer, d: Consumer, k: Key): (e: PrinterEvent)
    requires k in Differing(c, d)
    requires WellFiled(d)
    ensures Reports(c, d, e) && KeyOf(e) == k
  {
    match k
    case JobKey(id) =>
      if id !in d.jobs then JobRemoved(id)
      else if id in c.jobs then JobChanged(d.jobs[id]) else JobAdded(d.jobs[id])
    case PrinterKey(n) =>
      if n !in d.printers then PrinterRemoved(n) else PrinterChanged(d.printers[n])
  }

  lemma ReportsTouch(c: Consumer, d: Consumer, es: seq<PrinterEvent>)
    requires forall e :: e in es <==> Reports(c, d, e)
    requires WellFiled(d)
    ensures Toward(es, d) && KeysOf(es) == Differing(c, d)
  {
    forall e | e in es ensures Incremental(e) && Leaves(e) == Lookup(d, KeyOf(e)) && KeyOf(e) in Differing(c, d) {
      InKeys(c, KeyOf(e));
      InKeys(d, KeyOf(e));
    }
    forall k | k in Differing(c, d) ensures k in KeysOf(es) {
      assert Reporter(c, d, k) in es;
    }
  }

  /** The keys a diff touches are exactly those on which the two pictures disagree. */
  lemma DiffTouches(a: Snapshot, b: Snapshot)
    requires Consistent(a) && Consistent(b)
    ensures Toward(DiffEvents(a, b), View(b))
    ensures KeysOf(DiffEvents(a, b)) == Differing(View(a), View(b))
  {
    forall e { DiffReports(a, b, e); }
    ReportsTouch(View(a), View(b), DiffEvents(a, b));
  }

  // ---- Replay ----

  /** Folding a diff over the old picture gives the new one. */
  lemma Replay(a: Snapshot, b: Snapshot)
    requires Consistent(a) && Consistent(b)
    ensures Fold(View(a), DiffEvents(a, b)) == View(b)
  {
    DiffTouches(a, b);
    ReplayAny(View(a), View(b), DiffEvents(a, b));
  }

  /** So does folding its events in any other order. */
  lemma ReplayInAnyOrder(a: Snapshot, b: Snapshot, es: seq<PrinterEvent>)
    requires Consistent(a) && Consistent(b)
    requires multiset(es) == multiset(DiffEvents(a, b))
    ensures Fold(View(a), es) == View(b)
  {
    DiffTouches(a, b);
    forall e ensures e in es <==> e in DiffEvents(a, b) {
      assert e in multiset(es) <==> e in multiset(DiffEvents(a, b));
    }
    ReplayAny(View(a), View(b), es);
  }

  lemma ReplayAny(c: Consumer, d: Consumer, es: seq<PrinterEvent>)
    requires Toward(es, d) && Differing(c, d) <= KeysOf(es)
    ensures Fold(c, es) == d
  {
    forall k ensures Lookup(Fold(c, es), k) == Lookup(d, k) {
      FoldSettles(c, es, d, k);
      InKeys(c, k);
      InKeys(d, k);
    }
    SameEverywhere(Fold(c, es), d);
  }

  lemma Settled(c: Consumer, d: Consumer, es: seq<PrinterEvent>)
    requires Toward(es, d) && Differing(c, d) == KeysOf(es)
    ensures es == [] <==> c == d
  {
    ReplayAny(c, d, es);
    if es != [] {
      assert es[0] in es && KeyOf(es[0]) in Differing(c, d);
    }
  }

  // ---- Nothing to say ----

  /** A diff is empty exactly when the two pictures are the same. */
  lemma EmptyExactly(a: Snapshot, b: Snapshot)
    requires Consistent(a) && Consistent(b)
    ensures DiffEvents(a, b) == [] <==> View(a) == View(b)
  {
    DiffTouches(a, b);
    Settled(View(a), View(b), DiffEvents(a, b));
  }

  lemma SilentJobs(s: Snapshot, i: nat)
    requires DiffEvents(s, s) == [] && i < |s.jobs|
    ensures FindJob(s.jobs, s.jobs[i].id) == Some(s.jobs[i])
  {
    FindJobIs(s.jobs, s.jobs[i].id);
    JobsArrivingHas(s.jobs, s.jobs, |s.jobs|, JobChanged(s.jobs[i]));
    assert JobChanged(s.jobs[i]) !in JobArrives(s.jobs[i], s.jobs);
  }

  lemma SilentPrinters(s: Snapshot, i: nat)
    requires DiffEvents(s, s) == [] && i < |s.printers|
    ensures FindPrinter(s.printers, s.printers[i].name) == Some(s.printers[i])
  {
    PrintersArrivingHas(s.printers, s.printers, |s.printers|, PrinterChanged(s.printers[i]));
    assert PrinterChanged(s.printers[i]) !in PrinterArrives(s.printers[i], s.printers);
  }

  /** A snapshot diffed with itself is silent exactly when no two of its entries disagree. */
  lemma SelfDiffExactly(s: Snapshot)
    ensures DiffEvents(s, s) == [] <==> Consistent(s)
  {
    if Consistent(s) {
      EmptyExactly(s, s);
    }
    if DiffEvents(s, s) == [] {
      forall i | 0 <= i < |s.jobs| { SilentJobs(s, i); }
      forall i | 0 <= i < |s.printers| { SilentPrinters(s, i); }
    }
  }

  // ---- One event a key ----

  ghost predicate DistinctKeys(es: seq<PrinterEvent>) {
    && (forall e | e in es :: Incremental(e))
    && (forall i, j | 0 <= i < j < |es| :: KeyOf(es[i]) != KeyOf(es[j]))
  }

  lemma DistinctAppend(es: seq<PrinterEvent>, fs: seq<PrinterEvent>)
    requires DistinctKeys(es) && DistinctKeys(fs) && KeysOf(es) !! KeysOf(fs)
    ensures DistinctKeys(es + fs)
    ensures KeysOf(es + fs) == KeysOf(es) + KeysOf(fs)
  {
    forall i, j | 0 <= i < j < |es + fs| ensures KeyOf((es + fs)[i]) != KeyOf((es + fs)[j]) {
      if i < |es| { assert KeyOf(es[i]) in KeysOf(es); }
      if j >= |es| { assert KeyOf(fs[j - |es|]) in KeysOf(fs); }
    }
  }

  lemma NewJob(xs: seq<Job>, n: nat)
    requires UniqueJobs(xs) && 0 < n <= |xs|
    ensures xs[n - 1].id !in JobMap(xs[..n - 1])
    ensures forall x :: x in JobMap(xs[..n]) <==> x == xs[n - 1].id || x in JobMap(xs[..n - 1])
  {
    assert xs[..n][..n - 1] == xs[..n - 1];
  }

  lemma JobLeavesOnce(job: Job, next: seq<Job>)
    ensures DistinctKeys(JobLeaves(job, next))
    ensures forall k | k in KeysOf(JobLeaves(job, next)) :: k == JobKey(job.id) && job.id !in JobMap(next)
  {
    FindJobIs(next, job.id);
  }

  lemma JobArrivesOnce(job: Job, before: seq<Job>)
    ensures DistinctKeys(JobArrives(job, before))
    ensures forall k | k in KeysOf(JobArrives(job, before)) :: k == JobKey(job.id)
  {
  }

  lemma {:induction false} JobsLeavingDistinct(before: seq<Job>, next: seq<Job>, n: nat)
    requires n <= |before| && UniqueJobs(before)
    ensures DistinctKeys(JobsLeaving(before, next, n))
    ensures forall k | k in KeysOf(JobsLeaving(before, next, n)) ::
              k.JobKey? && k.id in JobMap(before[..n]) && k.id !in JobMap(next)
  {
    if n > 0 {
      JobsLeavingDistinct(before, next, n - 1);
      NewJob(before, n);
      JobLeavesOnce(before[n - 1], next);
      DistinctAppend(JobsLeaving(before, next, n - 1), JobLeaves(before[n - 1], next));
    }
  }

  lemma {:induction false} JobsArrivingDistinct(before: seq<Job>, next: seq<Job>, n: nat)
    requires n <= |next| && UniqueJobs(next)
    ensures DistinctKeys(JobsArriving(before, next, n))
    ensures forall k | k in KeysOf(JobsArriving(before, next, n)) ::
              k.JobKey? && k.id in JobMap(next[..n])
  {
    if n > 0 {
      JobsArrivingDistinct(before, next, n - 1);
      NewJob(next, n);
      JobArrivesOnce(next[n - 1], before);
      DistinctAppend(JobsArriving(before, next, n - 1), JobArrives(next[n - 1], before));
    }
  }

  lemma NewPrinter(xs: seq<Printer>, n: nat)
    requires UniquePrinters(xs) && 0 < n <= |xs|
    ensures xs[n - 1].name !in PrinterMap(xs[..n - 1])
    ensures forall x :: x in PrinterMap(xs[..n]) <==> x == xs[n - 1].name || x in PrinterMap(xs[..n - 1])
  {
    assert xs[..n][..n - 1] == xs[..n - 1];
  }

  lemma PrinterLeavesOnce(p: Printer, next: seq<Printer>)
    ensures DistinctKeys(PrinterLeaves(p, next))
    ensures forall k | k in KeysOf(PrinterLeaves(p, next)) :: k == PrinterKey(p.name) && p.name !in PrinterMap(next)
  {
    FindPrinterIs(next, p.name);
  }

  lemma PrinterArrivesOnce(p: Printer, before: seq<Printer>)
    ensures DistinctKeys(PrinterArrives(p, before))
    ensures forall k | k in KeysOf(PrinterArrives(p, before)) :: k == PrinterKey(p.name)
  {
  }

  lemma {:induction false} PrintersLeavingDistinct(before: seq<Printer>, next: seq<Printer>, n: nat)
    requires n <= |before| && UniquePrinters(before)
    ensures DistinctKeys(PrintersLeaving(before, next, n))
    ensures forall k | k in KeysOf(PrintersLeaving(before, next, n)) ::
              k.PrinterKey? && k.name in PrinterMap(before[..n]) && k.name !in PrinterMap(next)
  {
    if n > 0 {
      PrintersLeavingDistinct(before, next, n - 1);
      NewPrinter(before, n);
      PrinterLeavesOnce(before[n - 1], next);
      DistinctAppend(PrintersLeaving(before, next, n - 1), PrinterLeaves(before[n - 1], next));
    }
  }

  lemma {:induction false} PrintersArrivingDistinct(before: seq<Printer>, next: seq<Printer>, n: nat)
    requires n <= |next| && UniquePrinters(next)
    ensures DistinctKeys(PrintersArriving(before, next, n))
    ensures forall k | k in KeysOf(PrintersArriving(before, next, n)) ::
              k.PrinterKey? && k.name in PrinterMap(next[..n])
  {
    if n > 0 {
      PrintersArrivingDistinct(before, next, n - 1);
      NewPrinter(next, n);
      PrinterArrivesOnce(next[n - 1], before);
      DistinctAppend(PrintersArriving(before, next, n - 1), PrinterArrives(next[n - 1], before));
    }
  }

  /** With unique keys no key is touched twice. */
  lemma DiffDistinct(a: Snapshot, b: Snapshot)
    requires Unique(a) && Unique(b)
    ensures DistinctKeys(DiffEvents(a, b))
  {
    JobsLeavingDistinct(a.jobs, b.jobs, |a.jobs|);
    JobsArrivingDistinct(a.jobs, b.jobs, |b.jobs|);
    PrintersLeavingDistinct(a.printers, b.printers, |a.printers|);
    PrintersArrivingDistinct(a.printers, b.printers, |b.printers|);
    assert b.jobs[..|b.jobs|] == b.jobs && b.printers[..|b.printers|] == b.printers;
    var jobs := JobsLeaving(a.jobs, b.jobs, |a.jobs|);
    DistinctAppend(jobs, JobsArriving(a.jobs, b.jobs, |b.jobs|));
    jobs := jobs + JobsArriving(a.jobs, b.jobs, |b.jobs|);
    DistinctAppend(jobs, PrintersLeaving(a.printers, b.printers, |a.printers|));
    DistinctAppend(jobs + PrintersLeaving(a.printers, b.printers, |a.printers|),
                   PrintersArriving(a.printers, b.printers, |b.printers|));
  }

  lemma {:induction false} DistinctSize(es: seq<PrinterEvent>)
    requires DistinctKeys(es)
    ensures |KeysOf(es)| == |es|
  {
    if es != [] {
      var n := |es| - 1;
      DistinctSize(es[..n]);
      assert es == es[..n] + [es[n]];
      assert KeysOf(es) == KeysOf(es[..n]) + {KeyOf(es[n])};
    }
  }

  lemma DiffCounts(a: Snapshot, b: Snapshot)
    requires Unique(a) && Unique(b)
    ensures |DiffEvents(a, b)| == |Differing(View(a), View(b))|
  {
    DiffTouches(a, b);
    DiffDistinct(a, b);
    DistinctSize(DiffEvents(a, b));
  }

  /** A diff has one event for each key that differs, and no list of incremental events does it in fewer. */
  lemma Minimal(a: Snapshot, b: Snapshot, es: seq<PrinterEvent>)
    requires Unique(a) && Unique(b)
    ensures |DiffEvents(a, b)| == |Differing(View(a), View(b))|
    ensures (forall e | e in es :: Incremental(e)) && Fold(View(a), es) == View(b) ==>
              |DiffEvents(a, b)| <= |es|
  {
    DiffCounts(a, b);
    if forall e | e in es :: Incremental(e) {
      FoldReach(View(a), es);
    }
  }

  // ---- Every step along the way ----

  /** An event makes sense where it lands. */
  ghost predicate Legal(c: Consumer, e: PrinterEvent) {
    match e
    case JobAdded(job) => job.id !in c.jobs
    case JobChanged(job) => job.id in c.jobs && c.jobs[job.id] != job
    case JobRemoved(id) => id in c.jobs
    case PrinterChanged(p) => p.name in c.printers ==> c.printers[p.name] != p
    case PrinterRemoved(name) => name in c.printers
    case Resynchronised(_, _) => true
  }

  /** With unique keys every event of a diff is legal where it lands. */
  lemma LegalStep(a: Snapshot, b: Snapshot, i: nat)
    requires Unique(a) && Unique(b) && i < |DiffEvents(a, b)|
    ensures Legal(Fold(View(a), DiffEvents(a, b)[..i]), DiffEvents(a, b)[i])
  {
    hide DiffEvents, View, Fold;
    var es := DiffEvents(a, b);
    DiffTouches(a, b);
    DiffDistinct(a, b);
    assert es[i] in es;
    var k := KeyOf(es[i]);
    DiffReports(a, b, es[i]);
    FoldSettles(View(a), es[..i], View(b), k);
    assert k !in KeysOf(es[..i]);
    assert Lookup(Fold(View(a), es[..i]), k) == Lookup(View(a), k);
  }

  /** Where a key stands after the first `i` events. */
  lemma Midway(a: Snapshot, b: Snapshot, i: nat, k: Key)
    requires Consistent(a) && Consistent(b) && i <= |DiffEvents(a, b)|
    ensures Lookup(Fold(View(a), DiffEvents(a, b)[..i]), k) ==
            if k in KeysOf(DiffEvents(a, b)[..i]) then Lookup(View(b), k) else Lookup(View(a), k)
  {
    hide DiffEvents, View, Fold, Lookup;
    DiffTouches(a, b);
    FoldSettles(View(a), DiffEvents(a, b)[..i], View(b), k);
  }

  lemma PrefixHas<T>(s: seq<T>, front: seq<T>, i: nat, x: T)
    requires front <= s && |front| <= i <= |s| && x in front
    ensures x in s[..i]
  {
    assert s[..i][..|front|] == front;
  }

  lemma ConcatPrefixHas<T>(x: seq<T>, y: seq<T>, z: seq<T>, i: nat, e: T)
    requires |x + y| <= i <= |x + y + z| && e in y
    ensures e in (x + y + z)[..i]
  {
    PrefixHas(x + y + z, x + y, i, e);
  }

  lemma TouchedEarly(a: Snapshot, b: Snapshot, i: nat, id: JobId)
    requires Consistent(a) && Consistent(b) && i <= |JobsLeaving(a.jobs, b.jobs, |a.jobs|)|
    requires JobKey(id) in KeysOf(DiffEvents(a, b)[..i])
    ensures id in View(a).jobs && id !in View(b).jobs
  {
    var leaving := JobsLeaving(a.jobs, b.jobs, |a.jobs|);
    assert DiffEvents(a, b)[..i] == leaving[..i];
    var e :| e in leaving[..i] && Incremental(e) && KeyOf(e) == JobKey(id);
    assert e in leaving;
    JobsLeavingReport(a, b, e);
  }

  lemma TouchedLate(a: Snapshot, b: Snapshot, i: nat, id: JobId)
    requires |JobsLeaving(a.jobs, b.jobs, |a.jobs|)| <= i <= |DiffEvents(a, b)|
    requires id in View(a).jobs && id !in View(b).jobs
    ensures JobKey(id) in KeysOf(DiffEvents(a, b)[..i])
  {
    var leaving := JobsLeaving(a.jobs, b.jobs, |a.jobs|);
    JobsLeavingReport(a, b, JobRemoved(id));
    PrefixHas(DiffEvents(a, b), leaving, i, JobRemoved(id));
  }

  lemma JobMidway(a: Snapshot, b: Snapshot, i: nat, id: JobId)
    requires Consistent(a) && Consistent(b) && i <= |DiffEvents(a, b)|
    ensures var mid := Fold(View(a), DiffEvents(a, b)[..i]);
            var gone := |JobsLeaving(a.jobs, b.jobs, |a.jobs|)|;
            && (i <= gone && id in mid.jobs ==> id in View(a).jobs)
            && (i >= gone && id in mid.jobs ==> id in View(b).jobs)
            && (i == gone && id in View(a).jobs && id in View(b).jobs ==> id in mid.jobs)
  {
    var gone := |JobsLeaving(a.jobs, b.jobs, |a.jobs|)|;
    Midway(a, b, i, JobKey(id));
    if i <= gone && JobKey(id) in KeysOf(DiffEvents(a, b)[..i]) { TouchedEarly(a, b, i, id); }
    if i >= gone && id in View(a).jobs && id !in View(b).jobs { TouchedLate(a, b, i, id); }
  }

  /** Midway the consumer's jobs never outgrow both ends, and between the removals and the
      arrivals they are exactly the jobs that survive. */
  lemma JobsMidway(a: Snapshot, b: Snapshot, i: nat)
    requires Consistent(a) && Consistent(b) && i <= |DiffEvents(a, b)|
    ensures var mid := Fold(View(a), DiffEvents(a, b)[..i]);
            var gone := |JobsLeaving(a.jobs, b.jobs, |a.jobs|)|;
            && (i <= gone ==> mid.jobs.Keys <= View(a).jobs.Keys)
            && (i >= gone ==> mid.jobs.Keys <= View(b).jobs.Keys)
            && (i == gone ==> mid.jobs.Keys == View(a).jobs.Keys * View(b).jobs.Keys)
            && (|mid.jobs| <= |View(a).jobs| || |mid.jobs| <= |View(b).jobs|)
  {
    var c, d, mid := View(a), View(b), Fold(View(a), DiffEvents(a, b)[..i]);
    var gone := |JobsLeaving(a.jobs, b.jobs, |a.jobs|)|;
    forall id: JobId { JobMidway(a, b, i, id); }
    KeysBound(mid.jobs, if i <= gone then c.jobs else d.jobs);
  }

  /** The stretches before the printers' changes. */
  function BeforePrinterChanges(a: Snapshot, b: Snapshot): seq<PrinterEvent> {
    JobsLeaving(a.jobs, b.jobs, |a.jobs|) + JobsArriving(a.jobs, b.jobs, |b.jobs|)
    + PrintersLeaving(a.printers, b.printers, |a.printers|)
  }

  lemma PrinterTouchedEarly(a: Snapshot, b: Snapshot, i: nat, name: string)
    requires Consistent(a) && Consistent(b) && i <= |BeforePrinterChanges(a, b)|
    requires PrinterKey(name) in KeysOf(DiffEvents(a, b)[..i])
    ensures name in View(a).printers && name !in View(b).printers
  {
    assert DiffEvents(a, b)[..i] == BeforePrinterChanges(a, b)[..i];
    var e :| e in BeforePrinterChanges(a, b)[..i] && Incremental(e) && KeyOf(e) == PrinterKey(name);
    assert e in BeforePrinterChanges(a, b);
    JobsLeavingReport(a, b, e);
    JobsArrivingReport(a, b, e);
    PrintersLeavingReport(a, b, e);
  }

  lemma PrinterTouchedLate(a: Snapshot, b: Snapshot, i: nat, name: string)
    requires |BeforePrinterChanges(a, b)| <= i <= |DiffEvents(a, b)|
    requires name in View(a).printers && name !in View(b).printers
    ensures PrinterKey(name) in KeysOf(DiffEvents(a, b)[..i])
  {
    hide JobsLeaving, JobsArriving, PrintersLeaving, PrintersArriving, PrinterMap;
    PrintersLeavingReport(a, b, PrinterRemoved(name));
    var jobs := JobsLeaving(a.jobs, b.jobs, |a.jobs|) + JobsArriving(a.jobs, b.jobs, |b.jobs|);
    ConcatPrefixHas(jobs, PrintersLeaving(a.printers, b.printers, |a.printers|),
                    PrintersArriving(a.printers, b.printers, |b.printers|), i, PrinterRemoved(name));
  }

  lemma PrinterMidway(a: Snapshot, b: Snapshot, i: nat, name: string)
    requires Consistent(a) && Consistent(b) && i <= |DiffEvents(a, b)|
    ensures var mid := Fold(View(a), DiffEvents(a, b)[..i]);
            var gone := |BeforePrinterChanges(a, b)|;
            && (i <= gone && name in mid.printers ==> name in View(a).printers)
            && (i >= gone && name in mid.printers ==> name in View(b).printers)
            && (i == gone && name in View(a).printers && name in View(b).printers ==> name in mid.printers)
  {
    var gone := |BeforePrinterChanges(a, b)|;
    Midway(a, b, i, PrinterKey(name));
    if i <= gone && PrinterKey(name) in KeysOf(DiffEvents(a, b)[..i]) { PrinterTouchedEarly(a, b, i, name); }
    if i >= gone && name in View(a).printers && name !in View(b).printers { PrinterTouchedLate(a, b, i, name); }
  }

  /** The same for printers, whose removals also precede their changes. */
  lemma PrintersMidway(a: Snapshot, b: Snapshot, i: nat)
    requires Consistent(a) && Consistent(b) && i <= |DiffEvents(a, b)|
    ensures var mid := Fold(View(a), DiffEvents(a, b)[..i]);
            var gone := |BeforePrinterChanges(a, b)|;
            && (i <= gone ==> mid.printers.Keys <= View(a).printers.Keys)
            && (i >= gone ==> mid.printers.Keys <= View(b).printers.Keys)
            && (i == gone ==> mid.printers.Keys == View(a).printers.Keys * View(b).printers.Keys)
            && (|mid.printers| <= |View(a).printers| || |mid.printers| <= |View(b).printers|)
  {
    var c, d, mid := View(a), View(b), Fold(View(a), DiffEvents(a, b)[..i]);
    var gone := |BeforePrinterChanges(a, b)|;
    forall name: string { PrinterMidway(a, b, i, name); }
    KeysBound(mid.printers, if i <= gone then c.printers else d.printers);
  }

  lemma KeysBound<K, V, W>(m: map<K, V>, n: map<K, W>)
    requires m.Keys <= n.Keys
    ensures |m| <= |n|
  {
    SubsetSize(m.Keys, n.Keys);
    assert |m| == |m.Keys| && |n| == |n.Keys|;
  }

  // ---- The order a server lists things in does not matter ----

  /** What a list's entries contribute, one after another. */
  function Spread<T>(xs: seq<T>, share: T -> seq<PrinterEvent>): seq<PrinterEvent> {
    if xs == [] then [] else Spread(xs[..|xs| - 1], share) + share(xs[|xs| - 1])
  }

  lemma SpreadMore<T>(xs: seq<T>, x: T, share: T -> seq<PrinterEvent>)
    ensures Spread(xs + [x], share) == Spread(xs, share) + share(x)
  {
    assert (xs + [x])[..|xs|] == xs;
  }

  lemma {:induction false} SpreadWithout<T>(xs: seq<T>, j: nat, share: T -> seq<PrinterEvent>)
    requires j < |xs|
    ensures multiset(Spread(xs, share)) ==
            multiset(Spread(xs[..j] + xs[j + 1..], share)) + multiset(share(xs[j]))
  {
    hide Spread;
    var n := |xs| - 1;
    var front, x := xs[..n], xs[n];
    assert xs == front + [x];
    SpreadMore(front, x, share);
    if j == n {
      assert xs[..j] + xs[j + 1..] == front;
    } else {
      var rest := front[..j] + front[j + 1..];
      SpreadWithout(front, j, share);
      SpreadMore(rest, x, share);
      assert xs[..j] == front[..j] && xs[j + 1..] == front[j + 1..] + [x];
      assert xs[..j] + xs[j + 1..] == rest + [x];
    }
  }

  lemma TakenOut<T>(xs: seq<T>, j: nat)
    requires j < |xs|
    ensures multiset(xs[..j] + xs[j + 1..]) == multiset(xs) - multiset{xs[j]}
  {
    assert xs == xs[..j] + [xs[j]] + xs[j + 1..];
  }

  lemma {:induction false} SpreadPermuted<T>(xs: seq<T>, ys: seq<T>, share: T -> seq<PrinterEvent>)
    requires multiset(xs) == multiset(ys)
    ensures multiset(Spread(xs, share)) == multiset(Spread(ys, share))
  {
    if xs == [] {
      assert |multiset(ys)| == 0;
    } else {
      var n := |xs| - 1;
      assert xs[n] in multiset(ys);
      var j :| 0 <= j < |ys| && ys[j] == xs[n];
      var rest := ys[..j] + ys[j + 1..];
      TakenOut(ys, j);
      TakenOut(xs, n);
      assert xs[..n] + xs[n + 1..] == xs[..n];
      SpreadPermuted(xs[..n], rest, share);
      SpreadWithout(ys, j, share);
    }
  }

  lemma SameElements<T>(s: seq<T>, t: seq<T>)
    requires multiset(s) == multiset(t)
    ensures forall x :: x in s <==> x in t
  {
    forall x ensures x in s <==> x in t { assert x in multiset(s) <==> x in multiset(t); }
  }

  /** A list that does not contradict itself answers every lookup alike, however it is listed. */
  lemma FoundRelisted(jobs: seq<Job>, relisted: seq<Job>, id: JobId)
    requires multiset(jobs) == multiset(relisted)
    ensures FindJob(jobs, id).None? <==> FindJob(relisted, id).None?
    ensures ConsistentJobs(jobs) ==> FindJob(jobs, id) == FindJob(relisted, id)
  {
    SameElements(jobs, relisted);
    FindJobIs(jobs, id);
    FindJobIs(relisted, id);
  }

  lemma FoundPrinterRelisted(printers: seq<Printer>, relisted: seq<Printer>, name: string)
    requires multiset(printers) == multiset(relisted)
    ensures FindPrinter(printers, name).None? <==> FindPrinter(relisted, name).None?
    ensures ConsistentPrinters(printers) ==> FindPrinter(printers, name) == FindPrinter(relisted, name)
  {
    SameElements(printers, relisted);
    FindPrinterIs(printers, name);
    FindPrinterIs(relisted, name);
  }

  lemma {:induction false} JobsLeavingSpread(before: seq<Job>, next: seq<Job>, n: nat, share: Job -> seq<PrinterEvent>)
    requires n <= |before| && forall job :: share(job) == JobLeaves(job, next)
    ensures JobsLeaving(before, next, n) == Spread(before[..n], share)
  {
    if n > 0 {
      JobsLeavingSpread(before, next, n - 1, share);
      assert before[..n][..n - 1] == before[..n - 1];
    }
  }

  lemma {:induction false} JobsArrivingSpread(before: seq<Job>, next: seq<Job>, n: nat, share: Job -> seq<PrinterEvent>)
    requires n <= |next| && forall job :: share(job) == JobArrives(job, before)
    ensures JobsArriving(before, next, n) == Spread(next[..n], share)
  {
    if n > 0 {
      JobsArrivingSpread(before, next, n - 1, share);
      assert next[..n][..n - 1] == next[..n - 1];
    }
  }

  lemma {:induction false} PrintersLeavingSpread(
    before: seq<Printer>, next: seq<Printer>, n: nat, share: Printer -> seq<PrinterEvent>)
    requires n <= |before| && forall p :: share(p) == PrinterLeaves(p, next)
    ensures PrintersLeaving(before, next, n) == Spread(before[..n], share)
  {
    if n > 0 {
      PrintersLeavingSpread(before, next, n - 1, share);
      assert before[..n][..n - 1] == before[..n - 1];
    }
  }

  lemma {:induction false} PrintersArrivingSpread(
    before: seq<Printer>, next: seq<Printer>, n: nat, share: Printer -> seq<PrinterEvent>)
    requires n <= |next| && forall p :: share(p) == PrinterArrives(p, before)
    ensures PrintersArriving(before, next, n) == Spread(next[..n], share)
  {
    if n > 0 {
      PrintersArrivingSpread(before, next, n - 1, share);
      assert next[..n][..n - 1] == next[..n - 1];
    }
  }

  lemma JobsLeavingRelisted(before: seq<Job>, next: seq<Job>, before': seq<Job>, next': seq<Job>)
    requires multiset(before) == multiset(before') && multiset(next) == multiset(next')
    ensures multiset(JobsLeaving(before, next, |before|)) == multiset(JobsLeaving(before', next', |before'|))
  {
    var share := (job: Job) => JobLeaves(job, next);
    forall job: Job ensures share(job) == JobLeaves(job, next') { FoundRelisted(next, next', job.id); }
    JobsLeavingSpread(before, next, |before|, share);
    JobsLeavingSpread(before', next', |before'|, share);
    assert before[..|before|] == before && before'[..|before'|] == before';
    SpreadPermuted(before, before', share);
  }

  lemma JobArrivesAlike(job: Job, before: seq<Job>, before': seq<Job>)
    requires ConsistentJobs(before) && multiset(before) == multiset(before')
    ensures JobArrives(job, before) == JobArrives(job, before')
  {
    FoundRelisted(before, before', job.id);
  }

  lemma JobsArrivingPermuted(before: seq<Job>, next: seq<Job>, before': seq<Job>, next': seq<Job>,
                             share: Job -> seq<PrinterEvent>)
    requires multiset(next) == multiset(next')
    requires forall job :: share(job) == JobArrives(job, before)
    requires forall job :: share(job) == JobArrives(job, before')
    ensures multiset(JobsArriving(before, next, |next|)) == multiset(JobsArriving(before', next', |next'|))
  {
    JobsArrivingSpread(before, next, |next|, share);
    JobsArrivingSpread(before', next', |next'|, share);
    assert next[..|next|] == next && next'[..|next'|] == next';
    SpreadPermuted(next, next', share);
  }

  lemma JobsArrivingRelisted(before: seq<Job>, next: seq<Job>, before': seq<Job>, next': seq<Job>)
    requires ConsistentJobs(before) && multiset(before) == multiset(before') && multiset(next) == multiset(next')
    ensures multiset(JobsArriving(before, next, |next|)) == multiset(JobsArriving(before', next', |next'|))
  {
    var share := (job: Job) => JobArrives(job, before);
    forall job: Job ensures share(job) == JobArrives(job, before') { JobArrivesAlike(job, before, before'); }
    JobsArrivingPermuted(before, next, before', next', share);
  }

  lemma PrintersLeavingRelisted(before: seq<Printer>, next: seq<Printer>, before': seq<Printer>, next': seq<Printer>)
    requires multiset(before) == multiset(before') && multiset(next) == multiset(next')
    ensures multiset(PrintersLeaving(before, next, |before|)) == multiset(PrintersLeaving(before', next', |before'|))
  {
    var share := (p: Printer) => PrinterLeaves(p, next);
    forall p: Printer ensures share(p) == PrinterLeaves(p, next') { FoundPrinterRelisted(next, next', p.name); }
    PrintersLeavingSpread(before, next, |before|, share);
    PrintersLeavingSpread(before', next', |before'|, share);
    assert before[..|before|] == before && before'[..|before'|] == before';
    SpreadPermuted(before, before', share);
  }

  lemma PrinterArrivesAlike(p: Printer, before: seq<Printer>, before': seq<Printer>)
    requires ConsistentPrinters(before) && multiset(before) == multiset(before')
    ensures PrinterArrives(p, before) == PrinterArrives(p, before')
  {
    FoundPrinterRelisted(before, before', p.name);
  }

  lemma PrintersArrivingPermuted(before: seq<Printer>, next: seq<Printer>, before': seq<Printer>, next': seq<Printer>,
                             share: Printer -> seq<PrinterEvent>)
    requires multiset(next) == multiset(next')
    requires forall p :: share(p) == PrinterArrives(p, before)
    requires forall p :: share(p) == PrinterArrives(p, before')
    ensures multiset(PrintersArriving(before, next, |next|)) == multiset(PrintersArriving(before', next', |next'|))
  {
    PrintersArrivingSpread(before, next, |next|, share);
    PrintersArrivingSpread(before', next', |next'|, share);
    assert next[..|next|] == next && next'[..|next'|] == next';
    SpreadPermuted(next, next', share);
  }

  lemma PrintersArrivingRelisted(before: seq<Printer>, next: seq<Printer>, before': seq<Printer>, next': seq<Printer>)
    requires ConsistentPrinters(before) && multiset(before) == multiset(before') && multiset(next) == multiset(next')
    ensures multiset(PrintersArriving(before, next, |next|)) == multiset(PrintersArriving(before', next', |next'|))
  {
    var share := (p: Printer) => PrinterArrives(p, before);
    forall p: Printer ensures share(p) == PrinterArrives(p, before') { PrinterArrivesAlike(p, before, before'); }
    PrintersArrivingPermuted(before, next, before', next', share);
  }

  /** Relisting either snapshot only reorders the diff, provided the old one does not contradict itself;
      the new one may. */
  lemma OrderInsensitive(a: Snapshot, b: Snapshot, a': Snapshot, b': Snapshot)
    requires Consistent(a)
    requires multiset(a.jobs) == multiset(a'.jobs) && multiset(a.printers) == multiset(a'.printers)
    requires multiset(b.jobs) == multiset(b'.jobs) && multiset(b.printers) == multiset(b'.printers)
    ensures multiset(DiffEvents(a, b)) == multiset(DiffEvents(a', b'))
  {
    JobsLeavingRelisted(a.jobs, b.jobs, a'.jobs, b'.jobs);
    JobsArrivingRelisted(a.jobs, b.jobs, a'.jobs, b'.jobs);
    PrintersLeavingRelisted(a.printers, b.printers, a'.printers, b'.printers);
    PrintersArrivingRelisted(a.printers, b.printers, a'.printers, b'.printers);
  }
}
