/** A consumer of the event stream: the applet's own picture of the print system. */
module Consumers {
  import opened Wrappers
  import opened Snapshots

  datatype Consumer = Consumer(jobs: map<JobId, Job>, printers: map<string, Printer>)

  /** Filing a list under its keys; a later entry replaces an earlier one. */
  function JobMap(jobs: seq<Job>): (m: map<JobId, Job>)
    ensures forall j | j in jobs :: j.id in m
    ensures forall id | id in m :: m[id] in jobs && m[id].id == id
  {
    if jobs == [] then map[]
    else
      var last := jobs[|jobs| - 1];
      JobMap(jobs[..|jobs| - 1])[last.id := last]
  }

  function PrinterMap(printers: seq<Printer>): (m: map<string, Printer>)
    ensures forall p | p in printers :: p.name in m
    ensures forall n | n in m :: m[n] in printers && m[n].name == n
  {
    if printers == [] then map[]
    else
      var last := printers[|printers| - 1];
      PrinterMap(printers[..|printers| - 1])[last.name := last]
  }

  /** The picture a consumer holds right after reloading this snapshot. */
  function View(s: Snapshot): Consumer {
    Consumer(JobMap(s.jobs), PrinterMap(s.printers))
  }

  function Apply(c: Consumer, e: PrinterEvent): Consumer {
    match e
    case JobAdded(job) => c.(jobs := c.jobs[job.id := job])
    case JobChanged(job) => c.(jobs := c.jobs[job.id := job])
    case JobRemoved(id) => c.(jobs := c.jobs - {id})
    case PrinterChanged(printer) => c.(printers := c.printers[printer.name := printer])
    case PrinterRemoved(name) => c.(printers := c.printers - {name})
    case Resynchronised(printers, jobs) => View(Snapshot(printers, jobs))
  }

  function Fold(c: Consumer, es: seq<PrinterEvent>): Consumer {
    if es == [] then c else Apply(Fold(c, es[..|es| - 1]), es[|es| - 1])
  }

  // ---- One key at a time: jobs and printers looked at through the same glass ----

  datatype Key = JobKey(id: JobId) | PrinterKey(name: string)
  datatype Entry = JobEntry(job: Job) | PrinterEntry(printer: Printer)

  function Lookup(c: Consumer, k: Key): Option<Entry> {
    match k
    case JobKey(id) => if id in c.jobs then Some(JobEntry(c.jobs[id])) else None
    case PrinterKey(name) => if name in c.printers then Some(PrinterEntry(c.printers[name])) else None
  }

  function Keys(c: Consumer): set<Key> {
    (set id | id in c.jobs :: JobKey(id)) + (set name | name in c.printers :: PrinterKey(name))
  }

  /** The keys on which two pictures disagree. */
  function Differing(c: Consumer, d: Consumer): set<Key> {
    set k | k in Keys(c) + Keys(d) && Lookup(c, k) != Lookup(d, k)
  }

  predicate Incremental(e: PrinterEvent) { !e.Resynchronised? }

  /** The one key an incremental event touches, and what it leaves there. */
  function KeyOf(e: PrinterEvent): Key
    requires Incremental(e)
  {
    match e
    case JobAdded(job) => JobKey(job.id)
    case JobChanged(job) => JobKey(job.id)
    case JobRemoved(id) => JobKey(id)
    case PrinterChanged(printer) => PrinterKey(printer.name)
    case PrinterRemoved(name) => PrinterKey(name)
  }

  function Leaves(e: PrinterEvent): Option<Entry>
    requires Incremental(e)
  {
    match e
    case JobAdded(job) => Some(JobEntry(job))
    case JobChanged(job) => Some(JobEntry(job))
    case PrinterChanged(printer) => Some(PrinterEntry(printer))
    case JobRemoved(_) => None
    case PrinterRemoved(_) => None
  }

  function KeysOf(es: seq<PrinterEvent>): set<Key> {
    set e | e in es && Incremental(e) :: KeyOf(e)
  }

  /** Every event leaves at its key what `target` holds there. */
  ghost predicate Toward(es: seq<PrinterEvent>, target: Consumer) {
    forall e | e in es :: Incremental(e) && Leaves(e) == Lookup(target, KeyOf(e))
  }

  lemma SameEverywhere(c: Consumer, d: Consumer)
    requires forall k :: Lookup(c, k) == Lookup(d, k)
    ensures c == d
  {
    forall id: JobId ensures (id in c.jobs <==> id in d.jobs) && (id in c.jobs ==> c.jobs[id] == d.jobs[id]) {
      assert Lookup(c, JobKey(id)) == Lookup(d, JobKey(id));
    }
    forall n: string
      ensures (n in c.printers <==> n in d.printers) && (n in c.printers ==> c.printers[n] == d.printers[n])
    {
      assert Lookup(c, PrinterKey(n)) == Lookup(d, PrinterKey(n));
    }
    assert c.jobs == d.jobs && c.printers == d.printers;
  }

  lemma {:induction false} FoldAppend(c: Consumer, es: seq<PrinterEvent>, fs: seq<PrinterEvent>)
    ensures Fold(c, es + fs) == Fold(Fold(c, es), fs)
    decreases |fs|
  {
    if fs == [] {
      assert es + fs == es;
    } else {
      var n := |fs| - 1;
      assert (es + fs)[..|es + fs| - 1] == es + fs[..n];
      FoldAppend(c, es, fs[..n]);
    }
  }

  /** Folding events toward a target settles exactly the keys they touch. */
  lemma {:induction false} FoldSettles(c: Consumer, es: seq<PrinterEvent>, target: Consumer, k: Key)
    requires Toward(es, target)
    ensures Lookup(Fold(c, es), k) == if k in KeysOf(es) then Lookup(target, k) else Lookup(c, k)
  {
    hide Apply, Lookup;
    if es != [] {
      var n := |es| - 1;
      var e := es[n];
      assert es == es[..n] + [e];
      FoldSettles(c, es[..n], target, k);
      ApplyAt(Fold(c, es[..n]), e, k);
      assert KeysOf(es) == KeysOf(es[..n]) + {KeyOf(e)};
    }
  }

  /** One incremental event moves a picture on at most one key, so n events on at most n. */
  lemma {:induction false} FoldReach(c: Consumer, es: seq<PrinterEvent>)
    requires forall e | e in es :: Incremental(e)
    ensures |Differing(c, Fold(c, es))| <= |es|
  {
    if es == [] {
      assert Differing(c, c) == {};
    } else {
      var n := |es| - 1;
      var d := Fold(c, es[..n]);
      FoldReach(c, es[..n]);
      assert Differing(c, Fold(c, es)) <= Differing(c, d) + {KeyOf(es[n])} by {
        forall k | k in Differing(c, Fold(c, es)) && k != KeyOf(es[n]) ensures k in Differing(c, d) {
          ApplyAt(d, es[n], k);
          InKeys(c, k);
          InKeys(d, k);
        }
      }
      SubsetSize(Differing(c, Fold(c, es)), Differing(c, d) + {KeyOf(es[n])});
    }
  }

  lemma ApplyAt(c: Consumer, e: PrinterEvent, k: Key)
    requires Incremental(e)
    ensures Lookup(Apply(c, e), k) == if k == KeyOf(e) then Leaves(e) else Lookup(c, k)
  {
  }

  lemma InKeys(c: Consumer, k: Key)
    ensures k in Keys(c) <==> Lookup(c, k).Some?
  {
  }

  lemma {:induction false} SubsetSize<T>(small: set<T>, big: set<T>)
    requires small <= big
    ensures |small| <= |big|
  {
    assert big == small + (big - small);
  }
}
