/** What the diff does when a server lists one key twice, which nothing in the code rules out. */
module Duplicates {
  import opened Wrappers
  import opened Snapshots
  import opened Consumers
  import opened DiffLaws

  /** The last of the first `n` listed jobs that the second loop reports under this id. */
  function JobNews(before: seq<Job>, next: seq<Job>, n: nat, id: JobId): Option<Job>
    requires n <= |next|
  {
    if n == 0 then None
    else if next[n - 1].id == id && JobArrives(next[n - 1], before) != [] then Some(next[n - 1])
    else JobNews(before, next, n - 1, id)
  }

  function PrinterNews(before: seq<Printer>, next: seq<Printer>, n: nat, name: string): Option<Printer>
    requires n <= |next|
  {
    if n == 0 then None
    else if next[n - 1].name == name && PrinterArrives(next[n - 1], before) != [] then Some(next[n - 1])
    else PrinterNews(before, next, n - 1, name)
  }

  /** The diff compares with the first old entry while the picture holds the last one, so an id is
      followed faithfully unless its last new entry equals its first old one while the last old entry
      of that id, or some new one, differs from it. */
  ghost predicate JobFollowed(before: seq<Job>, next: seq<Job>, id: JobId)
    requires id in JobMap(next)
  {
    FindJob(before, id) == Some(JobMap(next)[id]) ==>
      && (forall j | j in next && j.id == id :: j == JobMap(next)[id])
      && id in JobMap(before) && JobMap(before)[id] == JobMap(next)[id]
  }

  ghost predicate PrinterFollowed(before: seq<Printer>, next: seq<Printer>, name: string)
    requires name in PrinterMap(next)
  {
    FindPrinter(before, name) == Some(PrinterMap(next)[name]) ==>
      && (forall p | p in next && p.name == name :: p == PrinterMap(next)[name])
      && name in PrinterMap(before) && PrinterMap(before)[name] == PrinterMap(next)[name]
  }

  ghost predicate Followed(a: Snapshot, b: Snapshot) {
    && (forall id | id in JobMap(b.jobs) :: JobFollowed(a.jobs, b.jobs, id))
    && (forall name | name in PrinterMap(b.printers) :: PrinterFollowed(a.printers, b.printers, name))
  }

  lemma {:induction false} JobNewsIs(before: seq<Job>, next: seq<Job>, n: nat, id: JobId)
    requires n <= |next|
    ensures JobNews(before, next, n, id).None? <==>
            forall i | 0 <= i < n && next[i].id == id :: FindJob(before, id) == Some(next[i])
    ensures JobNews(before, next, n, id).Some? ==> FindJob(before, id) != JobNews(before, next, n, id)
  {
    if n > 0 { JobNewsIs(before, next, n - 1, id); }
  }

  lemma {:induction false} JobNewsLast(before: seq<Job>, next: seq<Job>, id: JobId)
    requires id in JobMap(next) && FindJob(before, id) != Some(JobMap(next)[id])
    ensures JobNews(before, next, |next|, id) == Some(JobMap(next)[id])
  {
    var n := |next| - 1;
    if next[n].id != id {
      JobNewsLast(before, next[..n], id);
      JobNewsPrefix(before, next, n, id);
    }
  }

  lemma {:induction false} JobNewsPrefix(before: seq<Job>, next: seq<Job>, n: nat, id: JobId)
    requires n < |next|
    ensures JobNews(before, next, n, id) == JobNews(before, next[..|next| - 1], n, id)
  {
    if n > 0 { JobNewsPrefix(before, next, n - 1, id); }
  }

  lemma {:induction false} PrinterNewsIs(before: seq<Printer>, next: seq<Printer>, n: nat, name: string)
    requires n <= |next|
    ensures PrinterNews(before, next, n, name).None? <==>
            forall i | 0 <= i < n && next[i].name == name :: FindPrinter(before, name) == Some(next[i])
    ensures PrinterNews(before, next, n, name).Some? ==> FindPrinter(before, name) != PrinterNews(before, next, n, name)
  {
    if n > 0 { PrinterNewsIs(before, next, n - 1, name); }
  }

  lemma {:induction false} PrinterNewsLast(before: seq<Printer>, next: seq<Printer>, name: string)
    requires name in PrinterMap(next) && FindPrinter(before, name) != Some(PrinterMap(next)[name])
    ensures PrinterNews(before, next, |next|, name) == Some(PrinterMap(next)[name])
  {
    var n := |next| - 1;
    if next[n].name != name {
      PrinterNewsLast(before, next[..n], name);
      PrinterNewsPrefix(before, next, n, name);
    }
  }

  lemma {:induction false} PrinterNewsPrefix(before: seq<Printer>, next: seq<Printer>, n: nat, name: string)
    requires n < |next|
    ensures PrinterNews(before, next, n, name) == PrinterNews(before, next[..|next| - 1], n, name)
  {
    if n > 0 { PrinterNewsPrefix(before, next, n - 1, name); }
  }

  /** At most one event, and if there is one it files `entry` under `key`. */
  ghost predicate Files(fs: seq<PrinterEvent>, key: Key, entry: Entry) {
    |fs| <= 1 && forall e | e in fs :: Incremental(e) && KeyOf(e) == key && Leaves(e) == Some(entry)
  }

  lemma JobArrivesIs(job: Job, before: seq<Job>)
    ensures Files(JobArrives(job, before), JobKey(job.id), JobEntry(job))
  {
  }

  lemma PrinterArrivesIs(p: Printer, before: seq<Printer>)
    ensures Files(PrinterArrives(p, before), PrinterKey(p.name), PrinterEntry(p))
  {
  }

  lemma FoldOne(c: Consumer, es: seq<PrinterEvent>, fs: seq<PrinterEvent>, key: Key, entry: Entry, k: Key)
    requires Files(fs, key, entry)
    ensures Lookup(Fold(c, es + fs), k) == if fs != [] && k == key then Some(entry) else Lookup(Fold(c, es), k)
  {
    if fs == [] {
      assert es + fs == es;
    } else {
      var all := es + fs;
      assert all[..|all| - 1] == es && all[|all| - 1] == fs[0];
      assert fs[0] in fs;
      ApplyAt(Fold(c, es), fs[0], k);
    }
  }

  lemma JobArrivesAt(c: Consumer, es: seq<PrinterEvent>, job: Job, before: seq<Job>, k: Key)
    ensures Lookup(Fold(c, es + JobArrives(job, before)), k) ==
            if JobArrives(job, before) != [] && k == JobKey(job.id) then Some(JobEntry(job)) else Lookup(Fold(c, es), k)
  {
    JobArrivesIs(job, before);
    FoldOne(c, es, JobArrives(job, before), JobKey(job.id), JobEntry(job), k);
  }

  lemma PrinterArrivesAt(c: Consumer, es: seq<PrinterEvent>, p: Printer, before: seq<Printer>, k: Key)
    ensures Lookup(Fold(c, es + PrinterArrives(p, before)), k) ==
            if PrinterArrives(p, before) != [] && k == PrinterKey(p.name) then Some(PrinterEntry(p))
            else Lookup(Fold(c, es), k)
  {
    PrinterArrivesIs(p, before);
    FoldOne(c, es, PrinterArrives(p, before), PrinterKey(p.name), PrinterEntry(p), k);
  }

  /** Where a key stands after the first `n` rounds of the second loop for jobs. */
  function JobsArrived(c: Consumer, before: seq<Job>, next: seq<Job>, n: nat, k: Key): Option<Entry>
    requires n <= |next|
  {
    Lookup(Fold(c, JobsArriving(before, next, n)), k)
  }

  lemma JobsArriveOne(c: Consumer, before: seq<Job>, next: seq<Job>, n: nat, k: Key)
    requires 0 < n <= |next|
    ensures JobsArrived(c, before, next, n, k) ==
            if JobArrives(next[n - 1], before) != [] && k == JobKey(next[n - 1].id)
            then Some(JobEntry(next[n - 1]))
            else JobsArrived(c, before, next, n - 1, k)
  {
    JobArrivesAt(c, JobsArriving(before, next, n - 1), next[n - 1], before, k);
  }

  function JobStands(before: seq<Job>, next: seq<Job>, n: nat, k: Key, otherwise: Option<Entry>)
    : Option<Entry>
    requires n <= |next|
  {
    if k.JobKey? && JobNews(before, next, n, k.id).Some?
    then Some(JobEntry(JobNews(before, next, n, k.id).value))
    else otherwise
  }

  lemma JobStandsOne(before: seq<Job>, next: seq<Job>, n: nat, k: Key, otherwise: Option<Entry>)
    requires 0 < n <= |next|
    ensures JobStands(before, next, n, k, otherwise) ==
            if JobArrives(next[n - 1], before) != [] && k == JobKey(next[n - 1].id)
            then Some(JobEntry(next[n - 1]))
            else JobStands(before, next, n - 1, k, otherwise)
  {
  }

  lemma JobsArriveNone(c: Consumer, before: seq<Job>, next: seq<Job>, k: Key)
    ensures JobsArrived(c, before, next, 0, k) == JobStands(before, next, 0, k, Lookup(c, k))
  {
  }

  lemma {:induction false} JobsArrive(c: Consumer, before: seq<Job>, next: seq<Job>, n: nat, k: Key)
    requires n <= |next|
    ensures JobsArrived(c, before, next, n, k) == JobStands(before, next, n, k, Lookup(c, k))
    decreases n
  {
    hide JobsArrived, JobStands, JobArrives;
    if n == 0 {
      JobsArriveNone(c, before, next, k);
    } else {
      JobsArrive(c, before, next, n - 1, k);
      JobsArriveOne(c, before, next, n, k);
      JobStandsOne(before, next, n, k, Lookup(c, k));
    }
  }

  /** Where a key stands after the first `n` rounds of the second loop for printers. */
  function PrintersArrived(c: Consumer, before: seq<Printer>, next: seq<Printer>, n: nat, k: Key): Option<Entry>
    requires n <= |next|
  {
    Lookup(Fold(c, PrintersArriving(before, next, n)), k)
  }

  lemma PrintersArriveOne(c: Consumer, before: seq<Printer>, next: seq<Printer>, n: nat, k: Key)
    requires 0 < n <= |next|
    ensures PrintersArrived(c, before, next, n, k) ==
            if PrinterArrives(next[n - 1], before) != [] && k == PrinterKey(next[n - 1].name)
            then Some(PrinterEntry(next[n - 1]))
            else PrintersArrived(c, before, next, n - 1, k)
  {
    PrinterArrivesAt(c, PrintersArriving(before, next, n - 1), next[n - 1], before, k);
  }

  function PrinterStands(before: seq<Printer>, next: seq<Printer>, n: nat, k: Key, otherwise: Option<Entry>)
    : Option<Entry>
    requires n <= |next|
  {
    if k.PrinterKey? && PrinterNews(before, next, n, k.name).Some?
    then Some(PrinterEntry(PrinterNews(before, next, n, k.name).value))
    else otherwise
  }

  lemma PrinterStandsOne(before: seq<Printer>, next: seq<Printer>, n: nat, k: Key, otherwise: Option<Entry>)
    requires 0 < n <= |next|
    ensures PrinterStands(before, next, n, k, otherwise) ==
            if PrinterArrives(next[n - 1], before) != [] && k == PrinterKey(next[n - 1].name)
            then Some(PrinterEntry(next[n - 1]))
            else PrinterStands(before, next, n - 1, k, otherwise)
  {
  }

  lemma PrintersArriveNone(c: Consumer, before: seq<Printer>, next: seq<Printer>, k: Key)
    ensures PrintersArrived(c, before, next, 0, k) == PrinterStands(before, next, 0, k, Lookup(c, k))
  {
  }

  lemma {:induction false} PrintersArrive(c: Consumer, before: seq<Printer>, next: seq<Printer>, n: nat, k: Key)
    requires n <= |next|
    ensures PrintersArrived(c, before, next, n, k) == PrinterStands(before, next, n, k, Lookup(c, k))
    decreases n
  {
    hide PrintersArrived, PrinterStands, PrinterArrives;
    if n == 0 {
      PrintersArriveNone(c, before, next, k);
    } else {
      PrintersArrive(c, before, next, n - 1, k);
      PrintersArriveOne(c, before, next, n, k);
      PrinterStandsOne(before, next, n, k, Lookup(c, k));
    }
  }

  lemma JobRemovalIn(a: Snapshot, b: Snapshot, e: PrinterEvent)
    ensures e in JobsLeaving(a.jobs, b.jobs, |a.jobs|) <==>
            e.JobRemoved? && e.id in JobMap(a.jobs) && e.id !in JobMap(b.jobs)
  {
    hide JobsLeaving, JobMap;
    JobsLeavingReport(a, b, e);
  }

  lemma PrinterRemovalIn(a: Snapshot, b: Snapshot, e: PrinterEvent)
    ensures e in PrintersLeaving(a.printers, b.printers, |a.printers|) <==>
            e.PrinterRemoved? && e.name in PrinterMap(a.printers) && e.name !in PrinterMap(b.printers)
  {
    hide PrintersLeaving, PrinterMap;
    PrintersLeavingReport(a, b, e);
  }

  function JobGone(a: Snapshot, b: Snapshot, k: Key, otherwise: Option<Entry>): Option<Entry> {
    if k.JobKey? && k.id in JobMap(a.jobs) && k.id !in JobMap(b.jobs) then None else otherwise
  }

  lemma JobsLeave(c: Consumer, a: Snapshot, b: Snapshot, k: Key)
    ensures Lookup(Fold(c, JobsLeaving(a.jobs, b.jobs, |a.jobs|)), k) ==
            JobGone(a, b, k, Lookup(c, k))
  {
    var removal := if k.JobKey? then JobRemoved(k.id) else PrinterRemoved(k.name);
    forall e { JobRemovalIn(a, b, e); }
    RemovalsSettle(c, JobsLeaving(a.jobs, b.jobs, |a.jobs|), View(b), k, removal);
  }

  function PrinterGone(a: Snapshot, b: Snapshot, k: Key, otherwise: Option<Entry>): Option<Entry> {
    if k.PrinterKey? && k.name in PrinterMap(a.printers) && k.name !in PrinterMap(b.printers) then None else otherwise
  }

  lemma PrintersLeave(c: Consumer, a: Snapshot, b: Snapshot, k: Key)
    ensures Lookup(Fold(c, PrintersLeaving(a.printers, b.printers, |a.printers|)), k) ==
            PrinterGone(a, b, k, Lookup(c, k))
  {
    var removal := if k.JobKey? then JobRemoved(k.id) else PrinterRemoved(k.name);
    forall e { PrinterRemovalIn(a, b, e); }
    RemovalsSettle(c, PrintersLeaving(a.printers, b.printers, |a.printers|), View(b), k, removal);
  }

  lemma RemovalsSettle(c: Consumer, es: seq<PrinterEvent>, d: Consumer, k: Key, removal: PrinterEvent)
    requires forall e | e in es :: (e.JobRemoved? || e.PrinterRemoved?) && Lookup(d, KeyOf(e)) == None
    requires (removal.JobRemoved? || removal.PrinterRemoved?) && KeyOf(removal) == k
    ensures Lookup(Fold(c, es), k) == if removal in es then None else Lookup(c, k)
  {
    FoldSettles(c, es, d, k);
  }

  /** Where one key stands after the whole diff, duplicates or not. */
  function EntryAfter(a: Snapshot, b: Snapshot, k: Key): Option<Entry> {
    match k
    case JobKey(id) =>
      var news := JobNews(a.jobs, b.jobs, |b.jobs|, id);
      if news.Some? then Some(JobEntry(news.value))
      else if id in JobMap(a.jobs) && id !in JobMap(b.jobs) then None else Lookup(View(a), k)
    case PrinterKey(name) =>
      var news := PrinterNews(a.printers, b.printers, |b.printers|, name);
      if news.Some? then Some(PrinterEntry(news.value))
      else if name in PrinterMap(a.printers) && name !in PrinterMap(b.printers) then None else Lookup(View(a), k)
  }

  lemma FoldFour(c: Consumer, l: seq<PrinterEvent>, r: seq<PrinterEvent>, p: seq<PrinterEvent>, q: seq<PrinterEvent>)
    ensures Fold(c, l + r + p + q) == Fold(Fold(Fold(Fold(c, l), r), p), q)
  {
    FoldAppend(c, l, r);
    FoldAppend(c, l + r, p);
    FoldAppend(c, l + r + p, q);
  }

  lemma EntryAfterInTurn(a: Snapshot, b: Snapshot, k: Key)
    ensures var left := JobGone(a, b, k, Lookup(View(a), k));
            var arrived := JobStands(a.jobs, b.jobs, |b.jobs|, k, left);
            EntryAfter(a, b, k) == PrinterStands(a.printers, b.printers, |b.printers|, k, PrinterGone(a, b, k, arrived))
  {
  }

  lemma EntryAfterDiff(a: Snapshot, b: Snapshot, k: Key)
    ensures Lookup(Fold(View(a), DiffEvents(a, b)), k) == EntryAfter(a, b, k)
  {
    var l, r := JobsLeaving(a.jobs, b.jobs, |a.jobs|), JobsArriving(a.jobs, b.jobs, |b.jobs|);
    var p, q := PrintersLeaving(a.printers, b.printers, |a.printers|),
      PrintersArriving(a.printers, b.printers, |b.printers|);
    var c1 := Fold(View(a), l);
    var c2 := Fold(c1, r);
    var c3 := Fold(c2, p);
    FoldFour(View(a), l, r, p, q);
    JobsLeave(View(a), a, b, k);
    JobsArrive(c1, a.jobs, b.jobs, |b.jobs|, k);
    PrintersLeave(c2, a, b, k);
    PrintersArrive(c3, a.printers, b.printers, |b.printers|, k);
    EntryAfterInTurn(a, b, k);
  }

  lemma JobEntryAfter(a: Snapshot, b: Snapshot, id: JobId)
    ensures EntryAfter(a, b, JobKey(id)) == Lookup(View(b), JobKey(id)) <==>
            (id in JobMap(b.jobs) ==> JobFollowed(a.jobs, b.jobs, id))
  {
    hide FindJob, JobMap, JobNews;
    JobNewsIs(a.jobs, b.jobs, |b.jobs|, id);
    FindJobIs(a.jobs, id);
    if id in JobMap(b.jobs) && FindJob(a.jobs, id) != Some(JobMap(b.jobs)[id]) {
      JobNewsLast(a.jobs, b.jobs, id);
    }
  }

  lemma PrinterEntryAfter(a: Snapshot, b: Snapshot, name: string)
    ensures EntryAfter(a, b, PrinterKey(name)) == Lookup(View(b), PrinterKey(name)) <==>
            (name in PrinterMap(b.printers) ==> PrinterFollowed(a.printers, b.printers, name))
  {
    hide FindPrinter, PrinterMap, PrinterNews;
    PrinterNewsIs(a.printers, b.printers, |b.printers|, name);
    FindPrinterIs(a.printers, name);
    if name in PrinterMap(b.printers) && FindPrinter(a.printers, name) != Some(PrinterMap(b.printers)[name]) {
      PrinterNewsLast(a.printers, b.printers, name);
    }
  }

  lemma EntryAfterExactly(a: Snapshot, b: Snapshot, k: Key)
    ensures Lookup(Fold(View(a), DiffEvents(a, b)), k) == Lookup(View(b), k) <==>
            match k
            case JobKey(id) => id in JobMap(b.jobs) ==> JobFollowed(a.jobs, b.jobs, id)
            case PrinterKey(name) => name in PrinterMap(b.printers) ==> PrinterFollowed(a.printers, b.printers, name)
  {
    EntryAfterDiff(a, b, k);
    match k
    case JobKey(id) => JobEntryAfter(a, b, id);
    case PrinterKey(name) => PrinterEntryAfter(a, b, name);
  }

  /** For any two snapshots at all, replaying the diff works exactly when every new key is followed. */
  lemma ReplayExactly(a: Snapshot, b: Snapshot)
    ensures Fold(View(a), DiffEvents(a, b)) == View(b) <==> Followed(a, b)
  {
    if Followed(a, b) {
      FollowedReplays(a, b);
    }
    if Fold(View(a), DiffEvents(a, b)) == View(b) {
      forall id | id in JobMap(b.jobs) ensures JobFollowed(a.jobs, b.jobs, id) {
        EntryAfterExactly(a, b, JobKey(id));
      }
      forall name | name in PrinterMap(b.printers) ensures PrinterFollowed(a.printers, b.printers, name) {
        EntryAfterExactly(a, b, PrinterKey(name));
      }
    }
  }

  lemma FollowedReplays(a: Snapshot, b: Snapshot)
    requires Followed(a, b)
    ensures Fold(View(a), DiffEvents(a, b)) == View(b)
  {
    var c := Fold(View(a), DiffEvents(a, b));
    forall k ensures Lookup(c, k) == Lookup(View(b), k) { EntryAfterExactly(a, b, k); }
    SameEverywhere(c, View(b));
  }

  /** A queue listed twice, then listed the other way round, leaves the consumer behind. */
  lemma ReplayCanFail()
    ensures var held, printing := Job(1, "held"), Job(1, "printing");
            var a, b := Snapshot([], [held, printing]), Snapshot([], [printing, held]);
            Fold(View(a), DiffEvents(a, b)) != View(b)
  {
    var held, printing := Job(1, "held"), Job(1, "printing");
    var a, b := Snapshot([], [held, printing]), Snapshot([], [printing, held]);
    ReplayExactly(a, b);
    assert b.jobs[..1] == [printing] && JobMap(b.jobs)[1] == held;
    assert FindJob(a.jobs, 1) == Some(held);
    assert !JobFollowed(a.jobs, b.jobs, 1) by { assert printing in b.jobs && held != printing; }
  }
}
