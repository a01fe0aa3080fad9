/** Every event of a diff, told entry by entry for any two snapshots, duplicates and all. */
module DiffEntries {
  import opened Wrappers
  import opened Snapshots

  predicate Increasing(at: seq<nat>) {
    forall i, j | 0 <= i < j < |at| :: at[i] < at[j]
  }

  lemma IncreasingMore(at: seq<nat>, n: nat)
    requires Increasing(at) && forall k | k in at :: k < n
    ensures Increasing(at + [n])
  {
    assert forall i | 0 <= i < |at| :: at[i] in at;
  }

  predicate FirstJobAt(jobs: seq<Job>, id: JobId, k: nat) {
    k < |jobs| && jobs[k].id == id && forall i | 0 <= i < k :: jobs[i].id != id
  }

  /** Searching finds the first entry of its key, if there is one. */
  lemma {:induction false} FindJobExactly(jobs: seq<Job>, id: JobId)
    ensures FindJob(jobs, id).Some? <==> exists k: nat :: FirstJobAt(jobs, id, k)
    ensures forall k: nat | FirstJobAt(jobs, id, k) :: FindJob(jobs, id) == Some(jobs[k])
  {
    if jobs != [] {
      var rest := jobs[1..];
      FindJobExactly(rest, id);
      if jobs[0].id == id {
        assert FirstJobAt(jobs, id, 0);
      } else {
        forall k: nat | FirstJobAt(jobs, id, k) ensures FindJob(jobs, id) == Some(jobs[k]) {
          assert FirstJobAt(rest, id, k - 1);
        }
        if k: nat :| FirstJobAt(rest, id, k) { assert FirstJobAt(jobs, id, k + 1); }
      }
    }
  }

  predicate FirstPrinterAt(printers: seq<Printer>, name: string, k: nat) {
    k < |printers| && printers[k].name == name && forall i | 0 <= i < k :: printers[i].name != name
  }

  /** Searching finds the first entry of its key, if there is one. */
  lemma {:induction false} FindPrinterExactly(printers: seq<Printer>, name: string)
    ensures FindPrinter(printers, name).Some? <==> exists k: nat :: FirstPrinterAt(printers, name, k)
    ensures forall k: nat | FirstPrinterAt(printers, name, k) :: FindPrinter(printers, name) == Some(printers[k])
  {
    if printers != [] {
      var rest := printers[1..];
      FindPrinterExactly(rest, name);
      if printers[0].name == name {
        assert FirstPrinterAt(printers, name, 0);
      } else {
        forall k: nat | FirstPrinterAt(printers, name, k) ensures FindPrinter(printers, name) == Some(printers[k]) {
          assert FirstPrinterAt(rest, name, k - 1);
        }
        if k: nat :| FirstPrinterAt(rest, name, k) { assert FirstPrinterAt(printers, name, k + 1); }
      }
    }
  }

  predicate JobGoes(a: Snapshot, b: Snapshot, k: nat)
    requires k < |a.jobs|
  {
    FindJob(b.jobs, a.jobs[k].id).None?
  }

  predicate JobComes(a: Snapshot, b: Snapshot, k: nat)
    requires k < |b.jobs|
  {
    FindJob(a.jobs, b.jobs[k].id) != Some(b.jobs[k])
  }

  function JobNewsOf(a: Snapshot, b: Snapshot, k: nat): PrinterEvent
    requires k < |b.jobs|
  {
    if FindJob(a.jobs, b.jobs[k].id).None? then JobAdded(b.jobs[k]) else JobChanged(b.jobs[k])
  }

  predicate PrinterGoes(a: Snapshot, b: Snapshot, k: nat)
    requires k < |a.printers|
  {
    FindPrinter(b.printers, a.printers[k].name).None?
  }

  predicate PrinterComes(a: Snapshot, b: Snapshot, k: nat)
    requires k < |b.printers|
  {
    FindPrinter(a.printers, b.printers[k].name) != Some(b.printers[k])
  }

  lemma {:induction false} JobsThatGo(a: Snapshot, b: Snapshot, n: nat) returns (at: seq<nat>)
    requires n <= |a.jobs|
    ensures Increasing(at) && forall k: nat :: k in at <==> k < n && JobGoes(a, b, k)
    ensures var es := JobsLeaving(a.jobs, b.jobs, n);
            |es| == |at| && forall i | 0 <= i < |at| :: at[i] < n && es[i] == JobRemoved(a.jobs[at[i]].id)
    decreases n
  {
    if n == 0 {
      at := [];
    } else {
      at := JobsThatGo(a, b, n - 1);
      if JobGoes(a, b, n - 1) {
        IncreasingMore(at, n - 1);
        at := at + [n - 1];
      }
    }
  }

  lemma {:induction false} JobsThatCome(a: Snapshot, b: Snapshot, n: nat) returns (at: seq<nat>)
    requires n <= |b.jobs|
    ensures Increasing(at) && forall k: nat :: k in at <==> k < n && JobComes(a, b, k)
    ensures var es := JobsArriving(a.jobs, b.jobs, n);
            |es| == |at| && forall i | 0 <= i < |at| :: at[i] < n && es[i] == JobNewsOf(a, b, at[i])
    decreases n
  {
    if n == 0 {
      at := [];
    } else {
      at := JobsThatCome(a, b, n - 1);
      if JobComes(a, b, n - 1) {
        IncreasingMore(at, n - 1);
        at := at + [n - 1];
      }
    }
  }

  lemma {:induction false} PrintersThatGo(a: Snapshot, b: Snapshot, n: nat) returns (at: seq<nat>)
    requires n <= |a.printers|
    ensures Increasing(at) && forall k: nat :: k in at <==> k < n && PrinterGoes(a, b, k)
    ensures var es := PrintersLeaving(a.printers, b.printers, n);
            |es| == |at| && forall i | 0 <= i < |at| :: at[i] < n && es[i] == PrinterRemoved(a.printers[at[i]].name)
    decreases n
  {
    if n == 0 {
      at := [];
    } else {
      at := PrintersThatGo(a, b, n - 1);
      if PrinterGoes(a, b, n - 1) {
        IncreasingMore(at, n - 1);
        at := at + [n - 1];
      }
    }
  }

  lemma {:induction false} PrintersThatCome(a: Snapshot, b: Snapshot, n: nat) returns (at: seq<nat>)
    requires n <= |b.printers|
    ensures Increasing(at) && forall k: nat :: k in at <==> k < n && PrinterComes(a, b, k)
    ensures var es := PrintersArriving(a.printers, b.printers, n);
            |es| == |at| && forall i | 0 <= i < |at| :: at[i] < n && es[i] == PrinterChanged(b.printers[at[i]])
    decreases n
  {
    if n == 0 {
      at := [];
    } else {
      at := PrintersThatCome(a, b, n - 1);
      if PrinterComes(a, b, n - 1) {
        IncreasingMore(at, n - 1);
        at := at + [n - 1];
      }
    }
  }

  /** For any two snapshots: one removal for each old job whose id is not found among the new, in their
      order; then one event for each new job that is not the one found under its id, an addition if none
      is; then the same for printers, whose changes and additions are one. */
  lemma DiffEntryByEntry(a: Snapshot, b: Snapshot) returns (l: seq<nat>, r: seq<nat>, p: seq<nat>, q: seq<nat>)
    ensures Increasing(l) && forall k: nat :: k in l <==> k < |a.jobs| && JobGoes(a, b, k)
    ensures Increasing(r) && forall k: nat :: k in r <==> k < |b.jobs| && JobComes(a, b, k)
    ensures Increasing(p) && forall k: nat :: k in p <==> k < |a.printers| && PrinterGoes(a, b, k)
    ensures Increasing(q) && forall k: nat :: k in q <==> k < |b.printers| && PrinterComes(a, b, k)
    ensures var es := DiffEvents(a, b);
            && |es| == |l| + |r| + |p| + |q|
            && (forall i | 0 <= i < |l| :: l[i] < |a.jobs| && es[i] == JobRemoved(a.jobs[l[i]].id))
            && (forall i | 0 <= i < |r| :: r[i] < |b.jobs| && es[|l| + i] == JobNewsOf(a, b, r[i]))
            && (forall i | 0 <= i < |p| ::
                  p[i] < |a.printers| && es[|l| + |r| + i] == PrinterRemoved(a.printers[p[i]].name))
            && (forall i | 0 <= i < |q| ::
                  q[i] < |b.printers| && es[|l| + |r| + |p| + i] == PrinterChanged(b.printers[q[i]]))
  {
    hide JobGoes, JobComes, PrinterGoes, PrinterComes, JobNewsOf, JobsLeaving, JobsArriving, PrintersLeaving,
         PrintersArriving;
    l := JobsThatGo(a, b, |a.jobs|);
    r := JobsThatCome(a, b, |b.jobs|);
    p := PrintersThatGo(a, b, |a.printers|);
    q := PrintersThatCome(a, b, |b.printers|);
  }
}
