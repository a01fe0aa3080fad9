/** What a poll makes of a server's replies, and a lookup of its sources, told from the replies and the
    sources themselves (client.rs). */
module Replies {
  import opened Wrappers
  import opened Errors
  import opened Snapshots
  import opened Clients

  // ---- Which groups are kept ----

  /** The places of the groups that decode. */
  function Decodable<T>(groups: seq<Result<T, Error>>): (at: seq<nat>)
    ensures forall k | k in at :: k < |groups| && groups[k].Ok?
    ensures forall k | 0 <= k < |groups| && groups[k].Ok? :: k in at
    ensures forall i, j | 0 <= i < j < |at| :: at[i] < at[j]
  {
    if groups == [] then []
    else
      var n := |groups| - 1;
      var at := Decodable(groups[..n]);
      assert forall i | 0 <= i < |at| :: at[i] in at;
      if groups[n].Ok? then at + [n] else at
  }

  lemma {:induction false} JobsAppend(x: seq<Result<Job, Error>>, y: seq<Result<Job, Error>>)
    ensures DecodeJobs(x + y) == DecodeJobs(x) + DecodeJobs(y)
  {
    if x == [] {
      assert x + y == y;
    } else {
      JobsAppend(x[1..], y);
      assert (x + y)[1..] == x[1..] + y;
    }
  }

  lemma {:induction false} PrintersAppend(
    x: seq<Result<Printer, Error>>, y: seq<Result<Printer, Error>>, default: Option<string>)
    ensures DecodePrinters(x + y, default) == DecodePrinters(x, default) + DecodePrinters(y, default)
  {
    if x == [] {
      assert x + y == y;
    } else {
      PrintersAppend(x[1..], y, default);
      assert (x + y)[1..] == x[1..] + y;
    }
  }

  /** The jobs listed are those of the groups that decode, each once and in the order of the reply. */
  lemma {:induction false} JobsKept(groups: seq<Result<Job, Error>>)
    ensures var at, jobs := Decodable(groups), DecodeJobs(groups);
            |jobs| == |at| && forall i | 0 <= i < |at| :: at[i] < |groups| && groups[at[i]] == Ok(jobs[i])
  {
    if groups != [] {
      var n := |groups| - 1;
      var front, last := groups[..n], [groups[n]];
      JobsKept(front);
      JobsAppend(front, last);
      assert groups == front + last && last[1..] == [];
    }
  }

  function Marked(p: Printer, default: Option<string>): Printer {
    p.(isDefault := default == Some(p.name))
  }

  /** So are the printers, each marked if it is the default and only then. */
  lemma {:induction false} PrintersKept(groups: seq<Result<Printer, Error>>, default: Option<string>)
    ensures var at, printers := Decodable(groups), DecodePrinters(groups, default);
            && |printers| == |at|
            && forall i | 0 <= i < |at| ::
                 at[i] < |groups| && groups[at[i]].Ok? && printers[i] == Marked(groups[at[i]].value, default)
  {
    if groups != [] {
      var n := |groups| - 1;
      var front, last := groups[..n], [groups[n]];
      PrintersKept(front, default);
      PrintersAppend(front, last, default);
      assert groups == front + last && last[1..] == [];
    }
  }

  /** A poll fails exactly when a reply does, with the printers' error before the jobs'. */
  lemma FailsExactly(w: World, default: Option<string>)
    ensures var r := Observe(w, default);
            && (r.Err? <==> w.printers.Err? || w.jobs.Err?)
            && (w.printers.Err? ==> r == Err(w.printers.error))
            && (w.printers.Ok? && w.jobs.Err? ==> r == Err(w.jobs.error))
  {
  }

  /** A job is reported exactly when some group of the reply decodes to it. */
  lemma JobReportedExactly(w: World, default: Option<string>, job: Job)
    requires w.printers.Ok? && w.jobs.Ok?
    ensures job in Observe(w, default).value.jobs <==> Ok(job) in w.jobs.value
  {
    var groups := w.jobs.value;
    var at, jobs := Decodable(groups), DecodeJobs(groups);
    JobsKept(groups);
    if Ok(job) in groups {
      var k :| 0 <= k < |groups| && groups[k] == Ok(job);
      assert k in at;
    }
  }

  /** A printer is reported exactly when some group decodes to it but for its mark, which says whether
      it is the default. */
  lemma PrinterReportedExactly(w: World, default: Option<string>, p: Printer)
    requires w.printers.Ok? && w.jobs.Ok?
    ensures p in Observe(w, default).value.printers <==>
            exists q :: Ok(q) in w.printers.value && p == Marked(q, default)
  {
    var groups := w.printers.value;
    var at, printers := Decodable(groups), DecodePrinters(groups, default);
    PrintersKept(groups, default);
    if p in printers {
      var i :| 0 <= i < |printers| && printers[i] == p;
      assert groups[at[i]] == Ok(groups[at[i]].value);
      assert groups[at[i]] in groups;
    }
    if q :| Ok(q) in groups && p == Marked(q, default) {
      var k :| 0 <= k < |groups| && groups[k] == Ok(q);
      assert k in at;
    }
  }

  // ---- What a lookup comes to ----

  /** The server's answer is of no account exactly when the files name a printer. */
  lemma FilesWinExactly(chosen: Option<string>)
    ensures (forall x, y :: Resolve(Sources(chosen, x)) == Resolve(Sources(chosen, y))) <==> chosen.Some?
  {
    if chosen.None? {
      assert Resolve(Sources(chosen, Ok(Some("a")))) != Resolve(Sources(chosen, Ok(None)));
    }
  }

  /** A name is resolved exactly when the files hold it, or hold none and the server names it. */
  lemma ResolvesExactly(s: Sources, name: string)
    ensures Resolve(s) == Some(name) <==> s.chosen == Some(name) || (s.chosen.None? && s.server == Ok(Some(name)))
  {
  }
}
