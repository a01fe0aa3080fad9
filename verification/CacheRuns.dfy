/** Where the marks of a run's snapshots come from: the default-printer cache over many polls, first
    with others using the same client at will, then with the stream as its only user. */
module CacheRuns {
  import opened Wrappers
  import opened Errors
  import opened Snapshots
  import opened Consumers
  import opened DiffLaws
  import opened Clients
  import opened EventStreams
  import opened RunLaws
  import LpOptions
  import RunSteps

  predicate Failed(w: World) {
    w.printers.Err? || w.jobs.Err?
  }

  // ---- Marking the default ----

  /** Which printers are reported does not depend on the default; only their mark does. */
  lemma {:induction false} Marking(groups: seq<Result<Printer, Error>>, default: Option<string>)
    ensures var plain, marked := DecodePrinters(groups, None), DecodePrinters(groups, default);
            && |marked| == |plain|
            && forall i | 0 <= i < |plain| ::
                 marked[i] == plain[i].(isDefault := default == Some(plain[i].name))
  {
    if groups != [] { Marking(groups[1..], default); }
  }

  /** With unique names at most one printer is the default, and there is one exactly when the
      default gone by is among them. */
  lemma AtMostOneDefault(groups: seq<Result<Printer, Error>>, default: Option<string>)
    requires UniquePrinters(DecodePrinters(groups, default))
    ensures var ps := DecodePrinters(groups, default);
            && (forall i, j | 0 <= i < |ps| && 0 <= j < |ps| && ps[i].isDefault && ps[j].isDefault :: i == j)
            && ((exists p :: p in ps && p.isDefault) <==>
                (default.Some? && exists p :: p in ps && p.name == default.value))
  {
    Marking(groups, default);
    var ps := DecodePrinters(groups, default);
    assert forall p | p in ps :: p.isDefault <==> default == Some(p.name);
  }

  // ---- Whatever others do to the cache ----

  /** The default printer a run's last poll goes by. */
  function NameUsed(cache: Cache, ws: seq<World>): Option<string>
    requires ws != []
  {
    var t := Polled(cache, ws[..|ws| - 1]);
    Told(t.cache, Empties(t.outcomes), ws[|ws| - 1])
  }

  /** Every poll comes to what its own replies say, marked by the name it goes by; so whether it fails
      is decided by its replies alone. */
  lemma {:induction false} OutcomeFollows(cache: Cache, ws: seq<World>, i: nat)
    requires i < |ws|
    ensures var os := Polled(cache, ws).outcomes;
            && |os| == |ws|
            && os[i] == Observe(ws[i], NameUsed(cache, ws[..i + 1]))
            && (os[i].Err? <==> Failed(ws[i]))
  {
    var n := |ws| - 1;
    OneOutcomeAPoll(cache, ws);
    OneOutcomeAPoll(cache, ws[..n]);
    if i == n {
      assert ws[..n + 1] == ws;
    } else {
      OutcomeFollows(cache, ws[..n], i);
      assert ws[..n][..i + 1] == ws[..i + 1];
    }
  }

  lemma {:induction false} OneOutcomeAPoll(cache: Cache, ws: seq<World>)
    ensures |Polled(cache, ws).outcomes| == |ws|
  {
    if ws != [] { OneOutcomeAPoll(cache, ws[..|ws| - 1]); }
  }

  /** Where the last poll's segment began: at the first poll, or right after a failure. A failing poll
      ends the segment it falls in. */
  function SegmentStart(ws: seq<World>): (i: nat)
    requires ws != []
    ensures i < |ws|
  {
    var n := |ws| - 1;
    if n == 0 || Failed(ws[n - 1]) then n else SegmentStart(ws[..n])
  }

  lemma EmptiesAtSegmentStart(cache: Cache, ws: seq<World>)
    requires ws != []
    ensures Empties(Polled(cache, ws[..|ws| - 1]).outcomes) <==> SegmentStart(ws) == |ws| - 1
  {
    var n := |ws| - 1;
    if n == 0 {
      assert ws[..n] == [];
    } else {
      OutcomeFollows(cache, ws[..n], n - 1);
    }
  }

  /** Whether poll `j` found nothing cached and so looked the default printer up. */
  predicate LooksUp(cache: Cache, ws: seq<World>, j: nat)
    requires j < |ws|
  {
    var t := Polled(cache, ws[..j]);
    Found(t.cache, Empties(t.outcomes), ws[j]).None?
  }

  /** Poll `j` looked this name up, or others left it in the cache for it or a later one to find. */
  predicate Gave(cache: Cache, ws: seq<World>, j: nat, name: Option<string>)
    requires j < |ws|
  {
    || (LooksUp(cache, ws, j) && Resolve(ws[j].sources) == name)
    || ws[j].before == Left(Some(name))
    || (j < |ws| - 1 && ws[j].after == Left(Some(name)))
  }

  /** Whatever others do, no poll goes by a name from before its segment: it was looked up by a poll of
      the segment or put there by others since. What the cache held at first never counts. */
  lemma {:induction false} NamesAreRecent(cache: Cache, ws: seq<World>)
    requires ws != []
    ensures exists j :: SegmentStart(ws) <= j < |ws| && Gave(cache, ws, j, NameUsed(cache, ws))
  {
    hide Resolve, Observe;
    var n := |ws| - 1;
    var name := NameUsed(cache, ws);
    EmptiesAtSegmentStart(cache, ws);
    if SegmentStart(ws) == n || ws[n].before.Left? {
      assert Gave(cache, ws, n, name);
    } else {
      var front := ws[..n];
      NamesAreRecent(cache, front);
      var j :| SegmentStart(front) <= j < |front| && Gave(cache, front, j, NameUsed(cache, front));
      assert Polled(cache, front).cache == Disturbed(Some(NameUsed(cache, front)), front[n - 1].after);
      if ws[n - 1].after.Left? {
        assert Gave(cache, ws, n, name) || Gave(cache, ws, n - 1, name);
      } else {
        assert front[..j] == ws[..j];
        assert Gave(cache, ws, j, name);
      }
    }
  }

  /** A poll that looks up goes by what the files name, whatever the server says, and by the server's
      readable answer only if they name nothing. */
  lemma LookupGoesBy(cache: Cache, ws: seq<World>)
    requires ws != [] && LooksUp(cache, ws, |ws| - 1)
    ensures var sources, name := ws[|ws| - 1].sources, NameUsed(cache, ws);
            && (sources.chosen.Some? ==> name == sources.chosen)
            && (sources.chosen.None? && sources.server.Ok? ==> name == sources.server.value)
            && (sources.chosen.None? && sources.server.Err? ==> name == None)
  {
  }

  /** So it goes by the destination of the user's own file if that names one. */
  lemma OwnFileRules(cache: Cache, ws: seq<World>, user: string, system: Option<string>)
    requires ws != [] && LooksUp(cache, ws, |ws| - 1)
    requires ws[|ws| - 1].sources.chosen == LpOptions.DefaultPrinterFrom(Some(user), system)
    requires LpOptions.ParseDefault(user).Some?
    ensures NameUsed(cache, ws) == LpOptions.ParseDefault(user)
  {
    LpOptions.FilesInOrder(Some(user), system);
    LookupGoesBy(cache, ws);
  }

  /** A successful poll whose lists do not contradict themselves. */
  ghost predicate WellKeyed(w: World) {
    !Failed(w) ==>
      ConsistentPrinters(DecodePrinters(w.printers.value, None)) && ConsistentJobs(DecodeJobs(w.jobs.value))
  }

  /** A successful poll that lists each job and each printer once. */
  ghost predicate ListsOnce(w: World) {
    !Failed(w) ==> UniquePrinters(DecodePrinters(w.printers.value, None)) && UniqueJobs(DecodeJobs(w.jobs.value))
  }

  lemma Observed(w: World, name: Option<string>)
    requires !Failed(w)
    ensures WellKeyed(w) ==> Consistent(Observe(w, name).value)
    ensures ListsOnce(w) ==> Unique(Observe(w, name).value)
  {
    Marking(w.printers.value, name);
  }

  /** The stream of `events` itself, over replies that do not contradict themselves and with the cache
      in anybody's hands: a consumer that follows it holds the last successful poll's picture. */
  lemma EventsAgree(cache: Cache, ws: seq<World>, c: Consumer)
    requires forall w | w in ws :: WellKeyed(w)
    ensures var os := Polled(cache, ws).outcomes; Consume(c, Run(os).items) == Owed(c, os)
  {
    var os := Polled(cache, ws).outcomes;
    OneOutcomeAPoll(cache, ws);
    forall o | o in os && o.Ok? ensures Consistent(o.value) {
      var i :| 0 <= i < |os| && os[i] == o;
      assert ws[i] in ws;
      OutcomeFollows(cache, ws, i);
      Observed(ws[i], NameUsed(cache, ws[..i + 1]));
    }
    Agreement(os, c);
  }

  /** And over replies that list nothing twice, each of its events makes sense where it lands. */
  lemma EventsLegal(cache: Cache, ws: seq<World>, c: Consumer)
    requires forall w | w in ws :: ListsOnce(w)
    ensures RunSteps.LegalFrom(c, Run(Polled(cache, ws).outcomes).items)
  {
    var os := Polled(cache, ws).outcomes;
    OneOutcomeAPoll(cache, ws);
    forall o | o in os && o.Ok? ensures Unique(o.value) {
      var i :| 0 <= i < |os| && os[i] == o;
      assert ws[i] in ws;
      OutcomeFollows(cache, ws, i);
      Observed(ws[i], NameUsed(cache, ws[..i + 1]));
    }
    RunSteps.RunLegal(os, c);
  }

  // ---- A mark that moves between two polls ----

  lemma Filed(ps: seq<Printer>, i: nat)
    requires UniquePrinters(ps) && i < |ps|
    ensures ps[i].name in PrinterMap(ps) && PrinterMap(ps)[ps[i].name] == ps[i]
  {
    assert ps[i] in ps;
    var j :| 0 <= j < |ps| && ps[j] == PrinterMap(ps)[ps[i].name];
    assert j == i || j < i || i < j;
  }

  lemma MarkedUnique(groups: seq<Result<Printer, Error>>, x: Option<string>)
    requires UniquePrinters(DecodePrinters(groups, None))
    ensures UniquePrinters(DecodePrinters(groups, x)) && |DecodePrinters(groups, x)| == |DecodePrinters(groups, None)|
  {
    Marking(groups, x);
  }

  lemma MarkedFiles(groups: seq<Result<Printer, Error>>, x: Option<string>, y: Option<string>, p: Printer)
    requires UniquePrinters(DecodePrinters(groups, None)) && p in DecodePrinters(groups, y)
    ensures var c, d := PrinterMap(DecodePrinters(groups, x)), PrinterMap(DecodePrinters(groups, y));
            && p.name in d && d[p.name] == p
            && p.name in c && c[p.name] == p.(isDefault := x == Some(p.name))
    ensures p.isDefault <==> y == Some(p.name)
  {
    var a, b := DecodePrinters(groups, x), DecodePrinters(groups, y);
    MarkedUnique(groups, x);
    MarkedUnique(groups, y);
    var i :| 0 <= i < |b| && b[i] == p;
    MarkedAt(groups, x, i);
    MarkedAt(groups, y, i);
    Filed(a, i);
    Filed(b, i);
  }

  lemma MarkedAt(groups: seq<Result<Printer, Error>>, x: Option<string>, i: nat)
    requires i < |DecodePrinters(groups, x)|
    ensures var plain, marked := DecodePrinters(groups, None), DecodePrinters(groups, x);
            |plain| == |marked| && marked[i] == plain[i].(isDefault := x == Some(plain[i].name))
  {
    Marking(groups, x);
  }

  lemma SameNames(groups: seq<Result<Printer, Error>>, x: Option<string>, y: Option<string>, name: string)
    ensures name in PrinterMap(DecodePrinters(groups, x)) ==> name in PrinterMap(DecodePrinters(groups, y))
  {
    Marking(groups, x);
    Marking(groups, y);
    var a, b := DecodePrinters(groups, x), DecodePrinters(groups, y);
    if name in PrinterMap(a) {
      var i :| 0 <= i < |a| && a[i] == PrinterMap(a)[name];
      assert b[i] in b && b[i].name == name;
    }
  }

  function KeyOfName(name: Option<string>): set<Key> {
    if name.Some? then {PrinterKey(name.value)} else {}
  }

  lemma MarksOnly(w: World, x: Option<string>, y: Option<string>)
    requires !Failed(w) && ListsOnce(w)
    ensures Differing(View(Observe(w, x).value), View(Observe(w, y).value)) <= KeyOfName(x) + KeyOfName(y)
  {
    var a, b := Observe(w, x).value, Observe(w, y).value;
    forall k | k in Differing(View(a), View(b)) ensures k in KeyOfName(x) + KeyOfName(y) {
      InKeys(View(a), k);
      InKeys(View(b), k);
      assert k.PrinterKey?;
      SameNames(w.printers.value, x, y, k.name);
      SameNames(w.printers.value, y, x, k.name);
      MarkedFiles(w.printers.value, x, y, PrinterMap(b.printers)[k.name]);
    }
  }

  lemma ChangeReports(a: Snapshot, b: Snapshot, p: Printer)
    ensures Reports(View(a), View(b), PrinterChanged(p)) <==>
            var c, d := PrinterMap(a.printers), PrinterMap(b.printers);
            p.name in d && d[p.name] == p && !(p.name in c && c[p.name] == p)
  {
  }

  lemma MarkReports(w: World, x: Option<string>, y: Option<string>, p: Printer)
    requires !Failed(w) && ListsOnce(w)
    ensures var a, b := Observe(w, x).value, Observe(w, y).value;
            Reports(View(a), View(b), PrinterChanged(p)) <==>
            p in b.printers && (x == Some(p.name)) != (y == Some(p.name))
  {
    var a, b := Observe(w, x).value, Observe(w, y).value;
    ChangeReports(a, b, p);
    if p in b.printers {
      MarkedFiles(w.printers.value, x, y, p);
    }
  }

  lemma NothingElseReports(w: World, x: Option<string>, y: Option<string>, e: PrinterEvent)
    requires !Failed(w) && !e.PrinterChanged?
    ensures !Reports(View(Observe(w, x).value), View(Observe(w, y).value), e)
  {
    if e.PrinterRemoved? {
      SameNames(w.printers.value, x, y, e.name);
    }
  }

  /** Two polls with the same replies and different defaults differ in their marks and nothing else:
      the diff changes exactly the printers that gained or lost the mark. */
  lemma MovedMark(w: World, x: Option<string>, y: Option<string>, e: PrinterEvent)
    requires !Failed(w) && ListsOnce(w)
    ensures var a, b := Observe(w, x).value, Observe(w, y).value;
            e in DiffEvents(a, b) <==>
            e.PrinterChanged? && e.printer in b.printers && (x == Some(e.printer.name)) != (y == Some(e.printer.name))
  {
    Observed(w, x);
    Observed(w, y);
    DiffReports(Observe(w, x).value, Observe(w, y).value, e);
    if e.PrinterChanged? {
      MarkReports(w, x, y, e.printer);
    } else {
      NothingElseReports(w, x, y, e);
    }
  }

  /** So it has at most two events: one for the printer that lost the mark, one for its heir. */
  lemma MovedMarkTwice(w: World, x: Option<string>, y: Option<string>)
    requires !Failed(w) && ListsOnce(w)
    ensures |DiffEvents(Observe(w, x).value, Observe(w, y).value)| <= 2
  {
    var a, b := Observe(w, x).value, Observe(w, y).value;
    Observed(w, x);
    Observed(w, y);
    Minimal(a, b, []);
    MarksOnly(w, x, y);
    SubsetSize(Differing(View(a), View(b)), KeyOfName(x) + KeyOfName(y));
  }

  const PAIR: seq<Result<Printer, Error>> := [Ok(Printer("a", false, "")), Ok(Printer("b", false, ""))]

  lemma PairDecoded(default: Option<string>)
    ensures DecodePrinters(PAIR, default) ==
            [Printer("a", default == Some("a"), ""), Printer("b", default == Some("b"), "")]
  {
    var a, b := Printer("a", false, ""), Printer("b", false, "");
    var rest: seq<Result<Printer, Error>> := [Ok(b)];
    assert PAIR[0] == Ok(a) && PAIR[1..] == rest;
    assert DecodePrinters(rest, default) ==
           [b.(isDefault := default == Some("b"))] + DecodePrinters(rest[1..], default);
    assert DecodePrinters(PAIR, default) ==
           [a.(isDefault := default == Some("a"))] + DecodePrinters(rest, default);
  }

  lemma PairDiffers(w: World)
    requires w.printers == Ok(PAIR) && w.jobs == Ok([])
    ensures var es := DiffEvents(Observe(w, Some("a")).value, Observe(w, Some("b")).value);
            PrinterChanged(Printer("a", false, "")) in es && PrinterChanged(Printer("b", true, "")) in es
  {
    PairDecoded(None);
    PairDecoded(Some("b"));
    var ps := DecodePrinters(PAIR, Some("b"));
    assert ps == [Printer("a", false, ""), Printer("b", true, "")];
    MovedMark(w, Some("a"), Some("b"), PrinterChanged(ps[0]));
    MovedMark(w, Some("a"), Some("b"), PrinterChanged(ps[1]));
  }

  lemma TwoPolls(u: World, w: World)
    requires !Failed(u)
    ensures var x := Told(None, true, u);
            var y := Told(Disturbed(Some(x), u.after), false, w);
            Polled(None, [u, w]).outcomes == [Observe(u, x), Observe(w, y)]
  {
    var x := Told(None, true, u);
    assert [u, w][..1] == [u] && [u][..0] == [];
    assert Polled(None, [u]).outcomes == [Observe(u, x)] && Polled(None, [u]).cache == Disturbed(Some(x), u.after);
  }

  /** It happens: others may replace the cached default between two polls that see the same replies. */
  lemma MarkCanMove()
    ensures var w := World(Sources(Some("a"), Ok(None)), Ok(PAIR), Ok([]), Untouched, Left(Some(Some("b"))));
            var x, y := Observe(w, Some("a")), Observe(w, Some("b"));
            && Polled(None, [w, w]).outcomes == [x, y]
            && PrinterChanged(Printer("a", false, "")) in DiffEvents(x.value, y.value)
            && PrinterChanged(Printer("b", true, "")) in DiffEvents(x.value, y.value)
  {
    var w := World(Sources(Some("a"), Ok(None)), Ok(PAIR), Ok([]), Untouched, Left(Some(Some("b"))));
    var x, y := Observe(w, Some("a")), Observe(w, Some("b"));
    hide Observe, DiffEvents, Polled;
    TwoPolls(w, w);
    PairDiffers(w);
  }

  // ---- Marks as a fresh lookup would set them ----

  predicate Lists(w: World, name: Option<string>) {
    !Failed(w) && exists p | p in DecodePrinters(w.printers.value, None) :: Some(p.name) == name
  }

  /** Two defaults mark a listing alike exactly when they are one, or it lists neither. */
  lemma SameMarksExactly(w: World, x: Option<string>, y: Option<string>)
    requires !Failed(w)
    ensures Observe(w, x) == Observe(w, y) <==> x == y || (!Lists(w, x) && !Lists(w, y))
  {
    var plain := DecodePrinters(w.printers.value, None);
    var a, b := Observe(w, x).value.printers, Observe(w, y).value.printers;
    Marking(w.printers.value, x);
    Marking(w.printers.value, y);
    if Lists(w, x) && x != y {
      var i :| 0 <= i < |plain| && Some(plain[i].name) == x;
      assert a[i].isDefault && !b[i].isDefault;
    } else if Lists(w, y) && x != y {
      var i :| 0 <= i < |plain| && Some(plain[i].name) == y;
      assert b[i].isDefault && !a[i].isDefault;
    } else if x != y {
      assert forall i | 0 <= i < |plain| :: plain[i] in plain;
      assert a == b;
    }
  }

  /** Whatever others do, a successful poll comes to what a lookup of its own would have marked exactly
      when it goes by the name that would have found, or its reply lists neither. */
  lemma UpToDateExactly(cache: Cache, ws: seq<World>)
    requires ws != [] && !Failed(ws[|ws| - 1])
    ensures var w, os := ws[|ws| - 1], Polled(cache, ws).outcomes;
            var name, anew := NameUsed(cache, ws), Resolve(w.sources);
            && os != []
            && (os[|os| - 1] == Observe(w, anew) <==> name == anew || (!Lists(w, name) && !Lists(w, anew)))
  {
    var n := |ws| - 1;
    OutcomeFollows(cache, ws, n);
    assert ws[..n + 1] == ws;
    SameMarksExactly(ws[n], NameUsed(cache, ws), Resolve(ws[n].sources));
  }

  // ---- The stream as its client's only user ----

  predicate Undisturbed(ws: seq<World>) {
    forall w | w in ws :: w.before == Untouched && w.after == Untouched
  }

  /** The default printer resolved when the last poll's segment began. */
  function DefaultInForce(ws: seq<World>): Option<string>
    requires ws != []
  {
    Resolve(ws[SegmentStart(ws)].sources)
  }

  /** With nobody else at the cache, every poll goes by the default resolved when its segment began,
      and leaves it cached. */
  lemma {:induction false} OneDefaultASegment(cache: Cache, ws: seq<World>)
    requires Undisturbed(ws) && ws != []
    ensures NameUsed(cache, ws) == DefaultInForce(ws)
    ensures Polled(cache, ws).cache == Some(DefaultInForce(ws))
  {
    var n := |ws| - 1;
    assert ws[n] in ws;
    EmptiesAtSegmentStart(cache, ws);
    if SegmentStart(ws) < n {
      OneDefaultASegment(cache, ws[..n]);
    }
  }

  function Segments(ws: seq<World>): nat {
    if ws == [] then 0
    else Segments(ws[..|ws| - 1]) + if SegmentStart(ws) == |ws| - 1 then 1 else 0
  }

  /** So the default printer is looked up once a segment, whatever the cache held before. */
  lemma {:induction false} LookupsCounted(cache: Cache, ws: seq<World>)
    requires Undisturbed(ws)
    ensures Polled(cache, ws).lookups == Segments(ws)
  {
    if ws != [] {
      var n := |ws| - 1;
      assert ws[n] in ws;
      LookupsCounted(cache, ws[..n]);
      EmptiesAtSegmentStart(cache, ws);
      if SegmentStart(ws) < n {
        OneDefaultASegment(cache, ws[..n]);
      }
    }
  }

  predicate Unmarked(item: Item) {
    match item
    case Event(PrinterChanged(p)) => !p.isDefault
    case Event(Resynchronised(ps, _)) => forall p | p in ps :: !p.isDefault
    case _ => true
  }

  lemma ChangedIsListed(a: Snapshot, b: Snapshot, e: PrinterEvent)
    requires e in DiffEvents(a, b)
    ensures Incremental(e) && (e.PrinterChanged? ==> e.printer in b.printers)
  {
    DiffIncremental(a, b, e);
    if e.PrinterChanged? {
      JobsLeavingHas(a.jobs, b.jobs, |a.jobs|, e);
      JobsArrivingHas(a.jobs, b.jobs, |b.jobs|, e);
      PrintersLeavingHas(a.printers, b.printers, |a.printers|, e);
      PrintersArrivingHas(a.printers, b.printers, |b.printers|, e);
    }
  }

  lemma AnnouncesUnmarked(previous: Option<Snapshot>, now: Snapshot)
    requires forall p | p in now.printers :: !p.isDefault
    ensures forall item | item in Announce(previous, now) :: Unmarked(item)
  {
    if previous.Some? {
      var es := DiffEvents(previous.value, now);
      forall item | item in Said(es) ensures Unmarked(item) {
        var i :| 0 <= i < |es| && Said(es)[i] == item;
        ChangedIsListed(previous.value, now, es[i]);
      }
    }
  }

  lemma {:induction false} SegmentPrefix(ws: seq<World>, n: nat)
    requires ws != [] && SegmentStart(ws) <= n < |ws|
    ensures SegmentStart(ws[..n + 1]) == SegmentStart(ws)
    ensures n < |ws| - 1 ==> !Failed(ws[n])
  {
    if n == |ws| - 1 {
      assert ws[..n + 1] == ws;
    } else {
      SegmentPrefix(ws[..|ws| - 1], n);
      assert ws[..|ws| - 1][..n + 1] == ws[..n + 1];
    }
  }

  lemma PollUnmarked(cache: Cache, ws: seq<World>)
    requires ws != [] && !Failed(ws[|ws| - 1]) && NameUsed(cache, ws) == None
    ensures var os := Polled(cache, ws).outcomes;
            && os != [] && LastSeen(os).Some? && (forall p | p in LastSeen(os).value.printers :: !p.isDefault)
            && forall item | item in LastItems(os) :: Unmarked(item)
  {
    var n := |ws| - 1;
    var os := Polled(cache, ws).outcomes;
    OutcomeFollows(cache, ws, n);
    assert ws[..n + 1] == ws;
    Marking(ws[n].printers.value, None);
    SaysUnmarked(os);
  }

  lemma SaysUnmarked(os: seq<PollOutcome>)
    requires !Empties(os) && forall p | p in LastSeen(os).value.printers :: !p.isDefault
    ensures forall item | item in LastItems(os) :: Unmarked(item)
  {
    var n := |os| - 1;
    StateAfter(os[..n]);
    AnnouncesUnmarked(LastSeen(os[..n]), os[n].value);
  }

  /** A server whose default cannot be read when a segment begins leaves the whole segment unmarked,
      however well it answers later: at each of its polls the loop holds no marked printer, and says
      nothing of one. */
  lemma UnreadableDefaultSticks(cache: Cache, ws: seq<World>, n: nat)
    requires Undisturbed(ws) && ws != [] && !Failed(ws[|ws| - 1]) && SegmentStart(ws) <= n < |ws|
    requires var sources := ws[SegmentStart(ws)].sources; sources.chosen.None? && sources.server.Err?
    ensures var os := Polled(cache, ws[..n + 1]).outcomes;
            var held := Run(os).state.previous;
            && held.Some? && (forall p | p in held.value.printers :: !p.isDefault)
            && os != [] && (forall item | item in LastItems(os) :: Unmarked(item))
  {
    var front := ws[..n + 1];
    SegmentPrefix(ws, n);
    OneDefaultASegment(cache, front);
    PollUnmarked(cache, front);
    StateAfter(Polled(cache, front).outcomes);
  }

  /** In general, the stream as its client's only user marks what a lookup of its own would have marked
      exactly when the default is still what it was as the segment began, or neither is listed. */
  lemma AloneUpToDateExactly(cache: Cache, ws: seq<World>)
    requires Undisturbed(ws) && ws != [] && !Failed(ws[|ws| - 1])
    ensures var w, os := ws[|ws| - 1], Polled(cache, ws).outcomes;
            var name, anew := DefaultInForce(ws), Resolve(w.sources);
            && os != []
            && (os[|os| - 1] == Observe(w, anew) <==> name == anew || (!Lists(w, name) && !Lists(w, anew)))
  {
    OneDefaultASegment(cache, ws);
    UpToDateExactly(cache, ws);
  }

  /** It may not: the server cannot be asked for its default at the first poll and names one that is
      listed at the second, which marks nothing. */
  lemma ReadableDefaultMissed()
    ensures var u := World(Sources(None, Err("timed out")), Ok(PAIR), Ok([]), Untouched, Untouched);
            var w := u.(sources := Sources(None, Ok(Some("a"))));
            && Polled(None, [u, w]).outcomes == [Observe(u, None), Observe(w, None)]
            && Observe(w, None) != Observe(w, Resolve(w.sources))
  {
    var u := World(Sources(None, Err("timed out")), Ok(PAIR), Ok([]), Untouched, Untouched);
    var w := u.(sources := Sources(None, Ok(Some("a"))));
    hide Observe, Polled;
    TwoPolls(u, w);
    PairDecoded(None);
    assert DecodePrinters(PAIR, None)[0].name == "a";
    assert Lists(w, Some("a"));
    SameMarksExactly(w, None, Some("a"));
  }
}
