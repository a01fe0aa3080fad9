/** What every run of the event loop keeps, whatever its polls come to. */
module RunLaws {
  import opened Wrappers
  import opened Errors
  import opened Snapshots
  import opened Consumers
  import opened DiffLaws
  import opened Duplicates
  import opened EventStreams

  function FailuresInARow(os: seq<PollOutcome>): nat {
    if os != [] && os[|os| - 1].Err? then 1 + FailuresInARow(os[..|os| - 1]) else 0
  }

  function Pow2(n: nat): nat {
    if n == 0 then 1 else 2 * Pow2(n - 1)
  }

  /** The delay after `n` failures in a row. */
  function Delay(n: nat): nat {
    if n == 0 then 0 else if Pow2(n - 1) < MAX_BACKOFF then Pow2(n - 1) else MAX_BACKOFF
  }

  lemma DelayDoubles(n: nat)
    ensures BackoffAfter(Delay(n)) == Delay(n + 1)
    ensures Delay(n) <= Delay(n + 1) <= MAX_BACKOFF
    ensures 1 <= Delay(n + 1)
  {
    assert Pow2(n) >= 1 by { Pow2Positive(n); }
  }

  lemma {:induction false} Pow2Positive(n: nat)
    ensures Pow2(n) >= 1
  {
    if n > 0 { Pow2Positive(n - 1); }
  }

  // ---- The loop's own variables ----

  /** The last poll's snapshot, if it succeeded. */
  function LastSeen(os: seq<PollOutcome>): Option<Snapshot> {
    if Empties(os) then None else Some(os[|os| - 1].value)
  }

  /** After any run the loop holds the last poll's snapshot if that succeeded and none if it failed,
      and its backoff counts the failures in a row. */
  lemma {:induction false} StateAfter(os: seq<PollOutcome>)
    ensures Run(os).state == LoopState(LastSeen(os), Delay(FailuresInARow(os)))
  {
    if os != [] {
      var n := |os| - 1;
      StateAfter(os[..n]);
      DelayDoubles(FailuresInARow(os[..n]));
    }
  }

  /** What the last poll of a run says. */
  function LastItems(os: seq<PollOutcome>): seq<Item>
    requires os != []
  {
    Step(Run(os[..|os| - 1]).state, os[|os| - 1]).items
  }

  /** All a poll can say: its error if it fails, all it sees if it is the first or follows a failure,
      and otherwise the diff since the poll before, event by event. */
  lemma SaysExactly(os: seq<PollOutcome>)
    requires os != []
    ensures var n := |os| - 1;
            && Run(os).items == Run(os[..n]).items + LastItems(os)
            && (os[n].Err? ==> LastItems(os) == [Failure(os[n].error)])
            && (os[n].Ok? && Empties(os[..n]) ==>
                  LastItems(os) == [Event(Resynchronised(os[n].value.printers, os[n].value.jobs))])
            && (os[n].Ok? && !Empties(os[..n]) ==>
                  var es := DiffEvents(os[n - 1].value, os[n].value);
                  |LastItems(os)| == |es| && forall i | 0 <= i < |es| :: LastItems(os)[i] == Event(es[i]))
  {
    StateAfter(os[..|os| - 1]);
  }

  /** The errors of the polls that failed, in order. */
  function ErrorsMet(os: seq<PollOutcome>): seq<Error> {
    if os == [] then []
    else
      match os[|os| - 1]
      case Ok(_) => ErrorsMet(os[..|os| - 1])
      case Err(e) => ErrorsMet(os[..|os| - 1]) + [e]
  }

  /** The errors a stretch of the stream tells of, in order. */
  function ErrorsTold(items: seq<Item>): seq<Error> {
    if items == [] then []
    else
      match items[|items| - 1]
      case Event(_) => ErrorsTold(items[..|items| - 1])
      case Failure(e) => ErrorsTold(items[..|items| - 1]) + [e]
  }

  lemma {:induction false} ErrorsToldAppend(xs: seq<Item>, ys: seq<Item>)
    ensures ErrorsTold(xs + ys) == ErrorsTold(xs) + ErrorsTold(ys)
    decreases |ys|
  {
    if ys == [] {
      assert xs + ys == xs;
    } else {
      var n := |ys| - 1;
      assert (xs + ys)[..|xs + ys| - 1] == xs + ys[..n];
      ErrorsToldAppend(xs, ys[..n]);
    }
  }

  lemma {:induction false} EventsTellNoError(items: seq<Item>)
    requires forall i | 0 <= i < |items| :: items[i].Event?
    ensures ErrorsTold(items) == []
  {
    if items != [] { EventsTellNoError(items[..|items| - 1]); }
  }

  lemma LastErrorTold(os: seq<PollOutcome>)
    requires os != []
    ensures ErrorsTold(LastItems(os)) == if os[|os| - 1].Err? then [os[|os| - 1].error] else []
  {
    SaysExactly(os);
    match os[|os| - 1]
    case Ok(_) => EventsTellNoError(LastItems(os));
    case Err(e) => assert [Failure(e)][..0] == [];
  }

  /** Through any run the stream tells of every failing poll's error, once each and in order, and of no
      other. */
  lemma {:induction false} FailuresTold(os: seq<PollOutcome>)
    ensures ErrorsTold(Run(os).items) == ErrorsMet(os)
  {
    if os != [] {
      FailuresTold(os[..|os| - 1]);
      SaysExactly(os);
      LastErrorTold(os);
      ErrorsToldAppend(Run(os[..|os| - 1]).items, LastItems(os));
    }
  }

  // ---- Agreement ----

  /** A consumer fed a stretch of the stream; failures tell it nothing. */
  function Consume(c: Consumer, items: seq<Item>): Consumer {
    if items == [] then c
    else
      var before := Consume(c, items[..|items| - 1]);
      match items[|items| - 1]
      case Event(e) => Apply(before, e)
      case Failure(_) => before
  }

  lemma {:induction false} ConsumeAppend(c: Consumer, xs: seq<Item>, ys: seq<Item>)
    ensures Consume(c, xs + ys) == Consume(Consume(c, xs), ys)
    decreases |ys|
  {
    if ys == [] {
      assert xs + ys == xs;
    } else {
      var n := |ys| - 1;
      assert (xs + ys)[..|xs + ys| - 1] == xs + ys[..n];
      ConsumeAppend(c, xs, ys[..n]);
    }
  }

  lemma {:induction false} ConsumeSaid(c: Consumer, es: seq<PrinterEvent>)
    ensures Consume(c, Said(es)) == Fold(c, es)
  {
    if es != [] {
      var n := |es| - 1;
      ConsumeSaid(c, es[..n]);
      assert Said(es)[..n] == Said(es[..n]);
    }
  }

  /** The picture a consumer should hold: that of the last successful poll, or whatever it started
      from if there was none. */
  function Owed(c: Consumer, os: seq<PollOutcome>): Consumer {
    if os == [] then c
    else
      match os[|os| - 1]
      case Ok(now) => View(now)
      case Err(_) => Owed(c, os[..|os| - 1])
  }

  /** If the last poll makes a diff, it is one a consumer can follow; see Duplicates. */
  ghost predicate TurnFollowed(os: seq<PollOutcome>)
    requires os != []
  {
    var n := |os| - 1;
    n > 0 && os[n - 1].Ok? && os[n].Ok? ==> Followed(os[n - 1].value, os[n].value)
  }

  ghost predicate FollowedThroughout(os: seq<PollOutcome>) {
    os != [] ==> FollowedThroughout(os[..|os| - 1]) && TurnFollowed(os)
  }

  ghost predicate AgreesThroughout(os: seq<PollOutcome>, c: Consumer) {
    Consume(c, Run(os).items) == Owed(c, os) && (os != [] ==> AgreesThroughout(os[..|os| - 1], c))
  }

  lemma ConsumeReload(c: Consumer, now: Snapshot)
    ensures Consume(c, [Event(Resynchronised(now.printers, now.jobs))]) == View(now)
  {
    ConsumeOne(c, Event(Resynchronised(now.printers, now.jobs)));
    assert Snapshot(now.printers, now.jobs) == now;
  }

  lemma ConsumeAnnounce(c: Consumer, previous: Option<Snapshot>, now: Snapshot)
    ensures previous.None? ==> Consume(c, Announce(previous, now)) == View(now)
    ensures previous.Some? ==> Consume(c, Announce(previous, now)) == Fold(c, DiffEvents(previous.value, now))
  {
    if previous.None? {
      ConsumeReload(c, now);
    } else {
      ConsumeSaid(c, DiffEvents(previous.value, now));
    }
  }

  lemma ConsumeOne(c: Consumer, item: Item)
    ensures Consume(c, [item]) == if item.Event? then Apply(c, item.event) else c
  {
    assert [item][..0] == [];
  }

  lemma TurnSays(os: seq<PollOutcome>, c: Consumer)
    requires os != []
    ensures var n := |os| - 1;
            Consume(c, LastItems(os)) ==
              if os[n].Err? then c
              else if n == 0 || os[n - 1].Err? then View(os[n].value)
              else Fold(c, DiffEvents(os[n - 1].value, os[n].value))
  {
    var n := |os| - 1;
    StateAfter(os[..n]);
    match os[n]
    case Err(e) => ConsumeOne(c, Failure(e));
    case Ok(now) => ConsumeAnnounce(c, LastSeen(os[..n]), now);
  }

  lemma RunConsumes(os: seq<PollOutcome>, c: Consumer)
    requires os != []
    ensures Consume(c, Run(os).items) == Consume(Consume(c, Run(os[..|os| - 1]).items), LastItems(os))
  {
    ConsumeAppend(c, Run(os[..|os| - 1]).items, LastItems(os));
  }

  /** One more poll keeps a consumer in agreement exactly when its diff, if it makes one, can be followed. */
  lemma TurnAgrees(os: seq<PollOutcome>, c: Consumer)
    requires os != [] && Consume(c, Run(os[..|os| - 1]).items) == Owed(c, os[..|os| - 1])
    ensures Consume(c, Run(os).items) == Owed(c, os) <==> TurnFollowed(os)
  {
    var n := |os| - 1;
    RunConsumes(os, c);
    TurnSays(os, Owed(c, os[..n]));
    if n > 0 && os[n - 1].Ok? && os[n].Ok? {
      assert os[..n][n - 1] == os[n - 1];
      ReplayExactly(os[n - 1].value, os[n].value);
    }
  }

  /** Whatever the polls come to, a consumer holds what it is owed after every one of them exactly when
      every diff of the run can be followed. */
  lemma {:induction false} AgreementExactly(os: seq<PollOutcome>, c: Consumer)
    ensures AgreesThroughout(os, c) <==> FollowedThroughout(os)
  {
    if os != [] {
      AgreementExactly(os[..|os| - 1], c);
      if AgreesThroughout(os[..|os| - 1], c) { TurnAgrees(os, c); }
    }
  }

  lemma {:induction false} ConsistentFollowed(os: seq<PollOutcome>)
    requires forall o | o in os && o.Ok? :: Consistent(o.value)
    ensures FollowedThroughout(os)
  {
    if os != [] {
      var n := |os| - 1;
      ConsistentFollowed(os[..n]);
      if n > 0 && os[n - 1].Ok? && os[n].Ok? {
        assert os[n - 1] in os && os[n] in os;
        Replay(os[n - 1].value, os[n].value);
        ReplayExactly(os[n - 1].value, os[n].value);
      }
    }
  }

  /** With snapshots that do not contradict themselves, the consumer holds what it is owed after every
      poll of every run, through any number of failures and any change of anything in between. */
  lemma Agreement(os: seq<PollOutcome>, c: Consumer)
    requires forall o | o in os && o.Ok? :: Consistent(o.value)
    ensures Consume(c, Run(os).items) == Owed(c, os)
  {
    ConsistentFollowed(os);
    AgreementExactly(os, c);
  }

  // ---- The shape of the stream ----

  predicate Reload(item: Item) { item.Event? && item.event.Resynchronised? }

  /** In every stream an event is a full reload exactly when it comes first or follows a failure. */
  ghost predicate WellFormed(items: seq<Item>) {
    forall j: nat | j < |items| :: WellPlaced(items, j)
  }

  predicate WellPlaced(items: seq<Item>, j: nat)
    requires j < |items|
  {
    items[j].Event? ==> (Reload(items[j]) <==> j == 0 || items[j - 1].Failure?)
  }

  lemma OneMoreItem(xs: seq<Item>, y: Item)
    requires WellFormed(xs)
    requires y.Event? ==> (Reload(y) <==> xs == [] || xs[|xs| - 1].Failure?)
    ensures WellFormed(xs + [y])
  {
    var all := xs + [y];
    forall j: nat | j < |all| ensures WellPlaced(all, j) {
      if j < |xs| { assert WellPlaced(xs, j); }
    }
  }

  lemma {:induction false} MoreIncrements(xs: seq<Item>, es: seq<PrinterEvent>)
    requires WellFormed(xs) && xs != [] && xs[|xs| - 1].Event? && forall e | e in es :: Incremental(e)
    ensures WellFormed(xs + Said(es)) && (xs + Said(es))[|xs| + |es| - 1].Event?
  {
    if es == [] {
      assert xs + Said(es) == xs;
    } else {
      var n := |es| - 1;
      MoreIncrements(xs, es[..n]);
      assert es[n] in es;
      OneMoreItem(xs + Said(es[..n]), Event(es[n]));
      assert xs + Said(es) == xs + Said(es[..n]) + [Event(es[n])];
    }
  }

  lemma AnnounceShape(xs: seq<Item>, previous: Option<Snapshot>, now: Snapshot)
    requires WellFormed(xs) && (previous.Some? <==> xs != [] && xs[|xs| - 1].Event?)
    ensures var all := xs + Announce(previous, now); WellFormed(all) && all != [] && all[|all| - 1].Event?
  {
    match previous
    case None => OneMoreItem(xs, Announce(previous, now)[0]);
    case Some(before) =>
      forall e | e in DiffEvents(before, now) { DiffIncremental(before, now, e); }
      MoreIncrements(xs, DiffEvents(before, now));
  }

  lemma StepShape(xs: seq<Item>, s: LoopState, outcome: PollOutcome)
    requires WellFormed(xs) && (s.previous.Some? <==> xs != [] && xs[|xs| - 1].Event?)
    ensures var turn := Step(s, outcome);
            var all := xs + turn.items;
            WellFormed(all) && (turn.state.previous.Some? <==> all != [] && all[|all| - 1].Event?)
  {
    hide WellFormed, Announce;
    match outcome
    case Err(e) => OneMoreItem(xs, Failure(e));
    case Ok(now) => AnnounceShape(xs, s.previous, now);
  }

  lemma {:induction false} StreamShape(os: seq<PollOutcome>)
    ensures var t := Run(os);
            WellFormed(t.items) &&
            (t.state.previous.Some? <==> t.items != [] && t.items[|t.items| - 1].Event?)
  {
    if os != [] {
      var t := Run(os[..|os| - 1]);
      StreamShape(os[..|os| - 1]);
      StepShape(t.items, t.state, os[|os| - 1]);
    }
  }

  lemma DiffIncremental(a: Snapshot, b: Snapshot, e: PrinterEvent)
    requires e in DiffEvents(a, b)
    ensures Incremental(e)
  {
    if e in JobsLeaving(a.jobs, b.jobs, |a.jobs|) {
      JobsLeavingHas(a.jobs, b.jobs, |a.jobs|, e);
    } else if e in JobsArriving(a.jobs, b.jobs, |b.jobs|) {
      JobsArrivingHas(a.jobs, b.jobs, |b.jobs|, e);
    } else if e in PrintersLeaving(a.printers, b.printers, |a.printers|) {
      PrintersLeavingHas(a.printers, b.printers, |a.printers|, e);
    } else {
      PrintersArrivingHas(a.printers, b.printers, |b.printers|, e);
    }
  }

  /** So behind every incremental event there is a reload with no failure since. */
  lemma {:induction false} HasBaseline(items: seq<Item>, j: nat) returns (k: nat)
    requires WellFormed(items) && j < |items| && items[j].Event? && !Reload(items[j])
    ensures k < j && Reload(items[k]) && forall m | k < m < j :: items[m].Event? && !Reload(items[m])
  {
    assert WellPlaced(items, j);
    if Reload(items[j - 1]) { k := j - 1; } else { k := HasBaseline(items, j - 1); }
  }

  lemma AnnouncesReload(previous: Option<Snapshot>, now: Snapshot)
    ensures (exists item :: item in Announce(previous, now) && Reload(item)) <==> previous.None?
  {
    match previous
    case None => assert Announce(previous, now)[0] in Announce(previous, now);
    case Some(before) =>
      var es := DiffEvents(before, now);
      forall item | item in Said(es) ensures !Reload(item) {
        var i :| 0 <= i < |es| && Said(es)[i] == item;
        DiffIncremental(before, now, es[i]);
      }
  }

  /** A poll reloads exactly when it succeeds and is the first or follows a failure, and then says
      nothing else. */
  lemma ReloadsExactly(os: seq<PollOutcome>)
    requires os != []
    ensures var n := |os| - 1;
            var begins := os[n].Ok? && Empties(os[..n]);
            && ((exists item :: item in LastItems(os) && Reload(item)) <==> begins)
            && (begins ==> LastItems(os) == [Event(Resynchronised(os[n].value.printers, os[n].value.jobs))])
  {
    var n := |os| - 1;
    StateAfter(os[..n]);
    if os[n].Ok? {
      AnnouncesReload(LastSeen(os[..n]), os[n].value);
    }
  }

  // ---- Time ----

  function Failures(os: seq<PollOutcome>): nat {
    if os == [] then 0
    else Failures(os[..|os| - 1]) + if os[|os| - 1].Err? then 1 else 0
  }

  /** What a run sleeps, told from its successes and failures alone. */
  function Sleeps(os: seq<PollOutcome>): nat {
    if os == [] then 0
    else Sleeps(os[..|os| - 1]) + if os[|os| - 1].Err? then Delay(FailuresInARow(os)) else POLL_INTERVAL
  }

  /** So it is what every run sleeps, whatever its polls saw. */
  lemma {:induction false} SleptIs(os: seq<PollOutcome>)
    ensures Run(os).slept == Sleeps(os)
  {
    if os != [] {
      SleptIs(os[..|os| - 1]);
      StateAfter(os);
    }
  }

  lemma {:induction false} SleepsBetween(os: seq<PollOutcome>)
    ensures Failures(os) <= |os|
    ensures 3 * (|os| - Failures(os)) + Failures(os) <= Sleeps(os) <= 3 * (|os| - Failures(os)) + 30 * Failures(os)
  {
    if os != [] {
      SleepsBetween(os[..|os| - 1]);
      if os[|os| - 1].Err? { DelayDoubles(FailuresInARow(os) - 1); }
    }
  }

  /** With `s` successes and `f` failures a run sleeps between 3s + f and 3s + 30f seconds. */
  lemma SleepBounds(os: seq<PollOutcome>)
    ensures var f := Failures(os);
            var s := |os| - f;
            3 * s + f <= Run(os).slept <= 3 * s + 30 * f
  {
    SleptIs(os);
    SleepsBetween(os);
  }

  /** The total wait over an outage of `n` failures. */
  function Outage(n: nat): int {
    if n <= 5 then Pow2(n) - 1 else 31 + 30 * (n - 5)
  }

  /** A run that ends in `n` failures has waited exactly that much longer than when they began. */
  lemma {:induction false} OutageWait(os: seq<PollOutcome>)
    ensures FailuresInARow(os) <= |os|
    ensures Sleeps(os) == Sleeps(os[..|os| - FailuresInARow(os)]) + Outage(FailuresInARow(os))
  {
    if os != [] && os[|os| - 1].Err? {
      var front := os[..|os| - 1];
      var k := FailuresInARow(front);
      OutageWait(front);
      assert front[..|front| - k] == os[..|os| - (k + 1)];
      OutageGrows(k);
    } else {
      assert os[..|os|] == os;
    }
  }

  lemma OutageGrows(n: nat)
    ensures Outage(n + 1) == Outage(n) + Delay(n + 1)
  {
    if n < 5 {
      assert n == 0 || n == 1 || n == 2 || n == 3 || n == 4;
      assert Pow2(1) == 2 && Pow2(2) == 4 && Pow2(3) == 8 && Pow2(4) == 16;
    } else {
      Pow2Large(n);
      assert Pow2(1) == 2 && Pow2(2) == 4 && Pow2(3) == 8 && Pow2(4) == 16;
    }
  }

  lemma {:induction false} Pow2Large(n: nat)
    requires n >= 5
    ensures Pow2(n) >= 32
  {
    if n == 5 {
      assert Pow2(1) == 2 && Pow2(2) == 4 && Pow2(3) == 8 && Pow2(4) == 16;
    } else {
      Pow2Large(n - 1);
    }
  }
}
