/** `IppClient::events`: the endless poll loop and what it says (client.rs, events.rs). */
module EventStreams {
  import opened Wrappers
  import opened Errors
  import opened Snapshots
  import opened Clients

  // Whole seconds: every delay the loop ever sleeps is one.
  const POLL_INTERVAL: nat := 3
  const MAX_BACKOFF: nat := 30

  /** The next retry delay: a second at first, then twice the last one within the cap. */
  function BackoffAfter(previous: nat): nat {
    if previous == 0 then 1
    else if previous * 2 < MAX_BACKOFF then previous * 2 else MAX_BACKOFF
  }

  /** One item of the stream. */
  datatype Item = Event(event: PrinterEvent) | Failure(error: Error)

  function Said(es: seq<PrinterEvent>): (items: seq<Item>)
    ensures |items| == |es|
    ensures forall i | 0 <= i < |es| :: items[i] == Event(es[i])
  {
    if es == [] then [] else Said(es[..|es| - 1]) + [Event(es[|es| - 1])]
  }

  // ---- The loop, driven by what its polls come to ----

  /** What one poll comes to: any snapshot, or any error. */
  type PollOutcome = Result<Snapshot, Error>

  /** The loop's own variables. */
  datatype LoopState = LoopState(previous: Option<Snapshot>, backoff: nat)

  /** One turn of the loop: what it leaves, what it says, and how long it sleeps. */
  datatype Turn = Turn(state: LoopState, items: seq<Item>, sleep: nat)

  function Announce(previous: Option<Snapshot>, current: Snapshot): seq<Item> {
    match previous
    case None => [Event(Resynchronised(current.printers, current.jobs))]
    case Some(before) => Said(DiffEvents(before, current))
  }

  function Step(s: LoopState, outcome: PollOutcome): Turn {
    match outcome
    case Ok(current) => Turn(LoopState(Some(current), 0), Announce(s.previous, current), POLL_INTERVAL)
    case Err(e) =>
      var backoff := BackoffAfter(s.backoff);
      Turn(LoopState(None, backoff), [Failure(e)], backoff)
  }

  /** Everything a run of the loop has done so far. */
  datatype Trace = Trace(state: LoopState, items: seq<Item>, slept: nat)

  /** The run whose polls come to these outcomes. */
  function Run(outcomes: seq<PollOutcome>): Trace {
    if outcomes == [] then Trace(LoopState(None, 0), [], 0)
    else
      var t := Run(outcomes[..|outcomes| - 1]);
      var turn := Step(t.state, outcomes[|outcomes| - 1]);
      Trace(turn.state, t.items + turn.items, t.slept + turn.sleep)
  }

  // ---- Where outcomes come from ----

  /** What a run of polls makes of the shared cache: what is left in it, what the polls came to, and how
      many of them had to look the default printer up. */
  datatype Watch = Watch(cache: Cache, outcomes: seq<PollOutcome>, lookups: nat)

  /** Whether the next poll empties the cache first: there is no snapshot to go by. */
  predicate Empties(outcomes: seq<PollOutcome>) {
    outcomes == [] || outcomes[|outcomes| - 1].Err?
  }

  /** Polling these worlds one after another, with whatever others do to the cache meanwhile. */
  function Polled(cache: Cache, ws: seq<World>): Watch {
    if ws == [] then Watch(cache, [], 0)
    else
      var t, w := Polled(cache, ws[..|ws| - 1]), ws[|ws| - 1];
      var name := Told(t.cache, Empties(t.outcomes), w);
      Watch(Disturbed(Some(name), w.after), t.outcomes + [Observe(w, name)],
            t.lookups + if Found(t.cache, Empties(t.outcomes), w).None? then 1 else 0)
  }

  class EventStream {
    const client: Client
    var previous: Option<Snapshot>
    var backoff: nat

    ghost function State(): LoopState
      reads this
    {
      LoopState(previous, backoff)
    }

    constructor (client: Client)
      ensures this.client == client && State() == LoopState(None, 0)
    {
      this.client := client;
      previous := None;
      backoff := 0;
    }

    /** One turn of the loop. */
    method Poll(w: World) returns (items: seq<Item>, sleep: nat, ghost outcome: PollOutcome, ghost looked: bool)
      modifies this, client
      ensures var found := Found(old(client.defaultCache), old(previous).None?, w);
              var name := Told(old(client.defaultCache), old(previous).None?, w);
              && outcome == Observe(w, name)
              && looked == found.None?
              && client.defaultCache == Disturbed(Some(name), w.after)
      ensures Turn(State(), items, sleep) == Step(old(State()), outcome)
    {
      if previous.None? {
        client.InvalidateDefaultPrinterCache();
      }
      var polled, resolved := client.TakeSnapshot(w);
      outcome, looked := polled, resolved;
      items := [];
      match polled {
        case Ok(current) =>
          backoff := 0;
          match previous {
            case None =>
              items := [Event(Resynchronised(current.printers, current.jobs))];
            case Some(before) =>
              var diff := Diff(before, current);
              for i := 0 to |diff|
                invariant items == Said(diff[..i])
              {
                assert diff[..i + 1][..i] == diff[..i];
                items := items + [Event(diff[i])];
              }
              assert diff[..|diff|] == diff;
          }
          previous := Some(current);
          sleep := POLL_INTERVAL;
        case Err(e) =>
          previous := None;
          items := [Failure(e)];
          backoff := BackoffAfter(backoff);
          sleep := backoff;
      }
    }
  }

  ghost predicate Ran(outcomes: seq<PollOutcome>, t: Trace) { Run(outcomes) == t }

  lemma RunStep(outcomes: seq<PollOutcome>, t: Trace, outcome: PollOutcome)
    requires Ran(outcomes, t)
    ensures var turn := Step(t.state, outcome);
            Ran(outcomes + [outcome], Trace(turn.state, t.items + turn.items, t.slept + turn.sleep))
  {
    assert (outcomes + [outcome])[..|outcomes|] == outcomes;
  }

  ghost predicate Watched(cache: Cache, ws: seq<World>, t: Watch) { Polled(cache, ws) == t }

  lemma WatchStep(cache: Cache, ws: seq<World>, n: nat, t: Watch)
    requires n < |ws| && Watched(cache, ws[..n], t)
    ensures var found := Found(t.cache, Empties(t.outcomes), ws[n]);
            var name := Told(t.cache, Empties(t.outcomes), ws[n]);
            Watched(cache, ws[..n + 1],
                    Watch(Disturbed(Some(name), ws[n].after), t.outcomes + [Observe(ws[n], name)],
                          t.lookups + if found.None? then 1 else 0))
  {
    assert ws[..n + 1][..n] == ws[..n];
  }

  /** `events`: the loop from its start, over as many polls as there are worlds. */
  method Events(client: Client, ws: seq<World>) returns (items: seq<Item>, slept: nat, ghost lookups: nat)
    modifies client
    ensures var watch := Polled(old(client.defaultCache), ws);
            && client.defaultCache == watch.cache
            && lookups == watch.lookups
            && items == Run(watch.outcomes).items
            && slept == Run(watch.outcomes).slept
  {
    var stream := new EventStream(client);
    items, slept, lookups := [], 0, 0;
    ghost var cache := client.defaultCache;
    ghost var outcomes: seq<PollOutcome> := [];
    for i := 0 to |ws|
      invariant fresh(stream) && stream.client == client
      invariant Watched(cache, ws[..i], Watch(client.defaultCache, outcomes, lookups))
      invariant Ran(outcomes, Trace(stream.State(), items, slept))
      invariant stream.previous.None? <==> Empties(outcomes)
    {
      WatchStep(cache, ws, i, Watch(client.defaultCache, outcomes, lookups));
      ghost var t := Trace(stream.State(), items, slept);
      var said, sleep, outcome, looked := stream.Poll(ws[i]);
      RunStep(outcomes, t, outcome);
      items := items + said;
      slept := slept + sleep;
      lookups := lookups + if looked then 1 else 0;
      outcomes := outcomes + [outcome];
    }
    assert ws[..|ws|] == ws;
  }
}
