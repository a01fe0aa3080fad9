/** The event loop as one task among those that share its client: its polls as steps of CacheProtocol,
    and where the names they go by come from. */
module StreamTasks {
  import opened Wrappers
  import opened Errors
  import opened Snapshots
  import opened Clients
  import opened EventStreams
  import opened CacheProtocol
  import opened CacheRuns

  const LOOP: nat := 0

  /** One round of the loop: what the other tasks do before it reads the cache, while its own lookup is
      out, between that coming back and the cache being filled, and until the next round; what its
      lookup would meet; and the two replies. */
  datatype Round = Round(
    before: seq<Action>,
    looking: seq<Action>,
    writing: seq<Action>,
    after: seq<Action>,
    sources: Sources,
    printers: Result<seq<Result<Printer, Error>>, Error>,
    jobs: Result<seq<Result<Job, Error>>, Error>)

  predicate ByOthers(actions: seq<Action>) {
    forall a | a in actions :: a.Invalidate? || a.task != LOOP
  }

  predicate Proper(r: Round) {
    ByOthers(r.before) && ByOthers(r.looking) && ByOthers(r.writing) && ByOthers(r.after)
  }

  predicate Ready(s: State) { LOOP < |s.tasks| && s.tasks[LOOP].Idle? }

  /** The loop has no snapshot to go by. */
  predicate Begins(ws: seq<World>) { ws == [] || Failed(ws[|ws| - 1]) }

  /** What the round does up to its read of the cache. */
  function AskSteps(begins: bool, r: Round): seq<Action> {
    (if begins then [Invalidate] else []) + r.before
  }

  /** Its call of `default_printer`, begun in this state. */
  function CallSteps(s: State, r: Round): seq<Action> {
    if s.cache.Some? then [Read(LOOP)]
    else [Read(LOOP)] + r.looking + [Finish(LOOP, Resolve(r.sources))] + r.writing + [Write(LOOP)]
  }

  /** A stretch of rounds: where it leaves the tasks, the worlds its polls met, and all steps taken. */
  datatype Play = Play(state: State, ws: seq<World>, actions: seq<Action>)

  function Asked(p: Play, r: Round): State {
    Exec(p.state, AskSteps(Begins(p.ws), r))
  }

  /** The state in which the round's call returns. */
  function Answered(p: Play, r: Round): State {
    Exec(Asked(p, r), CallSteps(Asked(p, r), r))
  }

  function Extended(p: Play, r: Round): Play {
    var left := Exec(Answered(p, r), r.after);
    Play(left,
         p.ws + [World(r.sources, r.printers, r.jobs, Left(Asked(p, r).cache), Left(left.cache))],
         p.actions + AskSteps(Begins(p.ws), r) + CallSteps(Asked(p, r), r) + r.after)
  }

  function Played(s: State, rounds: seq<Round>): Play {
    if rounds == [] then Play(s, [], []) else Extended(Played(s, rounds[..|rounds| - 1]), rounds[|rounds| - 1])
  }

  // ---- One round ----

  lemma {:induction false} OthersLeave(s: State, actions: seq<Action>)
    requires LOOP < |s.tasks| && ByOthers(actions)
    ensures var r := Exec(s, actions); |r.tasks| == |s.tasks| && r.tasks[LOOP] == s.tasks[LOOP]
    decreases |actions|
  {
    if actions != [] {
      assert actions[0] in actions;
      OthersLeave(Next(s, actions[0]), actions[1..]);
    }
  }

  /** Stepwise, the call reads and, if it missed, waits, hears, waits and writes. */
  lemma CallInSteps(s: State, r: Round)
    requires s.cache.None?
    ensures Exec(s, CallSteps(s, r)) ==
            Next(Exec(Next(Exec(Next(s, Read(LOOP)), r.looking), Finish(LOOP, Resolve(r.sources))), r.writing),
                 Write(LOOP))
  {
    var name := Resolve(r.sources);
    var missed := Next(s, Read(LOOP));
    var heard := Next(Exec(missed, r.looking), Finish(LOOP, name));
    ExecAppend(s, [Read(LOOP)] + r.looking + [Finish(LOOP, name)] + r.writing, [Write(LOOP)]);
    ExecAppend(s, [Read(LOOP)] + r.looking + [Finish(LOOP, name)], r.writing);
    ExecAppend(s, [Read(LOOP)] + r.looking, [Finish(LOOP, name)]);
    ExecAppend(s, [Read(LOOP)], r.looking);
    ExecOne(s, Read(LOOP));
    ExecOne(Exec(missed, r.looking), Finish(LOOP, name));
    ExecOne(Exec(heard, r.writing), Write(LOOP));
  }

  lemma ExecOne(s: State, a: Action)
    ensures Exec(s, [a]) == Next(s, a)
  {
    assert [a][1..] == [];
    assert Exec(Next(s, a), []) == Next(s, a);
  }

  /** However the others interleave, the call returns what it found cached, or else what it resolved,
      and that is what is cached as it returns. */
  lemma CallReturns(s: State, r: Round)
    requires Ready(s) && Proper(r)
    ensures var name := if s.cache.Some? then s.cache.value else Resolve(r.sources);
            var t := Exec(s, CallSteps(s, r));
            && Ready(t) && t.cache == Some(name)
            && t.returned != [] && t.returned[|t.returned| - 1] == name
  {
    if s.cache.Some? {
      ExecOne(s, Read(LOOP));
    } else {
      CallInSteps(s, r);
      var missed := Next(s, Read(LOOP));
      var waited := Exec(missed, r.looking);
      var heard := Next(waited, Finish(LOOP, Resolve(r.sources)));
      OthersLeave(missed, r.looking);
      OthersLeave(heard, r.writing);
    }
  }

  lemma RoundLeavesReady(p: Play, r: Round)
    requires Ready(p.state) && Proper(r)
    ensures Ready(Asked(p, r)) && Ready(Answered(p, r)) && Ready(Extended(p, r).state)
  {
    ExecAppend(p.state, if Begins(p.ws) then [Invalidate] else [], r.before);
    ExecOne(p.state, Invalidate);
    OthersLeave(if Begins(p.ws) then Next(p.state, Invalidate) else p.state, r.before);
    CallReturns(Asked(p, r), r);
    OthersLeave(Answered(p, r), r.after);
  }

  // ---- Whole stretches ----

  /** The states are those the protocol reaches by the steps recorded. */
  lemma {:induction false} PlaysProtocol(s: State, rounds: seq<Round>)
    ensures var p := Played(s, rounds); p.state == Exec(s, p.actions) && |p.ws| == |rounds|
  {
    if rounds != [] {
      var n := |rounds| - 1;
      var p, r := Played(s, rounds[..n]), rounds[n];
      PlaysProtocol(s, rounds[..n]);
      ExecAppend(s, p.actions, AskSteps(Begins(p.ws), r));
      ExecAppend(s, p.actions + AskSteps(Begins(p.ws), r), CallSteps(Asked(p, r), r));
      ExecAppend(s, p.actions + AskSteps(Begins(p.ws), r) + CallSteps(Asked(p, r), r), r.after);
    }
  }

  lemma {:induction false} StaysReady(s: State, rounds: seq<Round>)
    requires Ready(s) && forall r | r in rounds :: Proper(r)
    ensures Ready(Played(s, rounds).state)
  {
    if rounds != [] {
      var n := |rounds| - 1;
      StaysReady(s, rounds[..n]);
      RoundLeavesReady(Played(s, rounds[..n]), rounds[n]);
    }
  }

  /** Where the last round's call returned. */
  function LastAnswer(s: State, rounds: seq<Round>): State
    requires rounds != []
  {
    Answered(Played(s, rounds[..|rounds| - 1]), rounds[|rounds| - 1])
  }

  /** A round empties the cache exactly when the loop's poll of that world does, and leaves it to the
      others otherwise. */
  lemma BeginsEmpty(cache: Cache, p: Play, r: Round)
    ensures Begins(p.ws) <==> Empties(Polled(cache, p.ws).outcomes)
    ensures Asked(p, r) ==
            Exec(if Empties(Polled(cache, p.ws).outcomes) then Next(p.state, Invalidate) else p.state, r.before)
  {
    OneOutcomeAPoll(cache, p.ws);
    if p.ws != [] { OutcomeFollows(cache, p.ws, |p.ws| - 1); }
    if Begins(p.ws) {
      ExecAppend(p.state, [Invalidate], r.before);
      ExecOne(p.state, Invalidate);
    } else {
      assert [] + r.before == r.before;
    }
  }

  lemma RoundTold(cache: Cache, p: Play, r: Round)
    ensures NameUsed(cache, Extended(p, r).ws) ==
            if Asked(p, r).cache.Some? then Asked(p, r).cache.value else Resolve(r.sources)
  {
  }

  lemma RoundAnswers(cache: Cache, p: Play, r: Round)
    requires Ready(p.state) && Proper(r)
    ensures var ws := Extended(p, r).ws;
            && ws != []
            && var t, name := Answered(p, r), NameUsed(cache, ws);
               t.cache == Some(name) && t.returned != [] && t.returned[|t.returned| - 1] == name
  {
    hide AskSteps, CallSteps, Ready, Proper, NameUsed;
    RoundLeavesReady(p, r);
    CallReturns(Asked(p, r), r);
    RoundTold(cache, p, r);
  }

  /** Each poll of the run goes by the very name its call returned, which is what is cached then. */
  lemma GoesByItsAnswer(s: State, rounds: seq<Round>)
    requires rounds != [] && Ready(s) && forall r | r in rounds :: Proper(r)
    ensures var ws := Played(s, rounds).ws;
            && ws != []
            && var t, name := LastAnswer(s, rounds), NameUsed(s.cache, ws);
               t.cache == Some(name) && t.returned != [] && t.returned[|t.returned| - 1] == name
  {
    hide Extended, Answered, Ready, Proper, NameUsed;
    var n := |rounds| - 1;
    StaysReady(s, rounds[..n]);
    RoundAnswers(s.cache, Played(s, rounds[..n]), rounds[n]);
  }

  lemma {:induction false} RoundHonest(s: State, rounds: seq<Round>)
    requires Honest(s) && rounds != []
    ensures var front, last := Played(s, rounds[..|rounds| - 1]).state, Played(s, rounds).state;
            var t := LastAnswer(s, rounds);
            && Honest(front) && Honest(t) && Honest(last)
            && front.completed <= t.completed <= last.completed
  {
    var n := |rounds| - 1;
    var p, r := Played(s, rounds[..n]), rounds[n];
    PlaysProtocol(s, rounds[..n]);
    ExecHonest(s, p.actions);
    ExecHonest(p.state, AskSteps(Begins(p.ws), r));
    ExecHonest(Asked(p, r), CallSteps(Asked(p, r), r));
    ExecHonest(Answered(p, r), r.after);
  }

  lemma ReturnedWasFound(t: State)
    requires Honest(t) && t.returned != []
    ensures FoundOut(t.completed, t.returned[|t.returned| - 1])
  {
  }

  lemma LastNameWasFound(s: State, rounds: seq<Round>)
    requires rounds != [] && Honest(s) && Ready(s) && forall r | r in rounds :: Proper(r)
    ensures var p := Played(s, rounds); p.ws != [] && FoundOut(p.state.completed, NameUsed(s.cache, p.ws))
  {
    hide FoundOut, Honest, NameUsed, LastAnswer, Played;
    var t := LastAnswer(s, rounds);
    RoundHonest(s, rounds);
    GoesByItsAnswer(s, rounds);
    ReturnedWasFound(t);
    FoundOutGrows(t.completed, Played(s, rounds).state.completed, NameUsed(s.cache, Played(s, rounds).ws));
  }

  lemma PlayedFront(s: State, rounds: seq<Round>)
    requires rounds != []
    ensures var n := |rounds| - 1;
            |Played(s, rounds).ws| == n + 1 && Played(s, rounds).ws[..n] == Played(s, rounds[..n]).ws
  {
    PlaysProtocol(s, rounds[..|rounds| - 1]);
  }

  /** With the loop as one task among any that share its client, every name any of its polls goes by
      was found by a completed lookup, its own or another's. */
  lemma {:induction false} NamesWereFound(s: State, rounds: seq<Round>, i: nat)
    requires Honest(s) && Ready(s) && (forall r | r in rounds :: Proper(r)) && i < |rounds|
    ensures var p := Played(s, rounds);
            |p.ws| == |rounds| && FoundOut(p.state.completed, NameUsed(s.cache, p.ws[..i + 1]))
  {
    hide FoundOut, Honest, Ready, NameUsed, LastAnswer, Played, Proper;
    var n := |rounds| - 1;
    var front, p := Played(s, rounds[..n]), Played(s, rounds);
    PlayedFront(s, rounds);
    if i == n {
      LastNameWasFound(s, rounds);
      assert p.ws[..n + 1] == p.ws;
    } else {
      NamesWereFound(s, rounds[..n], i);
      RoundHonest(s, rounds);
      assert p.ws[..n][..i + 1] == p.ws[..i + 1];
      FoundOutGrows(front.state.completed, p.state.completed, NameUsed(s.cache, p.ws[..i + 1]));
    }
  }

  // ---- Does recovery look the default up anew? ----

  lemma RoundSince(p: Play, r: Round, e: nat)
    requires Honest(Asked(p, r)) && Since(Asked(p, r), e)
    ensures CachedSince(Answered(p, r), e)
    ensures Honest(Extended(p, r).state) && Since(Extended(p, r).state, e)
  {
    ExecSince(Asked(p, r), CallSteps(Asked(p, r), r), e);
    ExecSince(Answered(p, r), r.after, e);
  }

  lemma {:induction false} PlayedSince(s: State, rounds: seq<Round>)
    requires Honest(s) && rounds != [] && forall t: nat :: !InFlight(s, t)
    ensures var p := Played(s, rounds);
            Honest(p.state) && Since(p.state, s.epoch + 1) && CachedSince(LastAnswer(s, rounds), s.epoch + 1)
  {
    var n := |rounds| - 1;
    var p, r := Played(s, rounds[..n]), rounds[n];
    if n == 0 {
      var cleared := Next(s, Invalidate);
      ExecAppend(s, [Invalidate], r.before);
      ExecOne(s, Invalidate);
      NextHonest(s, Invalidate);
      forall t: nat ensures !InFlight(cleared, t) { assert !InFlight(s, t); }
      ExecSince(cleared, r.before, s.epoch + 1);
    } else {
      PlayedSince(s, rounds[..n]);
      ExecSince(p.state, AskSteps(Begins(p.ws), r), s.epoch + 1);
    }
    RoundSince(p, r, s.epoch + 1);
  }

  /** On starting up and after a failure the loop means not to trust what was cached before. However the
      run goes on from there, every name its polls go by was looked up since exactly when no other task
      was inside a lookup as it emptied the cache. */
  lemma RecoveryIsFreshExactly(s: State)
    requires Honest(s) && Thrifty(s) && Ready(s)
    ensures (forall rounds: seq<Round> | rounds != [] && (forall r | r in rounds :: Proper(r)) ::
               CachedSince(LastAnswer(s, rounds), s.epoch + 1)) <==>
            (forall t: nat :: !InFlight(s, t))
  {
    if forall t: nat :: !InFlight(s, t) {
      forall rounds: seq<Round> | rounds != [] && forall r | r in rounds :: Proper(r)
        ensures CachedSince(LastAnswer(s, rounds), s.epoch + 1)
      {
        PlayedSince(s, rounds);
      }
    } else {
      var t: nat :| InFlight(s, t);
      var r := StaleRound(s, t);
      assert forall x | x in [r] :: Proper(x);
      assert !CachedSince(LastAnswer(s, [r]), s.epoch + 1);
    }
  }

  lemma StaleRound(s: State, t: nat) returns (r: Round)
    requires Honest(s) && Thrifty(s) && Ready(s) && InFlight(s, t)
    ensures Proper(r) && !CachedSince(LastAnswer(s, [r]), s.epoch + 1)
  {
    var actions := StaleWrite(s, t);
    r := Round(actions, [], [], [], Sources(None, Ok(None)), Ok([]), Ok([]));
    var p := Played(s, []);
    assert [r][..0] == [];
    ExecAppend(s, [Invalidate], actions);
    ExecOne(s, Invalidate);
    ExecOne(Asked(p, r), Read(LOOP));
  }

  lemma PlayedNext(s: State, rounds: seq<Round>, r: Round)
    ensures Played(s, rounds + [r]) == Extended(Played(s, rounds), r)
    ensures LastAnswer(s, rounds + [r]) == Answered(Played(s, rounds), r)
  {
    assert (rounds + [r])[..|rounds|] == rounds;
  }

  lemma ExtendedAlike(p: Play, q: Play, r: Round)
    requires p.state == q.state && (Begins(p.ws) <==> Begins(q.ws))
    ensures Answered(p, r) == Answered(q, r) && Extended(p, r).state == Extended(q, r).state
    ensures Begins(Extended(p, r).ws) <==> Begins(Extended(q, r).ws)
  {
  }

  /** After a failing poll the run goes on as one that starts in the state it has come to, so all of
      this holds of every recovery. */
  lemma {:induction false} RestartsAfterFailure(s: State, rounds: seq<Round>, more: seq<Round>)
    requires Begins(Played(s, rounds).ws)
    ensures var mid := Played(s, rounds).state;
            && Played(s, rounds + more).state == Played(mid, more).state
            && (Begins(Played(s, rounds + more).ws) <==> Begins(Played(mid, more).ws))
            && (more != [] ==> LastAnswer(s, rounds + more) == LastAnswer(mid, more))
    decreases |more|
  {
    hide Extended, Answered, LastAnswer;
    if more == [] {
      assert rounds + more == rounds;
    } else {
      var n := |more| - 1;
      var mid, front, r := Played(s, rounds).state, more[..n], more[n];
      RestartsAfterFailure(s, rounds, front);
      PlayedNext(s, rounds + front, r);
      PlayedNext(mid, front, r);
      ExtendedAlike(Played(s, rounds + front), Played(mid, front), r);
      assert more == front + [r] && rounds + more == rounds + front + [r];
    }
  }

  lemma AskedAtStart(p: Play, r: Round)
    requires p.ws == []
    ensures Asked(p, r) == Exec(Next(p.state, Invalidate), r.before)
  {
    ExecAppend(p.state, [Invalidate], r.before);
    ExecOne(p.state, Invalidate);
  }

  lemma OldNameUsed(s: State, t: nat, name: Option<string>, r: Round)
    requires t < |s.tasks| && s.tasks[t].LookingUp? && r.before == [Finish(t, name), Write(t)]
    ensures Played(s, [r]).ws != [] && NameUsed(s.cache, Played(s, [r]).ws) == name
  {
    hide NameUsed, Extended, Asked, Exec;
    var p := Play(s, [], []);
    PlayedNext(s, [], r);
    assert [] + [r] == [r];
    Completes(Next(s, Invalidate), t, name);
    AskedAtStart(p, r);
    RoundTold(s.cache, p, r);
    ExtendedMore(p, r);
  }

  lemma ExtendedMore(p: Play, r: Round)
    ensures |Extended(p, r).ws| == |p.ws| + 1
  {
  }

  /** It can go wrong: a task that asked before the loop did fills the emptied cache with the old name,
      and the loop's poll goes by that one though its own lookup would have found the new. */
  lemma StaleRecovery()
    ensures var s := Next(Init(2), Read(1));
            var r := Round([Finish(1, Some("old")), Write(1)], [], [], [],
                           Sources(Some("new"), Ok(None)), Ok([]), Ok([]));
            && Proper(r) && Ready(s) && Resolve(r.sources) == Some("new")
            && Played(s, [r]).ws != [] && NameUsed(s.cache, Played(s, [r]).ws) == Some("old")
  {
    hide NameUsed, Played;
    var s := Next(Init(2), Read(1));
    var r := Round([Finish(1, Some("old")), Write(1)], [], [], [],
                   Sources(Some("new"), Ok(None)), Ok([]), Ok([]));
    ReadsMiss(Init(2), 1);
    OldNameUsed(s, 1, Some("old"), r);
  }
}
