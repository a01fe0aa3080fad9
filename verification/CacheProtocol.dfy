/** `default_printer` under concurrency: the lock is not held across the lookup, so reading the
    cache, looking the name up, writing the cache and invalidating it are separate steps that any
    number of tasks interleave (client.rs). */
module CacheProtocol {
  import opened Wrappers
  import Clients

  type Name = Option<string>

  /** Where a task is inside `default_printer`. The epoch its lookup began in (epochs count
      invalidations) and the lookup's number are history; the program holds only the name. */
  datatype Phase = Idle | LookingUp(epoch: nat) | Resolved(name: Name, epoch: nat, id: nat)

  /** A completed lookup: what it found and when it began. */
  datatype Completion = Completion(name: Name, epoch: nat)

  /** The shared cache, the tasks, and a history of what they did: which completed lookup filled the
      cache, every completed lookup, every returned name, and per task and epoch how many lookups
      were started and how many abandoned. */
  datatype State = State(
    cache: Option<Name>,
    tasks: seq<Phase>,
    origin: nat,
    epoch: nat,
    completed: seq<Completion>,
    returned: seq<Name>,
    started: multiset<(nat, nat)>,
    abandoned: multiset<(nat, nat)>)

  datatype Action =
    | Read(task: nat)                // lock, copy the cache, unlock; return the copy if it was filled
    | Finish(task: nat, name: Name)  // the lookup comes back
    | Write(task: nat)               // lock, fill the cache, unlock; return what was found
    | Abandon(task: nat)             // the caller drops the future while it awaits the server
    | Invalidate

  function Init(n: nat): State {
    State(None, seq(n, _ => Idle), 0, 0, [], [], multiset{}, multiset{})
  }

  /** One step; a step that is not enabled changes nothing. */
  function Next(s: State, a: Action): State {
    match a
    case Invalidate => s.(cache := None, epoch := s.epoch + 1)
    case Read(t) =>
      if t < |s.tasks| && s.tasks[t].Idle? then
        if s.cache.Some? then s.(returned := s.returned + [s.cache.value])
        else s.(tasks := s.tasks[t := LookingUp(s.epoch)], started := s.started + multiset{(t, s.epoch)})
      else s
    case Finish(t, name) =>
      if t < |s.tasks| && s.tasks[t].LookingUp? then
        var epoch := s.tasks[t].epoch;
        s.(tasks := s.tasks[t := Resolved(name, epoch, |s.completed|)],
           completed := s.completed + [Completion(name, epoch)])
      else s
    case Write(t) =>
      if t < |s.tasks| && s.tasks[t].Resolved? then
        s.(tasks := s.tasks[t := Idle], cache := Some(s.tasks[t].name), origin := s.tasks[t].id,
           returned := s.returned + [s.tasks[t].name])
      else s
    case Abandon(t) =>
      if t < |s.tasks| && s.tasks[t].LookingUp? then
        s.(tasks := s.tasks[t := Idle], abandoned := s.abandoned + multiset{(t, s.tasks[t].epoch)})
      else s
  }

  function Exec(s: State, actions: seq<Action>): State
    decreases |actions|
  {
    if actions == [] then s else Exec(Next(s, actions[0]), actions[1..])
  }

  lemma {:induction false} ExecAppend(s: State, xs: seq<Action>, ys: seq<Action>)
    ensures Exec(s, xs + ys) == Exec(Exec(s, xs), ys)
    decreases |xs|
  {
    hide Next;
    if xs == [] {
      assert xs + ys == ys;
    } else {
      ExecAppend(Next(s, xs[0]), xs[1..], ys);
      assert (xs + ys)[1..] == xs[1..] + ys;
    }
  }

  predicate InFlight(s: State, t: nat) {
    t < |s.tasks| && !s.tasks[t].Idle?
  }

  // ---- What every interleaving keeps ----

  /** Some completed lookup found this name. */
  ghost predicate FoundOut(completed: seq<Completion>, name: Name) {
    exists i :: 0 <= i < |completed| && completed[i].name == name
  }

  lemma FoundOutGrows(before: seq<Completion>, after: seq<Completion>, name: Name)
    requires before <= after && FoundOut(before, name)
    ensures FoundOut(after, name)
  {
    var i :| 0 <= i < |before| && before[i].name == name;
    assert after[i] == before[i];
  }

  /** Names come only from completed lookups. */
  ghost predicate Honest(s: State) {
    && (s.cache.Some? ==> s.origin < |s.completed| && s.completed[s.origin].name == s.cache.value)
    && (forall t | 0 <= t < |s.tasks| && s.tasks[t].Resolved? ::
          s.tasks[t].id < |s.completed| && s.completed[s.tasks[t].id] == Completion(s.tasks[t].name, s.tasks[t].epoch))
    && (forall i | 0 <= i < |s.returned| :: FoundOut(s.completed, s.returned[i]))
  }

  lemma NextHonest(s: State, a: Action)
    requires Honest(s)
    ensures Honest(Next(s, a))
  {
    var r := Next(s, a);
    assert s.completed <= r.completed;
    forall i | 0 <= i < |r.returned| ensures FoundOut(r.completed, r.returned[i]) {
      if i < |s.returned| {
        assert r.returned[i] == s.returned[i];
        FoundOutGrows(s.completed, r.completed, s.returned[i]);
      } else if a.Read? {
        assert r.completed[s.origin].name == r.returned[i];
      } else {
        assert r.completed[s.tasks[a.task].id].name == r.returned[i];
      }
    }
  }

  lemma {:induction false} ExecHonest(s: State, actions: seq<Action>)
    requires Honest(s)
    ensures Honest(Exec(s, actions)) && s.completed <= Exec(s, actions).completed
    decreases |actions|
  {
    if actions != [] {
      NextHonest(s, actions[0]);
      ExecHonest(Next(s, actions[0]), actions[1..]);
    }
  }

  /** One lookup an epoch for each task that sees it through: a second one needs the first abandoned. */
  ghost predicate Thrifty(s: State) {
    && (forall t: nat | InFlight(s, t) :: s.tasks[t].epoch <= s.epoch)
    && (forall t: nat, e: nat | e > s.epoch :: s.started[(t, e)] == 0)
    && (forall t: nat, e: nat :: s.started[(t, e)] <= s.abandoned[(t, e)] + 1)
    && (s.cache.None? ==> forall t: nat ::
          s.started[(t, s.epoch)] <=
          s.abandoned[(t, s.epoch)] + if InFlight(s, t) && s.tasks[t].epoch == s.epoch then 1 else 0)
  }

  lemma ReadThrifty(s: State, t: nat)
    requires Thrifty(s)
    ensures Thrifty(Next(s, Read(t)))
  {
    var r := Next(s, Read(t));
    if t < |s.tasks| && s.tasks[t].Idle? && s.cache.None? {
      forall u: nat, e: nat
        ensures r.started[(u, e)] == s.started[(u, e)] + if u == t && e == s.epoch then 1 else 0
      {
      }
      forall u: nat ensures InFlight(r, u) <==> InFlight(s, u) || u == t {}
    }
  }

  lemma NextThrifty(s: State, a: Action)
    requires Thrifty(s)
    ensures Thrifty(Next(s, a))
  {
    if a.Read? {
      ReadThrifty(s, a.task);
    }
  }

  /** Every state any interleaving of `n` tasks and any invalidations can reach: what is cached and
      what was ever returned is what some completed lookup found, and no task has started more than
      one lookup in an epoch beyond those it abandoned. */
  lemma EveryInterleaving(n: nat, actions: seq<Action>)
    ensures var s := Exec(Init(n), actions);
            && (s.cache.Some? ==> FoundOut(s.completed, s.cache.value))
            && (forall i | 0 <= i < |s.returned| :: FoundOut(s.completed, s.returned[i]))
            && (forall t: nat, e: nat :: s.started[(t, e)] <= s.abandoned[(t, e)] + 1)
  {
    ExecKeeps(Init(n), actions);
    var s := Exec(Init(n), actions);
  }

  lemma {:induction false} ExecKeeps(s: State, actions: seq<Action>)
    requires Honest(s) && Thrifty(s)
    ensures Honest(Exec(s, actions)) && Thrifty(Exec(s, actions))
    ensures |Exec(s, actions).tasks| == |s.tasks|
    decreases |actions|
  {
    if actions != [] {
      NextHonest(s, actions[0]);
      NextThrifty(s, actions[0]);
      ExecKeeps(Next(s, actions[0]), actions[1..]);
    }
  }

  /** How many of the first `n` tasks' lookups a history counts in one epoch. */
  function Total(history: multiset<(nat, nat)>, n: nat, e: nat): nat {
    if n == 0 then 0 else Total(history, n - 1, e) + history[(n - 1, e)]
  }

  lemma {:induction false} TotalBound(a: multiset<(nat, nat)>, b: multiset<(nat, nat)>, n: nat, e: nat)
    requires forall t: nat | t < n :: a[(t, e)] <= b[(t, e)] + 1
    ensures Total(a, n, e) <= Total(b, n, e) + n
  {
    if n > 0 { TotalBound(a, b, n - 1, e); }
  }

  /** So `n` tasks start at most `n` lookups in any epoch, beyond those abandoned. */
  lemma LookupsPerEpoch(n: nat, actions: seq<Action>, e: nat)
    ensures var s := Exec(Init(n), actions);
            Total(s.started, n, e) <= Total(s.abandoned, n, e) + n
  {
    EveryInterleaving(n, actions);
    var s := Exec(Init(n), actions);
    TotalBound(s.started, s.abandoned, n, e);
  }

  // ---- Is an invalidation final? ----

  /** Nothing in the cache or on its way there was looked up before epoch `e`. */
  ghost predicate Since(s: State, e: nat) {
    && e <= s.epoch
    && (s.cache.Some? ==> s.origin < |s.completed| && s.completed[s.origin].epoch >= e)
    && (forall t: nat | InFlight(s, t) :: s.tasks[t].epoch >= e)
  }

  lemma NextSince(s: State, a: Action, e: nat)
    requires Honest(s) && Since(s, e)
    ensures Honest(Next(s, a)) && Since(Next(s, a), e)
  {
    NextHonest(s, a);
  }

  lemma {:induction false} ExecSince(s: State, actions: seq<Action>, e: nat)
    requires Honest(s) && Since(s, e)
    ensures Honest(Exec(s, actions)) && Since(Exec(s, actions), e)
    decreases |actions|
  {
    if actions != [] {
      NextSince(s, actions[0], e);
      ExecSince(Next(s, actions[0]), actions[1..], e);
    }
  }

  /** Whatever is cached was looked up at or after epoch `e`. */
  ghost predicate CachedSince(s: State, e: nat) {
    s.cache.Some? ==> s.origin < |s.completed| && s.completed[s.origin].epoch >= e
  }

  /** The documentation has the next call after an invalidation ask again. However the tasks run on, it
      does so exactly when no task was inside a lookup as it happened: one that was may still write what
      it found before. */
  lemma InvalidationIsFinalExactly(s: State)
    requires Honest(s) && Thrifty(s)
    ensures (forall actions: seq<Action> :: CachedSince(Exec(Next(s, Invalidate), actions), s.epoch + 1)) <==>
            (forall t: nat :: !InFlight(s, t))
  {
    var cleared := Next(s, Invalidate);
    if forall t: nat :: !InFlight(s, t) {
      NextHonest(s, Invalidate);
      forall t: nat | InFlight(cleared, t) ensures false { assert InFlight(s, t); }
      forall actions: seq<Action> ensures CachedSince(Exec(cleared, actions), s.epoch + 1) {
        ExecSince(cleared, actions, s.epoch + 1);
      }
    } else {
      var t: nat :| InFlight(s, t);
      var actions := StaleWrite(s, t);
      assert !CachedSince(Exec(cleared, actions), s.epoch + 1);
    }
  }

  lemma StaleWrite(s: State, t: nat) returns (actions: seq<Action>)
    requires Honest(s) && Thrifty(s) && InFlight(s, t)
    ensures forall a | a in actions :: !a.Invalidate? && a.task == t
    ensures !CachedSince(Exec(Next(s, Invalidate), actions), s.epoch + 1)
  {
    var cleared := Next(s, Invalidate);
    NextHonest(s, Invalidate);
    if s.tasks[t].Resolved? {
      actions := [Write(t)];
      assert Exec(cleared, actions) == Exec(Next(cleared, Write(t)), []);
    } else {
      actions := [Finish(t, None), Write(t)];
      var finished := Next(cleared, actions[0]);
      assert actions[1..] == [Write(t)] && [Write(t)][1..] == [];
      assert Exec(cleared, actions) == Exec(finished, [Write(t)]);
      assert Exec(finished, [Write(t)]) == Exec(Next(finished, Write(t)), []);
    }
  }

  /** A lookup that comes back and is written down. */
  lemma Completes(s: State, t: nat, name: Name)
    requires t < |s.tasks| && s.tasks[t].LookingUp?
    ensures var r := Exec(s, [Finish(t, name), Write(t)]);
            && r.cache == Some(name) && r.epoch == s.epoch && r.tasks == s.tasks[t := Idle]
            && r.returned == s.returned + [name]
  {
    var found := Next(s, Finish(t, name));
    assert [Finish(t, name), Write(t)][1..] == [Write(t)] && [Write(t)][1..] == [];
    assert Exec(found, [Write(t)]) == Exec(Next(found, Write(t)), []);
  }

  lemma ReadsMiss(s: State, t: nat)
    requires t < |s.tasks| && s.tasks[t].Idle? && s.cache.None?
    ensures var r := Next(s, Read(t));
            r.tasks == s.tasks[t := LookingUp(s.epoch)] && r.epoch == s.epoch && r.cache.None?
  {
  }

  lemma ThreeSteps(s: State, a: Action, b: Action, c: Action)
    ensures Exec(s, [a, b, c]) == Next(Next(Next(s, a), b), c)
  {
    assert [a, b, c][1..] == [b, c] && [b, c][1..] == [c] && [c][1..] == [];
    assert Exec(Next(Next(s, a), b), [c]) == Exec(Next(Next(Next(s, a), b), c), []);
  }

  lemma TwoLookUp()
    ensures Exec(Init(2), [Read(0), Invalidate, Read(1)]).tasks == [LookingUp(0), LookingUp(1)]
  {
    ThreeSteps(Init(2), Read(0), Invalidate, Read(1));
    ReadsMiss(Init(2), 0);
    var cleared := Next(Next(Init(2), Read(0)), Invalidate);
    assert cleared.tasks == [LookingUp(0), Idle];
    ReadsMiss(cleared, 1);
  }

  /** Nor need what is cached stay so until the next invalidation: a task still inside a lookup begun
      before the last one replaces it. */
  lemma CachedNameMoves(x: Name, y: Name)
    ensures var looking := Exec(Init(2), [Read(0), Invalidate, Read(1)]);
            var filled := Exec(looking, [Finish(1, x), Write(1)]);
            var replaced := Exec(filled, [Finish(0, y), Write(0)]);
            filled.cache == Some(x) && replaced.cache == Some(y) && replaced.epoch == filled.epoch
  {
    TwoLookUp();
    var looking := Exec(Init(2), [Read(0), Invalidate, Read(1)]);
    Completes(looking, 1, x);
    Completes(Exec(looking, [Finish(1, x), Write(1)]), 0, y);
  }

  // ---- Calls that nothing interrupts ----

  /** A call that runs alone takes the steps of the protocol back to back, and does to the cache and
      its caller what Clients.Client.DefaultPrinter promises. */
  lemma UninterruptedCall(s: State, t: nat, sources: Clients.Sources)
    requires t < |s.tasks| && s.tasks[t].Idle?
    ensures var name := if s.cache.Some? then s.cache.value else Clients.Resolve(sources);
            var r := Exec(s, if s.cache.Some? then [Read(t)]
                             else [Read(t), Finish(t, Clients.Resolve(sources)), Write(t)]);
            r.cache == Some(name) && r.returned == s.returned + [name] && r.tasks == s.tasks
  {
    var name := Clients.Resolve(sources);
    if s.cache.Some? {
      assert Exec(s, [Read(t)]) == Exec(Next(s, Read(t)), []);
    } else {
      assert [Read(t), Finish(t, name), Write(t)][1..] == [Finish(t, name), Write(t)];
      Completes(Next(s, Read(t)), t, name);
    }
  }
}
