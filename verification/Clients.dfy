/** The client's reads of a CUPS daemon, and its cache of the default printer (client.rs). */
module Clients {
  import opened Wrappers
  import opened Errors
  import opened Snapshots

  /** A cache slot: empty, or filled with what a lookup came to, which may be no default at all. */
  type Cache = Option<Option<string>>

  /** Where a default printer can come from: the `lpoptions` files and the server. */
  datatype Sources = Sources(chosen: Option<string>, server: Result<Option<string>, Error>)

  /** What other users of the client did to its cache during some stretch of time. */
  datatype Meddling = Untouched | Left(cache: Cache)

  /** Everything one poll would meet: the default's sources; the two replies, each a list of attribute
      groups that decode or do not; and what others do to the cache just before the poll reads it and
      after. */
  datatype World = World(
    sources: Sources,
    printers: Result<seq<Result<Printer, Error>>, Error>,
    jobs: Result<seq<Result<Job, Error>>, Error>,
    before: Meddling,
    after: Meddling)

  /** The files decide if they name a printer; a server that cannot be asked has no default. */
  function Resolve(s: Sources): Option<string> {
    match s.chosen
    case Some(name) => Some(name)
    case None =>
      match s.server
      case Ok(name) => name
      case Err(_) => None
  }

  function DecodePrinters(groups: seq<Result<Printer, Error>>, default: Option<string>): seq<Printer> {
    if groups == [] then []
    else
      var rest := DecodePrinters(groups[1..], default);
      match groups[0]
      case Ok(printer) => [printer.(isDefault := default == Some(printer.name))] + rest
      case Err(_) => rest
  }

  function DecodeJobs(groups: seq<Result<Job, Error>>): seq<Job> {
    if groups == [] then []
    else
      var rest := DecodeJobs(groups[1..]);
      match groups[0]
      case Ok(job) => [job] + rest
      case Err(_) => rest
  }

  /** What a poll of this world reports when the default printer is `default`. */
  function Observe(w: World, default: Option<string>): Result<Snapshot, Error> {
    match w.printers
    case Err(e) => Err(e)
    case Ok(printers) =>
      match w.jobs
      case Err(e) => Err(e)
      case Ok(jobs) => Ok(Snapshot(DecodePrinters(printers, default), DecodeJobs(jobs)))
  }

  function Disturbed(cache: Cache, m: Meddling): Cache {
    match m
    case Untouched => cache
    case Left(c) => c
  }

  /** What a poll finds in the cache, which it has emptied first if told to. */
  function Found(cache: Cache, emptied: bool, w: World): Cache {
    Disturbed(if emptied then None else cache, w.before)
  }

  /** The name a poll goes by. */
  function Told(cache: Cache, emptied: bool, w: World): Option<string> {
    var found := Found(cache, emptied, w);
    if found.Some? then found.value else Resolve(w.sources)
  }

  class Client {
    var defaultCache: Cache

    constructor ()
      ensures defaultCache == None
    {
      defaultCache := None;
    }

    method InvalidateDefaultPrinterCache()
      modifies this
      ensures defaultCache == None
    {
      defaultCache := None;
    }

    /** Other users of the client at work on its cache. */
    method Interference(m: Meddling)
      modifies this
      ensures defaultCache == Disturbed(old(defaultCache), m)
    {
      if m.Left? {
        defaultCache := m.cache;
      }
    }

    /** One uninterrupted call; CacheProtocol takes it apart. */
    method DefaultPrinter(sources: Sources) returns (name: Option<string>, resolved: bool)
      modifies this
      ensures resolved <==> old(defaultCache).None?
      ensures name == if old(defaultCache).Some? then old(defaultCache).value else Resolve(sources)
      ensures defaultCache == Some(name)
    {
      if defaultCache.Some? {
        return defaultCache.value, false;
      }
      if sources.chosen.Some? {
        name := sources.chosen;
      } else {
        match sources.server {
          case Ok(answer) => name := answer;
          case Err(_) => name := None;
        }
      }
      defaultCache := Some(name);
      resolved := true;
    }

    /** `snapshot`: the printers, which need the default printer, and then the jobs. */
    method TakeSnapshot(w: World) returns (r: Result<Snapshot, Error>, resolved: bool)
      modifies this
      ensures resolved <==> Found(old(defaultCache), false, w).None?
      ensures r == Observe(w, Told(old(defaultCache), false, w))
      ensures defaultCache == Disturbed(Some(Told(old(defaultCache), false, w)), w.after)
    {
      Interference(w.before);
      var name;
      name, resolved := DefaultPrinter(w.sources);
      Interference(w.after);
      if w.printers.Err? {
        return Err(w.printers.error), resolved;
      }
      if w.jobs.Err? {
        return Err(w.jobs.error), resolved;
      }
      r := Ok(Snapshot(DecodePrinters(w.printers.value, name), DecodeJobs(w.jobs.value)));
    }
  }
}
