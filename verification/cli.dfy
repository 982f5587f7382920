/** One run of the command-line tool: check the device flag, discover the
    zone players, resolve the room name to a device, optionally clear its
    queue, then enqueue the arguments. Every fatal condition ends the run
    at once; the record of a run says how far it got. */
module Cli {
  import opened Wrappers
  import opened Headers
  import opened Ssdp
  import opened Urls
  import opened Commands
  import opened Resolver
  import opened Queue

  /** The flags and positional arguments: `-d` device, `-a` append. */
  datatype Config = Config(device: string, append: bool, items: seq<string>)

  /** The outside world: the network's answer to the search request, the
      URL parser, the descriptor fetch (the room name, or nothing on a
      transport or decoding failure), and the reply to the `j`-th control
      request of the run. */
  datatype Env = Env(
    transport: string -> Probe,
    parse: string -> Option<Url>,
    fetch: Url -> Option<string>,
    reply: nat -> Reply)

  datatype FatalError =
    | NoDeviceName
    | SearchFailed
    | NoDevicesFound
    | DeviceNotFound(name: string)
    | ClearFailed(name: string, error: CommandError)
    | EnqueueFailed(item: string, error: CommandError)

  datatype Exit = Done | Fatal(error: FatalError) | Panic

  /** How far a run got: whether it searched, the descriptor URLs it
      fetched, the control requests it issued, and how it ended. */
  datatype Run = Run(searched: bool, fetched: seq<Url>, posts: seq<Post>, exit: Exit)

  /** What discovery yields in this environment. */
  function Discovered(env: Env): SearchOutcome
  {
    Discover(ZonePlayer, env.transport(SearchRequest(ZonePlayer)))
  }

  /** The candidates the resolver walks: the discovered zone players, or
      none when the run ends before resolution. */
  function Candidates(cfg: Config, env: Env): seq<Header>
  {
    if cfg.device != "" && Discovered(env).Devices? then Discovered(env).found else []
  }

  /** The device the room name resolves to, if any. */
  function Resolved(cfg: Config, env: Env): Option<Url>
  {
    LastMatch(Candidates(cfg, env), cfg.device, env.parse, env.fetch)
  }

  /** The control requests for the device at `base` when every one succeeds:
      the queue clear unless appending, then one enqueue per accepted item. */
  function Plan(cfg: Config, base: Url, parse: string -> Option<Url>): seq<Post>
  {
    (if cfg.append then [] else [Post(ControlUrl(base), RemoveAllTracksFromQueue)])
    + Adds(base, cfg.items, parse)
  }

  /** The plan clears the queue exactly when not appending, and then only
      as its first request, before any enqueue. */
  lemma PlanClearsFirst(cfg: Config, base: Url, parse: string -> Option<Url>)
    ensures (exists k :: 0 <= k < |Plan(cfg, base, parse)| &&
               Plan(cfg, base, parse)[k].command == RemoveAllTracksFromQueue) <==> !cfg.append
    ensures forall k :: 0 <= k < |Plan(cfg, base, parse)| ==>
              (Plan(cfg, base, parse)[k].command == RemoveAllTracksFromQueue ==> k == 0)
    ensures forall k :: 0 <= k < |Plan(cfg, base, parse)| ==> Plan(cfg, base, parse)[k].url == ControlUrl(base)
  {
    var clear := if cfg.append then [] else [Post(ControlUrl(base), RemoveAllTracksFromQueue)];
    var adds := Adds(base, cfg.items, parse);
    assert forall k :: 0 <= k < |adds| ==> adds[k].command.AddUriToQueue?;
    assert forall k :: 0 <= k < |Plan(cfg, base, parse)| ==>
      Plan(cfg, base, parse)[k] == if k < |clear| then clear[k] else adds[k - |clear|];
    if !cfg.append {
      assert Plan(cfg, base, parse)[0].command == RemoveAllTracksFromQueue;
    }
  }

  /** The clear and enqueue phase against the device at `base`: the queue
      is cleared first unless appending, then each accepted argument is
      enqueued; the first refused request ends the phase. */
  method Control(cfg: Config, base: Url, parse: string -> Option<Url>, reply: nat -> Reply)
    returns (posts: seq<Post>, exit: Exit)
    ensures posts <= Plan(cfg, base, parse)
    ensures exit == Done || (exit.Fatal? && (exit.error.ClearFailed? || exit.error.EnqueueFailed?))
    ensures exit == Done <==>
              posts == Plan(cfg, base, parse) && forall j :: 0 <= j < |posts| ==> reply(j) == Status(StatusOk)
    ensures exit != Done ==>
              && 0 < |posts|
              && (forall j :: 0 <= j < |posts| - 1 ==> reply(j) == Status(StatusOk))
              && reply(|posts| - 1) != Status(StatusOk)
              && Some(exit.error.error) == ErrorOf(posts[|posts| - 1].url, reply(|posts| - 1))
    ensures exit.Fatal? && exit.error.ClearFailed? ==>
              !cfg.append && |posts| == 1 && exit.error.name == cfg.device
    ensures exit.Fatal? && exit.error.EnqueueFailed? ==>
              posts[|posts| - 1].command == AddUriToQueue(exit.error.item)
  {
    var clear := if cfg.append then [] else [Post(ControlUrl(base), RemoveAllTracksFromQueue)];
    assert Plan(cfg, base, parse) == clear + Adds(base, cfg.items, parse);
    posts := [];
    if !cfg.append {
      var d := Dispatch(base, RemoveAllTracksFromQueue, reply(0));
      posts := [d.post];
      if d.error.Some? {
        return posts, Fatal(ClearFailed(cfg.device, d.error.value));
      }
    }
    assert posts == clear;
    var e := Enqueue(base, cfg.items, parse, reply, |posts|);
    posts := posts + e.posts;
    if e.failure.Some? {
      assert posts[|posts| - 1] == e.posts[|e.posts| - 1];
      return posts, Fatal(EnqueueFailed(e.failure.value.item, e.failure.value.error));
    }
    return posts, Done;
  }

  /** Resolution and the control phase of a run whose discovery found
      the candidates `found`. */
  method ResolveAndControl(cfg: Config, env: Env, found: seq<Header>) returns (run: Run)
    requires cfg.device != "" && |found| > 0
    ensures run.searched
    ensures run.fetched == FetchedUrls(found, env.parse)
    ensures run.exit.Fatal? ==>
              run.exit.error.DeviceNotFound? || run.exit.error.ClearFailed? || run.exit.error.EnqueueFailed?
    ensures !run.exit.Panic?
    ensures run.exit == Fatal(DeviceNotFound(cfg.device)) <==> LastMatch(found, cfg.device, env.parse, env.fetch).None?
    ensures run.exit.Fatal? && run.exit.error.DeviceNotFound? ==> run.exit.error.name == cfg.device
    ensures LastMatch(found, cfg.device, env.parse, env.fetch).None? ==> run.posts == []
    ensures LastMatch(found, cfg.device, env.parse, env.fetch).Some? ==>
              run.posts <= Plan(cfg, LastMatch(found, cfg.device, env.parse, env.fetch).value, env.parse)
    ensures run.exit == Done <==>
              && LastMatch(found, cfg.device, env.parse, env.fetch).Some?
              && run.posts == Plan(cfg, LastMatch(found, cfg.device, env.parse, env.fetch).value, env.parse)
              && forall j :: 0 <= j < |run.posts| ==> env.reply(j) == Status(StatusOk)
    ensures run.exit.Fatal? && (run.exit.error.ClearFailed? || run.exit.error.EnqueueFailed?) ==>
              && 0 < |run.posts|
              && (forall j :: 0 <= j < |run.posts| - 1 ==> env.reply(j) == Status(StatusOk))
              && env.reply(|run.posts| - 1) != Status(StatusOk)
              && Some(run.exit.error.error) == ErrorOf(run.posts[|run.posts| - 1].url, env.reply(|run.posts| - 1))
    ensures run.exit.Fatal? && run.exit.error.ClearFailed? ==>
              !cfg.append && |run.posts| == 1 && run.exit.error.name == cfg.device
    ensures run.exit.Fatal? && run.exit.error.EnqueueFailed? ==>
              run.posts[|run.posts| - 1].command == AddUriToQueue(run.exit.error.item)
  {
    var device, fetched := Resolve(found, cfg.device, env.parse, env.fetch);
    if device.None? {
      return Run(true, fetched, [], Fatal(DeviceNotFound(cfg.device)));
    }
    var posts, exit := Control(cfg, device.value, env.parse, env.reply);
    return Run(true, fetched, posts, exit);
  }

  /** A run of the tool. */
  method Execute(cfg: Config, env: Env) returns (run: Run)
    // An empty device name ends the run before any network activity.
    ensures run.exit == Fatal(NoDeviceName) <==> cfg.device == ""
    ensures cfg.device == "" ==> !run.searched && run.fetched == [] && run.posts == []
    ensures cfg.device != "" ==> run.searched
    // Discovery failures, and an empty discovery, end the run before any fetch.
    ensures run.exit == Fatal(SearchFailed) <==> cfg.device != "" && Discovered(env).SearchError?
    ensures run.exit == Panic <==> cfg.device != "" && Discovered(env).Panicked?
    ensures run.exit == Fatal(NoDevicesFound) <==> cfg.device != "" && Discovered(env) == Devices([])
    ensures run.exit == Fatal(SearchFailed) || run.exit == Panic || run.exit == Fatal(NoDevicesFound) ==>
              run.fetched == [] && run.posts == []
    // Every fatal exit names the configured device or the failing item.
    ensures run.exit.Fatal? && run.exit.error.DeviceNotFound? ==> run.exit.error.name == cfg.device
    // Once the device is resolved, the run ends in the control phase.
    ensures Resolved(cfg, env).Some? ==>
              run.exit == Done ||
              (run.exit.Fatal? && (run.exit.error.ClearFailed? || run.exit.error.EnqueueFailed?))
    // Every candidate whose location parses is fetched, in order.
    ensures run.fetched == FetchedUrls(Candidates(cfg, env), env.parse)
    // No matching room after the full scan: the run ends naming the device.
    ensures run.exit == Fatal(DeviceNotFound(cfg.device)) <==>
              |Candidates(cfg, env)| > 0 && Resolved(cfg, env).None?
    ensures Resolved(cfg, env).None? ==> run.posts == []
    // Control requests follow the plan for the resolved device, in order.
    ensures Resolved(cfg, env).Some? ==> run.posts <= Plan(cfg, Resolved(cfg, env).value, env.parse)
    // Success: the whole plan was issued and every request was answered 200.
    ensures run.exit == Done <==>
              && Resolved(cfg, env).Some?
              && run.posts == Plan(cfg, Resolved(cfg, env).value, env.parse)
              && forall j :: 0 <= j < |run.posts| ==> env.reply(j) == Status(StatusOk)
    // A refused request ends the run: it is the last one issued, all before it succeeded.
    ensures run.exit.Fatal? && (run.exit.error.ClearFailed? || run.exit.error.EnqueueFailed?) ==>
              && 0 < |run.posts|
              && (forall j :: 0 <= j < |run.posts| - 1 ==> env.reply(j) == Status(StatusOk))
              && env.reply(|run.posts| - 1) != Status(StatusOk)
              && Some(run.exit.error.error) == ErrorOf(run.posts[|run.posts| - 1].url, env.reply(|run.posts| - 1))
    ensures run.exit.Fatal? && run.exit.error.ClearFailed? ==>
              !cfg.append && |run.posts| == 1 && run.exit.error.name == cfg.device
    ensures run.exit.Fatal? && run.exit.error.EnqueueFailed? ==>
              run.posts[|run.posts| - 1].command == AddUriToQueue(run.exit.error.item)
  {
    if cfg.device == "" {
      return Run(false, [], [], Fatal(NoDeviceName));
    }
    var outcome := Search(ZonePlayer, env.transport);
    if outcome.SearchError? {
      return Run(true, [], [], Fatal(SearchFailed));
    } else if outcome.Panicked? {
      return Run(true, [], [], Panic);
    }
    var found := outcome.found;
    assert Candidates(cfg, env) == found;
    if |found| == 0 {
      return Run(true, [], [], Fatal(NoDevicesFound));
    }
    run := ResolveAndControl(cfg, env, found);
  }
}
