/** The enqueue phase: every positional argument, in order, is posted to the
    device's queue unless it does not parse as a URL; the first refused
    request ends the phase. */
module Queue {
  import opened Wrappers
  import opened Seqs
  import opened Urls
  import opened Commands

  function Parses(parse: string -> Option<Url>): string -> bool
  {
    s => parse(s).Some?
  }

  /** The arguments that parse as URLs, in argument order; the others are
      skipped with a warning. */
  function Accepted(items: seq<string>, parse: string -> Option<Url>): (acc: seq<string>)
    ensures |acc| <= |items|
    ensures forall k :: 0 <= k < |acc| ==> parse(acc[k]).Some?
  {
    Keep(items, Parses(parse))
  }

  /** The accepted arguments are exactly the parseable ones, each once and
      in argument order. */
  lemma {:induction false} AcceptedExactlyParseable(items: seq<string>, parse: string -> Option<Url>)
    ensures |Accepted(items, parse)| == |KeptPositions(items, Parses(parse))|
    ensures StrictlyIncreasing(KeptPositions(items, Parses(parse)))
    ensures forall k :: 0 <= k < |KeptPositions(items, Parses(parse))| ==>
              KeptPositions(items, Parses(parse))[k] < |items| &&
              Accepted(items, parse)[k] == items[KeptPositions(items, Parses(parse))[k]]
    ensures forall i: nat :: i < |items| ==> (parse(items[i]).Some? <==> i in KeptPositions(items, Parses(parse)))
  {
    KeepExactly(items, Parses(parse));
  }

  /** The enqueue requests for all accepted arguments, in order: what the
      phase issues when every request succeeds. */
  function Adds(base: Url, items: seq<string>, parse: string -> Option<Url>): seq<Post>
  {
    var acc := Accepted(items, parse);
    seq(|acc|, k requires 0 <= k < |acc| => Post(ControlUrl(base), AddUriToQueue(acc[k])))
  }

  lemma AddsPrefix(base: Url, items: seq<string>, i: nat, parse: string -> Option<Url>)
    requires i <= |items|
    ensures Adds(base, items[..i], parse) <= Adds(base, items, parse)
  {
    KeepPrefix(items, i, Parses(parse));
  }

  lemma AddsStep(base: Url, items: seq<string>, i: nat, parse: string -> Option<Url>)
    requires i < |items|
    ensures Adds(base, items[..i + 1], parse) ==
              Adds(base, items[..i], parse) +
              (if parse(items[i]).Some? then [Post(ControlUrl(base), AddUriToQueue(items[i]))] else [])
  {
    KeepStep(items, i, Parses(parse));
  }

  datatype Failure = Failure(item: string, error: CommandError)

  datatype Enqueued = Enqueued(posts: seq<Post>, failure: Option<Failure>)

  /** The enqueue loop. `reply(j)` answers the `j`-th control request of the
      run; this phase's first request is the `n`-th. */
  method Enqueue(base: Url, items: seq<string>, parse: string -> Option<Url>, reply: nat -> Reply, n: nat)
    returns (e: Enqueued)
    ensures e.posts <= Adds(base, items, parse)
    ensures e.failure.None? ==> e.posts == Adds(base, items, parse)
    ensures e.failure.None? ==> forall j :: n <= j < n + |e.posts| ==> reply(j) == Status(StatusOk)
    ensures e.failure.Some? ==>
              && 0 < |e.posts|
              && (forall j :: n <= j < n + |e.posts| - 1 ==> reply(j) == Status(StatusOk))
              && reply(n + |e.posts| - 1) != Status(StatusOk)
              && e.posts[|e.posts| - 1].command == AddUriToQueue(e.failure.value.item)
              && ErrorOf(ControlUrl(base), reply(n + |e.posts| - 1)) == Some(e.failure.value.error)
  {
    var posts: seq<Post> := [];
    var i := 0;
    while i < |items|
      invariant 0 <= i <= |items|
      invariant posts == Adds(base, items[..i], parse)
      invariant forall j :: n <= j < n + |posts| ==> reply(j) == Status(StatusOk)
    {
      AddsStep(base, items, i, parse);
      var item := items[i];
      if parse(item).None? {
        i := i + 1;
        continue;
      }
      var d := Dispatch(base, AddUriToQueue(item), reply(n + |posts|));
      posts := posts + [d.post];
      if d.error.Some? {
        AddsPrefix(base, items, i + 1, parse);
        return Enqueued(posts, Some(Failure(item, d.error.value)));
      }
      i := i + 1;
    }
    assert items[..|items|] == items;
    return Enqueued(posts, None);
  }
}
