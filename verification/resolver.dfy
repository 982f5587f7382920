/** Resolution of the target room name to a device base URL. Every
    candidate is examined; the last one that qualifies wins. */
module Resolver {
  import opened Wrappers
  import opened Headers
  import opened Urls

  /** What one candidate contributes: the URL in its `Location` header when
      that parses, the descriptor fetched from it succeeds, and the room
      name in the descriptor equals `name`. */
  function Match(h: Header, name: string, parse: string -> Option<Url>, fetch: Url -> Option<string>)
    : Option<Url>
  {
    match parse(Get(h, "Location"))
    case None => None
    case Some(u) => if fetch(u) == Some(name) then Some(u) else None
  }

  /** The match of the last qualifying candidate, looked for from the end. */
  function LastMatch(found: seq<Header>, name: string, parse: string -> Option<Url>,
                     fetch: Url -> Option<string>): Option<Url>
    decreases |found|
  {
    if |found| == 0 then None
    else
      match Match(found[|found| - 1], name, parse, fetch)
      case Some(u) => Some(u)
      case None => LastMatch(found[..|found| - 1], name, parse, fetch)
  }

  /** The descriptor URLs fetched: one per candidate whose `Location`
      parses, in candidate order. */
  function FetchedUrls(found: seq<Header>, parse: string -> Option<Url>): (urls: seq<Url>)
    ensures |urls| <= |found|
    decreases |found|
  {
    if |found| == 0 then []
    else
      FetchedUrls(found[..|found| - 1], parse) +
      match parse(Get(found[|found| - 1], "Location"))
      case Some(u) => [u]
      case None => []
  }

  /** The resolution loop: walks every candidate, skipping those whose
      location does not parse or whose descriptor cannot be fetched, and
      overwrites the result at each room-name match. */
  method Resolve(found: seq<Header>, name: string, parse: string -> Option<Url>,
                 fetch: Url -> Option<string>)
    returns (device: Option<Url>, fetched: seq<Url>)
    ensures device == LastMatch(found, name, parse, fetch)
    ensures fetched == FetchedUrls(found, parse)
  {
    device := None;
    fetched := [];
    var i := 0;
    while i < |found|
      invariant 0 <= i <= |found|
      invariant device == LastMatch(found[..i], name, parse, fetch)
      invariant fetched == FetchedUrls(found[..i], parse)
    {
      assert found[..i + 1][..i] == found[..i];
      var parsed := parse(Get(found[i], "Location"));
      if parsed.None? {
        i := i + 1;
        continue;
      }
      var u := parsed.value;
      fetched := fetched + [u];
      var d := fetch(u);
      if d.None? {
        i := i + 1;
        continue;
      }
      if d.value == name {
        device := Some(u);
      }
      i := i + 1;
    }
    assert found[..|found|] == found;
  }

  /** The result is absent exactly when no candidate qualifies; otherwise it
      is the URL of a qualifying candidate after which none qualifies. */
  lemma {:induction false} LastMatchIsLastQualifying(found: seq<Header>, name: string,
                                                     parse: string -> Option<Url>, fetch: Url -> Option<string>)
    ensures LastMatch(found, name, parse, fetch).None? <==>
              forall j :: 0 <= j < |found| ==> Match(found[j], name, parse, fetch).None?
    ensures LastMatch(found, name, parse, fetch).Some? ==>
              exists j :: 0 <= j < |found| && Match(found[j], name, parse, fetch) == LastMatch(found, name, parse, fetch)
                          && forall k :: j < k < |found| ==> Match(found[k], name, parse, fetch).None?
    decreases |found|
  {
    if |found| > 0 {
      var init := found[..|found| - 1];
      var last := |found| - 1;
      LastMatchIsLastQualifying(init, name, parse, fetch);
      assert forall j :: 0 <= j < |init| ==> init[j] == found[j];
      if Match(found[last], name, parse, fetch).None? {
        if LastMatch(init, name, parse, fetch).Some? {
          var j :| 0 <= j < |init| && Match(init[j], name, parse, fetch) == LastMatch(init, name, parse, fetch)
                   && forall k :: j < k < |init| ==> Match(init[k], name, parse, fetch).None?;
          assert forall k :: j < k < |found| ==> Match(found[k], name, parse, fetch).None?;
        }
      }
    }
  }

  /** A qualifying candidate later in the list overrides everything before it;
      otherwise the earlier candidates decide. */
  lemma {:induction false} LastMatchConcat(a: seq<Header>, b: seq<Header>, name: string,
                                           parse: string -> Option<Url>, fetch: Url -> Option<string>)
    ensures LastMatch(a + b, name, parse, fetch) ==
              if LastMatch(b, name, parse, fetch).Some? then LastMatch(b, name, parse, fetch)
              else LastMatch(a, name, parse, fetch)
    decreases |b|
  {
    if |b| == 0 {
      assert a + b == a;
    } else {
      assert (a + b)[..|a + b| - 1] == a + b[..|b| - 1];
      assert (a + b)[|a + b| - 1] == b[|b| - 1];
      LastMatchConcat(a, b[..|b| - 1], name, parse, fetch);
    }
  }

  /** A candidate that does not qualify (its location does not parse, its
      fetch fails, or its room name differs) has no influence on the result. */
  lemma LastMatchIgnoresNonQualifying(found: seq<Header>, j: nat, name: string,
                                      parse: string -> Option<Url>, fetch: Url -> Option<string>)
    requires j < |found|
    requires Match(found[j], name, parse, fetch).None?
    ensures LastMatch(found[..j] + found[j + 1..], name, parse, fetch) == LastMatch(found, name, parse, fetch)
  {
    assert found == (found[..j] + [found[j]]) + found[j + 1..];
    LastMatchConcat(found[..j] + [found[j]], found[j + 1..], name, parse, fetch);
    LastMatchConcat(found[..j], [found[j]], name, parse, fetch);
    LastMatchConcat(found[..j], found[j + 1..], name, parse, fetch);
    assert LastMatch([found[j]], name, parse, fetch) == None by {
      assert [found[j]][..0] == [];
    }
  }

  /** Two candidates that both resolve to the target room: the second wins. */
  lemma SecondOfTwoMatchesWins(h1: Header, h2: Header, name: string,
                               parse: string -> Option<Url>, fetch: Url -> Option<string>)
    requires Match(h1, name, parse, fetch).Some?
    requires Match(h2, name, parse, fetch).Some?
    ensures LastMatch([h1, h2], name, parse, fetch) == Match(h2, name, parse, fetch)
  {
  }
}
