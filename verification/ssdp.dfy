/** SSDP discovery as the tool performs it (UPnP Device Architecture 1.1,
    section 1.3): one M-SEARCH request, then every response whose `ST`
    header names the requested service type, in arrival order. */
module Ssdp {
  import opened Seqs
  import opened Headers

  /** The search target the tool asks for. */
  const ZonePlayer := "urn:schemas-upnp-org:device:ZonePlayer:1"

  /** The line separator of an SSDP header block. */
  const Crlf := "\r\n"

  /** `parts` with `sep` between neighbours and nowhere else. */
  function Join(parts: seq<string>, sep: string): string
    decreases |parts|
  {
    if |parts| == 0 then ""
    else if |parts| == 1 then parts[0]
    else parts[0] + sep + Join(parts[1..], sep)
  }

  /** The header lines of the M-SEARCH request for service type `query`. */
  function RequestLines(query: string): seq<string>
  {
    ["M-SEARCH * HTTP/1.1", "HOST: 239.255.255.250:1900", "MAN: \"ssdp:discover\"", "ST: " + query, "MX: 1"]
  }

  /** The M-SEARCH request for service type `query`: five header lines
      joined by CRLF, with no CRLF after the last one. */
  function SearchRequest(query: string): (req: string)
    ensures req == "M-SEARCH * HTTP/1.1" + Crlf + "HOST: 239.255.255.250:1900" + Crlf
                   + "MAN: \"ssdp:discover\"" + Crlf + "ST: " + query + Crlf + "MX: 1"
  {
    JoinFive(RequestLines(query), Crlf);
    Join(RequestLines(query), Crlf)
  }

  lemma JoinFive(parts: seq<string>, sep: string)
    requires |parts| == 5
    ensures Join(parts, sep) == parts[0] + sep + parts[1] + sep + parts[2] + sep + parts[3] + sep + parts[4]
  {
    assert parts[1..][1..] == parts[2..];
    assert parts[2..][1..] == parts[3..];
    assert parts[3..][1..] == parts[4..];
    assert Join(parts[4..], sep) == parts[4];
    assert Join(parts[3..], sep) == parts[3] + sep + parts[4];
    assert Join(parts[2..], sep) == parts[2] + sep + (parts[3] + sep + parts[4]);
    assert Join(parts[1..], sep) == parts[1] + sep + (parts[2] + sep + (parts[3] + sep + parts[4]));
  }

  ghost predicate NoCarriageReturn(s: string)
  {
    forall i :: 0 <= i < |s| ==> s[i] != '\r'
  }

  /** Cuts text at every CRLF, the way a receiver reads a header block
      back into lines; `line` is the part of the current line seen so far. */
  function SplitFrom(s: string, line: string): seq<string>
    decreases |s|
  {
    if |s| == 0 then [line]
    else if |s| >= 2 && s[0] == '\r' && s[1] == '\n' then [line] + SplitFrom(s[2..], "")
    else SplitFrom(s[1..], line + [s[0]])
  }

  function SplitLines(s: string): seq<string>
  {
    SplitFrom(s, "")
  }

  lemma {:induction false} SplitFromLine(line: string, rest: string, acc: string)
    requires NoCarriageReturn(line)
    ensures SplitFrom(line + rest, acc) == SplitFrom(rest, acc + line)
    decreases |line|
  {
    if |line| == 0 {
      assert line + rest == rest;
      assert acc + line == acc;
    } else {
      assert (line + rest)[0] == line[0];
      assert (line + rest)[1..] == line[1..] + rest;
      SplitFromLine(line[1..], rest, acc + [line[0]]);
      assert acc + [line[0]] + line[1..] == acc + line;
    }
  }

  /** Splitting a CRLF-joined block gives back its lines, provided no line
      holds a carriage return of its own. */
  lemma {:induction false} SplitJoin(parts: seq<string>)
    requires |parts| > 0
    requires forall k :: 0 <= k < |parts| ==> NoCarriageReturn(parts[k])
    ensures SplitLines(Join(parts, Crlf)) == parts
    decreases |parts|
  {
    if |parts| == 1 {
      SplitFromLine(parts[0], "", "");
      assert parts[0] + "" == parts[0];
      assert "" + parts[0] == parts[0];
    } else {
      var rest := Join(parts[1..], Crlf);
      assert Join(parts, Crlf) == parts[0] + (Crlf + rest);
      SplitFromLine(parts[0], Crlf + rest, "");
      assert "" + parts[0] == parts[0];
      assert (Crlf + rest)[2..] == rest;
      SplitJoin(parts[1..]);
      assert parts == [parts[0]] + parts[1..];
    }
  }

  lemma RequestLinesHaveNoCarriageReturn(query: string)
    requires NoCarriageReturn(query)
    ensures forall k :: 0 <= k < |RequestLines(query)| ==> NoCarriageReturn(RequestLines(query)[k])
  {
    var lines := RequestLines(query);
    assert NoCarriageReturn(lines[0]);
    assert NoCarriageReturn(lines[1]);
    assert NoCarriageReturn(lines[2]);
    assert NoCarriageReturn(lines[4]);
    assert NoCarriageReturn(lines[3]) by {
      forall i | 0 <= i < |lines[3]| ensures lines[3][i] != '\r' {
        if i >= 4 {
          assert lines[3][i] == query[i - 4];
        }
      }
    }
  }

  /** A receiver splitting the request at CRLF reads exactly the five
      M-SEARCH header lines, the search target intact on the fourth. */
  lemma SearchRequestLines(query: string)
    requires NoCarriageReturn(query)
    ensures SplitLines(SearchRequest(query)) ==
              ["M-SEARCH * HTTP/1.1", "HOST: 239.255.255.250:1900", "MAN: \"ssdp:discover\"",
               "ST: " + query, "MX: 1"]
  {
    RequestLinesHaveNoCarriageReturn(query);
    SplitJoin(RequestLines(query));
  }

  /** The response names `query` among the values of its `St` header
      (compared exactly, case included). */
  predicate Advertises(h: Header, query: string)
  {
    query in Values(h, "St")
  }

  function Advertiser(query: string): Header -> bool
  {
    h => Advertises(h, query)
  }

  /** The responses that advertise `query`, in arrival order. */
  function Filter(hs: seq<Header>, query: string): (found: seq<Header>)
    ensures |found| <= |hs|
    ensures forall k :: 0 <= k < |found| ==> Advertises(found[k], query)
  {
    Keep(hs, Advertiser(query))
  }

  /** The positions of the advertising responses among all responses. */
  function MatchingPositions(hs: seq<Header>, query: string): seq<nat>
  {
    KeptPositions(hs, Advertiser(query))
  }

  /** The discovery result holds one entry per advertising response, in
      arrival order, and nothing else: equal responses from several
      devices are all kept. */
  lemma FilterExactlyAdvertisers(hs: seq<Header>, query: string)
    ensures |Filter(hs, query)| == |MatchingPositions(hs, query)|
    ensures StrictlyIncreasing(MatchingPositions(hs, query))
    ensures forall k :: 0 <= k < |MatchingPositions(hs, query)| ==>
              MatchingPositions(hs, query)[k] < |hs| &&
              Filter(hs, query)[k] == hs[MatchingPositions(hs, query)[k]]
    ensures forall i: nat :: i < |hs| ==> (Advertises(hs[i], query) <==> i in MatchingPositions(hs, query))
  {
    KeepExactly(hs, Advertiser(query));
  }

  /** Two identical advertising responses give two candidates. */
  lemma FilterKeepsDuplicates(h: Header, query: string)
    requires Advertises(h, query)
    ensures Filter([h, h], query) == [h, h]
  {
    assert [h, h][..1] == [h];
    assert [h][..0] == [];
    assert Advertiser(query)(h);
    assert Keep([h], Advertiser(query)) == [h];
  }

  /** One received datagram: a header block, or bytes the HTTP response
      reader rejects. */
  datatype Datagram = Response(header: Header) | Garbled

  /** What the network yields for the request: a socket that could not be
      set up or the request not sent, or every datagram received before
      the read deadline, in arrival order. */
  datatype Probe = SetupFailed | Received(datagrams: seq<Datagram>)

  /** A garbled datagram dereferences the missing response and crashes. */
  datatype SearchOutcome = SearchError | Panicked | Devices(found: seq<Header>)

  predicate AllParsed(dgs: seq<Datagram>)
  {
    forall k :: 0 <= k < |dgs| ==> dgs[k].Response?
  }

  function HeadersOf(dgs: seq<Datagram>): seq<Header>
    requires AllParsed(dgs)
    decreases |dgs|
  {
    if |dgs| == 0 then [] else HeadersOf(dgs[..|dgs| - 1]) + [dgs[|dgs| - 1].header]
  }

  /** The outcome of a search, as a reference for the receive loop. */
  function Discover(query: string, probe: Probe): SearchOutcome
  {
    match probe
    case SetupFailed => SearchError
    case Received(dgs) =>
      if AllParsed(dgs) then Devices(Filter(HeadersOf(dgs), query)) else Panicked
  }

  /** The scan of one response's `St` values: the response is appended at
      the first value equal to `query`, and the scan stops there. */
  method AppendIfAdvertised(devices: seq<Header>, h: Header, query: string)
    returns (devices': seq<Header>)
    ensures Advertises(h, query) ==> devices' == devices + [h]
    ensures !Advertises(h, query) ==> devices' == devices
  {
    devices' := devices;
    var values := Values(h, "St");
    var j := 0;
    while j < |values|
      invariant 0 <= j <= |values|
      invariant query !in values[..j]
      invariant devices' == devices
    {
      if values[j] == query {
        devices' := devices' + [h];
        break;
      }
      assert values[..j + 1] == values[..j] + [values[j]];
      j := j + 1;
    }
    assert j == |values| ==> values[..j] == values;
  }

  lemma FilterStep(dgs: seq<Datagram>, i: nat, query: string)
    requires i < |dgs| && AllParsed(dgs[..i]) && dgs[i].Response?
    ensures AllParsed(dgs[..i + 1])
    ensures Filter(HeadersOf(dgs[..i + 1]), query) ==
              Filter(HeadersOf(dgs[..i]), query) + (if Advertises(dgs[i].header, query) then [dgs[i].header] else [])
  {
    assert dgs[..i + 1][..i] == dgs[..i];
    var prior := HeadersOf(dgs[..i]);
    assert HeadersOf(dgs[..i + 1]) == prior + [dgs[i].header];
    assert (prior + [dgs[i].header])[..|prior|] == prior;
  }

  /** The receive loop: sends the M-SEARCH request for `query`, then keeps
      each response that advertises `query`, in arrival order. */
  method Search(query: string, transport: string -> Probe) returns (outcome: SearchOutcome)
    ensures outcome == Discover(query, transport(SearchRequest(query)))
  {
    var probe := transport(SearchRequest(query));
    if probe.SetupFailed? {
      return SearchError;
    }
    var datagrams := probe.datagrams;
    var devices: seq<Header> := [];
    var i := 0;
    while i < |datagrams|
      invariant 0 <= i <= |datagrams|
      invariant AllParsed(datagrams[..i])
      invariant devices == Filter(HeadersOf(datagrams[..i]), query)
    {
      if datagrams[i].Garbled? {
        assert !AllParsed(datagrams);
        return Panicked;
      }
      var h := datagrams[i].header;
      FilterStep(datagrams, i, query);
      devices := AppendIfAdvertised(devices, h, query);
      i := i + 1;
    }
    assert datagrams[..|datagrams|] == datagrams;
    return Devices(devices);
  }
}
