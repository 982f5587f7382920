# sonos-enqueue, modelled in Dafny

`sonos-enqueue` is a small command-line tool. It finds Sonos zone players on
the local network by an SSDP search (UPnP Device Architecture 1.1, section
1.3). It resolves a room name (`-d`) to one player's base URL, clears that
player's queue unless `-a` (append) is given, and enqueues each positional
argument. This project models the decision logic of that pipeline as pure
functions and loops over already-received network results, and proves what
each step yields:

- **Search request** (`Ssdp.SearchRequest`): the exact M-SEARCH text.
- **Response filter** (`Ssdp.Search`, `Ssdp.Filter`): the responses whose
  `St` header carries the requested service type, in arrival order.
- **Device resolver** (`Resolver.Resolve`, `Resolver.LastMatch`): the base URL
  of the *last* candidate whose `Location` parses, whose descriptor fetch
  succeeds and whose room name matches.
- **Command sequencing** (`Cli.Control`, `Queue.Enqueue`): an optional queue
  clear, then one enqueue per parseable argument, stopping at the first
  refused request. Control URLs replace only the path of the base URL.
- **The whole run** (`Cli.Execute`): the order in which fatal conditions end
  a run, and exactly which fetches and control requests happen before.

The network and libraries enter as parameters (`Cli.Env`):
- `transport` gives the network's answer to the search request text: a setup
  or send failure, or the datagrams received before the read deadline, in
  arrival order.
- `parse` stands for the URL parser.
- `fetch` gives the room name of a descriptor, or nothing when the fetch or
  decoding fails.
- `reply(j)` gives the answer to the `j`-th control request of the run.

Modules: `Wrappers` (Option), `Seqs` (order-preserving selection and its exact
characterisation), `Headers`, `Ssdp`, `Urls`, `Commands`, `Resolver`, `Queue`,
`Cli`.

Three behaviours of `main.go` that a reader might not expect, modelled as written:
- The resolver keeps scanning after a match, so the last match wins, not the
  first.
- Responses are not deduplicated. Two identical advertising responses give
  two candidates (`Ssdp.FilterKeepsDuplicates`).
- A datagram that the HTTP response reader rejects is not skipped. The code
  then closes the body of a nil response (main.go:122-126), which crashes. The
  model therefore ends such a search with `Panicked`, and the run exits with
  `Panic`.

## Model

| member | source | states |
|---|---|---|
| `Ssdp.SearchRequest` | main.go:88-94 | The request is exactly `M-SEARCH * HTTP/1.1`, `HOST: 239.255.255.250:1900`, `MAN: "ssdp:discover"`, `ST: <query>`, `MX: 1`, joined by CRLF, with no CRLF after the last line |
| `Ssdp.SearchRequestLines` | main.go:88-94 | A receiver that splits the request at CRLF reads back exactly those five lines, with the query intact on the fourth (for a query without carriage returns) |
| `Ssdp.AppendIfAdvertised` | main.go:128-133 | A response is appended exactly once if at least one of its `St` values equals the query exactly (case-sensitive), however many values match; otherwise nothing is appended |
| `Ssdp.Filter` | main.go:108-136 | The discovery result is never longer than the list of responses received, and every entry advertises the query |
| `Ssdp.FilterExactlyAdvertisers` | main.go:108-136 | The result holds one entry per advertising response, in arrival order: position `i` is kept iff response `i` advertises, the kept positions strictly increase, and equal responses are not merged |
| `Ssdp.FilterKeepsDuplicates` | main.go:128-133 | Two identical advertising responses yield two candidates |
| `Ssdp.Search` | main.go:81-136 | The search sends exactly the M-SEARCH request. A setup or send failure gives an error. A garbled datagram crashes the search. Otherwise the result is the ordered filter of the responses |
| `Urls.ControlUrl` | main.go:161-162 | The control URL has path `/MediaRenderer/AVTransport/Control`, and every other field equals the base URL's, raw path included |
| `Urls.ControlUrlUnique` | main.go:191-192 | A URL is the control URL of a base iff its path is the control path and it agrees with the base on every other field |
| `Urls.ControlUrlIgnoresPath` | main.go:191-192 | Two base URLs give the same control URL iff they differ at most in their paths |
| `Commands.ErrorOf` | main.go:177-185 | A reply is an error iff it is not status 200. Another status yields an error with the request's path and that status code. A transport failure yields a transport error |
| `Commands.Dispatch` | main.go:190-219 | A control call is posted to the control URL of the base with the given command. It fails iff the reply is not 200. A status failure carries the control path and the status code, and a transport failure gives the transport error |
| `Resolver.Resolve` | main.go:39-56 | The resolution loop ends with the last qualifying candidate's URL, and it fetched one descriptor per candidate whose `Location` parses, in candidate order |
| `Resolver.LastMatchIsLastQualifying` | main.go:40-56 | No device is resolved iff no candidate qualifies. Otherwise the resolved URL belongs to a qualifying candidate with no qualifying candidate after it |
| `Resolver.LastMatchConcat` | main.go:53-55 | A qualifying candidate later in the list overrides every earlier one; if none qualifies later, the earlier ones decide |
| `Resolver.LastMatchIgnoresNonQualifying` | main.go:41-51 | Removing a candidate whose location fails to parse, whose fetch fails or whose room name differs never changes the result |
| `Resolver.SecondOfTwoMatchesWins` | main.go:53-55 | When two candidates both resolve to the target room, the second one is chosen |
| `Queue.Accepted` | main.go:68-72 | The accepted arguments are at most as many as given, and every one of them parses |
| `Queue.AcceptedExactlyParseable` | main.go:68-72 | Argument `i` is accepted iff it parses; accepted arguments keep argument order and appear once each |
| `Queue.Enqueue` | main.go:68-77 | Enqueue requests go out for the parseable arguments in order, as a prefix of the full list. Without a failure, each parseable argument is sent exactly once and every reply was 200. On a failure, the refused request is the last one sent, all earlier ones succeeded, and the error names that item |
| `Cli.PlanClearsFirst` | main.go:62-66 | The planned requests contain a queue clear iff not appending; that clear comes first, before any enqueue, and every request goes to the control URL |
| `Cli.Control` | main.go:62-77 | The requests issued are a prefix of the plan. The phase succeeds iff the whole plan was sent and every reply was 200. Otherwise the last request was refused and all before it succeeded. A refused clear ends the phase before any enqueue |
| `Cli.ResolveAndControl` | main.go:39-77 | Given a non-empty candidate list, the run fetches every candidate with a parseable location. It ends with "Device not found" iff no candidate qualifies, and then sends no control request. Otherwise it follows the plan for the last qualifying candidate's URL |
| `Cli.Execute` | main.go:23-78 | An empty device name ends the run before any search. Search failure, a crash or an empty discovery end it before any fetch. Every candidate with a parseable location is fetched. "Device not found" names the configured device, and comes only after the full scan and before any control request. A run that resolves the device ends in the control phase, either done or with a refused clear or enqueue. Control requests follow the plan for the resolved device |

## Left out

- Socket setup, the multicast send, the 2-second read deadline and the receive loop's termination (main.go:82-118) are I/O and wall-clock timing. The received datagrams are a finite input sequence (`Ssdp.Probe`), and a receive error just ends that sequence.
- `http.ReadResponse` parsing and header-key canonicalisation are library internals. A datagram is either an already-canonicalised header map or `Garbled`.
- `url.Parse` is a library parser. It is the `parse` parameter.
- `fetchDevice` (main.go:139-154) does an HTTP GET and XML decoding. It is the `fetch` parameter, which returns the room name, or nothing on any error.
- The HTTP POST transport, the `SOAPACTION` header with its exact case, and `Content-Type` (main.go:166-181, 198-213) are foreign client behaviour. Their outcome is the `reply` parameter, where a failure to build or send the request is `TransportFailure`.
- The SOAP envelope texts and `html.EscapeString` (main.go:164, 194-196) are fixed templates around a library escaper. A command is modelled as `RemoveAllTracksFromQueue` or `AddUriToQueue(item)`.
- Flag parsing is a library. The parsed flags and positional arguments are `Cli.Config`.
- Log messages and process exit mechanics are not modelled. `log.Fatal` becomes `Exit.Fatal` with the condition, and the crash becomes `Exit.Panic`.
- Ssdp.SearchRequestLines: requires a query without carriage returns. The tool only ever passes the constant `urn:schemas-upnp-org:device:ZonePlayer:1`.
