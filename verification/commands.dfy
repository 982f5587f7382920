/** One AVTransport control call against a device: the request goes to the
    control URL of the device's base URL, and any answer other than
    200 OK is an error naming the path and the status. */
module Commands {
  import opened Wrappers
  import opened Urls

  datatype Command = RemoveAllTracksFromQueue | AddUriToQueue(uri: string)

  /** A control request as issued: where it went and what it asked. */
  datatype Post = Post(url: Url, command: Command)

  /** What came back: an HTTP status, or no response at all (the request
      could not be built or the transport failed). */
  datatype Reply = Status(code: int) | TransportFailure

  datatype CommandError = BadStatus(path: string, code: int) | TransportError

  const StatusOk := 200

  /** The error a reply to a request for `target` amounts to, if any. */
  function ErrorOf(target: Url, reply: Reply): (err: Option<CommandError>)
    ensures err.None? <==> reply == Status(StatusOk)
    ensures reply.Status? && reply.code != StatusOk ==> err == Some(BadStatus(target.path, reply.code))
    ensures reply.TransportFailure? ==> err == Some(TransportError)
  {
    match reply
    case TransportFailure => Some(TransportError)
    case Status(code) => if code == StatusOk then None else Some(BadStatus(target.path, code))
  }

  datatype Dispatched = Dispatched(post: Post, error: Option<CommandError>)

  /** Issues `command` against the device at `base` and reads `reply`. */
  function Dispatch(base: Url, command: Command, reply: Reply): (d: Dispatched)
    ensures d.post.command == command
    ensures d.post.url.path == ControlPath && SameButPath(d.post.url, base)
    ensures d.error.None? <==> reply == Status(StatusOk)
    ensures reply.Status? && reply.code != StatusOk ==> d.error == Some(BadStatus(ControlPath, reply.code))
    ensures reply.TransportFailure? ==> d.error == Some(TransportError)
  {
    var u := ControlUrl(base);
    Dispatched(Post(u, command), ErrorOf(u, reply))
  }
}
