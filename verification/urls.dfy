/** A parsed URL, field for field as the URL library keeps it, and the
    control endpoint derived from a device's base URL. */
module Urls {

  datatype Url = Url(
    scheme: string,
    opaqueData: string,
    user: string,
    host: string,
    path: string,
    rawPath: string,
    omitHost: bool,
    forceQuery: bool,
    rawQuery: string,
    fragment: string,
    rawFragment: string)

  /** The AVTransport control path every command is posted to. */
  const ControlPath := "/MediaRenderer/AVTransport/Control"

  /** `a` and `b` agree on every field except, possibly, the path. */
  predicate SameButPath(a: Url, b: Url)
  {
    && a.scheme == b.scheme
    && a.opaqueData == b.opaqueData
    && a.user == b.user
    && a.host == b.host
    && a.rawPath == b.rawPath
    && a.omitHost == b.omitHost
    && a.forceQuery == b.forceQuery
    && a.rawQuery == b.rawQuery
    && a.fragment == b.fragment
    && a.rawFragment == b.rawFragment
  }

  /** A copy of `base` whose path is the control path; nothing else of
      `base` is touched (not even its raw path). */
  function ControlUrl(base: Url): (u: Url)
    ensures u.path == ControlPath
    ensures SameButPath(u, base)
  {
    base.(path := ControlPath)
  }

  /** The control URL is the one URL with the control path that agrees
      with the base everywhere else. */
  lemma ControlUrlUnique(base: Url, u: Url)
    ensures u == ControlUrl(base) <==> u.path == ControlPath && SameButPath(u, base)
  {
  }

  /** Two bases give the same control URL exactly when they differ at most
      in their paths. */
  lemma ControlUrlIgnoresPath(a: Url, b: Url)
    ensures ControlUrl(a) == ControlUrl(b) <==> SameButPath(a, b)
  {
  }
}
