/** A received header block as the HTTP library hands it over: each
    canonicalised key maps to its values in the order they appeared. */
module Headers {

  type Header = map<string, seq<string>>

  /** Every value of `key`; a key that is absent has none. */
  function Values(h: Header, key: string): seq<string>
  {
    if key in h then h[key] else []
  }

  /** The first value of `key`, or the empty string when it has none. */
  function Get(h: Header, key: string): string
  {
    if key in h && |h[key]| > 0 then h[key][0] else ""
  }
}
