/**
 * The HTTP boundary seen by the fetchers of every service generation.
 * The network itself is not modelled: a `Fetcher` is any function from the
 * request that would be sent to the reply that comes back (a response, or a
 * transport failure such as a refused connection).
 */
module Http {
  import opened Common

  type Headers = map<string, string>

  datatype Request = Request(url: string, headers: Headers)

  datatype Response = Response(status: int, statusText: string, headers: Headers, body: seq<byte>)

  type Fetcher = Request -> Result<Response, string>

  /** `response.ok` of the Fetch standard, Faraday's `success?`: a 2xx status. */
  predicate IsSuccess(r: Response)
  {
    200 <= r.status <= 299
  }

  predicate IsRedirect(r: Response)
  {
    300 <= r.status <= 399
  }

  /** A header value, or None when the header is absent. */
  function Header(h: Headers, name: string): Option<string>
  {
    if name in h then Some(h[name]) else None
  }

  /** The characters an HTTP header value may hold for the Rust `http` crate to read it as text. */
  predicate IsVisibleAscii(c: char)
  {
    ' ' <= c <= '~' || c == '\t'
  }

  /** `HeaderValue::to_str`: the value as text, or None when a character is not visible ASCII. */
  function HeaderToStr(v: string): (r: Option<string>)
    ensures r.Some? <==> forall i :: 0 <= i < |v| ==> IsVisibleAscii(v[i])
    ensures r.Some? ==> r.value == v
  {
    if forall i :: 0 <= i < |v| ==> IsVisibleAscii(v[i]) then Some(v) else None
  }

  /**
   * The path component of a URL (Ruby `URI.parse(url).path`, the WHATWG
   * URL's `pathname` without normalisation): after "scheme://authority",
   * up to the query or fragment.
   */
  function UrlPath(url: string): (path: string)
    ensures '?' !in path && '#' !in path
  {
    var rest := match IndexOf(url, "://")
                case Some(i) => (var afterScheme := url[i + 3..];
                                 match IndexOf(afterScheme, "/")
                                 case Some(j) => afterScheme[j..]
                                 case None => "")
                case None => url;
    TakeUntil(rest, (c: char) => c == '?' || c == '#')
  }

  /** Ruby `File.basename(path)`: the last segment, trailing slashes ignored; "/" for a path of slashes. */
  function RubyBasename(path: string): (r: string)
    ensures r == "/" || '/' !in r
    ensures |path| > 0 ==> |r| > 0
  {
    var trimmed := TrimEndBy(path, (c: char) => c == '/');
    if |trimmed| == 0 then (if |path| > 0 then "/" else "")
    else AfterLast(trimmed, '/')
  }
}
