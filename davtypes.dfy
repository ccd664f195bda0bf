/** The values the WebDAV client core works on: the decoded body of a
    PROPFIND reply, the parts of a parsed URL it reads, what one HTTP
    exchange can come back with, the errors it reports, and the rule
    shared by listing and mirroring for which entries are children. */
module DavTypes {

  datatype Option<+T> = None | Some(value: T)

  /** The fields of a parsed URL that the core reads. */
  datatype Url = Url(scheme: string, host: string, path: string)

  /** DAV:resourcetype: `collection` holds when DAV:collection is present. */
  datatype ResourceType = ResourceType(collection: bool)

  datatype Prop = Prop(displayName: string, resourceType: ResourceType)

  /** The status line is decoded but never consulted. */
  datatype Propstat = Propstat(prop: Prop, status: string)

  datatype Response = Response(href: string, propstat: seq<Propstat>)

  /** DAV:multistatus: the responses in the order the server sent them. */
  datatype Multistatus = Multistatus(responses: seq<Response>)

  /** What reading and decoding the body of a 207 reply gave. */
  datatype Body =
    | ReadFailed(reason: string)
    | Malformed(reason: string)
    | Decoded(ms: Multistatus)

  /** Outcome of sending one PROPFIND with `Depth: 1`: either the request
      could not be built or sent, or the server replied. */
  datatype PropfindReply =
    | PropfindFailed(reason: string)
    | PropfindReplied(status: int, body: Body)

  /** Outcome of one GET: the body is opaque content; `copyError` is the
      error, if any, met while streaming it into a local file. */
  datatype GetReply =
    | GetFailed(reason: string)
    | GetReplied(status: int, body: string, copyError: Option<string>)

  /** A request the core sends to the server. */
  datatype Request = Propfind(url: string) | Get(url: string)

  /** Everything outside the core that it consults: what the server
      answers to a PROPFIND or a GET of a URL string, and what the URL
      parser makes of a string (None when it rejects it). */
  datatype Env = Env(
    propfind: string -> PropfindReply,
    get: string -> GetReply,
    parse: string -> Option<Url>)

  datatype Error =
    | RequestError(reason: string)
    | UnexpectedStatus(code: int)
    | ReadError(reason: string)
    | DecodeError(reason: string)
    | UrlError
    | CreateError(name: string)
    | CopyError(reason: string)

  /** A PROPFIND to `u` gave a 207 reply whose body decoded, and `u` itself
      parses: the only case in which any entry is examined. */
  predicate Listed(env: Env, u: string) {
    && env.propfind(u).PropfindReplied?
    && env.propfind(u).status == 207
    && env.propfind(u).body.Decoded?
    && env.parse(u).Some?
  }

  function Entries(env: Env, u: string): seq<Response>
    requires Listed(env, u)
  {
    env.propfind(u).body.ms.responses
  }

  function RequestUrl(env: Env, u: string): Url
    requires Listed(env, u)
  {
    env.parse(u).value
  }

  /** An entry is a child worth acting on when its href parses and its path
      differs from the path of the request (the self-entry is dropped). */
  predicate Kept(parse: string -> Option<Url>, r: Response, reqPath: string) {
    parse(r.href).Some? && parse(r.href).value.path != reqPath
  }

  /** Only the first propstat of an entry is consulted. */
  predicate IsCollection(r: Response)
    requires |r.propstat| > 0
  {
    r.propstat[0].prop.resourceType.collection
  }

  /** Every kept entry carries the propstat that the code reads. */
  predicate PropstatsPresent(parse: string -> Option<Url>, rs: seq<Response>, reqPath: string) {
    forall r <- rs :: Kept(parse, r, reqPath) ==> |r.propstat| > 0
  }

  // ---------------------------------------------------------------------
  // Error text for an unexpected status, as the "%d" verb renders it.

  function Digit(d: nat): char
    requires d < 10
  {
    "0123456789"[d]
  }

  function NatDecimal(n: nat): (s: string)
    ensures |s| > 0
    ensures forall i :: 0 <= i < |s| ==> '0' <= s[i] <= '9'
    ensures |s| > 1 ==> s[0] != '0'
  {
    if n < 10 then [Digit(n)] else NatDecimal(n / 10) + [Digit(n % 10)]
  }

  function Decimal(n: int): string {
    if n < 0 then "-" + NatDecimal(-n) else NatDecimal(n)
  }

  /** The value a string of decimal digits denotes. */
  function DecimalValue(s: string): nat
    requires forall i :: 0 <= i < |s| ==> '0' <= s[i] <= '9'
  {
    if s == [] then 0 else DecimalValue(s[..|s| - 1]) * 10 + (s[|s| - 1] as int - '0' as int)
  }

  lemma {:induction false} NatDecimalRoundTrip(n: nat)
    ensures DecimalValue(NatDecimal(n)) == n
  {
    if n >= 10 {
      var s := NatDecimal(n);
      assert s[..|s| - 1] == NatDecimal(n / 10);
      NatDecimalRoundTrip(n / 10);
    }
  }

  function StatusText(code: int): string {
    "unexpected status code: " + Decimal(code)
  }

  /** The text names the code: a fixed prefix, then digits that read back
      as the code. */
  lemma StatusTextNamesCode(code: nat)
    ensures StatusText(code)[..24] == "unexpected status code: "
    ensures DecimalValue(StatusText(code)[24..]) == code
  {
    assert StatusText(code)[24..] == NatDecimal(code);
    NatDecimalRoundTrip(code);
  }
}
