/** Package `shared` of hipdate: the endpoint value the sources report, its
    text form and hash, and the change events built from it.

    `url.Parse` and `crc32.ChecksumIEEE` are not part of this model: the
    parsed URL and the checksum function are inputs. */
module Shared {
  import opened Wrappers
  import opened Strings

  const MaxUint32: int := 0xFFFF_FFFF

  /** Go's `uint32`. */
  type Uint32 = x: int | 0 <= x <= MaxUint32

  datatype Endpoint = Endpoint(scheme: string, address: string, port: Uint32)

  datatype ChangeEvent = ChangeEvent(kind: string, host: string, endpoint: Endpoint)

  /** What `url.Parse` yields that the code reads: scheme and host
      (`host[:port]`). */
  datatype Url = Url(scheme: string, host: string)

  function NewChangeEvent(t: string, h: string, e: Endpoint): (r: ChangeEvent)
    ensures r.kind == t && r.host == h && r.endpoint == e
  {
    ChangeEvent(t, h, e)
  }

  function NewEndpoint(s: string, a: string, p: Uint32): (r: Endpoint)
    ensures r.scheme == s && r.address == a && r.port == p
  {
    Endpoint(s, a, p)
  }

  /** The `host:port` part of an endpoint's text. */
  function HostPort(e: Endpoint): string
  {
    e.address + ":" + NatToString(e.port)
  }

  /** Endpoint.String: `scheme://address:port`, the port in decimal. */
  function EndpointString(e: Endpoint): (r: string)
    ensures |r| == |e.scheme| + 3 + |HostPort(e)|
    ensures r[..|e.scheme|] == e.scheme && r[|e.scheme|..|e.scheme| + 3] == "://"
    ensures r[|e.scheme| + 3..] == HostPort(e)
    ensures ParseDigits(r[|r| - |NatToString(e.port)|..]) == Some(e.port as nat)
  {
    ParseNatToString(e.port);
    e.scheme + "://" + e.address + ":" + NatToString(e.port)
  }

  /** `strconv.ParseUint(s, 10, 32)`: decimal digits only, at most
      MaxUint32. */
  function ParseUint32(s: string): (r: Result<Uint32>)
    ensures r.Ok? <==> ParseDigits(s).Some? && ParseDigits(s).value <= MaxUint32
    ensures r.Ok? ==> r.value == ParseDigits(s).value
  {
    match ParseDigits(s)
    case None => Err(ParseUintError(s, "invalid syntax"))
    case Some(v) =>
      if v > MaxUint32 then Err(ParseUintError(s, "value out of range")) else Ok(v)
  }

  /** Text of the error `strconv.ParseUint` returns for `s`. */
  function ParseUintError(s: string, reason: string): string
  {
    "strconv.ParseUint: parsing \"" + s + "\": " + reason
  }

  /** NewEndpointFromUrl once `url.Parse` has succeeded: the host must hold a
      ':'; the text before the first ':' is the address and the rest must be
      a decimal port that fits in 32 bits. */
  function NewEndpointFromUrl(u: Result<Url>): (r: Result<Endpoint>)
    ensures u.Err? ==> r == Err(u.msg)
    ensures u.Ok? && ':' !in u.value.host ==> r == Err("Missing port in URL")
    ensures u.Ok? && ':' in u.value.host ==>
              var parts := Cut(u.value.host, ':').value;
              (r.Ok? <==> ParseUint32(parts.1).Ok?)
              && (r.Ok? ==> r.value == Endpoint(u.value.scheme, parts.0, ParseUint32(parts.1).value))
  {
    var url :- u;
    match Cut(url.host, ':')
    case None => Err("Missing port in URL")
    case Some((address, port)) =>
      var p :- ParseUint32(port);
      Ok(NewEndpoint(url.scheme, address, p))
  }

  /** An endpoint whose address holds no ':' is read back from the host part
      of its own text; with a ':' in the address it never is. */
  lemma EndpointFromOwnHost(e: Endpoint)
    ensures NewEndpointFromUrl(Ok(Url(e.scheme, HostPort(e)))) == Ok(e) <==> ':' !in e.address
  {
    CutConcat(e.address, NatToString(e.port), ':');
    ParseNatToString(e.port);
    if ':' in e.address {
      var parts := Cut(HostPort(e), ':').value;
      assert |parts.0| < |e.address| by {
        var i :| 0 <= i < |e.address| && e.address[i] == ':';
        assert HostPort(e)[i] == ':';
      }
    }
  }

  /** Endpoint.Hash: the decimal checksum of the endpoint's text. */
  function Hash(e: Endpoint, checksum: string -> Uint32): (r: string)
    ensures ParseDigits(r) == Some(checksum(EndpointString(e)))
  {
    ParseNatToString(checksum(EndpointString(e)));
    NatToString(checksum(EndpointString(e)))
  }

  /** The hash depends on nothing but the text. */
  lemma HashFollowsString(e1: Endpoint, e2: Endpoint, checksum: string -> Uint32)
    requires EndpointString(e1) == EndpointString(e2)
    ensures Hash(e1, checksum) == Hash(e2, checksum)
  {
  }
}
