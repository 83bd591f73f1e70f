/** The vulcand domain model (vendored package `backend`): validating
    constructors for hosts, addresses, listeners, locations, upstreams and
    endpoints, their field-wise equality checks, and the printing and
    parsing of the keys that identify them.

    The foreign parsers the constructors consult (Go's regexp compiler,
    vulcan's failover-predicate parser, `time.ParseDuration` and
    `netutils.ParseUrl`) are not part of this model: they are handed in as a
    `Parsers` value, so every property below holds whatever those parsers
    accept. */
module VulcandBackend {
  import opened Wrappers
  import opened Strings

  const HTTP: string := "http"
  const HTTPS: string := "https"
  const TCP: string := "tcp"
  const UNIX: string := "unix"

  /** Outcomes of the foreign parsers. A parsed failover predicate is
      represented by nothing more than its success; a parsed duration by its
      length in nanoseconds. */
  datatype Parsers = Parsers(
    compilesAsRegexp: string -> bool,
    parsePredicate: string -> Result<()>,
    parseDuration: string -> Result<int>,
    parsesAsUrl: string -> bool)

  datatype KeyPair = KeyPair(key: seq<bv8>, cert: seq<bv8>)

  datatype Address = Address(network: string, address: string)

  /** The listening point of a host: protocol http or https over a tcp or
      unix address. */
  datatype Listener = Listener(id: string, protocol: string, address: Address)

  datatype HostOptions = HostOptions(isDefault: bool)

  datatype Host = Host(
    name: string,
    locations: seq<Location>,
    keyPair: Option<KeyPair>,
    listeners: seq<Listener>,
    options: HostOptions)

  datatype LocationLimits = LocationLimits(maxMemBodyBytes: int, maxBodyBytes: int)

  datatype LocationOptions = LocationOptions(
    limits: LocationLimits,
    failoverPredicate: string,
    hostname: string,
    trustForwardHeader: bool)

  /** The zero value `LocationOptions{}`. */
  const DefaultLocationOptions := LocationOptions(LocationLimits(0, 0), "", "", false)

  /** A middleware attached to a location; the plugin value itself is opaque. */
  datatype MiddlewareInstance = MiddlewareInstance(id: string, priority: int, mType: string, middleware: string)

  datatype Location = Location(
    hostname: string,
    path: string,
    id: string,
    upstream: Upstream,
    middlewares: seq<MiddlewareInstance>,
    options: LocationOptions)

  /** The runtime options a location's options resolve to (httploc.Options);
      the failover predicate, when present, is named by its expression. */
  datatype ParsedLocationOptions = ParsedLocationOptions(
    limits: LocationLimits,
    failoverPredicate: Option<string>,
    hostname: string,
    trustForwardHeader: bool)

  datatype UpstreamTimeouts = UpstreamTimeouts(read: string, dial: string, tlsHandshake: string)

  datatype UpstreamKeepAlive = UpstreamKeepAlive(period: string, maxIdleConnsPerHost: int)

  datatype UpstreamOptions = UpstreamOptions(timeouts: UpstreamTimeouts, keepAlive: UpstreamKeepAlive)

  /** The zero value `UpstreamOptions{}`. */
  const DefaultUpstreamOptions := UpstreamOptions(UpstreamTimeouts("", "", ""), UpstreamKeepAlive("", 0))

  /** The transport settings upstream options resolve to
      (httploc.TransportOptions); durations in nanoseconds, 0 when unset. */
  datatype TransportOptions = TransportOptions(
    readTimeout: int,
    dialTimeout: int,
    tlsHandshakeTimeout: int,
    keepAlivePeriod: int,
    maxIdleConnsPerHost: int)

  datatype Endpoint = Endpoint(id: string, url: string, upstreamId: string)

  datatype Upstream = Upstream(id: string, endpoints: seq<Endpoint>, options: UpstreamOptions)

  datatype LocationKey = LocationKey(hostname: string, id: string)

  datatype EndpointKey = EndpointKey(upstreamId: string, id: string)

  // ---------------------------------------------------------------------
  // Key pairs

  /** OR of the byte-wise XORs of two equally long byte strings: the
      accumulator of `crypto/subtle.ConstantTimeCompare`. */
  function XorAccumulate(x: seq<bv8>, y: seq<bv8>): bv8
    requires |x| == |y|
  {
    if x == [] then 0 else (x[0] ^ y[0]) | XorAccumulate(x[1..], y[1..])
  }

  lemma {:induction false} XorAccumulateZero(x: seq<bv8>, y: seq<bv8>)
    requires |x| == |y|
    ensures XorAccumulate(x, y) == 0 <==> x == y
  {
    if x != [] {
      XorAccumulateZero(x[1..], y[1..]);
      var a, b := x[0] ^ y[0], XorAccumulate(x[1..], y[1..]);
      assert a | b == 0 <==> a == 0 && b == 0;
      assert a == 0 <==> x[0] == y[0];
      assert x == [x[0]] + x[1..] && y == [y[0]] + y[1..];
    }
  }

  /** `subtle.ConstantTimeCompare`: 1 when the byte strings are equal, 0
      otherwise (also when their lengths differ). The timing behaviour is not
      modelled. */
  function ConstantTimeCompare(x: seq<bv8>, y: seq<bv8>): (r: int)
    ensures r == 1 <==> x == y
    ensures r == 0 || r == 1
  {
    if |x| != |y| then 0
    else
      XorAccumulateZero(x, y);
      if XorAccumulate(x, y) == 0 then 1 else 0
  }

  /** KeyPair.Equals: lengths agree and both byte strings compare equal. */
  function KeyPairEquals(c: KeyPair, o: KeyPair): (r: bool)
    ensures r <==> c.cert == o.cert && c.key == o.key
  {
    |c.cert| == |o.cert|
    && |c.key| == |o.key|
    && ConstantTimeCompare(c.cert, o.cert) == 1
    && ConstantTimeCompare(c.key, o.key) == 1
  }

  // ---------------------------------------------------------------------
  // Hosts, addresses and listeners

  function NewHost(name: string): (r: Result<Host>)
    ensures r.Err? <==> name == ""
    ensures r.Ok? ==> r.value.name == name && r.value.locations == []
                      && r.value.listeners == [] && r.value.keyPair.None?
                      && HostGetId(r.value) == name
  {
    if name == "" then Err("Hostname can not be empty")
    else Ok(Host(name, [], None, [], HostOptions(false)))
  }

  /** Host.GetId: a host is identified by its name. */
  function HostGetId(h: Host): (r: string)
    ensures r == h.name
  {
    h.name
  }

  function NewAddress(network: string, address: string): (r: Result<Address>)
    ensures r.Ok? <==> address != "" && ToLower(network) in {TCP, UNIX}
    ensures r.Ok? ==> r.value.address == address && r.value.network == ToLower(network)
    ensures r.Ok? ==> r.value.network in {TCP, UNIX} && IsLower(r.value.network)
  {
    if |address| == 0 then Err("supply a non empty address")
    else
      var lowered := ToLower(network);
      if lowered != TCP && lowered != UNIX then
        Err("unsupported network '" + lowered + "', supported networks are tcp and unix")
      else
        Ok(Address(lowered, address))
  }

  function AddressEquals(a: Address, o: Address): (r: bool)
    ensures r <==> a == o
  {
    a.network == o.network && a.address == o.address
  }

  function NewListener(id: string, protocol: string, network: string, address: string): (r: Result<Listener>)
    ensures r.Ok? <==> ToLower(protocol) in {HTTP, HTTPS} && NewAddress(network, address).Ok?
    ensures r.Ok? ==> r.value.id == id && r.value.protocol == ToLower(protocol)
                      && r.value.address == NewAddress(network, address).value
    ensures NewAddress(network, address).Err? ==> r.Err?
  {
    var lowered := ToLower(protocol);
    if lowered != HTTP && lowered != HTTPS then
      Err("unsupported protocol '" + lowered + "', supported protocols are http and https")
    else
      var a :- NewAddress(network, address);
      Ok(Listener(id, lowered, a))
  }

  // ---------------------------------------------------------------------
  // Locations

  function ParseLocationOptions(p: Parsers, l: LocationOptions): (r: Result<ParsedLocationOptions>)
    ensures r.Err? <==> l.failoverPredicate != "" && p.parsePredicate(l.failoverPredicate).Err?
    ensures r.Ok? ==> r.value.limits == l.limits && r.value.hostname == l.hostname
                      && r.value.trustForwardHeader == l.trustForwardHeader
    ensures r.Ok? ==> (r.value.failoverPredicate.Some? <==> l.failoverPredicate != "")
  {
    if |l.failoverPredicate| != 0 && p.parsePredicate(l.failoverPredicate).Err? then
      Err(p.parsePredicate(l.failoverPredicate).msg)
    else
      var parsed := if |l.failoverPredicate| != 0 then Some(l.failoverPredicate) else None;
      Ok(ParsedLocationOptions(l.limits, parsed, l.hostname, l.trustForwardHeader))
  }

  function NewLocationWithOptions(p: Parsers, hostname: string, id: string, path: string,
                                  upstreamId: string, options: LocationOptions): (r: Result<Location>)
    ensures r.Ok? <==> path != "" && hostname != "" && upstreamId != ""
                       && p.compilesAsRegexp(path)
                       && (options.failoverPredicate == "" || p.parsePredicate(options.failoverPredicate).Ok?)
    ensures r.Ok? ==> r.value.hostname == hostname && r.value.path == path && r.value.id == id
                      && r.value.upstream == Upstream(upstreamId, [], DefaultUpstreamOptions)
                      && r.value.middlewares == [] && r.value.options == options
  {
    if |path| == 0 || |hostname| == 0 || |upstreamId| == 0 then
      Err("supply valid hostname, path and upstream id")
    else if !p.compilesAsRegexp(path) then
      Err("path should be a valid Golang regular expression")
    else
      var _ :- ParseLocationOptions(p, options);
      Ok(Location(hostname, path, id, Upstream(upstreamId, [], DefaultUpstreamOptions), [], options))
  }

  /** NewLocation: the default options hold no failover predicate, so only
      the three names and the path pattern decide. */
  function NewLocation(p: Parsers, hostname: string, id: string, path: string, upstreamId: string): (r: Result<Location>)
    ensures r.Ok? <==> path != "" && hostname != "" && upstreamId != "" && p.compilesAsRegexp(path)
    ensures r.Ok? ==> r.value.id == id && r.value.options == DefaultLocationOptions
  {
    NewLocationWithOptions(p, hostname, id, path, upstreamId, DefaultLocationOptions)
  }

  function LocationKeyString(k: LocationKey): (r: string)
    ensures |r| == |k.hostname| + 1 + |k.id| && r[|k.hostname|] == '.'
    ensures r[..|k.hostname|] == k.hostname && r[|k.hostname| + 1..] == k.id
  {
    k.hostname + "." + k.id
  }

  // ---------------------------------------------------------------------
  // Upstreams and endpoints

  /** One optional duration: unset stays 0, anything else must parse. */
  function ParseOptionalDuration(p: Parsers, s: string, what: string): (r: Result<int>)
    ensures r.Err? <==> s != "" && p.parseDuration(s).Err?
    ensures r.Ok? ==> r.value == if s == "" then 0 else p.parseDuration(s).value
  {
    if |s| == 0 then Ok(0)
    else
      match p.parseDuration(s)
      case Err(e) => Err("invalid " + what + ": " + e)
      case Ok(d) => Ok(d)
  }

  /** Text of the keep-alive period error, as the code writes it (it reuses
      the TLS handshake wording). */
  const PeriodErrorLabel := "tls handshake timeout"

  function ParseUpstreamOptions(p: Parsers, o: UpstreamOptions): (r: Result<TransportOptions>)
    ensures r.Ok? <==> (forall s :: s in [o.timeouts.read, o.timeouts.dial, o.timeouts.tlsHandshake, o.keepAlive.period]
                                   ==> s == "" || p.parseDuration(s).Ok?)
    ensures r.Ok? ==> r.value.maxIdleConnsPerHost == o.keepAlive.maxIdleConnsPerHost
    ensures r.Ok? && o.timeouts.read == "" ==> r.value.readTimeout == 0
    ensures r.Ok? && o.timeouts.read != "" ==> r.value.readTimeout == p.parseDuration(o.timeouts.read).value
    ensures r.Ok? && o.timeouts.dial == "" ==> r.value.dialTimeout == 0
    ensures r.Ok? && o.timeouts.dial != "" ==> r.value.dialTimeout == p.parseDuration(o.timeouts.dial).value
    ensures r.Ok? && o.timeouts.tlsHandshake == "" ==> r.value.tlsHandshakeTimeout == 0
    ensures r.Ok? && o.timeouts.tlsHandshake != "" ==>
              r.value.tlsHandshakeTimeout == p.parseDuration(o.timeouts.tlsHandshake).value
    ensures r.Ok? && o.keepAlive.period == "" ==> r.value.keepAlivePeriod == 0
    ensures r.Ok? && o.keepAlive.period != "" ==> r.value.keepAlivePeriod == p.parseDuration(o.keepAlive.period).value
  {
    var read :- ParseOptionalDuration(p, o.timeouts.read, "read timeout");
    var dial :- ParseOptionalDuration(p, o.timeouts.dial, "dial timeout");
    var tls :- ParseOptionalDuration(p, o.timeouts.tlsHandshake, "tls handshake timeout");
    var period :- ParseOptionalDuration(p, o.keepAlive.period, PeriodErrorLabel);
    Ok(TransportOptions(read, dial, tls, period, o.keepAlive.maxIdleConnsPerHost))
  }

  function UpstreamOptionsEquals(u: UpstreamOptions, o: UpstreamOptions): (r: bool)
    ensures r <==> u == o
  {
    u.timeouts.read == o.timeouts.read
    && u.timeouts.dial == o.timeouts.dial
    && u.timeouts.tlsHandshake == o.timeouts.tlsHandshake
    && u.keepAlive.period == o.keepAlive.period
    && u.keepAlive.maxIdleConnsPerHost == o.keepAlive.maxIdleConnsPerHost
  }

  function NewUpstreamWithOptions(p: Parsers, id: string, o: UpstreamOptions): (r: Result<Upstream>)
    ensures r.Ok? <==> ParseUpstreamOptions(p, o).Ok?
    ensures r.Ok? ==> r.value == Upstream(id, [], o)
  {
    var _ :- ParseUpstreamOptions(p, o);
    Ok(Upstream(id, [], o))
  }

  /** NewUpstream: the default options set no duration, so it never fails. */
  function NewUpstream(p: Parsers, id: string): (r: Result<Upstream>)
    ensures r == Ok(Upstream(id, [], DefaultUpstreamOptions))
  {
    NewUpstreamWithOptions(p, id, DefaultUpstreamOptions)
  }

  function NewEndpoint(p: Parsers, upstreamId: string, id: string, url: string): (r: Result<Endpoint>)
    ensures r.Ok? <==> upstreamId != "" && p.parsesAsUrl(url)
    ensures r.Ok? ==> r.value.upstreamId == upstreamId && r.value.id == id && r.value.url == url
  {
    if upstreamId == "" then Err("upstream id can not be empty")
    else if !p.parsesAsUrl(url) then Err("endpoint url '" + url + "' is not valid")
    else Ok(Endpoint(id, url, upstreamId))
  }

  // ---------------------------------------------------------------------
  // Keys and errors

  function EndpointKeyString(k: EndpointKey): (r: string)
    ensures |r| == |k.upstreamId| + 1 + |k.id| && r[|k.upstreamId|] == '.'
    ensures r[..|k.upstreamId|] == k.upstreamId && r[|k.upstreamId| + 1..] == k.id
  {
    k.upstreamId + "." + k.id
  }

  /** `strings.SplitN(v, ".", 2)` must yield two pieces. */
  function ParseEndpointKey(v: string): (r: Result<EndpointKey>)
    ensures r.Err? <==> '.' !in v
    ensures r.Ok? ==> '.' !in r.value.upstreamId && EndpointKeyString(r.value) == v
  {
    match Cut(v, '.')
    case None => Err("invalid id: '" + v + "'")
    case Some((upstreamId, id)) => Ok(EndpointKey(upstreamId, id))
  }

  /** Printing then parsing gives the key back exactly when its upstream id
      holds no '.'. */
  lemma EndpointKeyRoundTrip(k: EndpointKey)
    ensures ParseEndpointKey(EndpointKeyString(k)) == Ok(k) <==> '.' !in k.upstreamId
  {
    CutConcat(k.upstreamId, k.id, '.');
  }

  /** NotFoundError.Error: the message, or a fixed text when it is empty. */
  function NotFoundErrorText(message: string): (r: string)
    ensures r != ""
    ensures message != "" ==> r == message
    ensures message == "" ==> r == "Object not found"
  {
    if message != "" then message else "Object not found"
  }
}
