/** sources/docker/util.go: reading a container's environment into the host
    names it serves and the port it listens on.

    The container environment (`docker.Env`) is given already decoded into
    a lookup table from variable name to value; `docker.Env.GetInt` is a
    signed 64-bit decimal parse yielding -1 for a missing or unparsable
    value. */
module DockerUtil {
  import opened Wrappers
  import opened Strings
  import Shared

  type Env = map<string, string>

  const MinInt64: int := -0x8000_0000_0000_0000
  const MaxInt64: int := 0x7FFF_FFFF_FFFF_FFFF

  const InvalidPortError: string := "Invalid port"

  /** The port a container without WEB_PORT, or with a bad one, is served on. */
  const DefaultPort: Shared.Uint32 := 80

  /** parseHostnameVar: the pieces of the value between its '|' separators,
      so one piece more than there are separators, none holding a '|', and
      joined back with '|' they give the value. */
  function ParseHostnameVar(hostnameVar: string): (r: seq<string>)
    ensures |r| == Count(hostnameVar, '|') + 1
    ensures forall i :: 0 <= i < |r| ==> '|' !in r[i]
    ensures Join(r, '|') == hostnameVar
  {
    SplitPiecesFree(hostnameVar, '|');
    JoinSplit(hostnameVar, '|');
    Split(hostnameVar, '|')
  }

  /** The three properties of ParseHostnameVar single out its result: any
      '|'-free pieces joining to the value are exactly those pieces. */
  lemma ParseHostnameVarUnique(hostnameVar: string, pieces: seq<string>)
    requires |pieces| >= 1
    requires forall i :: 0 <= i < |pieces| ==> '|' !in pieces[i]
    requires Join(pieces, '|') == hostnameVar
    ensures ParseHostnameVar(hostnameVar) == pieces
  {
    SplitJoin(pieces, '|');
  }

  /** getHostnames: no host without WEB_HOSTNAME, otherwise the pieces of its
      value in order. */
  function GetHostnames(e: Env): (r: seq<string>)
    ensures "WEB_HOSTNAME" !in e ==> r == []
    ensures "WEB_HOSTNAME" in e ==>
              |r| >= 1 && Join(r, '|') == e["WEB_HOSTNAME"]
              && forall i :: 0 <= i < |r| ==> '|' !in r[i]
  {
    if "WEB_HOSTNAME" in e then ParseHostnameVar(e["WEB_HOSTNAME"]) else []
  }

  /** "foo|bar" names two hosts and "foo" one. */
  lemma GetHostnamesExamples()
    ensures GetHostnames(map["WEB_HOSTNAME" := "foo|bar"]) == ["foo", "bar"]
    ensures GetHostnames(map["WEB_HOSTNAME" := "foo"]) == ["foo"]
  {
    ParseHostnameVarUnique("foo|bar", ["foo", "bar"]);
    ParseHostnameVarUnique("foo", ["foo"]);
  }

  /** docker.Env.GetInt: the value as a signed 64-bit decimal, or -1 when the
      variable is missing or its value is not such a number. */
  function EnvGetInt(e: Env, key: string): (r: int)
    ensures MinInt64 <= r <= MaxInt64
    ensures key in e && ParseSigned(e[key]).Some? && MinInt64 <= ParseSigned(e[key]).value <= MaxInt64 ==>
              r == ParseSigned(e[key]).value
    ensures r != -1 ==> key in e && ParseSigned(e[key]) == Some(r)
  {
    var s := if key in e then e[key] else "";
    match ParseSigned(s)
    case Some(v) => if MinInt64 <= v <= MaxInt64 then v else -1
    case None => -1
  }

  /** getPort as written: 80 without WEB_PORT, an error for a value below 1,
      and otherwise the value converted to `uint32`, which keeps only its
      low 32 bits. */
  function GetPortAsWritten(e: Env): (r: Result<Shared.Uint32>)
    ensures "WEB_PORT" !in e ==> r == Ok(DefaultPort)
    ensures "WEB_PORT" in e ==> (r.Err? <==> EnvGetInt(e, "WEB_PORT") < 1)
    ensures r.Err? ==> r.msg == InvalidPortError
    ensures "WEB_PORT" in e && r.Ok? ==> r.value % 0x1_0000_0000 == EnvGetInt(e, "WEB_PORT") % 0x1_0000_0000
  {
    if "WEB_PORT" !in e then Ok(DefaultPort)
    else
      var p := EnvGetInt(e, "WEB_PORT");
      if p < 1 then Err(InvalidPortError) else Ok(p % 0x1_0000_0000)
  }

  /** A port of 2^32 is accepted and silently becomes port 0. */
  lemma GetPortAsWrittenWraps()
    ensures GetPortAsWritten(map["WEB_PORT" := NatToString(0x1_0000_0000)]) == Ok(0)
  {
    var s := NatToString(0x1_0000_0000);
    ParseNatToString(0x1_0000_0000);
    assert ParseSigned(s) == Some(0x1_0000_0000);
  }

  /** getPort as intended: 80 without WEB_PORT, an error unless the value is
      a number from 1 to 2^32 - 1, and otherwise that number. */
  function GetPort(e: Env): (r: Result<Shared.Uint32>)
    ensures "WEB_PORT" !in e ==> r == Ok(DefaultPort)
    ensures "WEB_PORT" in e ==>
              (r.Ok? <==> 1 <= EnvGetInt(e, "WEB_PORT") <= Shared.MaxUint32)
              && (r.Ok? ==> ParseSigned(e["WEB_PORT"]) == Some(r.value as int))
    ensures r.Err? ==> r.msg == InvalidPortError
    ensures r.Ok? ==> r.value >= 1
  {
    if "WEB_PORT" !in e then Ok(DefaultPort)
    else
      var p := EnvGetInt(e, "WEB_PORT");
      if p < 1 || p > Shared.MaxUint32 then Err(InvalidPortError) else Ok(p)
  }

  /** Every port number is read back from its decimal text, and text that is
      not a number is rejected. */
  lemma GetPortReadsBack(p: nat)
    requires 1 <= p <= Shared.MaxUint32
    ensures GetPort(map["WEB_PORT" := NatToString(p)]) == Ok(p)
    ensures GetPort(map["WEB_PORT" := "foobar"]) == Err(InvalidPortError)
  {
    ParseNatToString(p);
    assert !IsDigit("foobar"[0]);
  }

  /** getPort's own examples: "8888" is port 8888, "foobar" is an invalid
      port, and without WEB_PORT the port is 80. */
  lemma GetPortAsWrittenExamples()
    ensures GetPortAsWritten(map["WEB_PORT" := "8888"]) == Ok(8888)
    ensures GetPortAsWritten(map["WEB_PORT" := "foobar"]) == Err(InvalidPortError)
    ensures GetPortAsWritten(map[]) == Ok(DefaultPort)
  {
    ParseNatToString(8888);
    assert NatToString(8888) == "8888";
    assert !IsDigit("foobar"[0]);
  }

  /** The two readings of WEB_PORT differ only on values beyond 32 bits. */
  lemma GetPortAgrees(e: Env)
    requires "WEB_PORT" in e ==> EnvGetInt(e, "WEB_PORT") <= Shared.MaxUint32
    ensures GetPort(e) == GetPortAsWritten(e)
  {
  }

  /** What `parseContainer` reads from a container: its id, its IP address
      and its environment. */
  datatype Container = Container(id: string, ip: string, env: Env)

  /** The endpoint a container is served on and the hosts it serves. */
  datatype ParsedContainer = ParsedContainer(endpoint: Shared.Endpoint, hostnames: seq<string>)

  /** parseContainer: an "http" endpoint at the container's IP on the port
      getPort gives, port 80 when getPort fails, and its host names. A
      WEB_PORT beyond 32 bits is not an error for getPort, so its wrapped
      value is used as it is. */
  function ParseContainer(c: Container): (r: ParsedContainer)
    ensures r.endpoint.scheme == "http" && r.endpoint.address == c.ip
    ensures r.endpoint.port == (if GetPortAsWritten(c.env).Ok? then GetPortAsWritten(c.env).value else DefaultPort)
    ensures "WEB_PORT" in c.env && EnvGetInt(c.env, "WEB_PORT") >= 1 ==>
              r.endpoint.port % 0x1_0000_0000 == EnvGetInt(c.env, "WEB_PORT") % 0x1_0000_0000
    ensures r.hostnames == GetHostnames(c.env)
  {
    var hosts := GetHostnames(c.env);
    var port := match GetPortAsWritten(c.env) case Ok(p) => p case Err(_) => DefaultPort;
    ParsedContainer(Shared.NewEndpoint("http", c.ip, port), hosts)
  }

  /** A container with WEB_PORT=4294967296 is served on port 0. */
  lemma ParseContainerPortZero(id: string, ip: string)
    ensures ParseContainer(Container(id, ip, map["WEB_PORT" := NatToString(0x1_0000_0000)])).endpoint.port == 0
  {
    GetPortAsWrittenWraps();
  }

  /** parseContainer as intended: built on the corrected GetPort, so a port
      out of range also falls back to 80 and the port is never 0. */
  function ParseContainerIntended(c: Container): (r: ParsedContainer)
    ensures r.endpoint.scheme == "http" && r.endpoint.address == c.ip
    ensures r.endpoint.port == (if GetPort(c.env).Ok? then GetPort(c.env).value else DefaultPort)
    ensures r.endpoint.port >= 1
    ensures r.hostnames == GetHostnames(c.env)
  {
    var hosts := GetHostnames(c.env);
    var port := match GetPort(c.env) case Ok(p) => p case Err(_) => DefaultPort;
    ParsedContainer(Shared.NewEndpoint("http", c.ip, port), hosts)
  }

  /** The two readings of a container agree whenever its WEB_PORT fits in
      32 bits. */
  lemma ParseContainerAgrees(c: Container)
    requires "WEB_PORT" in c.env ==> EnvGetInt(c.env, "WEB_PORT") <= Shared.MaxUint32
    ensures ParseContainer(c) == ParseContainerIntended(c)
  {
    GetPortAgrees(c.env);
  }
}
