/** sources/docker.go: the older Docker source of the `sources` package. It
    remembers one IP address per container and reports a change event per
    host name of a container whose status changes.

    Its event handler is modelled as written: a container that dies, stops
    or is killed is ADDED, and one that starts or restarts is REMOVED,
    the reverse of sources/docker/main.go. The container fetch performed by
    the Docker client is an input. */
module SourcesDocker {
  import opened Wrappers
  import opened Strings
  import opened HipdateStructs

  /** parseHostnameVar of this file: the value itself when it holds no '|',
      otherwise its '|'-separated pieces. */
  function ParseHostnameVar(hostnameVar: string): (r: seq<string>)
    ensures '|' !in hostnameVar ==> r == [hostnameVar]
    ensures '|' in hostnameVar ==> r == Split(hostnameVar, '|')
  {
    if '|' !in hostnameVar then [hostnameVar] else Split(hostnameVar, '|')
  }

  /** Both branches of ParseHostnameVar are a plain split on '|'. */
  lemma {:induction false} ParseHostnameVarIsSplit(hostnameVar: string)
    ensures ParseHostnameVar(hostnameVar) == Split(hostnameVar, '|')
  {
    if '|' !in hostnameVar {
      SplitPrefixFree(hostnameVar, [], '|');
      assert hostnameVar + [] == hostnameVar;
    }
  }

  /** The map parseEnv builds from the entries `vars`, read from the first
      entry to the last: an entry is cut at its first '=' into name and
      value, a later entry of the same name replaces an earlier one, and an
      entry without '=' is skipped. */
  function EnvMap(vars: seq<string>): map<string, string>
  {
    if vars == [] then map[] else ReadEntry(EnvMap(vars[..|vars| - 1]), vars[|vars| - 1])
  }

  /** One round of parseEnv: the entry cut at its first '=' sets its name,
      an entry without '=' is skipped. */
  function ReadEntry(m: map<string, string>, entry: string): map<string, string>
  {
    match Cut(entry, '=')
    case None => m
    case Some((name, value)) => m[name := value]
  }

  /** Reading an entry into a union only touches the right-hand map. */
  lemma ReadEntryUnion(m1: map<string, string>, m2: map<string, string>, entry: string)
    ensures ReadEntry(m1 + m2, entry) == m1 + ReadEntry(m2, entry)
  {
  }

  /** parseEnv: the loop over the entries, building EnvMap. */
  method ParseEnv(envVars: seq<string>) returns (result: map<string, string>)
    ensures result == EnvMap(envVars)
  {
    result := map[];
    for i := 0 to |envVars|
      invariant result == EnvMap(envVars[..i])
    {
      assert envVars[..i + 1][..i] == envVars[..i];
      var pair := Cut(envVars[i], '=');
      if pair.Some? {
        result := result[pair.value.0 := pair.value.1];
      }
    }
    assert envVars[..|envVars|] == envVars;
  }

  /** Reading two runs of entries one after the other: the second run's
      names override the first's. */
  lemma {:induction false} EnvMapAppend(a: seq<string>, b: seq<string>)
    ensures EnvMap(a + b) == EnvMap(a) + EnvMap(b)
    decreases |b|
  {
    if b == [] {
      assert a + b == a;
    } else {
      var b' := b[..|b| - 1];
      EnvMapAppend(a, b');
      assert (a + b)[..|a + b| - 1] == a + b';
      assert (a + b)[|a + b| - 1] == b[|b| - 1];
      ReadEntryUnion(EnvMap(a), EnvMap(b'), b[|b| - 1]);
    }
  }

  /** A single entry `name=value` with a '='-free name sets exactly that
      name, whatever '=' the value holds. */
  lemma EnvMapEntry(name: string, value: string)
    requires '=' !in name
    ensures EnvMap([name + "=" + value]) == map[name := value]
  {
    CutConcat(name, value, '=');
    var e := [name + "=" + value];
    assert e[..0] == [];
  }

  /** An entry without '=' contributes nothing wherever it stands. */
  lemma EnvMapSkips(a: seq<string>, entry: string, b: seq<string>)
    requires '=' !in entry
    ensures EnvMap(a + [entry] + b) == EnvMap(a + b)
  {
    EnvMapAppend(a + [entry], b);
    EnvMapAppend(a, [entry]);
    EnvMapAppend(a, b);
    assert [entry][..0] == [];
  }

  /** A later entry with the same name overwrites an earlier one. */
  lemma EnvMapLaterWins(a: seq<string>, name: string, v1: string, v2: string)
    requires '=' !in name
    ensures EnvMap(a + [name + "=" + v1] + [name + "=" + v2]) == EnvMap(a)[name := v2]
  {
    EnvMapAppend(a + [name + "=" + v1], [name + "=" + v2]);
    EnvMapAppend(a, [name + "=" + v1]);
    EnvMapEntry(name, v1);
    EnvMapEntry(name, v2);
  }

  /** What a fetch of a container returns that the source reads. */
  datatype Container = Container(id: string, ip: string, env: seq<string>)

  /** getHostnames: no host without WEB_HOSTNAME in the parsed environment,
      otherwise the '|'-separated pieces of its value in order. */
  function GetHostnames(c: Container): (r: seq<string>)
    ensures "WEB_HOSTNAME" !in EnvMap(c.env) ==> r == []
    ensures "WEB_HOSTNAME" in EnvMap(c.env) ==>
              r == Split(EnvMap(c.env)["WEB_HOSTNAME"], '|')
              && Join(r, '|') == EnvMap(c.env)["WEB_HOSTNAME"]
  {
    var env := EnvMap(c.env);
    if "WEB_HOSTNAME" in env then
      var v := env["WEB_HOSTNAME"];
      ParseHostnameVarIsSplit(v);
      JoinSplit(v, '|');
      ParseHostnameVar(v)
    else []
  }

  /** The source's state: the IP map and the events sent so far. */
  datatype State = State(ips: map<string, string>, events: seq<ChangeEvent>)

  /** handleAdd on state. */
  function AddHost(s: State, c: Container, h: string): State
  {
    State(s.ips[c.id := c.ip], s.events + [NewChangeEvent("add", h, c.ip)])
  }

  /** handleRemove on state. */
  function RemoveHost(s: State, c: Container, h: string): State
  {
    if c.id !in s.ips then s
    else State(s.ips - {c.id}, s.events + [NewChangeEvent("remove", h, s.ips[c.id])])
  }

  predicate IsStop(status: string)
  {
    status == "die" || status == "stop" || status == "kill"
  }

  predicate IsStart(status: string)
  {
    status == "start" || status == "restart"
  }

  /** One round of the loop in handleEvent, for host `h`. */
  function HostStep(s: State, status: string, c: Container, h: string): State
  {
    if IsStop(status) then AddHost(s, c, h)
    else if IsStart(status) then RemoveHost(s, c, h)
    else s
  }

  /** The loop of handleEvent over the hosts `hs`, in order. */
  function HostsStep(s: State, status: string, c: Container, hs: seq<string>): State
  {
    if hs == [] then s
    else HostStep(HostsStep(s, status, c, hs[..|hs| - 1]), status, c, hs[|hs| - 1])
  }

  /** handleEvent on state: a failed fetch changes nothing. */
  function AfterEvent(s: State, status: string, fetched: Result<Container>): State
  {
    match fetched
    case Err(_) => s
    case Ok(c) => HostsStep(s, status, c, GetHostnames(c))
  }

  /** A start or restart removes the container's IP and reports at most one
      "remove" event, for its first host: the first removal deletes the IP
      and the later ones find nothing. */
  lemma {:induction false} StartRemovesOnce(s: State, status: string, c: Container, hs: seq<string>)
    requires IsStart(status)
    ensures hs != [] ==> HostsStep(s, status, c, hs).ips == s.ips - {c.id}
    ensures HostsStep(s, status, c, hs).events ==
              s.events + (if hs != [] && c.id in s.ips then [ChangeEvent("remove", hs[0], s.ips[c.id])] else [])
    ensures |HostsStep(s, status, c, hs).events| <= |s.events| + 1
    decreases |hs|
  {
    if hs != [] {
      var front := hs[..|hs| - 1];
      StartRemovesOnce(s, status, c, front);
      if front != [] {
        assert front[0] == hs[0];
      }
    }
  }

  /** A die, stop or kill records the container's IP and reports one "add"
      event per host, in order. */
  lemma {:induction false} StopAddsEach(s: State, status: string, c: Container, hs: seq<string>)
    requires IsStop(status)
    ensures hs != [] ==> HostsStep(s, status, c, hs).ips == s.ips[c.id := c.ip]
    ensures hs == [] ==> HostsStep(s, status, c, hs).ips == s.ips
    ensures HostsStep(s, status, c, hs).events == s.events + HostEvents("add", hs, c.ip)
    decreases |hs|
  {
    if hs != [] {
      var front := hs[..|hs| - 1];
      StopAddsEach(s, status, c, front);
      assert HostEvents("add", hs, c.ip) == HostEvents("add", front, c.ip) + [ChangeEvent("add", hs[|hs| - 1], c.ip)];
    }
  }

  /** Any other status changes nothing. */
  lemma {:induction false} OtherStatusUnchanged(s: State, status: string, c: Container, hs: seq<string>)
    requires !IsStop(status) && !IsStart(status)
    ensures HostsStep(s, status, c, hs) == s
    decreases |hs|
  {
    if hs != [] {
      OtherStatusUnchanged(s, status, c, hs[..|hs| - 1]);
    }
  }

  class DockerSource {
    var ips: map<string, string>
    var events: seq<ChangeEvent>

    /** NewDockerSource: no IP known and nothing sent. */
    constructor ()
      ensures ips == map[] && events == []
    {
      ips := map[];
      events := [];
    }

    /** handleAdd: records the container's IP and sends one "add" event. */
    method HandleAdd(c: Container, h: string)
      modifies this
      ensures State(ips, events) == AddHost(State(old(ips), old(events)), c, h)
    {
      ips := ips[c.id := c.ip];
      events := events + [NewChangeEvent("add", h, c.ip)];
    }

    /** handleRemove: forgets a known container's IP and sends one "remove"
        event carrying it; an unknown container is ignored. */
    method HandleRemove(c: Container, h: string)
      modifies this
      ensures State(ips, events) == RemoveHost(State(old(ips), old(events)), c, h)
    {
      if c.id !in ips {
        return;
      }
      var ip := ips[c.id];
      ips := ips - {c.id};
      events := events + [NewChangeEvent("remove", h, ip)];
    }

    /** handleEvent: a failed fetch is returned as the error; otherwise each
        host of the container goes through the status switch. */
    method HandleEvent(status: string, fetched: Result<Container>) returns (err: Option<string>)
      modifies this
      ensures State(ips, events) == AfterEvent(State(old(ips), old(events)), status, fetched)
      ensures err == (if fetched.Err? then Some(fetched.msg) else None)
    {
      if fetched.Err? {
        return Some(fetched.msg);
      }
      var c := fetched.value;
      var hs := GetHostnames(c);
      for i := 0 to |hs|
        invariant State(ips, events) == HostsStep(State(old(ips), old(events)), status, c, hs[..i])
      {
        assert hs[..i + 1][..i] == hs[..i];
        if IsStop(status) {
          HandleAdd(c, hs[i]);
        } else if IsStart(status) {
          HandleRemove(c, hs[i]);
        }
      }
      assert hs[..|hs|] == hs;
      err := None;
    }
  }
}
