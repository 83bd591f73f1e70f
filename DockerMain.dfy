/** sources/docker/main.go: the Docker source that keeps, per running
    container, its IP address and host names, and reports an "add" event per
    host when a container starts and a "remove" event per host when it
    stops.

    The event channel is the `events` sequence the source appends to; the
    container inspection the Docker client performs is an input of
    HandleAdd. */
module DockerMain {
  import opened Wrappers
  import opened HipdateStructs
  import DockerUtil

  /** ContainerData: what is remembered about a running container. */
  datatype ContainerData = ContainerData(ip: string, hostnames: seq<string>)

  /** What an inspection of a container returns that the source reads. */
  datatype Container = Container(ip: string, env: DockerUtil.Env)

  function NewContainerData(i: string, h: seq<string>): (r: ContainerData)
    ensures r.ip == i && r.hostnames == h
  {
    ContainerData(i, h)
  }

  /** getHostnames of this file: the host names in the container's
      environment. It is DockerUtil.GetHostnames on the container's
      environment (parseHostnameVar here is DockerUtil.ParseHostnameVar). */
  function GetHostnames(c: Container): (r: seq<string>)
    ensures "WEB_HOSTNAME" !in c.env ==> r == []
    ensures "WEB_HOSTNAME" in c.env ==> r == DockerUtil.ParseHostnameVar(c.env["WEB_HOSTNAME"])
  {
    DockerUtil.GetHostnames(c.env)
  }

  /** The source's state: the container map and the events sent so far. */
  datatype State = State(containers: map<string, ContainerData>, events: seq<ChangeEvent>)

  /** handleAdd on state: after a successful inspection the id maps to the
      container's IP and host names and one "add" event per host follows;
      a failed inspection changes nothing. */
  function AfterAdd(s: State, id: string, inspected: Result<Container>): State
  {
    match inspected
    case Err(_) => s
    case Ok(c) =>
      var hs := GetHostnames(c);
      State(s.containers[id := NewContainerData(c.ip, hs)], s.events + HostEvents("add", hs, c.ip))
  }

  /** handleRemove on state: a known id is dropped and one "remove" event per
      stored host follows, carrying the stored IP; an unknown id changes
      nothing. */
  function AfterRemove(s: State, id: string): State
  {
    if id !in s.containers then s
    else
      var cd := s.containers[id];
      State(s.containers - {id}, s.events + HostEvents("remove", cd.hostnames, cd.ip))
  }

  predicate IsStop(status: string)
  {
    status == "die" || status == "stop" || status == "kill"
  }

  predicate IsStart(status: string)
  {
    status == "start" || status == "restart"
  }

  /** handleEvent on state. */
  function AfterEvent(s: State, status: string, id: string, inspected: Result<Container>): State
  {
    if IsStop(status) then AfterRemove(s, id)
    else if IsStart(status) then AfterAdd(s, id, inspected)
    else s
  }

  /** Removing an unknown container changes nothing. */
  lemma RemoveUnknown(s: State, id: string)
    requires id !in s.containers
    ensures AfterRemove(s, id) == s
  {
  }

  /** Removing a known container forgets it, keeps every other one, and
      reports its hosts in stored order with the stored IP. */
  lemma RemoveKnown(s: State, id: string)
    requires id in s.containers
    ensures id !in AfterRemove(s, id).containers
    ensures forall other :: other != id ==>
              (other in AfterRemove(s, id).containers <==> other in s.containers)
    ensures forall other :: other != id && other in s.containers ==>
              AfterRemove(s, id).containers[other] == s.containers[other]
    ensures var added := AfterRemove(s, id).events[|s.events|..];
            AfterRemove(s, id).events[..|s.events|] == s.events
            && |added| == |s.containers[id].hostnames|
            && forall i :: 0 <= i < |added| ==>
                 added[i] == ChangeEvent("remove", s.containers[id].hostnames[i], s.containers[id].ip)
  {
    var t := AfterRemove(s, id);
    assert t.events == s.events + HostEvents("remove", s.containers[id].hostnames, s.containers[id].ip);
  }

  /** Adding a container overwrites any entry of the same id, keeps every
      other entry, and reports one "add" event per host in order. */
  lemma AddOverwrites(s: State, id: string, c: Container)
    ensures AfterAdd(s, id, Ok(c)).containers[id] == ContainerData(c.ip, GetHostnames(c))
    ensures AfterAdd(s, id, Ok(c)).containers.Keys == s.containers.Keys + {id}
    ensures forall other :: other != id && other in s.containers ==>
              AfterAdd(s, id, Ok(c)).containers[other] == s.containers[other]
    ensures var added := AfterAdd(s, id, Ok(c)).events[|s.events|..];
            AfterAdd(s, id, Ok(c)).events[..|s.events|] == s.events
            && |added| == |GetHostnames(c)|
            && forall i :: 0 <= i < |added| ==> added[i] == ChangeEvent("add", GetHostnames(c)[i], c.ip)
  {
    var t := AfterAdd(s, id, Ok(c));
    assert t.events == s.events + HostEvents("add", GetHostnames(c), c.ip);
  }

  /** A container added and then removed is gone again, every other entry
      is as before, and the "remove" events repeat the "add" events host by
      host with the same IP. */
  lemma AddThenRemove(s: State, id: string, c: Container)
    ensures var t := AfterRemove(AfterAdd(s, id, Ok(c)), id);
            t.containers == s.containers - {id}
            && |t.events| == |s.events| + 2 * |GetHostnames(c)|
            && t.events[..|s.events|] == s.events
            && var added := t.events[|s.events|..|s.events| + |GetHostnames(c)|];
               var removed := t.events[|s.events| + |GetHostnames(c)|..];
               |removed| == |added|
               && forall i :: 0 <= i < |added| ==>
                    added[i].kind == "add" && removed[i].kind == "remove"
                    && added[i].host == removed[i].host && added[i].ip == removed[i].ip == c.ip
  {
    var hs := GetHostnames(c);
    var mid := AfterAdd(s, id, Ok(c));
    assert mid.containers[id] == ContainerData(c.ip, hs);
    var t := AfterRemove(mid, id);
    assert t.events == s.events + HostEvents("add", hs, c.ip) + HostEvents("remove", hs, c.ip);
    assert t.containers == s.containers - {id};
  }

  /** handleEvent: die, stop and kill remove the container, start and
      restart add it, and every other status changes nothing. */
  lemma EventDispatch(s: State, status: string, id: string, inspected: Result<Container>)
    ensures status in {"die", "stop", "kill"} ==> AfterEvent(s, status, id, inspected) == AfterRemove(s, id)
    ensures status in {"start", "restart"} ==> AfterEvent(s, status, id, inspected) == AfterAdd(s, id, inspected)
    ensures status !in {"die", "stop", "kill", "start", "restart"} ==> AfterEvent(s, status, id, inspected) == s
  {
  }

  class DockerSource {
    var containers: map<string, ContainerData>
    var events: seq<ChangeEvent>

    /** NewDockerSource once the client is connected: no container known and
        nothing sent. */
    constructor ()
      ensures containers == map[] && events == []
    {
      containers := map[];
      events := [];
    }

    /** handleAdd: records the inspected container, then sends one "add"
        event per host; a failed inspection is returned as the error. */
    method HandleAdd(id: string, inspected: Result<Container>) returns (err: Option<string>)
      modifies this
      ensures State(containers, events) == AfterAdd(State(old(containers), old(events)), id, inspected)
      ensures err == (if inspected.Err? then Some(inspected.msg) else None)
    {
      if inspected.Err? {
        return Some(inspected.msg);
      }
      var c := inspected.value;
      var ip := c.ip;
      var hs := GetHostnames(c);
      containers := containers[id := NewContainerData(ip, hs)];
      ghost var before := events;
      for i := 0 to |hs|
        invariant containers == old(containers)[id := ContainerData(ip, hs)]
        invariant events == before + HostEvents("add", hs[..i], ip)
      {
        events := events + [NewChangeEvent("add", hs[i], ip)];
        assert hs[..i + 1] == hs[..i] + [hs[i]];
      }
      assert hs[..|hs|] == hs;
      err := None;
    }

    /** handleRemove: forgets a known container and sends one "remove"
        event per stored host; an unknown id is ignored. */
    method HandleRemove(id: string)
      modifies this
      ensures State(containers, events) == AfterRemove(State(old(containers), old(events)), id)
    {
      if id !in containers {
        return;
      }
      var cd := containers[id];
      containers := containers - {id};
      ghost var before := events;
      for i := 0 to |cd.hostnames|
        invariant containers == old(containers) - {id}
        invariant events == before + HostEvents("remove", cd.hostnames[..i], cd.ip)
      {
        events := events + [NewChangeEvent("remove", cd.hostnames[i], cd.ip)];
        assert cd.hostnames[..i + 1] == cd.hostnames[..i] + [cd.hostnames[i]];
      }
      assert cd.hostnames[..|cd.hostnames|] == cd.hostnames;
    }

    /** handleEvent: dispatches on the status; it never reports an error,
        even when the inspection for an add fails. */
    method HandleEvent(status: string, id: string, inspected: Result<Container>) returns (err: Option<string>)
      modifies this
      ensures State(containers, events) == AfterEvent(State(old(containers), old(events)), status, id, inspected)
      ensures err == None
    {
      if IsStop(status) {
        HandleRemove(id);
      } else if IsStart(status) {
        var _ := HandleAdd(id, inspected);
      }
      err := None;
    }
  }
}
