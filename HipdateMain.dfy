/** main.go of the root `hipdate` package: the application record and the
    host list that collects the upstreams of each host. The backend and the
    Docker client are opaque handles. */
module HipdateMain {

  /** HostList.Add on the map's value: `u` appended to the list of `h`; a
      host not yet present starts from the empty (nil) list. */
  function Added(hosts: map<string, seq<string>>, h: string, u: string): map<string, seq<string>>
  {
    hosts[h := (if h in hosts then hosts[h] else []) + [u]]
  }

  /** A host seen for the first time gets the one-element list. */
  lemma AddedToAbsent(hosts: map<string, seq<string>>, h: string, u: string)
    requires h !in hosts
    ensures Added(hosts, h, u)[h] == [u]
  {
  }

  /** Add appends at the end, never deduplicates, and touches no other host. */
  lemma AddedAppends(hosts: map<string, seq<string>>, h: string, u: string)
    ensures h in Added(hosts, h, u)
    ensures |Added(hosts, h, u)[h]| == (if h in hosts then |hosts[h]| else 0) + 1
    ensures Added(hosts, h, u)[h][|Added(hosts, h, u)[h]| - 1] == u
    ensures h in hosts ==> Added(hosts, h, u)[h][..|hosts[h]|] == hosts[h]
    ensures Added(hosts, h, u).Keys == hosts.Keys + {h}
    ensures forall g :: g in hosts && g != h ==> Added(hosts, h, u)[g] == hosts[g]
  {
  }

  /** HostList: a map from host to its upstreams, updated in place. */
  class HostList {
    var hosts: map<string, seq<string>>

    constructor ()
      ensures hosts == map[]
    {
      hosts := map[];
    }

    method Add(h: string, u: string)
      modifies this
      ensures hosts == Added(old(hosts), h, u)
    {
      var current := if h in hosts then hosts[h] else [];
      hosts := hosts[h := current + [u]];
    }
  }

  class Application<B, D> {
    var backend: B
    var docker: D
    var hosts: HostList?
    var ips: map<string, string>

    /** NewApplication: keeps the backend and the client, starts with an
        empty container-to-IP map and no host list (a nil map in Go). */
    constructor NewApplication(b: B, d: D)
      ensures backend == b && docker == d && ips == map[] && hosts == null
    {
      backend := b;
      docker := d;
      hosts := null;
      ips := map[];
    }
  }
}
