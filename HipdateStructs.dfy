/** structs.go of the root `hipdate` package: the change event the sources
    emit and the key a host is stored under. Host names and IP addresses are
    plain strings. */
module HipdateStructs {

  /** A change reported by a source: `kind` is "add" or "remove". */
  datatype ChangeEvent = ChangeEvent(kind: string, host: string, ip: string)

  function NewChangeEvent(t: string, h: string, ip: string): (r: ChangeEvent)
    ensures r.kind == t && r.host == h && r.ip == ip
  {
    ChangeEvent(t, h, ip)
  }

  const KeyPrefix: string := "frontend:"

  /** Host.Key: the store key of a host's frontend. */
  function HostKey(h: string): (r: string)
    ensures |r| == |h| + 9
    ensures r[..9] == KeyPrefix && r[9..] == h
  {
    KeyPrefix + h
  }

  /** Distinct hosts have distinct keys. */
  lemma HostKeyInjective(a: string, b: string)
    requires HostKey(a) == HostKey(b)
    ensures a == b
  {
    assert a == HostKey(a)[9..];
  }

  /** One event of the given kind per host, in order, all carrying `ip`. */
  function HostEvents(kind: string, hosts: seq<string>, ip: string): (r: seq<ChangeEvent>)
    ensures |r| == |hosts|
    ensures forall i :: 0 <= i < |hosts| ==> r[i] == ChangeEvent(kind, hosts[i], ip)
  {
    seq(|hosts|, i requires 0 <= i < |hosts| => ChangeEvent(kind, hosts[i], ip))
  }
}
