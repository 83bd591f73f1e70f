/** hipdated/config.go: the daemon's configuration (the backend to drive,
    the sources to read, free-form options) and how two configurations are
    merged. A Go nil option map is `None`. */
module HipdatedConfig {
  import opened Wrappers

  type OptionMap = map<string, string>

  datatype Source = Source(name: string, options: OptionMap)

  datatype Backend = Backend(name: string, options: OptionMap)

  /** NewSource: a nil option map becomes an empty one. */
  function NewSource(n: string, o: Option<OptionMap>): (r: Source)
    ensures r.name == n
    ensures o.None? ==> r.options == map[]
    ensures o.Some? ==> r.options == o.value
  {
    Source(n, if o.None? then map[] else o.value)
  }

  /** NewBackend: a nil option map becomes an empty one. */
  function NewBackend(n: string, o: Option<OptionMap>): (r: Backend)
    ensures r.name == n
    ensures o.None? ==> r.options == map[]
    ensures o.Some? ==> r.options == o.value
  {
    Backend(n, if o.None? then map[] else o.value)
  }

  class Config {
    var backend: Option<Backend>
    var sources: seq<Source>
    var options: OptionMap

    /** NewConfig: no backend, no sources, no options. */
    constructor NewConfig()
      ensures backend.None? && sources == [] && options == map[]
    {
      backend := None;
      sources := [];
      options := map[];
    }

    /** Merge folds `cfg2` into this configuration: its backend wins when it
        has one, its sources follow ours, and its options override ours key by
        key. `cfg2` is read as it was on entry (Go passes it by value), so
        merging a configuration into itself is covered. */
    method Merge(cfg2: Config)
      modifies this
      ensures backend == if old(cfg2.backend).Some? then old(cfg2.backend) else old(backend)
      ensures sources == old(sources) + old(cfg2.sources)
      ensures forall k :: k in options <==> k in old(options) || k in old(cfg2.options)
      ensures forall k :: k in old(cfg2.options) ==> options[k] == old(cfg2.options)[k]
      ensures forall k :: k in old(options) && k !in old(cfg2.options) ==> options[k] == old(options)[k]
    {
      var other, otherSources, otherOptions := cfg2.backend, cfg2.sources, cfg2.options;
      if other.Some? {
        backend := other;
      }
      sources := sources + otherSources;

      options := CopyOptions(options, otherOptions);
    }

    /** The loop of Merge that writes each of `src`'s options into `dst`. */
    static method CopyOptions(dst: OptionMap, src: OptionMap) returns (r: OptionMap)
      ensures forall k :: k in r <==> k in dst || k in src
      ensures forall k :: k in src ==> r[k] == src[k]
      ensures forall k :: k in dst && k !in src ==> r[k] == dst[k]
    {
      r := dst;
      var pending := src.Keys;
      while pending != {}
        invariant pending <= src.Keys
        invariant forall k :: k in r <==> k in dst || (k in src && k !in pending)
        invariant forall k :: k in r ==> r[k] == if k in src && k !in pending then src[k] else dst[k]
        decreases |pending|
      {
        var k :| k in pending;
        r := r[k := src[k]];
        pending := pending - {k};
      }
    }
  }
}
