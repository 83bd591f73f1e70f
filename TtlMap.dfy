/** The vendored `ttlmap` package: a bounded string-keyed cache whose entries
    expire a number of seconds after they were last written.

    The min-heap of expiry times is modelled by what it holds: one priority
    per stored key (`expiryTimes`), with "pop" choosing a key of smallest
    priority. The clock is a `TimeProvider` object whose `now` (whole seconds
    since the epoch) a caller may freeze or advance between calls. */
module TtlMap {
  import opened Wrappers
  import opened Strings

  /** The dynamically typed values the map stores: only whether a value is
      an `int` matters to the package. */
  datatype Value = IntValue(n: int) | OtherValue(repr: string)

  /** A key of smallest priority in a heap. */
  predicate IsMinKey(heap: map<string, int>, k: string)
  {
    k in heap && forall k' :: k' in heap ==> heap[k] <= heap[k']
  }

  /** Every non-empty heap has a key of smallest priority. */
  lemma {:induction false} MinKeyExists(heap: map<string, int>)
    requires heap != map[]
    ensures exists k :: IsMinKey(heap, k)
    decreases |heap|
  {
    var x :| x in heap;
    var rest := heap - {x};
    assert forall k' :: k' in heap ==> k' == x || k' in rest;
    if rest == map[] {
      assert IsMinKey(heap, x);
    } else {
      assert |rest.Keys| < |heap.Keys| by {
        assert rest.Keys == heap.Keys - {x};
      }
      MinKeyExists(rest);
      var m :| IsMinKey(rest, m);
      if heap[x] <= rest[m] {
        assert IsMinKey(heap, x);
      } else {
        assert IsMinKey(heap, m);
      }
    }
  }

  /** `after` is `before` with some keys removed and nothing else changed. */
  ghost predicate Restricts(before: map<string, Value>, after: map<string, Value>)
  {
    forall k :: k in after ==> k in before && after[k] == before[k]
  }

  /** Removal order of the heap: no removed key expires later than a key
      that stays. */
  ghost predicate RemovedEarliest(before: map<string, int>, after: map<string, int>)
  {
    forall r, k :: r in before && r !in after && k in after ==> before[r] <= after[k]
  }

  lemma CardinalityAfterRemove(m: map<string, int>, e: map<string, Value>, k: string)
    requires k in m && m.Keys == e.Keys
    ensures |m - {k}| == |m| - 1 && |e - {k}| == |e| - 1
    ensures (m - {k}).Keys == (e - {k}).Keys
  {
    assert (m - {k}).Keys == m.Keys - {k};
    assert (e - {k}).Keys == e.Keys - {k};
    assert |m.Keys - {k}| == |m.Keys| - 1;
  }

  /** Storing a key that map and heap both lack adds it to both, grows the
      map by one and leaves the rest of the heap as it was. */
  lemma InsertFresh(e: map<string, Value>, x: map<string, int>, key: string, value: Value, t: int)
    requires e.Keys == x.Keys && key !in e
    ensures e[key := value].Keys == x[key := t].Keys
    ensures e[key := value].Keys == e.Keys + {key}
    ensures |e[key := value]| == |e| + 1
    ensures x[key := t] - {key} == x
  {
    assert e[key := value].Keys == e.Keys + {key};
  }

  const MaxInt64: int := 0x7FFF_FFFF_FFFF_FFFF

  /** Nanoseconds in a second: `time.Second` as a `time.Duration`. */
  const NanosPerSecond: int := 1_000_000_000

  /** The largest TTL whose `time.Duration` does not overflow. */
  const MaxTtlSeconds: int := 9_223_372_036

  /** Go's int64 arithmetic: the value modulo 2^64, read as a signed number. */
  function WrapInt64(x: int): (r: int)
    ensures -MaxInt64 - 1 <= r <= MaxInt64
    ensures (r - x) % 0x1_0000_0000_0000_0000 == 0
    ensures -MaxInt64 - 1 <= x <= MaxInt64 ==> r == x
  {
    (x + 0x8000_0000_0000_0000) % 0x1_0000_0000_0000_0000 - 0x8000_0000_0000_0000
  }

  /** toEpochSeconds for a positive TTL: the clock's whole second `now` plus
      `time.Second * time.Duration(ttlSeconds)`, a product of int64
      nanoseconds that wraps, read back in whole seconds (rounded down) by
      `Unix()`. */
  function ExpiryTime(now: int, ttlSeconds: int): (r: int)
    ensures now - MaxTtlSeconds - 1 <= r <= now + MaxTtlSeconds
  {
    now + WrapInt64(NanosPerSecond * ttlSeconds) / NanosPerSecond
  }

  /** A TTL of up to MaxTtlSeconds seconds expires that many seconds from
      now. */
  lemma ExpiryTimeInRange(now: int, ttlSeconds: int)
    requires 0 < ttlSeconds <= MaxTtlSeconds
    ensures ExpiryTime(now, ttlSeconds) == now + ttlSeconds
  {
  }

  /** One second more and the Duration wraps to a negative one: the entry is
      stored already expired. */
  lemma ExpiryTimeWraps(now: int)
    ensures ExpiryTime(now, MaxTtlSeconds + 1) == now - MaxTtlSeconds - 1
    ensures ExpiryTime(now, MaxTtlSeconds + 1) <= now
  {
  }

  /** The clock of a map (timetools.TimeProvider). */
  class TimeProvider {
    var now: int

    constructor (start: int)
      ensures now == start
    {
      now := start;
    }
  }

  class TtlMap {
    const capacity: int
    const clock: TimeProvider
    var elements: map<string, Value>
    var expiryTimes: map<string, int>

    /** Map and heap hold the same keys, and the map is never over capacity. */
    ghost predicate Valid()
      reads this
    {
      capacity > 0 && elements.Keys == expiryTimes.Keys && |elements| <= capacity
    }

    constructor Init(capacity: int, clock: TimeProvider)
      requires capacity > 0
      ensures Valid() && this.capacity == capacity && this.clock == clock
      ensures elements == map[] && expiryTimes == map[]
    {
      this.capacity := capacity;
      this.clock := clock;
      elements := map[];
      expiryTimes := map[];
    }

    /** NewMapWithProvider: a positive capacity and a clock are required. */
    static method NewMapWithProvider(capacity: int, timeProvider: TimeProvider?) returns (m: TtlMap?, err: Option<string>)
      ensures m == null <==> capacity <= 0 || timeProvider == null
      ensures err.Some? <==> m == null
      ensures m != null ==> fresh(m) && m.Valid() && m.capacity == capacity && m.clock == timeProvider
                            && m.elements == map[]
    {
      if capacity <= 0 {
        return null, Some("Capacity should be > 0");
      }
      if timeProvider == null {
        return null, Some("Please pass timeProvider");
      }
      m := new TtlMap.Init(capacity, timeProvider);
      err := None;
    }

    method Len() returns (n: int)
      requires Valid()
      ensures n == |elements| && 0 <= n <= capacity
    {
      n := |elements|;
    }

    /** Pops the heap's minimum while it has expired, at most `iterations`
        times; returns how many entries it removed. */
    method RemoveExpired(iterations: int) returns (removed: int)
      requires Valid()
      modifies this
      ensures Valid()
      ensures 0 <= removed && (removed == 0 || removed <= iterations)
      ensures |elements| == |old(elements)| - removed
      ensures Restricts(old(elements), elements) && expiryTimes.Keys <= old(expiryTimes).Keys
      ensures forall k :: k in expiryTimes ==> expiryTimes[k] == old(expiryTimes)[k]
      ensures forall r :: r in old(expiryTimes) && r !in expiryTimes ==> old(expiryTimes)[r] <= clock.now
      ensures RemovedEarliest(old(expiryTimes), expiryTimes)
      ensures removed < iterations ==> forall k :: k in expiryTimes ==> expiryTimes[k] > clock.now
    {
      removed := 0;
      var now := clock.now;
      var i := 0;
      while i < iterations
        invariant Valid()
        invariant 0 <= i && (i == 0 || i <= iterations) && removed == i
        invariant |elements| == |old(elements)| - removed
        invariant Restricts(old(elements), elements) && expiryTimes.Keys <= old(expiryTimes).Keys
        invariant forall k :: k in expiryTimes ==> expiryTimes[k] == old(expiryTimes)[k]
        invariant forall r :: r in old(expiryTimes) && r !in expiryTimes ==> old(expiryTimes)[r] <= now
        invariant RemovedEarliest(old(expiryTimes), expiryTimes)
        decreases iterations - i
      {
        if |elements| == 0 {
          assert expiryTimes == map[];
          break;
        }
        MinKeyExists(expiryTimes);
        var k :| IsMinKey(expiryTimes, k);
        if expiryTimes[k] > now {
          break;
        }
        CardinalityAfterRemove(expiryTimes, elements, k);
        expiryTimes := expiryTimes - {k};
        elements := elements - {k};
        removed := removed + 1;
        i := i + 1;
      }
    }

    /** Pops the heap's minimum `iterations` times, or until the map is
        empty. */
    method RemoveLastUsed(iterations: int)
      requires Valid()
      modifies this
      ensures Valid()
      ensures |elements| == if iterations <= 0 then |old(elements)|
                            else if |old(elements)| <= iterations then 0
                            else |old(elements)| - iterations
      ensures Restricts(old(elements), elements) && expiryTimes.Keys <= old(expiryTimes).Keys
      ensures forall k :: k in expiryTimes ==> expiryTimes[k] == old(expiryTimes)[k]
      ensures RemovedEarliest(old(expiryTimes), expiryTimes)
    {
      var i := 0;
      while i < iterations
        invariant Valid()
        invariant 0 <= i && (i == 0 || i <= iterations)
        invariant |elements| == |old(elements)| - i
        invariant Restricts(old(elements), elements) && expiryTimes.Keys <= old(expiryTimes).Keys
        invariant forall k :: k in expiryTimes ==> expiryTimes[k] == old(expiryTimes)[k]
        invariant RemovedEarliest(old(expiryTimes), expiryTimes)
        decreases iterations - i
      {
        if |elements| == 0 {
          return;
        }
        MinKeyExists(expiryTimes);
        var k :| IsMinKey(expiryTimes, k);
        CardinalityAfterRemove(expiryTimes, elements, k);
        expiryTimes := expiryTimes - {k};
        elements := elements - {k};
        i := i + 1;
      }
    }

    /** Removes `count` entries of smallest expiry, expired ones first. */
    method FreeSpace(count: int)
      requires Valid() && count >= 1
      modifies this
      ensures Valid()
      ensures |elements| == if |old(elements)| <= count then 0 else |old(elements)| - count
      ensures Restricts(old(elements), elements) && expiryTimes.Keys <= old(expiryTimes).Keys
      ensures forall k :: k in expiryTimes ==> expiryTimes[k] == old(expiryTimes)[k]
      ensures RemovedEarliest(old(expiryTimes), expiryTimes)
    {
      var removed := RemoveExpired(count);
      if removed >= count {
        return;
      }
      RemoveLastUsed(count - removed);
    }

    /** expireElement: drops the entry of `key` when its expiry is not after
        now, and says whether it did. */
    method ExpireElement(key: string) returns (expired: bool)
      requires Valid() && key in elements
      modifies this
      ensures Valid()
      ensures expired <==> old(expiryTimes)[key] <= clock.now
      ensures expired ==> elements == old(elements) - {key} && expiryTimes == old(expiryTimes) - {key}
      ensures !expired ==> elements == old(elements) && expiryTimes == old(expiryTimes)
    {
      if expiryTimes[key] > clock.now {
        return false;
      }
      CardinalityAfterRemove(expiryTimes, elements, key);
      elements := elements - {key};
      expiryTimes := expiryTimes - {key};
      return true;
    }

    /** Set stores `value` under `key` to expire `ttlSeconds` from now (as
        toEpochSeconds computes it). A new key in a full map first evicts one
        entry of smallest expiry. */
    method Set(key: string, value: Value, ttlSeconds: int) returns (err: Option<string>)
      requires Valid()
      modifies this
      ensures Valid()
      ensures err.Some? <==> ttlSeconds <= 0
      ensures err.Some? ==> elements == old(elements) && expiryTimes == old(expiryTimes)
      ensures err.None? ==> key in elements && elements[key] == value
                            && expiryTimes[key] == ExpiryTime(clock.now, ttlSeconds)
      ensures err.None? ==> forall k :: k in elements && k != key ==>
                              k in old(elements) && elements[k] == old(elements)[k]
                              && expiryTimes[k] == old(expiryTimes)[k]
      ensures err.None? && (key in old(elements) || |old(elements)| < capacity) ==>
                elements.Keys == old(elements).Keys + {key}
      ensures err.None? && key !in old(elements) && |old(elements)| == capacity ==>
                |elements| == |old(elements)|
                && RemovedEarliest(old(expiryTimes), expiryTimes - {key})
    {
      if ttlSeconds <= 0 {
        return Some("ttlSeconds should be >= 0, got " + IntToText(ttlSeconds));
      }
      var expiryTime := ExpiryTime(clock.now, ttlSeconds);
      if key !in elements {
        SetNew(key, value, expiryTime);
      } else {
        elements := elements[key := value];
        expiryTimes := expiryTimes[key := expiryTime];
      }
      return None;
    }

    /** The part of Set for a key not yet stored: a full map first frees one
        slot. */
    method SetNew(key: string, value: Value, expiryTime: int)
      requires Valid() && key !in elements
      modifies this
      ensures Valid()
      ensures key in elements && elements[key] == value && expiryTimes[key] == expiryTime
      ensures forall k :: k in elements && k != key ==>
                k in old(elements) && elements[k] == old(elements)[k]
                && expiryTimes[k] == old(expiryTimes)[k]
      ensures |old(elements)| < capacity ==> elements.Keys == old(elements).Keys + {key}
      ensures |old(elements)| == capacity ==>
                |elements| == |old(elements)| && RemovedEarliest(old(expiryTimes), expiryTimes - {key})
    {
      if |elements| >= capacity {
        FreeSpace(1);
      }
      InsertFresh(elements, expiryTimes, key, value, expiryTime);
      elements := elements[key := value];
      expiryTimes := expiryTimes[key := expiryTime];
    }

    /** Get yields the value of a key that has not expired; an expired entry
        is dropped on the way. */
    method Get(key: string) returns (r: Option<Value>)
      requires Valid()
      modifies this
      ensures Valid()
      ensures r.Some? <==> key in old(elements) && old(expiryTimes)[key] > clock.now
      ensures r.Some? ==> r.value == old(elements)[key]
      ensures key in old(elements) && r.None? ==>
                elements == old(elements) - {key} && expiryTimes == old(expiryTimes) - {key}
      ensures key !in old(elements) || r.Some? ==>
                elements == old(elements) && expiryTimes == old(expiryTimes)
    {
      if key !in elements {
        return None;
      }
      var expired := ExpireElement(key);
      if expired {
        return None;
      }
      return Some(elements[key]);
    }

    /** Increment adds `value` to a live integer entry and refreshes its
        expiry; an absent or expired entry starts at `value`. */
    method Increment(key: string, value: int, ttlSeconds: int) returns (r: Result<int>)
      requires Valid()
      modifies this
      ensures Valid()
      ensures ttlSeconds <= 0 || (key in old(elements) && old(expiryTimes)[key] > clock.now
                                  && old(elements)[key].OtherValue?)
              <==> r.Err?
      ensures r.Err? ==> elements == old(elements) && expiryTimes == old(expiryTimes)
      ensures r.Ok? ==> key in elements && elements[key] == IntValue(r.value)
                        && expiryTimes[key] == ExpiryTime(clock.now, ttlSeconds)
      ensures r.Ok? && key in old(elements) && old(expiryTimes)[key] > clock.now ==>
                r.value == old(elements)[key].n + value
                && elements == old(elements)[key := IntValue(r.value)]
                && expiryTimes.Keys == old(expiryTimes).Keys
      ensures r.Ok? && (key !in old(elements) || old(expiryTimes)[key] <= clock.now) ==>
                r.value == value
      ensures r.Ok? && (key in old(elements) || |old(elements)| < capacity) ==>
                elements.Keys == old(elements).Keys + {key}
      ensures r.Ok? && key !in old(elements) && |old(elements)| == capacity ==>
                |elements| == |old(elements)|
                && RemovedEarliest(old(expiryTimes), expiryTimes - {key})
      ensures r.Ok? ==> forall k :: k in elements && k != key ==>
                          k in old(elements) && elements[k] == old(elements)[k]
                          && expiryTimes[k] == old(expiryTimes)[k]
    {
      if ttlSeconds <= 0 {
        return Err("ttlSeconds should be >= 0, got " + IntToText(ttlSeconds));
      }
      var expiryTime := ExpiryTime(clock.now, ttlSeconds);
      if key !in elements {
        var _ := Set(key, IntValue(value), ttlSeconds);
        return Ok(value);
      }
      var expired := ExpireElement(key);
      if expired {
        var _ := Set(key, IntValue(value), ttlSeconds);
        return Ok(value);
      }
      match elements[key]
      case OtherValue(_) =>
        return Err("Expected existing value to be integer");
      case IntValue(current) =>
        var sum := current + value;
        elements := elements[key := IntValue(sum)];
        expiryTimes := expiryTimes[key := expiryTime];
        return Ok(sum);
    }

    /** GetInt: (0, false, no error) for a missing or expired key, an error
        for a value that is not an integer. */
    method GetInt(key: string) returns (n: int, found: bool, err: Option<string>)
      requires Valid()
      modifies this
      ensures Valid()
      ensures found <==> key in old(elements) && old(expiryTimes)[key] > clock.now
                         && old(elements)[key].IntValue?
      ensures found ==> n == old(elements)[key].n && err.None?
      ensures !found ==> n == 0
      ensures err.Some? <==> key in old(elements) && old(expiryTimes)[key] > clock.now
                             && old(elements)[key].OtherValue?
      ensures key !in old(elements) || old(expiryTimes)[key] > clock.now ==>
                elements == old(elements) && expiryTimes == old(expiryTimes)
      ensures key in old(elements) && old(expiryTimes)[key] <= clock.now ==>
                elements == old(elements) - {key} && expiryTimes == old(expiryTimes) - {key}
    {
      var v := Get(key);
      if v.None? {
        return 0, false, None;
      }
      match v.value
      case OtherValue(_) =>
        return 0, false, Some("Expected existing value to be integer");
      case IntValue(x) =>
        return x, true, None;
    }
  }

  /** Decimal text of an integer, for error messages. */
  function IntToText(x: int): string
  {
    if x < 0 then "-" + NatToString(-x) else NatToString(x)
  }
}
