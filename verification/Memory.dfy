/** The in-memory key/value store with per-item expiry (internal/storage/memory.go). */
module Memory {
  import opened Wrappers

  const NANOS_PER_SECOND: int := 1_000_000_000

  /** `exp == 0` means the item never expires. */
  datatype Item<V> = Item(exp: Uint32, value: V)

  /** The expiry second computed by Set, including the wrap-around of 32-bit addition. */
  function ExpiryOf(ttlNanos: int, now: Uint32): Uint32 {
    if ttlNanos > 0 then (ttlNanos / NANOS_PER_SECOND + now) % UINT32 else 0
  }

  predicate Expired<V>(item: Item<V>, now: Uint32) {
    item.exp != 0 && item.exp <= now
  }

  /** What Get returns for an entry it has read, once it looks at the clock. */
  function Answer<V>(entry: Option<Item<V>>, now: Uint32): Option<V> {
    if entry.Some? && !Expired(entry.value, now) then Some(entry.value.value) else None
  }

  /** The keys one scan of the background sweep collects. */
  ghost function ExpiredKeys<V>(data: map<string, Item<V>>, ts: Uint32): set<string> {
    set k | k in data && Expired(data[k], ts)
  }

  /** The data left by one sweep over `keys`: an item replaced since the scan is kept unless it is expired too. */
  ghost function Swept<V>(data: map<string, Item<V>>, keys: set<string>, ts: Uint32): map<string, Item<V>> {
    map k | k in data && !(k in keys && Expired(data[k], ts)) :: data[k]
  }

  /** The process-wide timestamp that a ticker refreshes once a second. */
  class Clock {
    var now: Uint32

    constructor (start: Uint32)
      ensures now == start
    {
      now := start;
    }

    method Tick(unixSeconds: nat)
      modifies this
      ensures now == unixSeconds % UINT32
    {
      now := unixSeconds % UINT32;
    }
  }

  class Store<V> {
    var data: map<string, Item<V>>
    const clock: Clock

    constructor (clock: Clock)
      ensures data == map[] && this.clock == clock
    {
      data := map[];
      this.clock := clock;
    }

    method Get(key: string) returns (r: Option<V>)
      ensures r.Some? <==> key in data && (data[key].exp == 0 || clock.now < data[key].exp)
      ensures r.Some? ==> r.value == data[key].value
      ensures r == Answer(Lookup(data, key), clock.now)
    {
      if key !in data || (data[key].exp != 0 && data[key].exp <= clock.now) {
        return None;
      }
      r := Some(data[key].value);
    }

    method Set(key: string, val: V, ttlNanos: int)
      modifies this
      ensures data == old(data)[key := Item(ExpiryOf(ttlNanos, clock.now), val)]
      ensures ttlNanos <= 0 ==> data == old(data)[key := Item(0, val)]
      ensures ttlNanos > 0 ==> data == old(data)[key := Item((clock.now + ttlNanos / 1_000_000_000) % 0x1_0000_0000, val)]
    {
      var exp: Uint32 := 0;
      if ttlNanos > 0 {
        var seconds := (ttlNanos / NANOS_PER_SECOND) % UINT32;
        exp := (seconds + clock.now) % UINT32;
      }
      data := data[key := Item(exp, val)];
    }

    method Delete(key: string)
      modifies this
      ensures data == old(data) - {key}
    {
      data := data - {key};
    }

    method Reset()
      modifies this
      ensures data == map[]
    {
      data := map[];
    }

    /** First half of a sweep: collect the expired keys, in whatever order the map is iterated. */
    method GcScan(ts: Uint32) returns (expired: seq<string>)
      ensures (set k | k in expired) == ExpiredKeys(data, ts)
      ensures forall k :: k in expired <==> k in data && 0 < data[k].exp <= ts
      ensures forall i, j :: 0 <= i < j < |expired| ==> expired[i] != expired[j]
    {
      expired := [];
      var rest := data.Keys;
      while rest != {}
        invariant rest <= data.Keys
        invariant forall k :: k in expired <==> k in data && k !in rest && Expired(data[k], ts)
        invariant forall i, j :: 0 <= i < j < |expired| ==> expired[i] != expired[j]
        decreases rest
      {
        var key :| key in rest;
        rest := rest - {key};
        if data[key].exp != 0 && data[key].exp <= ts {
          expired := expired + [key];
        }
      }
    }

    /** Second half: re-check every collected key against the current data, then delete it. */
    method GcSweep(expired: seq<string>, ts: Uint32)
      modifies this
      ensures data == Swept(old(data), (set k | k in expired), ts)
      ensures forall k :: k in data <==> k in old(data) && !(k in expired && 0 < old(data)[k].exp <= ts)
      ensures forall k :: k in data ==> data[k] == old(data)[k]
    {
      for i := 0 to |expired|
        invariant data == Swept(old(data), (set k | k in expired[..i]), ts)
      {
        assert expired[..i+1] == expired[..i] + [expired[i]];
        if expired[i] in data && data[expired[i]].exp != 0 && data[expired[i]].exp <= ts {
          data := data - {expired[i]};
        }
      }
      assert expired[..|expired|] == expired;
    }
  }
}
