/**
  The expiring key-value cache (internal/cache) on a backend that is available.

  Either backend may serve it.  The local one records the expiry as a whole Unix
  second and drops an entry once the current second is past it; Redis counts
  whole milliseconds.  A zero lifetime never expires.
 */
module Cache {
  import opened Common

  type Time = int   // nanoseconds since the epoch

  const SECOND: Time := 1_000_000_000
  const MILLI: Time := 1_000_000

  datatype Backend = Local | Redis

  datatype Stored<V> = Stored(value: V, putAt: Time, ttl: Time)

  predicate Alive<V>(b: Backend, s: Stored<V>, now: Time) {
    || s.ttl <= 0
    || (if b.Local? then now / SECOND <= (s.putAt + s.ttl) / SECOND
        else now < s.putAt + s.ttl / MILLI * MILLI)
  }

  function Put<V>(m: map<string, Stored<V>>, key: string, value: V, ttl: Time, now: Time): map<string, Stored<V>> {
    m[key := Stored(value, now, ttl)]
  }

  function Get<V>(b: Backend, m: map<string, Stored<V>>, key: string, now: Time): Option<V> {
    if key in m && Alive(b, m[key], now) then Some(m[key].value) else None
  }

  /** On either backend no entry is dropped before its lifetime, in whole
      milliseconds, is over; and none with a lifetime is served a second past it. */
  lemma NeverEarlyNorLate<V>(b: Backend, s: Stored<V>, now: Time)
    ensures now < s.putAt + s.ttl / MILLI * MILLI ==> Alive(b, s, now)
    ensures s.ttl > 0 && now >= s.putAt + s.ttl + SECOND ==> !Alive(b, s, now)
    ensures s.ttl > 0 && b.Redis? ==> (Alive(b, s, now) <==> now < s.putAt + s.ttl / MILLI * MILLI)
    ensures s.ttl > 0 && b.Local? ==> (Alive(b, s, now) <==> now < ((s.putAt + s.ttl) / SECOND + 1) * SECOND)
    ensures s.ttl <= 0 ==> Alive(b, s, now)
  {
    if now < s.putAt + s.ttl / MILLI * MILLI {
      DivMonotone(now, s.putAt + s.ttl);
    }
    if now >= s.putAt + s.ttl + SECOND {
      DivMonotone(s.putAt + s.ttl + SECOND, now);
      assert (s.putAt + s.ttl + SECOND) / SECOND == (s.putAt + s.ttl) / SECOND + 1;
    }
  }

  lemma DivMonotone(a: Time, b: Time)
    requires a <= b
    ensures a / SECOND <= b / SECOND
  {
  }

  /** The cache as an object. */
  class Cache<V> {
    const backend: Backend
    var data: map<string, Stored<V>>

    constructor (backend: Backend)
      ensures this.backend == backend && data == map[]
    {
      this.backend, data := backend, map[];
    }

    method Store(key: string, value: V, ttl: Time, now: Time)
      modifies this
      ensures data == Put(old(data), key, value, ttl, now)
    {
      data := data[key := Stored(value, now, ttl)];
    }

    method Fetch(key: string, now: Time) returns (found: Option<V>)
      ensures found == Get(backend, data, key, now)
    {
      found := None;
      if key in data {
        var s := data[key];
        var expired := s.ttl > 0 &&
          if backend.Local? then now / SECOND > (s.putAt + s.ttl) / SECOND
          else now >= s.putAt + s.ttl / MILLI * MILLI;
        if !expired {
          found := Some(s.value);
        }
      }
    }

    method Delete(key: string)
      modifies this
      ensures data == old(data) - {key}
    {
      data := data - {key};
    }
  }
}
