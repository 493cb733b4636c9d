/**
 * The expiring key-value wrapper over the mini-program's storage (utils/storage.js). Every
 * value is stored together with the time it was written and, when a time-to-live was given, the
 * time after which it counts as gone; reading an expired key deletes it. The clock is a
 * parameter (`now`, in milliseconds).
 */
module TtlStorage {
  import opened Wrappers
  import opened Js

  /** The object `set` serializes: the value, the write time and the expiry time (null is None). */
  datatype Entry = Entry(value: JsValue, timestamp: int, expire: Option<int>)

  /** The entry `set(key, value, ttl)` writes at time `now`: a falsy ttl (absent or 0) never expires. */
  function MakeEntry(value: JsValue, now: int, ttl: Option<int>): (e: Entry)
    ensures e.value == value && e.timestamp == now
    ensures e.expire.Some? <==> ttl.Some? && ttl.value != 0
    ensures e.expire.Some? ==> e.expire.value == now + ttl.value
  {
    Entry(value, now, if ttl.Some? && ttl.value != 0 then Some(now + ttl.value) else None)
  }

  /** `data.expire && Date.now() > data.expire`: a truthy expiry time that has passed. */
  predicate Expired(e: Entry, now: int)
  {
    e.expire.Some? && e.expire.value != 0 && now > e.expire.value
  }

  /** What `get` answers: the default for a missing or expired key, the stored value otherwise. */
  function Lookup(entries: map<string, Entry>, key: string, now: int, default: JsValue): (v: JsValue)
    ensures key !in entries ==> v == default
    ensures key in entries && Expired(entries[key], now) ==> v == default
    ensures key in entries && !Expired(entries[key], now) ==> v == entries[key].value
  {
    if key !in entries then default
    else if Expired(entries[key], now) then default
    else entries[key].value
  }

  /** The storage after `get`: an expired key is removed, everything else stays. */
  function AfterLookup(entries: map<string, Entry>, key: string, now: int): (r: map<string, Entry>)
    ensures key in entries && Expired(entries[key], now) ==> r == entries - {key}
    ensures !(key in entries && Expired(entries[key], now)) ==> r == entries
  {
    if key in entries && Expired(entries[key], now) then entries - {key} else entries
  }

  class Storage {
    /** The keys this wrapper wrote, with what is stored under each. */
    var entries: map<string, Entry>

    constructor (entries: map<string, Entry>)
      ensures this.entries == entries
    {
      this.entries := entries;
    }

    /** `set`: always reports success; the key now holds the value stamped with `now`. */
    method Set(key: string, value: JsValue, ttl: Option<int>, now: int) returns (ok: bool)
      modifies this
      ensures ok
      ensures entries == old(entries)[key := MakeEntry(value, now, ttl)]
    {
      entries := entries[key := MakeEntry(value, now, ttl)];
      return true;
    }

    /** `get`: an expired entry is removed and the default returned. */
    method Get(key: string, default: JsValue, now: int) returns (v: JsValue)
      modifies this
      ensures v == Lookup(old(entries), key, now, default)
      ensures entries == AfterLookup(old(entries), key, now)
    {
      if key !in entries {
        return default;
      }
      var data := entries[key];
      if Expired(data, now) {
        var _ := Remove(key);
        return default;
      }
      return data.value;
    }

    /** `remove`: the key is gone, whether or not it was there. */
    method Remove(key: string) returns (ok: bool)
      modifies this
      ensures ok
      ensures entries == old(entries) - {key}
    {
      entries := entries - {key};
      return true;
    }

    /** `clear`. */
    method Clear() returns (ok: bool)
      modifies this
      ensures ok && entries == map[]
    {
      entries := map[];
      return true;
    }
  }

  /**
   * A value written without a time-to-live reads back at any later time, and one written with a
   * positive time-to-live reads back until that many milliseconds have passed; after that the
   * default is returned and the key removed.
   */
  lemma SetGetRoundTrip(entries: map<string, Entry>, key: string, value: JsValue, ttl: Option<int>,
                        now: int, later: int, default: JsValue)
    requires ttl.Some? ==> ttl.value > 0
    requires now >= 0
    ensures var e := entries[key := MakeEntry(value, now, ttl)];
      (ttl.None? || later <= now + ttl.value ==> Lookup(e, key, later, default) == value && AfterLookup(e, key, later) == e)
      && (ttl.Some? && later > now + ttl.value ==>
            Lookup(e, key, later, default) == default && AfterLookup(e, key, later) == entries - {key})
  {
    var e := entries[key := MakeEntry(value, now, ttl)];
    if ttl.Some? && later > now + ttl.value {
      assert e - {key} == entries - {key};
    }
  }

  /** Reading one key never touches another. */
  lemma LookupOtherKey(entries: map<string, Entry>, key: string, other: string, now: int)
    requires other != key
    ensures var r := AfterLookup(entries, key, now);
      (other in r <==> other in entries) && (other in r ==> r[other] == entries[other])
  {
  }
}
