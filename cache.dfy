/** `SimpleCache`: a value saved as encoded bytes under a key of the user
    defaults store, with the save time under `key + ":lastUpdated"`, and the
    rule that says when a cached value is stale. Times are whole seconds
    since 1970-01-01 in one fixed time zone. */
module Cache {
  import opened Wrappers

  // ------------------------------------------------------------------- time

  const SecondsPerDay: int := 86400

  /** 22:00 as an offset into the day. */
  const TenPMOffset: int := 22 * 3600

  /** `Date.distantPast`: 0001-01-01 00:00:00. */
  const DistantPast: int := -62135596800

  /** `calendar.startOfDay(for: t)`. */
  function StartOfDay(t: int): (s: int)
    ensures s <= t < s + SecondsPerDay
    ensures s % SecondsPerDay == 0
  {
    t - t % SecondsPerDay
  }

  /** The start of a day is the only midnight in it. */
  lemma StartOfDayUnique(t: int, m: int)
    requires m % SecondsPerDay == 0 && m <= t < m + SecondsPerDay
    ensures StartOfDay(t) == m
  {
    var s := StartOfDay(t);
    assert (s - m) % SecondsPerDay == 0;
    assert -SecondsPerDay < s - m < SecondsPerDay;
  }

  /** `calendar.date(from: at22)` for today's date, 22:00:00. */
  function TenPM(now: int): (r: int)
  {
    StartOfDay(now) + TenPMOffset
  }

  /** `shouldRefresh(lastUpdated:calendar:now:)`. */
  function ShouldRefresh(lastUpdated: int, now: int): (r: bool)
  {
    if lastUpdated < StartOfDay(now) then true
    else if now >= TenPM(now) && lastUpdated < TenPM(now) then true
    else false
  }

  /** The latest refresh point at or before `now`: today's 22:00 once it has
      passed, otherwise today's midnight. */
  function LastRefreshPoint(now: int): (p: int)
    ensures p <= now
  {
    if now >= TenPM(now) then TenPM(now) else StartOfDay(now)
  }

  /** A cached value is stale exactly when it was saved before the latest
      refresh point. */
  lemma ShouldRefreshPoint(lastUpdated: int, now: int)
    ensures ShouldRefresh(lastUpdated, now) <==> lastUpdated < LastRefreshPoint(now)
  {
  }

  /** Anything saved before today is stale. */
  lemma RefreshPreviousDay(lastUpdated: int, now: int)
    requires lastUpdated < StartOfDay(now)
    ensures ShouldRefresh(lastUpdated, now)
  {
  }

  /** From 22:00 on, anything saved before 22:00 is stale. */
  lemma RefreshAfterTenPM(lastUpdated: int, now: int)
    requires now >= TenPM(now) && lastUpdated < TenPM(now)
    ensures ShouldRefresh(lastUpdated, now)
  {
  }

  /** Before 22:00, anything saved today is fresh. */
  lemma FreshBeforeTenPM(lastUpdated: int, now: int)
    requires StartOfDay(now) <= lastUpdated && now < TenPM(now)
    ensures !ShouldRefresh(lastUpdated, now)
  {
  }

  /** Anything saved at or after today's 22:00 is fresh. */
  lemma FreshSinceTenPM(lastUpdated: int, now: int)
    requires lastUpdated >= TenPM(now)
    ensures !ShouldRefresh(lastUpdated, now)
  {
  }

  /** A value saved now is fresh now. */
  lemma FreshWhenJustSaved(now: int)
    ensures !ShouldRefresh(now, now)
  {
  }

  /** An older save is at least as stale. */
  lemma RefreshMonotonic(older: int, newer: int, now: int)
    requires older <= newer && ShouldRefresh(newer, now)
    ensures ShouldRefresh(older, now)
  {
  }

  /** A value with no recorded save time is stale from the second day of the
      calendar on. */
  lemma DistantPastIsStale(now: int)
    requires now >= DistantPast + SecondsPerDay
    ensures ShouldRefresh(DistantPast, now)
  {
    assert DistantPast % SecondsPerDay == 0;
    assert StartOfDay(now) >= DistantPast + SecondsPerDay by {
      if StartOfDay(now) < DistantPast + SecondsPerDay {
        StartOfDayUnique(now, DistantPast + SecondsPerDay);
      }
    }
  }

  // ------------------------------------------------------------------ store

  newtype byte = x: int | 0 <= x < 256

  type Bytes = seq<byte>

  /** What `UserDefaults` holds under a key, as far as the cache reads it. */
  datatype Stored = DataValue(bytes: Bytes) | DateValue(time: int)

  /** A value read back, with the time it was saved. */
  datatype Cached<T> = Cached(data: T, lastUpdated: int)

  /** The key the save time is kept under. */
  function StampKey(key: string): (k: string)
    ensures k != key
  {
    key + ":lastUpdated"
  }

  /** The store after `save` has encoded a value as `bytes` at time `now`. */
  function Saved(entries: map<string, Stored>, key: string, bytes: Bytes, now: int): (r: map<string, Stored>)
  {
    entries[key := DataValue(bytes)][StampKey(key) := DateValue(now)]
  }

  /** What `load` returns: nothing without data under the key or when the
      data does not decode, and otherwise the decoded value with the stored
      time, or `distantPast` when there is none. */
  function Lookup<T>(entries: map<string, Stored>, key: string, decode: Bytes -> Option<T>): (r: Option<Cached<T>>)
    ensures r.Some? <==> key in entries && entries[key].DataValue? && decode(entries[key].bytes).Some?
    ensures r.Some? ==> r.value.data == decode(entries[key].bytes).value
    ensures r.Some? && StampKey(key) in entries && entries[StampKey(key)].DateValue? ==>
      r.value.lastUpdated == entries[StampKey(key)].time
    ensures r.Some? && !(StampKey(key) in entries && entries[StampKey(key)].DateValue?) ==>
      r.value.lastUpdated == DistantPast
  {
    if key !in entries || !entries[key].DataValue? then None
    else
      match decode(entries[key].bytes)
      case None => None
      case Some(v) =>
        var stamp := StampKey(key);
        var last := if stamp in entries && entries[stamp].DateValue? then entries[stamp].time else DistantPast;
        Some(Cached(v, last))
  }

  /** Loading what was just saved gives the value back, stamped now, and so
      fresh. */
  lemma LookupSaved<T>(entries: map<string, Stored>, key: string, bytes: Bytes, now: int, decode: Bytes -> Option<T>, value: T)
    requires decode(bytes) == Some(value)
    ensures Lookup(Saved(entries, key, bytes, now), key, decode) == Some(Cached(value, now))
    ensures !ShouldRefresh(Lookup(Saved(entries, key, bytes, now), key, decode).value.lastUpdated, now)
  {
  }

  /** Saving touches only the key and its time stamp. */
  lemma SavedOtherKeys(entries: map<string, Stored>, key: string, bytes: Bytes, now: int, other: string)
    requires other != key && other != StampKey(key)
    ensures other in Saved(entries, key, bytes, now) <==> other in entries
    ensures other in entries ==> Saved(entries, key, bytes, now)[other] == entries[other]
  {
  }

  /** The user defaults store. */
  class Defaults {
    var entries: map<string, Stored>

    constructor()
      ensures entries == map[]
    {
      entries := map[];
    }

    /** `SimpleCache.save(_:forKey:)` at time `now`; nothing is written when
        encoding fails. */
    method Save<T>(value: T, key: string, encode: T -> Option<Bytes>, now: int)
      modifies this
      ensures encode(value).None? ==> entries == old(entries)
      ensures encode(value).Some? ==> entries == Saved(old(entries), key, encode(value).value, now)
    {
      var data := encode(value);
      if data.Some? {
        entries := entries[key := DataValue(data.value)];
        entries := entries[StampKey(key) := DateValue(now)];
      }
    }

    /** `SimpleCache.load(_:forKey:)`. */
    method Load<T>(key: string, decode: Bytes -> Option<T>) returns (r: Option<Cached<T>>)
      ensures r == Lookup(entries, key, decode)
    {
      if key !in entries || !entries[key].DataValue? {
        return None;
      }
      var decoded := decode(entries[key].bytes);
      if decoded.None? {
        return None;
      }
      var last := DistantPast;
      var stamp := StampKey(key);
      if stamp in entries && entries[stamp].DateValue? {
        last := entries[stamp].time;
      }
      return Some(Cached(decoded.value, last));
    }
  }
}
