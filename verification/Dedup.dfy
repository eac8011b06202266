/**
 * Webhook replay cache: a bounded map from request fingerprint to the time it
 * was accepted, with a time-to-live window and oldest-first eviction.
 */
module Dedup {
  import opened Core

  type Key = string
  type Entries = map<Key, Time>

  /** `Instant::duration_since`, which saturates at zero. */
  function Since(now: Time, ts: Time): (d: nat)
  {
    if ts <= now then now - ts else 0
  }

  predicate IsLive(seen: Entries, key: Key, now: Time, window: nat) {
    key in seen && Since(now, seen[key]) < window
  }

  /** The entries that can still make a request a duplicate. */
  function Live(seen: Entries, now: Time, window: nat): Entries {
    map k | k in seen && IsLive(seen, k, now, window) :: seen[k]
  }

  predicate IsOldest(seen: Entries, key: Key) {
    key in seen && forall k :: k in seen ==> seen[key] <= seen[k]
  }

  /** What one call of `check_and_insert` may do; ties between oldest entries are open. */
  ghost predicate CheckStep(seen: Entries, key: Key, now: Time, window: nat, cap: nat, seen': Entries, dup: bool) {
    if IsLive(seen, key, now, window) then
      dup && seen' == seen
    else if key in seen || |seen| < cap then
      !dup && seen' == seen[key := now]
    else
      !dup && exists k :: IsOldest(seen, k) && seen' == (seen - {k})[key := now]
  }

  class WebhookDedup {
    var seen: Entries
    const window: nat
    const maxEntries: nat

    ghost predicate Valid()
      reads this
    {
      0 < maxEntries && |seen| <= maxEntries
    }

    constructor (window: nat, maxEntries: nat)
      ensures Valid() && seen == map[] && this.window == window
      ensures this.maxEntries == if maxEntries == 0 then 1 else maxEntries
    {
      seen := map[];
      this.window := window;
      this.maxEntries := if maxEntries < 1 then 1 else maxEntries;
    }

    method CheckAndInsert(key: Key, now: Time) returns (dup: bool)
      requires Valid()
      modifies this`seen
      ensures Valid()
      ensures CheckStep(old(seen), key, now, window, maxEntries, seen, dup)
    {
      if key in seen {
        if Since(now, seen[key]) < window {
          return true;
        }
        seen := seen[key := now];
        assert seen.Keys == old(seen).Keys;
        assert |seen.Keys| == |seen|;
        assert |old(seen).Keys| == |old(seen)|;
        return false;
      }
      if |seen| >= maxEntries {
        EvictOldest();
      }
      ghost var room := seen;
      seen := seen[key := now];
      assert seen.Keys == room.Keys + {key};
      assert |seen.Keys| == |seen| && |room.Keys| == |room|;
      return false;
    }

    method Prune(now: Time)
      requires Valid()
      modifies this`seen
      ensures Valid()
      ensures seen == Live(old(seen), now, window)
    {
      ghost var before := seen;
      seen := map k | k in seen && Since(now, seen[k]) < window :: seen[k];
      assert seen.Keys <= before.Keys;
      CardinalityOfSubset(seen.Keys, before.Keys);
      assert |seen.Keys| == |seen| && |before.Keys| == |before|;
    }

    method EvictOldest()
      modifies this`seen
      ensures old(seen) == map[] ==> seen == map[]
      ensures old(seen) != map[] ==>
        |seen| == |old(seen)| - 1 &&
        exists k :: IsOldest(old(seen), k) && seen == old(seen) - {k}
    {
      var oldest: Option<(Key, Time)> := None;
      var rest := seen.Keys;
      while rest != {}
        invariant rest <= seen.Keys
        invariant oldest.None? ==> rest == seen.Keys
        invariant oldest.Some? ==> oldest.value.0 in seen && seen[oldest.value.0] == oldest.value.1
        invariant oldest.Some? ==> forall k :: k in seen.Keys - rest ==> oldest.value.1 <= seen[k]
      {
        var key :| key in rest;
        rest := rest - {key};
        var ts := seen[key];
        if oldest.None? || ts < oldest.value.1 {
          oldest := Some((key, ts));
        }
      }
      if oldest.Some? {
        ghost var before := seen;
        seen := seen - {oldest.value.0};
        assert IsOldest(before, oldest.value.0);
        assert seen.Keys == before.Keys - {oldest.value.0};
        assert |seen.Keys| == |seen| && |before.Keys| == |before|;
      } else {
        assert seen.Keys == {};
      }
    }
  }

  lemma {:induction false} CardinalityOfSubset<T>(a: set<T>, b: set<T>)
    requires a <= b
    ensures |a| <= |b|
  {
    if a != {} {
      var x :| x in a;
      CardinalityOfSubset(a - {x}, b - {x});
    }
  }
}
