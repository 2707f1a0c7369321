/** Values that expire: the file cache behind the API, the install lock and the sync gate
    of `routes.py`. The clock has fractions of seconds; the cache stores the second at which
    a value expires as a whole number, cut off. One worker handles the requests. */
module TimedCache {
  import opened Prelude

  /** `expires` is absent for a value that never expires. */
  datatype Entry<V> = Entry(value: V, expires: Option<int>)

  predicate Lives<V>(e: Entry<V>, now: real) {
    e.expires.None? || now <= e.expires.value as real
  }

  /** `int(time() + timeout)` */
  function Expiry(now: real, timeout: int): int {
    (now + timeout as real).Floor
  }

  /** A value lives at most its timeout, and more than its timeout less one second. */
  lemma ExpiryWithinSecond(now: real, timeout: int)
    ensures now + timeout as real - 1.0 < Expiry(now, timeout) as real <= now + timeout as real
    ensures Expiry(now, timeout) == now.Floor + timeout
  {}

  class Cache<V> {
    var entries: map<string, Entry<V>>

    constructor ()
      ensures entries == map[]
    {
      entries := map[];
    }

    /** What a read at that time finds. */
    function Live(key: string, now: real): Option<V>
      reads this
    {
      if key in entries && Lives(entries[key], now) then Some(entries[key].value) else None
    }

    /** `cache.get`; an expired file is removed. */
    method Get(key: string, now: real) returns (r: Option<V>)
      modifies this
      ensures r == old(Live(key, now))
      ensures entries == if key in old(entries) && r.None? then old(entries) - {key} else old(entries)
    {
      r := Live(key, now);
      if key in entries && r.None? {
        entries := entries - {key};
      }
    }

    /** `cache.set`; a timeout of 0 means for ever. */
    method Set(key: string, value: V, timeout: int, now: real)
      modifies this
      ensures entries == old(entries)[key := Entry(value, if timeout == 0 then None else Some(Expiry(now, timeout)))]
    {
      entries := entries[key := Entry(value, if timeout == 0 then None else Some(Expiry(now, timeout)))];
    }

    /** `cache.delete` */
    method Delete(key: string)
      modifies this
      ensures entries == old(entries) - {key}
    {
      entries := entries - {key};
    }
  }

  // ---------- the install lock ----------

  const LOCK: string := "lock-install"

  datatype Authorization = Granted | Locked(holder: string)

  /** Who holds the lock, and until when. */
  datatype Holder = Nobody | HeldBy(query: string, until: int)

  /** One request: whether it takes the lock, and the lock afterwards. */
  function Ask(h: Holder, query: string, now: real, lockSeconds: int): (bool, Holder) {
    if h.HeldBy? && now <= h.until as real then (false, h) else (true, HeldBy(query, Expiry(now, lockSeconds)))
  }

  class InstallGate {
    const cache: Cache<string>
    const lockSeconds: int

    constructor (cache: Cache<string>, lockSeconds: int)
      ensures this.cache == cache && this.lockSeconds == lockSeconds
    {
      this.cache, this.lockSeconds := cache, lockSeconds;
    }

    ghost function Current(): Holder
      reads cache
    {
      if LOCK in cache.entries && cache.entries[LOCK].expires.Some?
      then HeldBy(cache.entries[LOCK].value, cache.entries[LOCK].expires.value)
      else Nobody
    }

    /** The lock is only ever set with a timeout. */
    ghost predicate Valid()
      reads cache
    {
      LOCK in cache.entries ==> cache.entries[LOCK].expires.Some?
    }

    /** `require_install_authorization`; with no positive lock time everyone is granted. */
    method Authorize(query: string, now: real) returns (r: Authorization)
      requires Valid()
      modifies cache
      ensures Valid()
      ensures lockSeconds <= 0 ==> r == Granted && cache.entries == old(cache.entries)
      ensures lockSeconds > 0 ==> (r == Granted <==> Ask(old(Current()), query, now, lockSeconds).0)
      ensures lockSeconds > 0 && r == Granted ==> Current() == Ask(old(Current()), query, now, lockSeconds).1
      ensures r.Locked? ==> Current() == old(Current()) == HeldBy(r.holder, Current().until) && now <= Current().until as real
    {
      if lockSeconds > 0 {
        var lock := cache.Get(LOCK, now);
        if lock.Some? {
          return Locked(lock.value);
        }
        cache.Set(LOCK, query, lockSeconds, now);
      }
      r := Granted;
    }
  }

  // ---------- grants over time ----------

  /** The lock after the first requests. */
  ghost function HolderAfter(queries: seq<string>, times: seq<real>, lockSeconds: int): Holder
    requires |queries| == |times|
    decreases |times|
  {
    if times == [] then Nobody
    else
      var n := |times| - 1;
      Ask(HolderAfter(queries[..n], times[..n], lockSeconds), queries[n], times[n], lockSeconds).1
  }

  /** Whether the request number i was granted. */
  ghost predicate GrantedAt(queries: seq<string>, times: seq<real>, lockSeconds: int, i: nat)
    requires |queries| == |times| && i < |times|
  {
    Ask(HolderAfter(queries[..i], times[..i], lockSeconds), queries[i], times[i], lockSeconds).0
  }

  ghost predicate Ordered(times: seq<real>) {
    forall i, j :: 0 <= i <= j < |times| ==> times[i] <= times[j]
  }

  /** The time falls before the expiry of that request's lock. */
  predicate Inside(times: seq<real>, lockSeconds: int, i: nat, time: real)
    requires i < |times|
  {
    time <= Expiry(times[i], lockSeconds) as real
  }

  /** A grant locks for the whole time, whoever asks meanwhile. */
  lemma {:induction false} StillLocked(queries: seq<string>, times: seq<real>, lockSeconds: int, i: nat, j: nat)
    requires |queries| == |times| && i < j <= |times| && GrantedAt(queries, times, lockSeconds, i)
    requires forall k :: i < k < j ==> Inside(times, lockSeconds, i, times[k])
    ensures HolderAfter(queries[..j], times[..j], lockSeconds) == HeldBy(queries[i], Expiry(times[i], lockSeconds))
    decreases j
  {
    hide Expiry;
    assert times[..j][..j - 1] == times[..j - 1] && queries[..j][..j - 1] == queries[..j - 1];
    if i < j - 1 {
      StillLocked(queries, times, lockSeconds, i, j - 1);
    }
  }

  lemma {:induction false} HolderWasGranted(queries: seq<string>, times: seq<real>, lockSeconds: int, j: nat)
    requires |queries| == |times| && j <= |times|
    ensures var h := HolderAfter(queries[..j], times[..j], lockSeconds);
      h.HeldBy? ==> exists i :: 0 <= i < j && GrantedAt(queries, times, lockSeconds, i) && h == HeldBy(queries[i], Expiry(times[i], lockSeconds))
  {
    hide Expiry;
    if j > 0 {
      assert times[..j][..j - 1] == times[..j - 1] && queries[..j][..j - 1] == queries[..j - 1];
      HolderWasGranted(queries, times, lockSeconds, j - 1);
      var before := HolderAfter(queries[..j - 1], times[..j - 1], lockSeconds);
      assert HolderAfter(queries[..j], times[..j], lockSeconds) == Ask(before, queries[j - 1], times[j - 1], lockSeconds).1;
      if GrantedAt(queries, times, lockSeconds, j - 1) {
        assert HolderAfter(queries[..j], times[..j], lockSeconds) == HeldBy(queries[j - 1], Expiry(times[j - 1], lockSeconds));
      }
    }
  }

  /** A request is denied if and only if it falls before the expiry of an earlier grant:
      denials never extend the lock and nothing shortens it. */
  lemma DeniedIffInside(queries: seq<string>, times: seq<real>, lockSeconds: int, j: nat)
    requires |queries| == |times| && Ordered(times) && j < |times|
    ensures !GrantedAt(queries, times, lockSeconds, j) <==>
            exists i :: 0 <= i < j && GrantedAt(queries, times, lockSeconds, i) && Inside(times, lockSeconds, i, times[j])
  {
    hide Expiry;
    HolderWasGranted(queries, times, lockSeconds, j);
    forall i | 0 <= i < j && GrantedAt(queries, times, lockSeconds, i) && Inside(times, lockSeconds, i, times[j])
      ensures !GrantedAt(queries, times, lockSeconds, j)
    {
      assert forall k :: i < k < j ==> times[k] <= times[j];
      StillLocked(queries, times, lockSeconds, i, j);
    }
  }

  /** Two grants are more than the lock time less one second apart, and at least the lock
      time in whole seconds. */
  lemma GrantsApart(queries: seq<string>, times: seq<real>, lockSeconds: int, i: nat, j: nat)
    requires |queries| == |times| && Ordered(times) && i < j < |times|
    requires GrantedAt(queries, times, lockSeconds, i) && GrantedAt(queries, times, lockSeconds, j)
    ensures times[j] > times[i] + lockSeconds as real - 1.0
    ensures times[j].Floor >= times[i].Floor + lockSeconds
  {
    hide GrantedAt, Ordered, Expiry;
    DeniedIffInside(queries, times, lockSeconds, j);
    assert !Inside(times, lockSeconds, i, times[j]);
    ExpiryWithinSecond(times[i], lockSeconds);
  }

  /** No larger gap is sure: two grants may lie as close as one likes to the lock time less
      one second. */
  lemma GrantsNearlySecondCloser(query: string, lockSeconds: int, e: real)
    requires 0 < lockSeconds && 0.0 < e <= 0.5
    ensures var times := [1.0 - e, lockSeconds as real + e];
      && Ordered(times) && GrantedAt([query, query], times, lockSeconds, 0) && GrantedAt([query, query], times, lockSeconds, 1)
      && times[1] - times[0] == lockSeconds as real - 1.0 + 2.0 * e
  {
    var queries, times := [query, query], [1.0 - e, lockSeconds as real + e];
    assert Expiry(times[0], lockSeconds) == lockSeconds;
    assert queries[..0] == [] && times[..0] == [];
    DeniedIffInside(queries, times, lockSeconds, 1);
  }

  /** A denial is answered only while an earlier grant's time has not run out. */
  lemma DeniedOnlyInside(queries: seq<string>, times: seq<real>, lockSeconds: int, j: nat)
    requires |queries| == |times| && j < |times| && !GrantedAt(queries, times, lockSeconds, j)
    ensures exists i :: 0 <= i < j && GrantedAt(queries, times, lockSeconds, i) && times[j] <= times[i] + lockSeconds as real
  {
    hide Expiry;
    HolderWasGranted(queries, times, lockSeconds, j);
    var h := HolderAfter(queries[..j], times[..j], lockSeconds);
    var i :| 0 <= i < j && GrantedAt(queries, times, lockSeconds, i) && h == HeldBy(queries[i], Expiry(times[i], lockSeconds));
    ExpiryWithinSecond(times[i], lockSeconds);
  }

  /** gs are some granted requests in order. */
  ghost predicate GrantList(queries: seq<string>, times: seq<real>, lockSeconds: int, gs: seq<nat>) {
    && |queries| == |times|
    && (forall k :: 0 <= k < |gs| ==> gs[k] < |times| && GrantedAt(queries, times, lockSeconds, gs[k]))
    && (forall k, l :: 0 <= k < l < |gs| ==> gs[k] < gs[l])
  }

  /** A window of T seconds holds at most T / L + 1 grants: the seconds lost at one grant
      are not lost again. */
  lemma GrantsInWindow(queries: seq<string>, times: seq<real>, lockSeconds: int, gs: seq<nat>, window: nat)
    requires Ordered(times) && lockSeconds > 0 && GrantList(queries, times, lockSeconds, gs) && gs != []
    requires times[gs[|gs| - 1]] - times[gs[0]] <= window as real
    ensures |gs| <= window / lockSeconds + 1
  {
    GrantsSpread(queries, times, lockSeconds, gs);
    hide GrantedAt, Ordered;
    FloorsWithin(times[gs[0]], times[gs[|gs| - 1]], window);
    AtMostQuotient(|gs| - 1, window, lockSeconds);
  }

  lemma FloorsWithin(a: real, b: real, window: nat)
    requires b - a <= window as real
    ensures b.Floor - a.Floor <= window
  {
    assert (a + window as real).Floor == a.Floor + window;
  }

  lemma {:induction false} GrantsSpread(queries: seq<string>, times: seq<real>, lockSeconds: int, gs: seq<nat>)
    requires Ordered(times) && lockSeconds > 0 && GrantList(queries, times, lockSeconds, gs) && gs != []
    ensures times[gs[|gs| - 1]].Floor - times[gs[0]].Floor >= (|gs| - 1) * lockSeconds
  {
    hide GrantedAt, Ordered;
    var n := |gs| - 1;
    if n > 0 {
      GrantsSpread(queries, times, lockSeconds, gs[..n]);
      GrantsApart(queries, times, lockSeconds, gs[n - 1], gs[n]);
      assert n * lockSeconds == (n - 1) * lockSeconds + lockSeconds;
    }
  }

  lemma TimesGrows(a: int, b: int, l: int)
    requires l > 0
    ensures a >= b ==> a * l >= b * l
  {
    if a >= b { assert (a - b) * l >= 0; }
  }

  lemma AtMostQuotient(k: nat, window: nat, l: int)
    requires l > 0 && k * l <= window
    ensures k <= window / l
  {
    var q := window / l;
    assert window < q * l + l;
    assert (q + 1) * l == q * l + l;
    TimesGrows(k, q + 1, l);
  }

  // ---------- the sync gate ----------

  const NOTIFY: string := "sync-notify"

  datatype Route = Ignition | IgnitionPxe

  /** The last notification has not expired. */
  predicate StillInSync(notified: seq<real>, ttl: int, now: real) {
    notified != [] && (ttl == 0 || now <= Expiry(notified[|notified| - 1], ttl) as real)
  }

  /** It came at most ttl seconds before. */
  lemma InSyncWithin(notified: seq<real>, ttl: int, now: real)
    requires StillInSync(notified, ttl, now)
    ensures notified != [] && (ttl != 0 ==> now <= notified[|notified| - 1] + ttl as real)
  {
    hide Expiry;
    ExpiryWithinSecond(notified[|notified| - 1], ttl);
  }

  class SyncGate {
    const cache: Cache<real>
    const ttl: int
    /** When the syncs sent their notifications. */
    ghost var notified: seq<real>

    constructor (cache: Cache<real>, ttl: int)
      requires cache.entries == map[]
      ensures Valid() && this.cache == cache && this.ttl == ttl && notified == []
    {
      this.cache, this.ttl, notified := cache, ttl, [];
    }

    /** The file, while it is there, is that of the last notification. */
    ghost predicate Valid()
      reads this, cache
    {
      NOTIFY in cache.entries ==>
        notified != [] && cache.entries[NOTIFY] == Entry(notified[|notified| - 1], if ttl == 0 then None else Some(Expiry(notified[|notified| - 1], ttl)))
    }

    /** The file has not been removed while it lives. */
    ghost predicate Kept(now: real)
      reads this, cache
    {
      StillInSync(notified, ttl, now) ==> NOTIFY in cache.entries
    }

    /** `sync_notify` */
    method Notify(now: real)
      requires Valid()
      modifies this, cache
      ensures Valid() && notified == old(notified) + [now] && forall t :: Kept(t)
    {
      cache.Set(NOTIFY, now, ttl, now);
      notified := notified + [now];
    }

    /** `ignition`: whether the request goes on to matchbox. The cache may have dropped the
        file early; then a request in sync is refused, but none out of sync goes on. */
    method Ask(route: Route, now: real) returns (forwarded: bool)
      requires Valid()
      modifies cache
      ensures Valid()
      ensures forwarded && route == Ignition ==> StillInSync(notified, ttl, now)
      ensures old(Kept(now)) ==> (forwarded <==> route == IgnitionPxe || StillInSync(notified, ttl, now))
      ensures forall later :: later >= now && old(Kept(later)) ==> Kept(later)
    {
      hide Expiry;
      var last := cache.Get(NOTIFY, now);
      forwarded := last.Some? || route == IgnitionPxe;
    }
  }
}
