/**
 * includes/functions.php: the CSRF comparison, the status maps, the file cache's
 * TTL rule, the per-address sliding-window rate limiter, the response signer and
 * verifier, and the page range of the pagination widget.
 */
module Functions {
  import opened Wrappers
  import opened Php
  import Json

  // ---------------------------------------------------------------- CSRF

  /** `validate_csrf_token`: a missing or empty session token, or an empty given
      token, is refused; otherwise the two must be equal. */
  function ValidateCsrfToken(sessionToken: Option<string>, token: string): (ok: bool)
    ensures ok ==> sessionToken == Some(token) && !IsEmpty(token)
    ensures sessionToken == Some(token) && !IsEmpty(token) ==> ok
  {
    if sessionToken.None? || IsEmpty(sessionToken.value) || IsEmpty(token) then false
    else sessionToken.value == token
  }

  // ---------------------------------------------------------------- status maps

  const KnownStatuses: set<string> := {"active", "inactive", "expired"}

  /** `get_status_color`: the Bootstrap colour class of a status. */
  function StatusColor(status: string): (color: string)
    ensures color == "secondary" <==> status !in KnownStatuses
    ensures status == "active" ==> color == "success"
    ensures status == "inactive" ==> color == "warning"
    ensures status == "expired" ==> color == "danger"
  {
    if status == "active" then "success"
    else if status == "inactive" then "warning"
    else if status == "expired" then "danger"
    else "secondary"
  }

  /** `get_status_label`: the German label of a status; an unknown status is shown as is. */
  function StatusLabel(status: string): (shown: string)
    ensures shown == status <==> status !in KnownStatuses
    ensures status == "active" ==> shown == "Aktiv"
    ensures status == "inactive" ==> shown == "Inaktiv"
    ensures status == "expired" ==> shown == "Abgelaufen"
  {
    if status == "active" then "Aktiv"
    else if status == "inactive" then "Inaktiv"
    else if status == "expired" then "Abgelaufen"
    else status
  }

  // ---------------------------------------------------------------- file cache

  datatype CacheEntry<T> = CacheEntry(data: T, writtenAt: int)

  /** The directory of `.cache` files behind `get_cache`, `set_cache` and
      `clear_cache`; a file's modification time is `writtenAt`. */
  class QueryCache<T> {
    var entries: map<string, CacheEntry<T>>

    constructor ()
      ensures entries == map[]
    {
      entries := map[];
    }

    /** `get_cache`: the stored data while it is younger than `ttl` seconds. */
    method GetCache(key: string, ttl: int, now: int) returns (r: Option<T>)
      ensures r.Some? <==> key in entries && now - entries[key].writtenAt < ttl
      ensures r.Some? ==> r.value == entries[key].data
    {
      if key in entries && now - entries[key].writtenAt < ttl {
        r := Some(entries[key].data);
      } else {
        r := None;
      }
    }

    /** `set_cache`: (over)writes the file, stamping it with the current time. */
    method SetCache(key: string, data: T, now: int) returns (ok: bool)
      modifies this
      ensures ok
      ensures entries == old(entries)[key := CacheEntry(data, now)]
    {
      entries := entries[key := CacheEntry(data, now)];
      ok := true;
    }

    /** `clear_cache`: one file, or every file when no key is given. */
    method ClearCache(key: Option<string>) returns (ok: bool)
      modifies this
      ensures ok
      ensures key.None? ==> entries == map[]
      ensures key.Some? ==> entries == old(entries) - {key.value}
    {
      if key.None? {
        entries := map[];
      } else {
        entries := entries - {key.value};
      }
      ok := true;
    }
  }

  /** `set_cache` then `get_cache` of the same key: the data written comes back
      exactly until `ttl` seconds after the write, whatever was cached before. */
  method FreshUntilTtl<T>(c: QueryCache<T>, key: string, data: T, written: int, ttl: int, now: int) returns (r: Option<T>)
    modifies c
    ensures r == (if now < written + ttl then Some(data) else None)
    ensures c.entries == old(c.entries)[key := CacheEntry(data, written)]
  {
    var _ := c.SetCache(key, data, written);
    r := c.GetCache(key, ttl, now);
  }

  // ---------------------------------------------------------------- rate limiter

  /** `array_filter` of the stored timestamps with `$timestamp > $cutoff`, in order. */
  function Retained(ts: seq<int>, cutoff: int): (r: seq<int>)
    ensures |r| <= |ts|
    ensures forall i :: 0 <= i < |r| ==> r[i] > cutoff
    ensures forall t :: t in r <==> t in ts && t > cutoff
  {
    if ts == [] then []
    else (if ts[0] > cutoff then [ts[0]] else []) + Retained(ts[1..], cutoff)
  }

  /** Nothing is dropped when every timestamp is inside the window. */
  lemma {:induction false} RetainedAll(ts: seq<int>, cutoff: int)
    requires forall t :: t in ts ==> t > cutoff
    ensures Retained(ts, cutoff) == ts
  {
    if ts != [] {
      var rest := ts[1..];
      assert ts == [ts[0]] + rest;
      assert ts[0] in ts;
      assert forall t :: t in rest ==> t in ts;
      RetainedAll(rest, cutoff);
    }
  }

  /** Whether `check_rate_limit($ip, $limit, $period)` lets the request through:
      always for an address with no stored state, otherwise when the timestamps
      still inside the window plus this request do not exceed the limit. */
  predicate Admits(requests: map<string, seq<int>>, ip: string, limit: int, period: int, now: int) {
    ip !in requests || |Retained(requests[ip], now - period)| + 1 <= limit
  }

  /** The list an admitted request writes back. */
  function Recorded(requests: map<string, seq<int>>, ip: string, period: int, now: int): seq<int> {
    if ip in requests then Retained(requests[ip], now - period) + [now] else [now]
  }

  /** The stored state after one call: a rejected call writes nothing back. */
  function AfterCheck(requests: map<string, seq<int>>, ip: string, limit: int, period: int, now: int): map<string, seq<int>> {
    if Admits(requests, ip, limit, period, now) then requests[ip := Recorded(requests, ip, period, now)]
    else requests
  }

  /** The per-address JSON files under cache/rate_limits/. */
  class RateLimiter {
    var requests: map<string, seq<int>>

    constructor ()
      ensures requests == map[]
    {
      requests := map[];
    }

    /** `check_rate_limit`. */
    method CheckRateLimit(ip: string, limit: int, period: int, now: int) returns (allowed: bool)
      modifies this
      ensures allowed == Admits(old(requests), ip, limit, period, now)
      ensures requests == AfterCheck(old(requests), ip, limit, period, now)
    {
      var data: seq<int>;
      if ip in requests {
        data := Retained(requests[ip], now - period);
        data := data + [now];
        if |data| > limit {
          return false;
        }
      } else {
        data := [now];
      }
      requests := requests[ip := data];
      allowed := true;
    }
  }

  /** After an admitted call the stored list is the retained timestamps followed
      by `now`, so every entry but the last lies inside the window. */
  lemma RecordedInsideWindow(requests: map<string, seq<int>>, ip: string, period: int, now: int)
    ensures var r := Recorded(requests, ip, period, now);
      r != [] && r[|r| - 1] == now && forall i :: 0 <= i < |r| - 1 ==> r[i] > now - period
  {
  }

  /** Everything is dropped when every timestamp has left the window. */
  lemma {:induction false} RetainedNone(ts: seq<int>, cutoff: int)
    requires forall t :: t in ts ==> t <= cutoff
    ensures Retained(ts, cutoff) == []
  {
    if ts != [] {
      assert forall t :: t in ts[1..] ==> t in ts;
      RetainedNone(ts[1..], cutoff);
      assert ts[0] in ts;
    }
  }

  /** A call whose window already holds `limit` stored requests is refused. */
  lemma BurstRejected(requests: map<string, seq<int>>, ip: string, limit: int, period: int, now: int)
    requires ip in requests && |requests[ip]| >= limit
    requires forall t :: t in requests[ip] ==> t > now - period
    ensures !Admits(requests, ip, limit, period, now)
    ensures AfterCheck(requests, ip, limit, period, now) == requests
  {
    RetainedAll(requests[ip], now - period);
  }

  /** Once every stored request has left the window, a call is admitted again. */
  lemma AdmittedAfterWindow(requests: map<string, seq<int>>, ip: string, limit: int, period: int, now: int)
    requires limit >= 1
    requires ip in requests ==> forall t :: t in requests[ip] ==> t <= now - period
    ensures Admits(requests, ip, limit, period, now)
  {
    if ip in requests {
      RetainedNone(requests[ip], now - period);
    }
  }

  /** The answers to a series of calls from one address at the given times. */
  function Run(requests: map<string, seq<int>>, ip: string, limit: int, period: int, times: seq<int>): (r: seq<bool>)
    ensures |r| == |times|
    decreases |times|
  {
    if times == [] then []
    else
      [Admits(requests, ip, limit, period, times[0])]
      + Run(AfterCheck(requests, ip, limit, period, times[0]), ip, limit, period, times[1..])
  }

  /** Calls that all fall inside one window: with `c` requests already stored,
      the k-th call is admitted exactly when k + c < limit. */
  lemma {:induction false} RunInsideWindow(requests: map<string, seq<int>>, ip: string, limit: int, period: int, times: seq<int>)
    requires limit >= 1
    requires ip in requests ==> |requests[ip]| <= limit
    requires ip in requests ==> forall t, j :: t in requests[ip] && 0 <= j < |times| ==> t > times[j] - period
    requires forall i, j :: 0 <= i < |times| && 0 <= j < |times| ==> times[i] > times[j] - period
    ensures var c := if ip in requests then |requests[ip]| else 0;
      forall k :: 0 <= k < |times| ==> Run(requests, ip, limit, period, times)[k] == (k + c < limit)
    decreases |times|
  {
    if times != [] {
      var c := if ip in requests then |requests[ip]| else 0;
      var now := times[0];
      if ip in requests {
        RetainedAll(requests[ip], now - period);
      }
      var next := AfterCheck(requests, ip, limit, period, now);
      assert Admits(requests, ip, limit, period, now) == (c < limit);
      assert ip in next ==> |next[ip]| == (if c < limit then c + 1 else c);
      assert forall t :: ip in next && t in next[ip] ==> (ip in requests && t in requests[ip]) || t == now;
      RunInsideWindow(next, ip, limit, period, times[1..]);
      var rest := Run(next, ip, limit, period, times[1..]);
      assert Run(requests, ip, limit, period, times) == [c < limit] + rest;
    }
  }

  /** From an address with no stored state, the first `limit` calls inside one
      window are admitted and every later one in that window is refused. */
  lemma FirstLimitCallsAdmitted(requests: map<string, seq<int>>, ip: string, limit: int, period: int, times: seq<int>)
    requires ip !in requests && limit >= 1
    requires forall i, j :: 0 <= i < |times| && 0 <= j < |times| ==> times[i] > times[j] - period
    ensures forall k :: 0 <= k < |times| ==> Run(requests, ip, limit, period, times)[k] == (k < limit)
  {
    RunInsideWindow(requests, ip, limit, period, times);
  }

  // ---------------------------------------------------------------- signer

  /** `hash_hmac('sha256', $message, $key)`, supplied by the caller. */
  type Mac = (string, string) -> string

  /** The default of the `$secret` parameter, LICENSE_SECRET in config.php. */
  const LicenseSecret := "change_this_to_a_random_string"

  /** `sign_license_data`: the MAC of the JSON text of the payload. */
  function Sign(data: Json.Payload, secret: string, mac: Mac): string {
    mac(Json.EncodePayload(data), secret)
  }

  /** `verify_license_signature`: recompute and compare. */
  predicate Verify(data: Json.Payload, signature: string, secret: string, mac: Mac) {
    Sign(data, secret, mac) == signature
  }

  /** A signature always verifies against the data it was made from. */
  lemma VerifySigned(data: Json.Payload, secret: string, mac: Mac)
    ensures Verify(data, Sign(data, secret, mac), secret, mac)
  {
  }

  /** The idealised MAC: distinct messages never share a tag under one key. */
  ghost predicate CollisionFree(mac: Mac, secret: string) {
    forall m1, m2 :: mac(m1, secret) == mac(m2, secret) ==> m1 == m2
  }

  /** Changing any field of a signed payload makes verification fail, because the
      JSON encoding of the payload is injective. */
  lemma AlteredPayloadRejected(data: Json.Payload, altered: Json.Payload, secret: string, mac: Mac)
    requires CollisionFree(mac, secret)
    requires altered != data
    ensures !Verify(altered, Sign(data, secret, mac), secret, mac)
  {
    if Verify(altered, Sign(data, secret, mac), secret, mac) {
      Json.EncodePayloadInjective(altered, data);
    }
  }

  // ---------------------------------------------------------------- pagination

  /** One `<li>` of the pagination bar: the back arrow, a page number, the forward arrow.
      `target` is the page the link points to, None for '#'. */
  datatype PageItem =
    | Previous(disabled: bool, target: Option<int>)
    | PageLink(number: int, active: bool)
    | Next(disabled: bool, target: Option<int>)

  function Max(a: int, b: int): int {
    if a >= b then a else b
  }

  function Min(a: int, b: int): int {
    if a <= b then a else b
  }

  /** `pagination`: nothing for a single page; otherwise the back arrow, the pages
      from max(1, current - 2) to min(total, current + 2), and the forward arrow. */
  method Pagination(current: int, total: int) returns (items: seq<PageItem>)
    ensures total <= 1 ==> items == []
    ensures total > 1 ==>
      var lo, hi := Max(1, current - 2), Min(total, current + 2);
      && |items| == 2 + (if lo <= hi then hi - lo + 1 else 0)
      && items[0] == Previous(current <= 1, if current > 1 then Some(current - 1) else None)
      && items[|items| - 1] == Next(current >= total, if current < total then Some(current + 1) else None)
      && forall k :: 1 <= k < |items| - 1 ==> items[k] == PageLink(lo + k - 1, lo + k - 1 == current)
  {
    if total <= 1 {
      return [];
    }
    items := [Previous(current <= 1, if current > 1 then Some(current - 1) else None)];
    var range := 2;
    var lo, hi := Max(1, current - range), Min(total, current + range);
    var i := lo;
    while i <= hi
      invariant lo <= i <= Max(lo, hi + 1)
      invariant |items| == 1 + (i - lo)
      invariant items[0] == Previous(current <= 1, if current > 1 then Some(current - 1) else None)
      invariant forall k :: 1 <= k < |items| ==> items[k] == PageLink(lo + k - 1, lo + k - 1 == current)
    {
      items := items + [PageLink(i, i == current)];
      i := i + 1;
    }
    assert i - lo == (if lo <= hi then hi - lo + 1 else 0);
    items := items + [Next(current >= total, if current < total then Some(current + 1) else None)];
  }
}
