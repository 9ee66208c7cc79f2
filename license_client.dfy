/**
 * api/license-client.php: the client library a licensed product embeds. It
 * keeps the last valid server answer in a cache file, answers from that file
 * while it is younger than seven days, otherwise asks the server, and falls
 * back to the file (of any age) when the server cannot be reached. The
 * feature, validity and expiry queries are pure functions of what
 * `validate()` returns.
 *
 * The server is a parameter: the HTTP answer it would give to the request.
 */
module LicenseClient {
  import opened Wrappers
  import opened Php
  import Json
  import LicenseGenerator
  import ValidateApi

  /** The decoded JSON array `validate()` returns. `valid` is None when unset;
      `expiresAt` is None when null or empty; `features` None when absent. */
  datatype ClientData = ClientData(
    valid: Option<Scalar>,
    message: Option<string>,
    licenseKey: Option<string>,
    expiresAt: Option<int>,
    features: Option<seq<string>>,
    signature: Option<string>,
    cached: bool,
    cacheWarning: Option<string>)

  /** The cache file: the decoded content and its modification time. */
  datatype CacheFile = CacheFile(data: ClientData, writtenAt: int)

  /** What `file_get_contents($apiUrl . '/validate.php', ...)` meets: no
      connection, or an HTTP status with a decoded JSON body. */
  datatype Answer = Unreachable | Http(status: int, body: ClientData)

  /** 7 days in seconds. */
  const CacheExpiry := 604800

  const OfflineWarning := "Offline-Modus, Lizenz konnte nicht online validiert werden"
  const ServerUnreachable := "Lizenzserver nicht erreichbar"

  /** `@file_get_contents` yields false without a connection and, PHP's HTTP
      stream wrapper failing on error statuses, for any status of 400 or more. */
  function Fetched(answer: Answer): (r: Option<ClientData>)
    ensures r.Some? <==> answer.Http? && answer.status < 400
  {
    if answer.Http? && answer.status < 400 then Some(answer.body) else None
  }

  /** `isset($data['valid']) && $data['valid']`. */
  predicate ValidTruthy(d: ClientData) {
    d.valid.Some? && Truthy(d.valid.value)
  }

  /** `checkCache()`: a cache file younger than 604800 seconds. */
  predicate Fresh(cache: Option<CacheFile>, now: int) {
    cache.Some? && now - cache.value.writtenAt < CacheExpiry
  }

  /** One `validate()` call as a value: its result (Err for the exception),
      the cache file afterwards, and whether the server was asked. */
  datatype Step = Step(result: Result<ClientData>, cache: Option<CacheFile>, online: bool)

  /** `validate()`: fresh cache, else `validateOnline()`. */
  function ValidateStep(cache: Option<CacheFile>, now: int, answer: Answer): (s: Step)
    ensures Fresh(cache, now) ==> s == Step(Ok(cache.value.data), cache, false)
    ensures !Fresh(cache, now) ==> s.online
    ensures s.result.Err? <==> !Fresh(cache, now) && Fetched(answer).None? && cache.None?
    ensures s.cache.Some? ==> s.cache == cache || (s.cache.value.writtenAt == now && ValidTruthy(s.cache.value.data))
  {
    if Fresh(cache, now) then Step(Ok(cache.value.data), cache, false)
    else
      match Fetched(answer)
      case None =>
        if cache.Some? then
          Step(Ok(cache.value.data.(cached := true, cacheWarning := Some(OfflineWarning))), cache, true)
        else Step(Err(ServerUnreachable), cache, true)
      case Some(d) =>
        if ValidTruthy(d) then Step(Ok(d), Some(CacheFile(d, now)), true)
        else Step(Ok(d), None, true)
  }

  class Client {
    const licenseKey: string
    const productSlug: string
    /** `$_SERVER['HTTP_HOST']` when the client was made. */
    const domain: string
    var cache: Option<CacheFile>

    constructor (licenseKey: string, productSlug: string, domain: string, cache: Option<CacheFile>)
      ensures this.licenseKey == licenseKey && this.productSlug == productSlug && this.domain == domain
      ensures this.cache == cache
    {
      this.licenseKey := licenseKey;
      this.productSlug := productSlug;
      this.domain := domain;
      this.cache := cache;
    }

    /** The body `validateOnline()` posts. */
    function Request(): ValidateApi.Request {
      ValidateApi.Request(licenseKey, domain, productSlug)
    }

    /** `checkCache()`. */
    method CheckCache(now: int) returns (b: bool)
      ensures b == Fresh(cache, now)
    {
      if cache.None? {
        return false;
      }
      b := now - cache.value.writtenAt < CacheExpiry;
    }

    /** `validateOnline()`: `answer` is what the server gives to `Request()`. */
    method ValidateOnline(now: int, answer: Answer) returns (r: Result<ClientData>)
      modifies this
      ensures Fetched(answer).None? && old(cache).Some? ==>
        r == Ok(old(cache).value.data.(cached := true, cacheWarning := Some(OfflineWarning))) && cache == old(cache)
      ensures Fetched(answer).None? && old(cache).None? ==> r == Err(ServerUnreachable) && cache == None
      ensures Fetched(answer).Some? ==> r == Ok(answer.body)
      ensures Fetched(answer).Some? && ValidTruthy(answer.body) ==> cache == Some(CacheFile(answer.body, now))
      ensures Fetched(answer).Some? && !ValidTruthy(answer.body) ==> cache == None
    {
      var result := Fetched(answer);
      if result.None? {
        if cache.Some? {
          var cachedData := cache.value.data;
          cachedData := cachedData.(cached := true);
          cachedData := cachedData.(cacheWarning := Some(OfflineWarning));
          return Ok(cachedData);
        }
        return Err(ServerUnreachable);
      }
      var responseData := result.value;
      if ValidTruthy(responseData) {
        cache := Some(CacheFile(responseData, now));
      } else if cache.Some? {
        cache := None;
      }
      return Ok(responseData);
    }

    /** `validate()`. */
    method Validate(now: int, answer: Answer) returns (r: Result<ClientData>, online: bool)
      modifies this
      ensures ValidateStep(old(cache), now, answer) == Step(r, cache, online)
    {
      var cacheValid := CheckCache(now);
      if cacheValid {
        return Ok(cache.value.data), false;
      }
      r := ValidateOnline(now, answer);
      online := true;
    }

    /** `hasFeature($featureName)`. */
    method HasFeature(name: string, now: int, answer: Answer) returns (r: Result<bool>)
      modifies this
      ensures var s := ValidateStep(old(cache), now, answer);
        cache == s.cache && r == (if s.result.Err? then Err(s.result.error) else Ok(HasFeatureIn(s.result.value, name)))
    {
      var data, _ := Validate(now, answer);
      if data.Err? {
        return Err(data.error);
      }
      return Ok(HasFeatureIn(data.value, name));
    }

    /** `isValid()`. */
    method IsValid(now: int, answer: Answer) returns (r: Result<bool>)
      modifies this
      ensures var s := ValidateStep(old(cache), now, answer);
        cache == s.cache && r == (if s.result.Err? then Err(s.result.error) else Ok(StrictlyValid(s.result.value)))
    {
      var data, _ := Validate(now, answer);
      if data.Err? {
        return Err(data.error);
      }
      return Ok(StrictlyValid(data.value));
    }

    /** `getExpiryDate()`, the date as a timestamp. */
    method GetExpiryDate(now: int, answer: Answer) returns (r: Result<Option<int>>)
      modifies this
      ensures var s := ValidateStep(old(cache), now, answer);
        cache == s.cache && r == (if s.result.Err? then Err(s.result.error) else Ok(ExpiryDateOf(s.result.value)))
    {
      var data, _ := Validate(now, answer);
      if data.Err? {
        return Err(data.error);
      }
      return Ok(ExpiryDateOf(data.value));
    }

    /** `isExpired()`. */
    method IsExpired(now: int, answer: Answer) returns (r: Result<bool>)
      modifies this
      ensures var s := ValidateStep(old(cache), now, answer);
        cache == s.cache && r == (if s.result.Err? then Err(s.result.error) else Ok(ExpiredAt(s.result.value, now)))
    {
      var data, _ := Validate(now, answer);
      if data.Err? {
        return Err(data.error);
      }
      return Ok(ExpiredAt(data.value, now));
    }

    /** `clearCache()`: removes the file; `unlink` is taken to succeed. */
    method ClearCache() returns (ok: bool)
      modifies this
      ensures ok && cache == None
    {
      if cache.Some? {
        cache := None;
      }
      return true;
    }
  }

  /** `in_array($featureName, $data['features'] ?? [])` behind a truthy `valid`. */
  function HasFeatureIn(d: ClientData, name: string): (r: bool)
    ensures r <==> ValidTruthy(d) && d.features.Some? && name in d.features.value
  {
    ValidTruthy(d) && name in d.features.GetOr([])
  }

  /** `$data['valid'] === true`: only the boolean true counts. */
  function StrictlyValid(d: ClientData): (r: bool)
    ensures r ==> ValidTruthy(d)
    ensures r <==> d.valid == Some(Bool(true))
  {
    d.valid.Some? && d.valid.value.Bool? && d.valid.value.b
  }

  /** `getExpiryDate()`: null for an invalid answer or an unlimited license. */
  function ExpiryDateOf(d: ClientData): (r: Option<int>)
    ensures r.Some? <==> ValidTruthy(d) && d.expiresAt.Some?
    ensures r.Some? ==> r == d.expiresAt
  {
    if !ValidTruthy(d) || d.expiresAt.None? then None else d.expiresAt
  }

  /** `isExpired()`: an invalid answer counts as expired, an unlimited license never expires. */
  function ExpiredAt(d: ClientData, now: int): (r: bool)
    ensures !ValidTruthy(d) ==> r
    ensures ValidTruthy(d) && d.expiresAt.None? ==> !r
    ensures ValidTruthy(d) && d.expiresAt.Some? ==> (r <==> d.expiresAt.value < now)
  {
    if !ValidTruthy(d) then true
    else if d.expiresAt.None? then false
    else d.expiresAt.value < now
  }

  /** The two validity tests disagree on a truthy non-boolean such as 1:
      `hasFeature` may grant a feature while `isValid` says false. */
  lemma LooseAndStrictValidity(features: seq<string>, name: string)
    requires name in features
    ensures var d := ClientData(Some(Int(1)), None, None, None, Some(features), None, false, None);
      HasFeatureIn(d, name) && !StrictlyValid(d) && !ExpiredAt(d, 0)
  {
  }

  /** The expiry queries agree: an expiry date exists and has passed exactly when
      a valid answer is expired. */
  lemma ExpiryQueriesAgree(d: ClientData, now: int)
    ensures ValidTruthy(d) ==> (ExpiredAt(d, now) <==> ExpiryDateOf(d).Some? && ExpiryDateOf(d).value < now)
    ensures ExpiryDateOf(d).None? && ValidTruthy(d) ==> !ExpiredAt(d, now)
  {
  }

  /** An answer whose `valid` is unset or falsy grants nothing: no feature, no
      strict validity, no expiry date, and it counts as expired at every time. */
  lemma InvalidAnswerGrantsNothing(d: ClientData, name: string, now: int)
    requires !ValidTruthy(d)
    ensures !HasFeatureIn(d, name) && !StrictlyValid(d)
    ensures ExpiryDateOf(d).None? && ExpiredAt(d, now)
  {
  }

  /** Once an answer counts as expired it stays expired at every later time. */
  lemma ExpiredStaysExpired(d: ClientData, now: int, later: int)
    requires now <= later && ExpiredAt(d, now)
    ensures ExpiredAt(d, later)
  {
  }

  /** After a valid online answer, every call within seven days is served from the
      cache with that same answer, without asking the server. */
  lemma ValidAnswerServedFromCache(cache: Option<CacheFile>, t: int, answer: Answer, later: int, next: Answer)
    requires !Fresh(cache, t)
    requires Fetched(answer).Some? && ValidTruthy(answer.body)
    requires t <= later < t + CacheExpiry
    ensures var s := ValidateStep(cache, t, answer);
      ValidateStep(s.cache, later, next) == Step(Ok(answer.body), s.cache, false)
  {
  }

  /** After an invalid online answer there is no cache, so the next call asks the
      server again and, if it cannot be reached, throws. */
  lemma InvalidAnswerForcesOnline(cache: Option<CacheFile>, t: int, answer: Answer, later: int, next: Answer)
    requires !Fresh(cache, t)
    requires Fetched(answer).Some? && !ValidTruthy(answer.body)
    ensures var s := ValidateStep(cache, t, answer);
      && s.cache.None?
      && ValidateStep(s.cache, later, next).online
      && (Fetched(next).None? ==> ValidateStep(s.cache, later, next).result == Err(ServerUnreachable))
  {
  }

  /** When the server cannot be used, a cache file of any age is returned marked as
      cached, the file is kept, and its content is otherwise unchanged. */
  lemma OfflineFallback(file: CacheFile, now: int, answer: Answer)
    requires !Fresh(Some(file), now) && Fetched(answer).None?
    ensures var s := ValidateStep(Some(file), now, answer);
      && s.cache == Some(file) && s.result.Ok?
      && s.result.value.cached && s.result.value.cacheWarning == Some(OfflineWarning)
      && s.result.value.(cached := file.data.cached, cacheWarning := file.data.cacheWarning) == file.data
  {
  }

  /** What the client decodes from the JSON body the server sends. */
  function FromResponse(r: LicenseGenerator.Response): ClientData {
    match r
    case Invalid(message) => ClientData(Some(Bool(false)), Some(message), None, None, None, None, false, None)
    case Valid(p, signature) =>
      ClientData(Some(Bool(true)), None, Some(p.licenseKey), p.expiresAt, Some(p.features), Some(signature), false, None)
  }

  /** The client's view of the server's HTTP reply to one outcome. */
  function AnswerTo(o: ValidateApi.Outcome): Answer {
    var (status, body) := ValidateApi.Reply(o);
    Http(status, if body.Some? then FromResponse(body.value) else ClientData(None, None, None, None, None, None, false, None))
  }

  /** End to end: a stale client meeting a successful server validation becomes
      valid, caches the answer and sees exactly the plan's features and end date;
      any other outcome of a request that reached the checks makes it invalid and
      removes its cache. */
  lemma ServerOutcomeSeenByClient(cache: Option<CacheFile>, now: int, o: ValidateApi.Outcome, name: string)
    requires !Fresh(cache, now) && o.Logged()
    ensures var s := ValidateStep(cache, now, AnswerTo(o));
      && s.online && s.result.Ok?
      && (StrictlyValid(s.result.value) <==> o.Validated?)
      && (o.Validated? ==>
            && s.cache == Some(CacheFile(s.result.value, now))
            && (HasFeatureIn(s.result.value, name) <==> name in o.payload.features)
            && ExpiryDateOf(s.result.value) == o.payload.expiresAt)
      && (!o.Validated? ==> s.cache.None? && ExpiredAt(s.result.value, now))
  {
  }

  /** An answer refused with an error status (rate limit, missing parameters) is
      treated like a network failure: a stale cache is served as cached data. */
  lemma ErrorStatusServesStaleCache(file: CacheFile, now: int, o: ValidateApi.Outcome)
    requires !Fresh(Some(file), now)
    requires o.RateLimited? || o.MissingParameters? || o.Forbidden? || o.MethodNotAllowed?
    ensures var s := ValidateStep(Some(file), now, AnswerTo(o));
      s.cache == Some(file) && s.result == Ok(file.data.(cached := true, cacheWarning := Some(OfflineWarning)))
  {
  }
}
