/**
 * api/validate.php: the license validation endpoint. After the request-method
 * and IP-whitelist gates, a first-match-wins chain: rate limit, missing
 * parameters, lookup of an active license (joined with its plan and product),
 * product match, expiry (which marks the license expired), domain binding under
 * the plan's cap (binding a new domain on first use), and success (counter,
 * last-validation time, signed response). Every step past the parameter check
 * writes exactly one row to validation_logs.
 */
module ValidateApi {
  import opened Wrappers
  import opened Php
  import opened Store
  import Functions
  import LicenseGenerator
  import Json

  /** The three fields of the JSON body; an absent field reads as "". */
  datatype Request = Request(licenseKey: string, domain: string, productSlug: string)

  datatype Outcome =
    | Preflight                              // OPTIONS: answered with an empty body
    | MethodNotAllowed                       // 405
    | Forbidden                              // 403: address not on the whitelist
    | RateLimited                            // 429
    | MissingParameters                      // 400
    | NotFound                               // no active license with this key
    | ProductMismatch(licenseId: int)
    | LicenseExpired(licenseId: int)
    | DomainLimitReached(licenseId: int)
    | Validated(licenseId: int, payload: Json.Payload, signature: string)
  {
    /** The outcomes reached past the parameter check, each of which writes one log row. */
    predicate Logged() {
      NotFound? || ProductMismatch? || LicenseExpired? || DomainLimitReached? || Validated?
    }
  }

  // The messages written to validation_logs.
  const LogNotFound := "Lizenz nicht gefunden"
  const LogProductMismatch := "Produktmismatch"
  const LogExpired := "Lizenz abgelaufen"
  const LogDomainLimit := "Maximale Domainanzahl erreicht"
  const LogSuccess := "Validierung erfolgreich"

  // The messages returned to the caller.
  const MsgMethod := "Nur POST-Anfragen sind erlaubt"
  const MsgForbidden := "Zugriff verweigert"
  const MsgRateLimited := "Zu viele Anfragen. Bitte versuchen Sie es sp\U{00E4}ter erneut."
  const MsgMissing := "Fehlende Parameter: license_key, domain und product_slug sind erforderlich"
  const MsgNotFound := "Ung\U{00FC}ltiger Lizenzschl\U{00FC}ssel"
  const MsgMismatch := "Lizenz nicht f\U{00FC}r dieses Produkt"
  const MsgExpired := "Lizenz abgelaufen"
  const MsgDomainLimit := "Maximale Anzahl an Domains erreicht"

  /** The endpoint's rate limit: 100 requests per address per hour. */
  const RateLimit := 100
  const RatePeriod := 3600

  /** Whether license `id` is a row of `SELECT ... FROM licenses l JOIN license_plans lp
      JOIN products p WHERE l.license_key = ? AND l.status = 'active'`. */
  predicate Matches(licenses: map<int, License>, plans: map<int, Plan>, products: map<int, Product>, key: string, id: int) {
    && id in licenses && licenses[id].key == key && licenses[id].status == Active
    && licenses[id].planId in plans && plans[licenses[id].planId].productId in products
  }

  /** All rows of that query. */
  function Found(licenses: map<int, License>, plans: map<int, Plan>, products: map<int, Product>, key: string): set<int> {
    set id | id in licenses && Matches(licenses, plans, products, key, id)
  }

  /** The HTTP status and JSON body of an outcome; None is the empty body. */
  function Reply(o: Outcome): (reply: (int, Option<LicenseGenerator.Response>))
    ensures reply.1.None? <==> o.Preflight?
    ensures reply.1.Some? && reply.1.value.Valid? <==> o.Validated?
    ensures reply.0 == 200 <==> o.Preflight? || o.Logged()
  {
    match o
    case Preflight => (200, None)
    case MethodNotAllowed => (405, Some(LicenseGenerator.Invalid(MsgMethod)))
    case Forbidden => (403, Some(LicenseGenerator.Invalid(MsgForbidden)))
    case RateLimited => (429, Some(LicenseGenerator.Invalid(MsgRateLimited)))
    case MissingParameters => (400, Some(LicenseGenerator.Invalid(MsgMissing)))
    case NotFound => (200, Some(LicenseGenerator.Invalid(MsgNotFound)))
    case ProductMismatch(_) => (200, Some(LicenseGenerator.Invalid(MsgMismatch)))
    case LicenseExpired(_) => (200, Some(LicenseGenerator.Invalid(MsgExpired)))
    case DomainLimitReached(_) => (200, Some(LicenseGenerator.Invalid(MsgDomainLimit)))
    case Validated(_, payload, signature) => (200, Some(LicenseGenerator.Valid(payload, signature)))
  }

  /** The tables a validation step may touch, with their AUTO_INCREMENT counters
      (the log is described separately). */
  datatype Tables = Tables(
    customers: map<int, Customer>, products: map<int, Product>, plans: map<int, Plan>,
    licenses: map<int, License>, domains: map<int, DomainBinding>,
    nextCustomerId: int, nextProductId: int, nextPlanId: int, nextLicenseId: int, nextDomainId: int)

  /** The slug of the product a license's plan belongs to (`p.slug as product_slug`). */
  function Slug(t: Tables, id: int): string
    requires id in t.licenses && t.licenses[id].planId in t.plans && t.plans[t.licenses[id].planId].productId in t.products
  {
    t.products[t.plans[t.licenses[id].planId].productId].slug
  }

  /** How a step past the parameter check takes the tables from `s` to `t`, outcome
      by outcome; customers, products, plans and the counters of untouched tables
      stay as they were. */
  ghost predicate Effect(o: Outcome, req: Request, now: int, s: Tables, t: Tables, secret: string, mac: Functions.Mac) {
    && t.customers == s.customers && t.products == s.products && t.plans == s.plans
    && t.nextCustomerId == s.nextCustomerId && t.nextProductId == s.nextProductId
    && t.nextPlanId == s.nextPlanId && t.nextLicenseId == s.nextLicenseId
    && (o.Validated? || (t.domains == s.domains && t.nextDomainId == s.nextDomainId))
    && (o.LicenseExpired? || o.Validated? || t.licenses == s.licenses)
    && match o
      case NotFound => Found(s.licenses, s.plans, s.products, req.licenseKey) == {}
      case ProductMismatch(id) =>
        && id in Found(s.licenses, s.plans, s.products, req.licenseKey)
        && Slug(s, id) != req.productSlug
      case LicenseExpired(id) =>
        && id in Found(s.licenses, s.plans, s.products, req.licenseKey)
        && var l := s.licenses[id];
        && Slug(s, id) == req.productSlug
        && l.endDate.Some? && l.endDate.value < now
        && t.licenses == s.licenses[id := l.(status := Expired)]
      case DomainLimitReached(id) =>
        && id in Found(s.licenses, s.plans, s.products, req.licenseKey)
        && var l := s.licenses[id];
        && Slug(s, id) == req.productSlug
        && (l.endDate.None? || l.endDate.value >= now)
        && !IsBound(s.domains, id, req.domain)
        && BoundCount(s.domains, id) >= s.plans[l.planId].maxDomains
      case Validated(id, payload, signature) =>
        && id in Found(s.licenses, s.plans, s.products, req.licenseKey)
        && var l := s.licenses[id];
        && var plan := s.plans[l.planId];
        && Slug(s, id) == req.productSlug
        && (l.endDate.None? || l.endDate.value >= now)
        && (IsBound(s.domains, id, req.domain) || BoundCount(s.domains, id) < plan.maxDomains)
        && (IsBound(s.domains, id, req.domain) ==> t.domains == s.domains && t.nextDomainId == s.nextDomainId)
        && (!IsBound(s.domains, id, req.domain) ==>
              && s.nextDomainId !in s.domains
              && t.domains == s.domains[s.nextDomainId := DomainBinding(id, req.domain, now, false)]
              && t.nextDomainId == s.nextDomainId + 1)
        && IsBound(t.domains, id, req.domain)
        && BoundCount(t.domains, id) == BoundCount(s.domains, id) + (if IsBound(s.domains, id, req.domain) then 0 else 1)
        && (forall other :: other != id ==> BoundCount(t.domains, other) == BoundCount(s.domains, other))
        && t.licenses == s.licenses[id := l.(validationCount := l.validationCount + 1, lastValidation := Some(now))]
        && LicenseGenerator.Valid(payload, signature)
             == LicenseGenerator.GenerateLicenseResponse(l, plan.features, true, "", secret, mac)
      case _ => false
  }

  /** The endpoint with its collaborators: the store, the rate limiter's files,
      the optional API_IP_WHITELIST setting and the signing secret. */
  class Validator {
    const db: Database
    const limiter: Functions.RateLimiter
    const whitelist: Option<string>
    const secret: string
    const mac: Functions.Mac

    constructor (db: Database, limiter: Functions.RateLimiter, whitelist: Option<string>, secret: string, mac: Functions.Mac)
      ensures this.db == db && this.limiter == limiter && this.whitelist == whitelist
      ensures this.secret == secret && this.mac == mac
    {
      this.db := db;
      this.limiter := limiter;
      this.whitelist := whitelist;
      this.secret := secret;
      this.mac := mac;
    }

    /** Whether the whitelist gate lets `ip` through: an unset or empty setting
        admits everyone, otherwise the address must be one of its comma-separated entries. */
    predicate WhitelistAdmits(ip: string) {
      whitelist.None? || IsEmpty(whitelist.value) || ip in Explode(',', whitelist.value)
    }

    /** The row a step past the parameter check appends to validation_logs. */
    static function LogFor(o: Outcome, req: Request, ip: string, userAgent: string, now: int): (entry: LogEntry)
      requires o.Logged()
      ensures entry.isValid <==> o.Validated?
      ensures o.NotFound? ==> entry.licenseId == 0 && entry.message == LogNotFound
      ensures !o.NotFound? ==> entry.licenseId == o.licenseId
      ensures entry.domain == req.domain && entry.ipAddress == ip && entry.userAgent == userAgent && entry.createdAt == now
    {
      match o
      case NotFound => LogEntry(0, req.domain, ip, userAgent, false, LogNotFound, now)
      case ProductMismatch(id) => LogEntry(id, req.domain, ip, userAgent, false, LogProductMismatch, now)
      case LicenseExpired(id) => LogEntry(id, req.domain, ip, userAgent, false, LogExpired, now)
      case DomainLimitReached(id) => LogEntry(id, req.domain, ip, userAgent, false, LogDomainLimit, now)
      case Validated(id, _, _) => LogEntry(id, req.domain, ip, userAgent, true, LogSuccess, now)
    }

    /** The tables a validation step may touch, as values. */
    ghost function Snapshot(): Tables
      reads db
    {
      Tables(db.customers, db.products, db.plans, db.licenses, db.domains,
             db.nextCustomerId, db.nextProductId, db.nextPlanId, db.nextLicenseId, db.nextDomainId)
    }

    /** One request to api/validate.php from `ip` at time `now`. */
    method Validate(requestMethod: string, ip: string, userAgent: string, req: Request, now: int) returns (o: Outcome)
      requires db.Valid()
      modifies db, limiter
      ensures db.Valid()
      // The gates before the rate limiter change nothing.
      ensures o.Preflight? <==> requestMethod == "OPTIONS"
      ensures o.MethodNotAllowed? <==> requestMethod != "OPTIONS" && requestMethod != "POST"
      ensures o.Forbidden? <==> requestMethod == "POST" && !WhitelistAdmits(ip)
      ensures o.Preflight? || o.MethodNotAllowed? || o.Forbidden? ==> unchanged(limiter)
      // Every request past the gates is counted by the rate limiter.
      ensures requestMethod == "POST" && WhitelistAdmits(ip) ==>
        limiter.requests == Functions.AfterCheck(old(limiter.requests), ip, RateLimit, RatePeriod, now)
      ensures o.RateLimited? <==>
        requestMethod == "POST" && WhitelistAdmits(ip) && !Functions.Admits(old(limiter.requests), ip, RateLimit, RatePeriod, now)
      ensures o.MissingParameters? <==>
        requestMethod == "POST" && WhitelistAdmits(ip) && Functions.Admits(old(limiter.requests), ip, RateLimit, RatePeriod, now)
        && (IsEmpty(req.licenseKey) || IsEmpty(req.domain) || IsEmpty(req.productSlug))
      // Only the steps past the parameter check touch the store, each with exactly one log row.
      ensures !o.Logged() ==> unchanged(db)
      ensures o.Logged() ==> db.logs == old(db.logs) + [LogFor(o, req, ip, userAgent, now)]
      ensures o.Logged() ==> Effect(o, req, now, old(Snapshot()), Snapshot(), secret, mac)
      ensures old(db.IsConsistent()) ==> db.IsConsistent()
    {
      if requestMethod == "OPTIONS" {
        return Preflight;
      }
      if requestMethod != "POST" {
        return MethodNotAllowed;
      }
      if !WhitelistAdmits(ip) {
        return Forbidden;
      }
      var allowed := limiter.CheckRateLimit(ip, RateLimit, RatePeriod, now);
      if !allowed {
        return RateLimited;
      }
      if IsEmpty(req.licenseKey) || IsEmpty(req.domain) || IsEmpty(req.productSlug) {
        return MissingParameters;
      }
      o := Check(ip, userAgent, req, now);
    }

    /** The chain after the parameter check: lookup, product match, expiry,
        domain binding, success. */
    method Check(ip: string, userAgent: string, req: Request, now: int) returns (o: Outcome)
      requires db.Valid()
      modifies db
      ensures db.Valid()
      ensures o.Logged()
      ensures db.logs == old(db.logs) + [LogFor(o, req, ip, userAgent, now)]
      ensures Effect(o, req, now, old(Snapshot()), Snapshot(), secret, mac)
      ensures old(db.IsConsistent()) ==> db.IsConsistent()
    {
      if !exists id :: id in db.licenses && Matches(db.licenses, db.plans, db.products, req.licenseKey, id) {
        assert Found(db.licenses, db.plans, db.products, req.licenseKey) == {};
        o := NotFound;
        db.AppendLog(LogFor(o, req, ip, userAgent, now));
        return;
      }
      // `$stmt->fetch()` returns one of the matching rows; which one is left open.
      var id :| id in db.licenses && Matches(db.licenses, db.plans, db.products, req.licenseKey, id);
      assert id in Found(db.licenses, db.plans, db.products, req.licenseKey);
      o := CheckLicense(id, ip, userAgent, req, now);
    }

    /** The product, expiry and domain steps for the license found, then its log row. */
    method CheckLicense(id: int, ip: string, userAgent: string, req: Request, now: int) returns (o: Outcome)
      requires db.Valid()
      requires id in Found(db.licenses, db.plans, db.products, req.licenseKey)
      modifies db
      ensures db.Valid()
      ensures o.Logged() && !o.NotFound? && o.licenseId == id
      ensures db.logs == old(db.logs) + [LogFor(o, req, ip, userAgent, now)]
      ensures Effect(o, req, now, old(Snapshot()), Snapshot(), secret, mac)
      ensures old(db.IsConsistent()) ==> db.IsConsistent()
    {
      var license := db.licenses[id];
      var plan := db.plans[license.planId];
      var product := db.products[plan.productId];
      assert Slug(Snapshot(), id) == product.slug;

      if product.slug != req.productSlug {
        o := ProductMismatch(id);
      } else if license.endDate.Some? && license.endDate.value < now {
        db.PutLicense(id, license.(status := Expired));
        o := LicenseExpired(id);
      } else if !IsBound(db.domains, id, req.domain) && BoundCount(db.domains, id) >= plan.maxDomains {
        o := DomainLimitReached(id);
      } else {
        o := Accept(id, req, now);
      }
      db.AppendLog(LogFor(o, req, ip, userAgent, now));
    }

    /** Lines 118-128 and 131-133: the domain is bound if it was not, the license's
        counter and timestamp move, and the signed response is built. */
    method Accept(id: int, req: Request, now: int) returns (o: Outcome)
      requires db.Valid()
      requires id in Found(db.licenses, db.plans, db.products, req.licenseKey)
      requires Slug(Snapshot(), id) == req.productSlug
      requires db.licenses[id].endDate.None? || db.licenses[id].endDate.value >= now
      requires IsBound(db.domains, id, req.domain) || BoundCount(db.domains, id) < db.plans[db.licenses[id].planId].maxDomains
      modifies db
      ensures db.Valid()
      ensures o.Validated? && o.licenseId == id && db.logs == old(db.logs)
      ensures Effect(o, req, now, old(Snapshot()), Snapshot(), secret, mac)
      ensures old(db.IsConsistent()) ==> db.IsConsistent()
    {
      var license := db.licenses[id];
      var plan := db.plans[license.planId];
      if !IsBound(db.domains, id, req.domain) {
        BindDomain(id, req.domain, now);
      }
      db.PutLicense(id, license.(validationCount := license.validationCount + 1, lastValidation := Some(now)));
      var response := LicenseGenerator.GenerateLicenseResponse(license, plan.features, true, "", secret, mac);
      o := Validated(id, response.payload, response.signature);
    }

    /** `INSERT INTO license_domains (license_id, domain)`: one new binding under the
        next id; only its license's count moves, by one. */
    method BindDomain(id: int, domain: string, now: int)
      requires db.Valid()
      modifies db
      ensures db.Valid()
      ensures old(db.nextDomainId) !in old(db.domains)
      ensures db.domains == old(db.domains)[old(db.nextDomainId) := DomainBinding(id, domain, now, false)]
      ensures db.nextDomainId == old(db.nextDomainId) + 1
      ensures IsBound(db.domains, id, domain)
      ensures BoundCount(db.domains, id) == BoundCount(old(db.domains), id) + 1
      ensures forall other :: other != id ==> BoundCount(db.domains, other) == BoundCount(old(db.domains), other)
      ensures db.customers == old(db.customers) && db.products == old(db.products) && db.plans == old(db.plans)
      ensures db.licenses == old(db.licenses) && db.logs == old(db.logs)
      ensures db.nextCustomerId == old(db.nextCustomerId) && db.nextProductId == old(db.nextProductId)
      ensures db.nextPlanId == old(db.nextPlanId) && db.nextLicenseId == old(db.nextLicenseId)
    {
      var newId := db.InsertDomain(DomainBinding(id, domain, now, false));
      assert db.domains[newId].licenseId == id && db.domains[newId].domain == domain;
    }
  }

  /** A successful validation hands out a response whose signature verifies
      against exactly the license's key, end date and plan features. */
  lemma ValidatedResponseVerifies(license: License, plan: Plan, secret: string, mac: Functions.Mac)
    ensures var r := LicenseGenerator.GenerateLicenseResponse(license, plan.features, true, "", secret, mac);
      && r.Valid?
      && r.payload.licenseKey == license.key && r.payload.expiresAt == license.endDate
      && Functions.Verify(r.payload, r.signature, secret, mac)
  {
  }
}
