/**
 * The relational store the core reads and writes, as the SQL statements of the
 * core files use it: customers, products, license_plans, licenses,
 * license_domains (the domain binding ledger) and validation_logs. Each table
 * with an AUTO_INCREMENT id is a map from id to row; the append-only log is a
 * sequence. Timestamps are integers (seconds).
 */
module Store {
  import opened Wrappers

  datatype Status = Active | Inactive | Expired

  /** The value stored in the `status` column. */
  function StatusName(s: Status): string {
    match s
    case Active => "active"
    case Inactive => "inactive"
    case Expired => "expired"
  }

  datatype Customer = Customer(name: string, email: string)

  datatype Product = Product(name: string, slug: string, description: string)

  /** A row of license_plans. `features` is the stored JSON text, None for NULL;
      the price is kept in integer cents. */
  datatype Plan = Plan(
    productId: int,
    name: string,
    duration: int,
    maxDomains: int,
    priceCents: int,
    features: Option<string>)

  /** A row of licenses; `endDate` None is an unlimited license. */
  datatype License = License(
    key: string,
    customerId: int,
    planId: int,
    status: Status,
    startDate: int,
    endDate: Option<int>,
    validationCount: int,
    lastValidation: Option<int>,
    expiryNotified: bool)

  /** A row of license_domains. */
  datatype DomainBinding = DomainBinding(licenseId: int, domain: string, createdAt: int, verified: bool)

  /** A row of validation_logs; `licenseId` 0 stands for "no license found". */
  datatype LogEntry = LogEntry(
    licenseId: int,
    domain: string,
    ipAddress: string,
    userAgent: string,
    isValid: bool,
    message: string,
    createdAt: int)

  /** The ids an AUTO_INCREMENT column has handed out are positive and below its counter. */
  predicate AutoIncrement(ids: set<int>, next: int) {
    next >= 1 && forall id :: id in ids ==> 1 <= id < next
  }

  /** The ids of the bindings of one license. */
  function BindingIds(domains: map<int, DomainBinding>, licenseId: int): set<int> {
    set id | id in domains && domains[id].licenseId == licenseId
  }

  /** `SELECT COUNT(*) FROM license_domains WHERE license_id = ?`. */
  function BoundCount(domains: map<int, DomainBinding>, licenseId: int): nat {
    |BindingIds(domains, licenseId)|
  }

  /** Whether a (license, domain) row exists. */
  predicate IsBound(domains: map<int, DomainBinding>, licenseId: int, domain: string) {
    exists id :: id in domains && domains[id].licenseId == licenseId && domains[id].domain == domain
  }

  /** Adding a binding under a fresh id raises its license's count by one and
      leaves every other license's count alone. */
  lemma InsertBindingCount(domains: map<int, DomainBinding>, id: int, b: DomainBinding, other: int)
    requires id !in domains
    ensures BoundCount(domains[id := b], b.licenseId) == BoundCount(domains, b.licenseId) + 1
    ensures other != b.licenseId ==> BoundCount(domains[id := b], other) == BoundCount(domains, other)
  {
    assert BindingIds(domains[id := b], b.licenseId) == BindingIds(domains, b.licenseId) + {id};
    assert other != b.licenseId ==> BindingIds(domains[id := b], other) == BindingIds(domains, other);
  }

  /** Removing a binding lowers its license's count by one and leaves every
      other license's count alone. */
  lemma RemoveBindingCount(domains: map<int, DomainBinding>, id: int, other: int)
    requires id in domains
    ensures BoundCount(domains - {id}, domains[id].licenseId) == BoundCount(domains, domains[id].licenseId) - 1
    ensures other != domains[id].licenseId ==> BoundCount(domains - {id}, other) == BoundCount(domains, other)
  {
    var l := domains[id].licenseId;
    assert BindingIds(domains - {id}, l) == BindingIds(domains, l) - {id};
    assert other != l ==> BindingIds(domains - {id}, other) == BindingIds(domains, other);
  }

  /** `DELETE ld FROM license_domains ld JOIN licenses l ...`: drop the bindings of
      the licenses in `doomed`. */
  function DomainsWithout(domains: map<int, DomainBinding>, doomed: set<int>): (r: map<int, DomainBinding>)
    ensures forall id :: id in r <==> id in domains && domains[id].licenseId !in doomed
    ensures forall id :: id in r ==> r[id] == domains[id]
  {
    map id | id in domains && domains[id].licenseId !in doomed :: domains[id]
  }

  /** The entries of `logs` that belong to license `licenseId`, in order. */
  function LogsOf(logs: seq<LogEntry>, licenseId: int): (r: seq<LogEntry>)
    ensures forall e :: e in r <==> e in logs && e.licenseId == licenseId
  {
    if logs == [] then []
    else (if logs[0].licenseId == licenseId then [logs[0]] else []) + LogsOf(logs[1..], licenseId)
  }

  /** `DELETE vl FROM validation_logs vl JOIN licenses l ...`: drop the entries of
      the licenses in `doomed`, keeping the rest in order. */
  function LogsWithout(logs: seq<LogEntry>, doomed: set<int>): (r: seq<LogEntry>)
    ensures |r| <= |logs|
    ensures forall e :: e in r <==> e in logs && e.licenseId !in doomed
  {
    if logs == [] then []
    else (if logs[0].licenseId in doomed then [] else [logs[0]]) + LogsWithout(logs[1..], doomed)
  }

  /** Dropping other licenses' log entries leaves the history of a surviving
      license exactly as it was, order included. */
  lemma {:induction false} LogsWithoutKeepsOthers(logs: seq<LogEntry>, doomed: set<int>, licenseId: int)
    requires licenseId !in doomed
    ensures LogsOf(LogsWithout(logs, doomed), licenseId) == LogsOf(logs, licenseId)
  {
    if logs != [] {
      LogsWithoutKeepsOthers(logs[1..], doomed, licenseId);
      var head := if logs[0].licenseId in doomed then [] else [logs[0]];
      LogsOfAppend(head, LogsWithout(logs[1..], doomed), licenseId);
      assert LogsWithout(logs, doomed) == head + LogsWithout(logs[1..], doomed);
    }
  }

  /** A history with no entry of the license has nothing to select. */
  lemma {:induction false} LogsOfNone(logs: seq<LogEntry>, licenseId: int)
    requires forall e :: e in logs ==> e.licenseId != licenseId
    ensures LogsOf(logs, licenseId) == []
  {
    if logs != [] {
      assert logs[0] in logs;
      assert forall e :: e in logs[1..] ==> e in logs;
      LogsOfNone(logs[1..], licenseId);
    }
  }

  lemma {:induction false} LogsOfAppend(a: seq<LogEntry>, b: seq<LogEntry>, licenseId: int)
    ensures LogsOf(a + b, licenseId) == LogsOf(a, licenseId) + LogsOf(b, licenseId)
  {
    if a != [] {
      assert (a + b)[1..] == a[1..] + b;
      LogsOfAppend(a[1..], b, licenseId);
    } else {
      assert a + b == b;
    }
  }

  /** Referential integrity the validation core relies on: every license names an
      existing customer and plan, every binding an existing license, and every log
      entry an existing license or the sentinel 0. */
  predicate Consistent(
    customers: map<int, Customer>,
    plans: map<int, Plan>,
    licenses: map<int, License>,
    domains: map<int, DomainBinding>,
    logs: seq<LogEntry>)
  {
    && (forall id :: id in licenses ==> licenses[id].customerId in customers && licenses[id].planId in plans)
    && (forall id :: id in domains ==> domains[id].licenseId in licenses)
    && (forall i :: 0 <= i < |logs| ==> logs[i].licenseId == 0 || logs[i].licenseId in licenses)
  }

  class Database {
    var customers: map<int, Customer>
    var products: map<int, Product>
    var plans: map<int, Plan>
    var licenses: map<int, License>
    var domains: map<int, DomainBinding>
    var logs: seq<LogEntry>

    var nextCustomerId: int
    var nextProductId: int
    var nextPlanId: int
    var nextLicenseId: int
    var nextDomainId: int

    /** Every table's ids came from its AUTO_INCREMENT counter; so no row has id 0. */
    ghost predicate Valid()
      reads this
    {
      && AutoIncrement(customers.Keys, nextCustomerId)
      && AutoIncrement(products.Keys, nextProductId)
      && AutoIncrement(plans.Keys, nextPlanId)
      && AutoIncrement(licenses.Keys, nextLicenseId)
      && AutoIncrement(domains.Keys, nextDomainId)
    }

    ghost predicate IsConsistent()
      reads this
    {
      Consistent(customers, plans, licenses, domains, logs)
    }

    /** `UPDATE products SET ... WHERE id = ?` on an existing row. */
    method PutProduct(id: int, p: Product)
      requires Valid() && id in products
      modifies this
      ensures Valid()
      ensures products == old(products)[id := p]
      ensures customers == old(customers) && plans == old(plans) && licenses == old(licenses)
      ensures domains == old(domains) && logs == old(logs)
      ensures nextCustomerId == old(nextCustomerId) && nextProductId == old(nextProductId)
      ensures nextPlanId == old(nextPlanId) && nextLicenseId == old(nextLicenseId) && nextDomainId == old(nextDomainId)
    {
      products := products[id := p];
    }

    /** `INSERT INTO products`: the row gets the next AUTO_INCREMENT id. */
    method InsertProduct(p: Product) returns (id: int)
      requires Valid()
      modifies this
      ensures Valid()
      ensures id == old(nextProductId) && id !in old(products)
      ensures products == old(products)[id := p] && nextProductId == old(nextProductId) + 1
      ensures customers == old(customers) && plans == old(plans) && licenses == old(licenses)
      ensures domains == old(domains) && logs == old(logs)
      ensures nextCustomerId == old(nextCustomerId) && nextPlanId == old(nextPlanId)
      ensures nextLicenseId == old(nextLicenseId) && nextDomainId == old(nextDomainId)
    {
      id := nextProductId;
      products := products[id := p];
      nextProductId := nextProductId + 1;
    }

    /** `UPDATE license_plans SET ... WHERE id = ?` on an existing row. */
    method PutPlan(id: int, p: Plan)
      requires Valid() && id in plans
      modifies this
      ensures Valid()
      ensures plans == old(plans)[id := p]
      ensures customers == old(customers) && products == old(products) && licenses == old(licenses)
      ensures domains == old(domains) && logs == old(logs)
      ensures nextCustomerId == old(nextCustomerId) && nextProductId == old(nextProductId)
      ensures nextPlanId == old(nextPlanId) && nextLicenseId == old(nextLicenseId) && nextDomainId == old(nextDomainId)
    {
      plans := plans[id := p];
    }

    /** `INSERT INTO license_plans`: the row gets the next AUTO_INCREMENT id. */
    method InsertPlan(p: Plan) returns (id: int)
      requires Valid()
      modifies this
      ensures Valid()
      ensures id == old(nextPlanId) && id !in old(plans)
      ensures plans == old(plans)[id := p] && nextPlanId == old(nextPlanId) + 1
      ensures customers == old(customers) && products == old(products) && licenses == old(licenses)
      ensures domains == old(domains) && logs == old(logs)
      ensures nextCustomerId == old(nextCustomerId) && nextProductId == old(nextProductId)
      ensures nextLicenseId == old(nextLicenseId) && nextDomainId == old(nextDomainId)
    {
      id := nextPlanId;
      plans := plans[id := p];
      nextPlanId := nextPlanId + 1;
    }

    /** `UPDATE licenses SET ... WHERE id = ?` on an existing row; an update that
        keeps the row's customer and plan keeps the tables consistent. */
    method PutLicense(id: int, l: License)
      requires Valid() && id in licenses
      modifies this
      ensures Valid()
      ensures licenses == old(licenses)[id := l]
      ensures customers == old(customers) && products == old(products) && plans == old(plans)
      ensures domains == old(domains) && logs == old(logs)
      ensures nextCustomerId == old(nextCustomerId) && nextProductId == old(nextProductId)
      ensures nextPlanId == old(nextPlanId) && nextLicenseId == old(nextLicenseId) && nextDomainId == old(nextDomainId)
      ensures old(IsConsistent()) && l.customerId == old(licenses)[id].customerId && l.planId == old(licenses)[id].planId
        ==> IsConsistent()
    {
      licenses := licenses[id := l];
    }

    /** `INSERT INTO validation_logs`: the entry goes at the end of the log. */
    method AppendLog(e: LogEntry)
      requires Valid()
      modifies this
      ensures Valid()
      ensures logs == old(logs) + [e]
      ensures customers == old(customers) && products == old(products) && plans == old(plans)
      ensures licenses == old(licenses) && domains == old(domains)
      ensures nextCustomerId == old(nextCustomerId) && nextProductId == old(nextProductId)
      ensures nextPlanId == old(nextPlanId) && nextLicenseId == old(nextLicenseId) && nextDomainId == old(nextDomainId)
      ensures old(IsConsistent()) && (e.licenseId == 0 || e.licenseId in licenses) ==> IsConsistent()
    {
      logs := logs + [e];
    }

    /** `INSERT INTO licenses`: the row gets the next AUTO_INCREMENT id. */
    method InsertLicense(l: License) returns (id: int)
      requires Valid()
      modifies this
      ensures Valid()
      ensures id == old(nextLicenseId) && id !in old(licenses)
      ensures licenses == old(licenses)[id := l] && nextLicenseId == old(nextLicenseId) + 1
      ensures customers == old(customers) && products == old(products) && plans == old(plans)
      ensures domains == old(domains) && logs == old(logs)
      ensures nextCustomerId == old(nextCustomerId) && nextProductId == old(nextProductId)
      ensures nextPlanId == old(nextPlanId) && nextDomainId == old(nextDomainId)
    {
      id := nextLicenseId;
      licenses := licenses[id := l];
      nextLicenseId := nextLicenseId + 1;
    }

    /** `INSERT INTO license_domains`: the row gets the next AUTO_INCREMENT id,
        and only its license's count of bindings moves, by one. */
    method InsertDomain(b: DomainBinding) returns (id: int)
      requires Valid()
      modifies this
      ensures Valid()
      ensures id == old(nextDomainId) && id !in old(domains)
      ensures domains == old(domains)[id := b] && nextDomainId == old(nextDomainId) + 1
      ensures forall other :: BoundCount(domains, other) == BoundCount(old(domains), other) + (if other == b.licenseId then 1 else 0)
      ensures customers == old(customers) && products == old(products) && plans == old(plans)
      ensures licenses == old(licenses) && logs == old(logs)
      ensures nextCustomerId == old(nextCustomerId) && nextProductId == old(nextProductId)
      ensures nextPlanId == old(nextPlanId) && nextLicenseId == old(nextLicenseId)
    {
      id := nextDomainId;
      forall other
        ensures BoundCount(domains[id := b], other) == BoundCount(domains, other) + (if other == b.licenseId then 1 else 0)
      {
        InsertBindingCount(domains, id, b, other);
      }
      domains := domains[id := b];
      nextDomainId := nextDomainId + 1;
    }

    constructor ()
      ensures Valid() && IsConsistent()
      ensures customers == map[] && products == map[] && plans == map[]
      ensures licenses == map[] && domains == map[] && logs == []
    {
      customers, products, plans, licenses, domains, logs := map[], map[], map[], map[], map[], [];
      nextCustomerId, nextProductId, nextPlanId, nextLicenseId, nextDomainId := 1, 1, 1, 1, 1;
    }
  }
}
