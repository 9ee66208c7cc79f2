/**
 * admin/delete_license.php: the same token gate as the customer delete, then a
 * single `DELETE FROM licenses WHERE id = ?` (line 96). Unlike the customer
 * delete it leaves the license's domain bindings and log entries behind, so the
 * tables stop being referentially consistent. `CascadeLicense` and
 * `DeleteLicenseCascading` are the evidently intended delete, which removes those
 * rows first as admin/delete_customer.php does for a whole customer.
 */
module DeleteLicense {
  import opened Wrappers
  import opened Store
  import Functions

  datatype Page =
    | ConfirmPage      // no or wrong token
    | BackToList       // valid token but not confirmed
    | Deleted          // `licenses.php?deleted=1`
    | DeleteFailed     // `licenses.php?error=delete_failed`

  predicate TokenAccepted(sessionToken: Option<string>, token: Option<string>) {
    token.Some? && Functions.ValidateCsrfToken(sessionToken, token.value)
  }

  /** Lines 24 and 93-120 as written: only the license row goes; `fault` is the
      statement throwing (or `execute` returning false). */
  method DeleteLicense(
    db: Database, licenseId: int, sessionToken: Option<string>, token: Option<string>,
    confirmed: bool, fault: bool)
    returns (page: Page)
    requires db.Valid()
    modifies db
    ensures db.Valid()
    ensures page == ConfirmPage <==> !TokenAccepted(sessionToken, token)
    ensures page == BackToList <==> page != ConfirmPage && !confirmed
    ensures page == Deleted <==> page != ConfirmPage && confirmed && !fault
    ensures page == Deleted ==> db.licenses == old(db.licenses) - {licenseId}
    ensures page != Deleted ==> db.licenses == old(db.licenses)
    ensures db.customers == old(db.customers) && db.domains == old(db.domains) && db.logs == old(db.logs)
    ensures db.products == old(db.products) && db.plans == old(db.plans)
    ensures db.nextLicenseId == old(db.nextLicenseId)
  {
    if !TokenAccepted(sessionToken, token) {
      return ConfirmPage;
    }
    if !confirmed {
      return BackToList;
    }
    if fault {
      return DeleteFailed;
    }
    db.licenses := db.licenses - {licenseId};
    page := Deleted;
  }

  /** The delete as written breaks referential integrity whenever the license had
      a bound domain or a log entry: that row is left pointing at nothing. */
  lemma DeleteLicenseOrphans(
    customers: map<int, Customer>, plans: map<int, Plan>, licenses: map<int, License>,
    domains: map<int, DomainBinding>, logs: seq<LogEntry>, licenseId: int)
    requires licenseId != 0
    requires (exists id :: id in domains && domains[id].licenseId == licenseId)
          || (exists i :: 0 <= i < |logs| && logs[i].licenseId == licenseId)
    ensures !Consistent(customers, plans, licenses - {licenseId}, domains, logs)
  {
  }

  /** The evidently intended delete: the license's bindings, its log entries and
      then the license row. */
  function CascadeLicense(licenses: map<int, License>, domains: map<int, DomainBinding>, logs: seq<LogEntry>, licenseId: int)
    : (r: (map<int, License>, map<int, DomainBinding>, seq<LogEntry>))
    ensures licenseId !in r.0 && r.0 == licenses - {licenseId}
    ensures BoundCount(r.1, licenseId) == 0 && LogsOf(r.2, licenseId) == []
  {
    var domains' := DomainsWithout(domains, {licenseId});
    var logs' := LogsWithout(logs, {licenseId});
    assert BindingIds(domains', licenseId) == {};
    LogsOfNone(logs', licenseId);
    (licenses - {licenseId}, domains', logs')
  }

  /** The intended delete keeps the tables consistent and leaves every other
      license's bindings and log history as they were. */
  lemma CascadeLicenseConsistent(
    customers: map<int, Customer>, plans: map<int, Plan>, licenses: map<int, License>,
    domains: map<int, DomainBinding>, logs: seq<LogEntry>, licenseId: int, other: int)
    requires Consistent(customers, plans, licenses, domains, logs)
    ensures var r := CascadeLicense(licenses, domains, logs, licenseId);
      Consistent(customers, plans, r.0, r.1, r.2)
    ensures var r := CascadeLicense(licenses, domains, logs, licenseId);
      other != licenseId ==> BindingIds(r.1, other) == BindingIds(domains, other) && LogsOf(r.2, other) == LogsOf(logs, other)
  {
    var r := CascadeLicense(licenses, domains, logs, licenseId);
    forall i | 0 <= i < |r.2|
      ensures r.2[i].licenseId == 0 || r.2[i].licenseId in r.0
    {
      assert r.2[i] in r.2;
    }
    if other != licenseId {
      LogsWithoutKeepsOthers(logs, {licenseId}, other);
    }
  }

  /** The corrected page: the gate as written, then the cascading delete. */
  method DeleteLicenseCascading(
    db: Database, licenseId: int, sessionToken: Option<string>, token: Option<string>,
    confirmed: bool, fault: bool)
    returns (page: Page)
    requires db.Valid()
    modifies db
    ensures db.Valid()
    ensures page == ConfirmPage <==> !TokenAccepted(sessionToken, token)
    ensures page == BackToList <==> page != ConfirmPage && !confirmed
    ensures page == Deleted <==> page != ConfirmPage && confirmed && !fault
    ensures page == Deleted ==>
      (db.licenses, db.domains, db.logs) == CascadeLicense(old(db.licenses), old(db.domains), old(db.logs), licenseId)
    ensures page != Deleted ==> db.licenses == old(db.licenses) && db.domains == old(db.domains) && db.logs == old(db.logs)
    ensures db.customers == old(db.customers) && db.products == old(db.products) && db.plans == old(db.plans)
    ensures db.nextLicenseId == old(db.nextLicenseId) && db.nextDomainId == old(db.nextDomainId)
    ensures old(db.IsConsistent()) ==> db.IsConsistent()
  {
    if !TokenAccepted(sessionToken, token) {
      return ConfirmPage;
    }
    if !confirmed {
      return BackToList;
    }
    if fault {
      return DeleteFailed;
    }
    if db.IsConsistent() {
      CascadeLicenseConsistent(db.customers, db.plans, db.licenses, db.domains, db.logs, licenseId, licenseId);
    }
    var r := CascadeLicense(db.licenses, db.domains, db.logs, licenseId);
    db.licenses, db.domains, db.logs := r.0, r.1, r.2;
    page := Deleted;
  }
}
