/**
 * admin/view_license.php, the POST handlers of the license detail page: an
 * administrator removes a domain binding of the license shown, or adds one by
 * hand under the plan's domain cap. Both run only after the CSRF check, and
 * only when the page found the license together with its customer, plan and
 * product.
 */
module ViewLicense {
  import opened Wrappers
  import opened Php
  import opened Store
  import Functions

  /** The posted `action` with its field; NoAction is a request without `action`
      (or not a POST), which skips the token check and renders the page. */
  datatype DomainAction = RemoveDomain(domainId: int) | AddDomain(domain: string) | OtherAction | NoAction

  /** Where the handler ends: the redirect it issues, the `die` of a bad token,
      or falling through to render the page. */
  datatype AdminResult =
    | LicenseMissing        // redirect to licenses.php before any action
    | CsrfRejected          // "Ungültiger CSRF-Token"
    | DomainRemoved         // domain_removed=1
    | MaxDomains            // domain_error=max_domains
    | DomainExists          // domain_error=exists
    | DomainAdded           // domain_added=1
    | PageShown             // no redirect: the page is rendered

  /** The page's own lookup joins the license with its customer, plan and product. */
  predicate LicenseShown(db: Database, licenseId: int)
    reads db
  {
    && licenseId in db.licenses
    && db.licenses[licenseId].customerId in db.customers
    && db.licenses[licenseId].planId in db.plans
    && db.plans[db.licenses[licenseId].planId].productId in db.products
  }

  /** The `max_domains` of the license's plan. */
  function MaxDomainsOf(db: Database, licenseId: int): int
    reads db
    requires LicenseShown(db, licenseId)
  {
    db.plans[db.licenses[licenseId].planId].maxDomains
  }

  /** What `remove_domain` does to the bindings: only a row of this license
      goes, so no other license's count moves. */
  twostate predicate Removed(db: Database, licenseId: int, domainId: int)
    reads db
  {
    && db.nextDomainId == old(db.nextDomainId)
    && (if domainId in old(db.domains) && old(db.domains)[domainId].licenseId == licenseId
        then db.domains == old(db.domains) - {domainId}
        else db.domains == old(db.domains))
    && (forall other :: other != licenseId ==> BoundCount(db.domains, other) == BoundCount(old(db.domains), other))
  }

  /** What `add_domain` decides and does: an empty trimmed domain is ignored,
      then the cap is checked, then the duplicate, then one row is inserted. */
  twostate predicate Added(db: Database, licenseId: int, raw: string, now: int, r: AdminResult)
    reads db
    requires LicenseShown(db, licenseId)
  {
    var domain := Trim(raw);
    && (IsEmpty(domain) ==> r == PageShown)
    && (!IsEmpty(domain) && BoundCount(old(db.domains), licenseId) >= MaxDomainsOf(db, licenseId) ==> r == MaxDomains)
    && (!IsEmpty(domain) && BoundCount(old(db.domains), licenseId) < MaxDomainsOf(db, licenseId) ==>
          r == (if IsBound(old(db.domains), licenseId, domain) then DomainExists else DomainAdded))
    && (r != DomainAdded ==> db.domains == old(db.domains) && db.nextDomainId == old(db.nextDomainId))
    && (r == DomainAdded ==>
          && old(db.nextDomainId) !in old(db.domains)
          && db.domains == old(db.domains)[old(db.nextDomainId) := DomainBinding(licenseId, domain, now, false)]
          && db.nextDomainId == old(db.nextDomainId) + 1
          && BoundCount(db.domains, licenseId) == BoundCount(old(db.domains), licenseId) + 1 <= MaxDomainsOf(db, licenseId)
          && (forall other :: other != licenseId ==> BoundCount(db.domains, other) == BoundCount(old(db.domains), other)))
  }

  /** The domain POST handler for license `licenseId`. */
  method HandleDomainAction(
    db: Database, licenseId: int, sessionToken: Option<string>, csrfToken: string,
    action: DomainAction, now: int)
    returns (r: AdminResult)
    requires db.Valid()
    modifies db
    ensures db.Valid()
    ensures !LicenseShown(db, licenseId) ==> r == LicenseMissing
    ensures LicenseShown(db, licenseId) && action.NoAction? ==> r == PageShown
    ensures LicenseShown(db, licenseId) && !action.NoAction? && !Functions.ValidateCsrfToken(sessionToken, csrfToken) ==> r == CsrfRejected
    ensures r != DomainRemoved && r != DomainAdded ==> unchanged(db)
    ensures db.customers == old(db.customers) && db.products == old(db.products) && db.plans == old(db.plans)
    ensures db.licenses == old(db.licenses) && db.logs == old(db.logs)
    ensures LicenseShown(db, licenseId) && Functions.ValidateCsrfToken(sessionToken, csrfToken) ==>
      match action
      case RemoveDomain(domainId) => r == DomainRemoved && Removed(db, licenseId, domainId)
      case AddDomain(raw) => Added(db, licenseId, raw, now, r)
      case OtherAction => r == PageShown
      case NoAction => r == PageShown
    ensures old(db.IsConsistent()) ==> db.IsConsistent()
  {
    if !LicenseShown(db, licenseId) {
      return LicenseMissing;
    }
    if action.NoAction? {
      return PageShown;
    }
    if !Functions.ValidateCsrfToken(sessionToken, csrfToken) {
      return CsrfRejected;
    }
    match action
    case RemoveDomain(domainId) =>
      RemoveDomainRow(db, licenseId, domainId);
      return DomainRemoved;
    case AddDomain(raw) =>
      r := AddDomainRow(db, licenseId, raw, now);
    case OtherAction =>
      return PageShown;
    case NoAction =>
      assert false;
  }

  /** `DELETE FROM license_domains WHERE id = ? AND license_id = ?`. */
  method RemoveDomainRow(db: Database, licenseId: int, domainId: int)
    requires db.Valid()
    modifies db
    ensures db.Valid()
    ensures Removed(db, licenseId, domainId)
    ensures db.customers == old(db.customers) && db.products == old(db.products) && db.plans == old(db.plans)
    ensures db.licenses == old(db.licenses) && db.logs == old(db.logs)
    ensures old(db.IsConsistent()) ==> db.IsConsistent()
  {
    if domainId in db.domains && db.domains[domainId].licenseId == licenseId {
      forall other
        ensures other != licenseId ==> BoundCount(db.domains - {domainId}, other) == BoundCount(db.domains, other)
      {
        RemoveBindingCount(db.domains, domainId, other);
      }
      db.domains := db.domains - {domainId};
    }
  }

  /** The `add_domain` branch. */
  method AddDomainRow(db: Database, licenseId: int, raw: string, now: int) returns (r: AdminResult)
    requires db.Valid() && LicenseShown(db, licenseId)
    modifies db
    ensures db.Valid() && LicenseShown(db, licenseId)
    ensures Added(db, licenseId, raw, now, r)
    ensures r == PageShown || r == MaxDomains || r == DomainExists || r == DomainAdded
    ensures r != DomainAdded ==> unchanged(db)
    ensures db.customers == old(db.customers) && db.products == old(db.products) && db.plans == old(db.plans)
    ensures db.licenses == old(db.licenses) && db.logs == old(db.logs)
    ensures old(db.IsConsistent()) ==> db.IsConsistent()
  {
    var domain := Trim(raw);
    if IsEmpty(domain) {
      return PageShown;
    }
    if BoundCount(db.domains, licenseId) >= MaxDomainsOf(db, licenseId) {
      return MaxDomains;
    }
    if IsBound(db.domains, licenseId, domain) {
      return DomainExists;
    }
    var _ := db.InsertDomain(DomainBinding(licenseId, domain, now, false));
    return DomainAdded;
  }

  /** Manual binding keeps the cap: a license within its plan's limit stays within it. */
  lemma AddKeepsCap(domains: map<int, DomainBinding>, licenseId: int, maxDomains: int, newId: int, domain: string, now: int)
    requires newId !in domains
    requires BoundCount(domains, licenseId) < maxDomains
    ensures BoundCount(domains[newId := DomainBinding(licenseId, domain, now, false)], licenseId) <= maxDomains
  {
    InsertBindingCount(domains, newId, DomainBinding(licenseId, domain, now, false), licenseId);
  }
}
