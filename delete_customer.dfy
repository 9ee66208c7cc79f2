/**
 * admin/delete_customer.php: without a valid CSRF token the page only shows a
 * confirmation; with one and `confirm == 1` it deletes, inside one transaction,
 * the bindings and the log entries of the customer's licenses, then the licenses,
 * then the customer. An exception in any statement (or in the commit) rolls all
 * of it back. Which statement throws is an oracle: `fault == k` for k in 1..4
 * makes the k-th DELETE throw, `fault >= 5` the commit, `fault == 0` nothing.
 */
module DeleteCustomer {
  import opened Wrappers
  import opened Store
  import Functions

  /** Where the page ends up. */
  datatype Page =
    | ConfirmPage      // no or wrong token: the confirmation page, then exit
    | BackToList       // valid token but not confirmed
    | Deleted          // committed: `customers.php?deleted=1`
    | DeleteFailed     // rolled back: `customers.php?error=delete_failed`

  /** The ids of the customer's licenses (the JOIN's `l.customer_id = ?`). */
  function LicensesOf(licenses: map<int, License>, customerId: int): (r: set<int>)
    ensures forall id :: id in r <==> id in licenses && licenses[id].customerId == customerId
  {
    set id | id in licenses && licenses[id].customerId == customerId
  }

  /** The four tables after the committed cascade. */
  datatype Tables = Tables(
    customers: map<int, Customer>,
    licenses: map<int, License>,
    domains: map<int, DomainBinding>,
    logs: seq<LogEntry>)

  function Cascade(t: Tables, customerId: int): Tables {
    var doomed := LicensesOf(t.licenses, customerId);
    Tables(
      t.customers - {customerId},
      map id | id in t.licenses && id !in doomed :: t.licenses[id],
      DomainsWithout(t.domains, doomed),
      LogsWithout(t.logs, doomed))
  }

  /** After the cascade nothing of the customer is left: no customer row, no
      license of it, no binding or log entry of any of its licenses. */
  lemma CascadeRemovesCustomer(t: Tables, customerId: int)
    ensures var after := Cascade(t, customerId);
      && customerId !in after.customers
      && (forall id :: id in after.licenses ==> after.licenses[id].customerId != customerId)
      && (forall id :: id in after.domains ==> after.domains[id].licenseId !in LicensesOf(t.licenses, customerId))
      && (forall e :: e in after.logs ==> e.licenseId !in LicensesOf(t.licenses, customerId))
  {
  }

  /** Other customers' rows are untouched: their customer row, their licenses,
      the bindings of those licenses and their log history in order. */
  lemma CascadeKeepsOthers(t: Tables, customerId: int, other: int, licenseId: int)
    requires other != customerId
    ensures var after := Cascade(t, customerId);
      && (other in t.customers ==> other in after.customers && after.customers[other] == t.customers[other])
      && (licenseId in t.licenses && t.licenses[licenseId].customerId == other ==>
            && licenseId in after.licenses && after.licenses[licenseId] == t.licenses[licenseId]
            && BindingIds(after.domains, licenseId) == BindingIds(t.domains, licenseId)
            && LogsOf(after.logs, licenseId) == LogsOf(t.logs, licenseId))
  {
    if licenseId in t.licenses && t.licenses[licenseId].customerId == other {
      LogsWithoutKeepsOthers(t.logs, LicensesOf(t.licenses, customerId), licenseId);
    }
  }

  /** The cascade keeps the tables referentially consistent: nothing is left
      pointing at a deleted row. */
  lemma CascadeConsistent(plans: map<int, Plan>, t: Tables, customerId: int)
    requires Consistent(t.customers, plans, t.licenses, t.domains, t.logs)
    ensures var after := Cascade(t, customerId);
      Consistent(after.customers, plans, after.licenses, after.domains, after.logs)
  {
    var after := Cascade(t, customerId);
    forall i | 0 <= i < |after.logs|
      ensures after.logs[i].licenseId == 0 || after.logs[i].licenseId in after.licenses
    {
      assert after.logs[i] in after.logs;
    }
  }

  function TablesOf(db: Database): Tables
    reads db
  {
    Tables(db.customers, db.licenses, db.domains, db.logs)
  }

  /** The other tables and every counter are left alone. */
  twostate predicate OnlyTablesChanged(db: Database)
    reads db
  {
    && db.products == old(db.products) && db.plans == old(db.plans)
    && db.nextCustomerId == old(db.nextCustomerId) && db.nextProductId == old(db.nextProductId)
    && db.nextPlanId == old(db.nextPlanId) && db.nextLicenseId == old(db.nextLicenseId)
    && db.nextDomainId == old(db.nextDomainId)
  }

  /** Lines 103-121 run against the transaction's working copy: each DELETE in
      order, stopping at the one that throws. `done` is how many went through. */
  method Statements(t: Tables, customerId: int, fault: nat) returns (work: Tables, done: nat)
    ensures done == if fault == 0 || fault > 4 then 4 else fault - 1
    ensures done == 4 ==> work == Cascade(t, customerId)
  {
    work := t;
    done := 0;
    if fault == 1 { return; }
    work := work.(domains := DomainsWithout(work.domains, LicensesOf(work.licenses, customerId)));
    done := 1;
    if fault == 2 { return; }
    work := work.(logs := LogsWithout(work.logs, LicensesOf(work.licenses, customerId)));
    done := 2;
    if fault == 3 { return; }
    work := work.(licenses := map id | id in work.licenses && work.licenses[id].customerId != customerId :: work.licenses[id]);
    done := 3;
    if fault == 4 { return; }
    work := work.(customers := work.customers - {customerId});
    done := 4;
    assert work.licenses == Cascade(t, customerId).licenses;
  }

  /** Lines 99-133: `beginTransaction`, the four DELETEs, and `commit`; when a
      statement or the commit throws, `rollBack` leaves the tables as they were. */
  method Transaction(db: Database, customerId: int, fault: nat) returns (committed: bool)
    requires db.Valid()
    modifies db
    ensures db.Valid() && OnlyTablesChanged(db)
    ensures committed <==> fault == 0
    ensures committed ==> TablesOf(db) == Cascade(old(TablesOf(db)), customerId)
    ensures !committed ==> TablesOf(db) == old(TablesOf(db))
  {
    var work, done := Statements(TablesOf(db), customerId, fault);
    committed := done == 4 && fault == 0;
    if committed {
      db.customers, db.licenses, db.domains, db.logs := work.customers, work.licenses, work.domains, work.logs;
    }
  }

  /** Lines 23-141. */
  method DeleteCustomer(
    db: Database, customerId: int, sessionToken: Option<string>, token: Option<string>,
    confirmed: bool, fault: nat)
    returns (page: Page)
    requires db.Valid()
    modifies db
    ensures db.Valid() && OnlyTablesChanged(db)
    ensures page == ConfirmPage <==> !(token.Some? && Functions.ValidateCsrfToken(sessionToken, token.value))
    ensures page == BackToList <==> page != ConfirmPage && !confirmed
    ensures page == Deleted <==> page != ConfirmPage && confirmed && fault == 0
    ensures page == Deleted ==> TablesOf(db) == Cascade(old(TablesOf(db)), customerId)
    ensures page != Deleted ==> TablesOf(db) == old(TablesOf(db))
    ensures old(db.IsConsistent()) ==> db.IsConsistent()
  {
    if !(token.Some? && Functions.ValidateCsrfToken(sessionToken, token.value)) {
      return ConfirmPage;
    }
    if !confirmed {
      return BackToList;
    }
    ghost var before := TablesOf(db);
    var committed := Transaction(db, customerId, fault);
    if committed {
      if old(db.IsConsistent()) {
        CascadeConsistent(db.plans, before, customerId);
      }
      page := Deleted;
    } else {
      page := DeleteFailed;
    }
  }
}
