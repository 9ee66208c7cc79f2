/**
 * cron/check_expiry.php, the daily job: one bulk UPDATE turns every active
 * license whose end date has passed into an expired one, then every active,
 * not yet notified license ending within the next seven days gets a reminder
 * mail, and its `expiry_notified` flag is set when (and only when) the mail
 * was accepted. `mail()` is an oracle: `mailOk(id)` says whether the reminder
 * for license `id` is accepted.
 */
module CheckExpiry {
  import opened Store

  /** Seven days in seconds: `DATE_ADD(NOW(), INTERVAL 7 DAY)`. */
  const NoticeWindow := 7 * 86400

  /** `end_date IS NOT NULL AND end_date < NOW() AND status = 'active'`. */
  predicate ShouldExpire(l: License, now: int) {
    l.endDate.Some? && l.endDate.value < now && l.status == Active
  }

  /** The licenses after the bulk UPDATE. */
  function Swept(licenses: map<int, License>, now: int): (r: map<int, License>)
    ensures r.Keys == licenses.Keys
  {
    map id | id in licenses :: if ShouldExpire(licenses[id], now) then licenses[id].(status := Expired) else licenses[id]
  }

  /** The rows the UPDATE touches (`rowCount()`). */
  function SweptIds(licenses: map<int, License>, now: int): set<int> {
    set id | id in licenses && ShouldExpire(licenses[id], now)
  }

  /** The sweep changes exactly the status of exactly the licenses it should, and
      afterwards no active license has an end date in the past. */
  lemma SweepEffect(licenses: map<int, License>, now: int, id: int)
    requires id in licenses
    ensures var l, s := licenses[id], Swept(licenses, now)[id];
      && (ShouldExpire(l, now) ==> s == l.(status := Expired))
      && (!ShouldExpire(l, now) ==> s == l)
      && !ShouldExpire(s, now)
  {
  }

  /** Running the sweep twice changes nothing the first run did not. */
  lemma SweepIdempotent(licenses: map<int, License>, now: int)
    ensures Swept(Swept(licenses, now), now) == Swept(licenses, now)
    ensures SweptIds(Swept(licenses, now), now) == {}
  {
    var once := Swept(licenses, now);
    assert forall id :: id in once ==> !ShouldExpire(once[id], now);
  }

  /** The rows of the reminder query: active, not yet notified, ending between
      now and seven days from now (inclusive), with customer, plan and product. */
  predicate Due(
    customers: map<int, Customer>, plans: map<int, Plan>, products: map<int, Product>,
    licenses: map<int, License>, id: int, now: int)
  {
    && id in licenses
    && var l := licenses[id];
    && l.endDate.Some? && now <= l.endDate.value <= now + NoticeWindow
    && l.status == Active && !l.expiryNotified
    && l.customerId in customers && l.planId in plans && plans[l.planId].productId in products
  }

  function DueIds(
    customers: map<int, Customer>, plans: map<int, Plan>, products: map<int, Product>,
    licenses: map<int, License>, now: int): set<int>
  {
    set id | id in licenses && Due(customers, plans, products, licenses, id, now)
  }

  /** The licenses whose reminder was accepted. */
  function Sent(ids: set<int>, mailOk: int -> bool): set<int> {
    set id | id in ids && mailOk(id)
  }

  /** The licenses with `expiry_notified = 1` set for the ids in `sent`. */
  function MarkNotified(licenses: map<int, License>, sent: set<int>): (r: map<int, License>)
    ensures r.Keys == licenses.Keys
  {
    map id | id in licenses :: if id in sent then licenses[id].(expiryNotified := true) else licenses[id]
  }

  /** The flag is only ever set: a notified license stays notified, and a license
      whose mail failed keeps its flag as it was. */
  lemma MarkNotifiedMonotone(licenses: map<int, License>, due: set<int>, mailOk: int -> bool, id: int)
    requires id in licenses
    ensures var after := MarkNotified(licenses, Sent(due, mailOk))[id];
      && (licenses[id].expiryNotified ==> after.expiryNotified)
      && (after.expiryNotified <==> licenses[id].expiryNotified || (id in due && mailOk(id)))
      && after.(expiryNotified := licenses[id].expiryNotified) == licenses[id]
  {
  }

  /** Only flags and statuses change: every license keeps its id, customer and plan. */
  predicate SameLinks(before: map<int, License>, after: map<int, License>) {
    && before.Keys == after.Keys
    && forall id :: id in before ==> after[id].customerId == before[id].customerId && after[id].planId == before[id].planId
  }

  lemma SameLinksConsistent(
    customers: map<int, Customer>, plans: map<int, Plan>,
    before: map<int, License>, after: map<int, License>,
    domains: map<int, DomainBinding>, logs: seq<LogEntry>)
    requires SameLinks(before, after)
    requires Consistent(customers, plans, before, domains, logs)
    ensures Consistent(customers, plans, after, domains, logs)
  {
  }

  /** Lines 40-47: the bulk UPDATE and its `rowCount()`. */
  method ExpireOverdue(db: Database, now: int) returns (updatedCount: nat)
    requires db.Valid()
    modifies db
    ensures db.Valid()
    ensures updatedCount == |SweptIds(old(db.licenses), now)|
    ensures db.licenses == Swept(old(db.licenses), now)
    ensures SameLinks(old(db.licenses), db.licenses)
    ensures db.customers == old(db.customers) && db.products == old(db.products) && db.plans == old(db.plans)
    ensures db.domains == old(db.domains) && db.logs == old(db.logs)
    ensures db.nextCustomerId == old(db.nextCustomerId) && db.nextProductId == old(db.nextProductId)
    ensures db.nextPlanId == old(db.nextPlanId) && db.nextLicenseId == old(db.nextLicenseId)
    ensures db.nextDomainId == old(db.nextDomainId)
  {
    updatedCount := |SweptIds(db.licenses, now)|;
    db.licenses := Swept(db.licenses, now);
  }

  /** One pass of the loop: handling license `id` adds it to the sent set exactly
      when its mail went out. */
  lemma NotifyStep(start: map<int, License>, done: set<int>, id: int, mailOk: int -> bool)
    requires id in start && id !in done
    ensures var m := MarkNotified(start, Sent(done, mailOk));
      && MarkNotified(start, Sent(done + {id}, mailOk))
         == (if mailOk(id) then m[id := m[id].(expiryNotified := true)] else m)
      && |Sent(done + {id}, mailOk)| == |Sent(done, mailOk)| + (if mailOk(id) then 1 else 0)
  {
    if mailOk(id) {
      assert Sent(done + {id}, mailOk) == Sent(done, mailOk) + {id};
    } else {
      assert Sent(done + {id}, mailOk) == Sent(done, mailOk);
    }
  }

  /** The `foreach` of lines 67-93 over the due licenses, in whatever order the
      query returns them: the result is the same for every order. */
  method MailEach(start: map<int, License>, due: set<int>, mailOk: int -> bool)
    returns (licenses: map<int, License>, notificationCount: nat)
    requires due <= start.Keys
    ensures licenses == MarkNotified(start, Sent(due, mailOk))
    ensures notificationCount == |Sent(due, mailOk)|
  {
    licenses := start;
    var remaining := due;
    notificationCount := 0;
    while exists id :: id in remaining
      invariant remaining <= due
      invariant licenses == MarkNotified(start, Sent(due - remaining, mailOk))
      invariant notificationCount == |Sent(due - remaining, mailOk)|
      decreases |remaining|
    {
      var id :| id in remaining;
      NotifyStep(start, due - remaining, id, mailOk);
      assert due - (remaining - {id}) == (due - remaining) + {id};
      remaining := remaining - {id};
      if mailOk(id) {
        licenses := licenses[id := licenses[id].(expiryNotified := true)];
        notificationCount := notificationCount + 1;
      }
    }
    assert due - remaining == due;
  }

  /** Lines 53-93: mail every due license and set its flag when the mail went out. */
  method NotifyExpiring(db: Database, now: int, mailOk: int -> bool) returns (notificationCount: nat)
    requires db.Valid()
    modifies db
    ensures db.Valid()
    ensures var due := DueIds(db.customers, db.plans, db.products, old(db.licenses), now);
      && db.licenses == MarkNotified(old(db.licenses), Sent(due, mailOk))
      && notificationCount == |Sent(due, mailOk)|
    ensures SameLinks(old(db.licenses), db.licenses)
    ensures db.customers == old(db.customers) && db.products == old(db.products) && db.plans == old(db.plans)
    ensures db.domains == old(db.domains) && db.logs == old(db.logs)
    ensures db.nextCustomerId == old(db.nextCustomerId) && db.nextProductId == old(db.nextProductId)
    ensures db.nextPlanId == old(db.nextPlanId) && db.nextLicenseId == old(db.nextLicenseId)
    ensures db.nextDomainId == old(db.nextDomainId)
  {
    var due := DueIds(db.customers, db.plans, db.products, db.licenses, now);
    var licenses;
    licenses, notificationCount := MailEach(db.licenses, due, mailOk);
    db.licenses := licenses;
  }

  /** The whole job from line 40 to line 93: returns `$updated_count` and `$notification_count`. */
  method CheckExpiry(db: Database, now: int, mailOk: int -> bool) returns (updatedCount: nat, notificationCount: nat)
    requires db.Valid()
    modifies db
    ensures db.Valid()
    ensures updatedCount == |SweptIds(old(db.licenses), now)|
    ensures var swept := Swept(old(db.licenses), now);
      && var due := DueIds(db.customers, db.plans, db.products, swept, now);
      && db.licenses == MarkNotified(swept, Sent(due, mailOk))
      && notificationCount == |Sent(due, mailOk)|
    ensures db.customers == old(db.customers) && db.products == old(db.products) && db.plans == old(db.plans)
    ensures db.domains == old(db.domains) && db.logs == old(db.logs)
    ensures old(db.IsConsistent()) ==> db.IsConsistent()
  {
    ghost var initial := db.licenses;
    updatedCount := ExpireOverdue(db, now);
    ghost var swept := db.licenses;
    notificationCount := NotifyExpiring(db, now, mailOk);
    if old(db.IsConsistent()) {
      SameLinksConsistent(db.customers, db.plans, initial, swept, db.domains, db.logs);
      SameLinksConsistent(db.customers, db.plans, swept, db.licenses, db.domains, db.logs);
    }
  }
}
