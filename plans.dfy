/**
 * admin/plans.php, the POST handlers (lines 22-191): the comma-separated feature
 * list of a plan, the create and update validation, and the delete guard.
 * `floatval` on the price is not modelled: the price arrives in integer cents.
 */
module Plans {
  import opened Wrappers
  import opened Php
  import opened Store
  import Json
  import Functions
  import LicenseGenerator

  // ---------------------------------------------------------------------------
  // Feature lists, lines 40-44 and 77

  /** `array_map('trim', ...)`: every entry comes out already trimmed, so a second
      pass would change nothing. */
  function TrimAll(parts: seq<string>): (r: seq<string>)
    ensures |r| == |parts| && forall i :: 0 <= i < |r| ==> r[i] == Trim(parts[i])
    ensures forall i :: 0 <= i < |r| ==> Trim(r[i]) == r[i]
  {
    forall i | 0 <= i < |parts| {
      TrimIdempotent(parts[i]);
    }
    seq(|parts|, i requires 0 <= i < |parts| => Trim(parts[i]))
  }

  /** The values `array_filter` keeps: the entries that are not falsy ("" and "0"). */
  function KeepNonEmpty(parts: seq<string>): (r: seq<string>)
    ensures |r| <= |parts|
    ensures forall i :: 0 <= i < |r| ==> !IsEmpty(r[i])
    ensures forall x :: x in r <==> x in parts && !IsEmpty(x)
  {
    if parts == [] then []
    else (if IsEmpty(parts[0]) then [] else [parts[0]]) + KeepNonEmpty(parts[1..])
  }

  /** The feature names entered as "a, b, c": split on ',', trimmed, empty ones dropped. */
  function ParseFeatures(features: string): (r: seq<string>)
    ensures forall i :: 0 <= i < |r| ==> !IsEmpty(r[i]) && Trim(r[i]) == r[i]
    ensures forall x :: x in r <==> !IsEmpty(features) && x in TrimAll(Explode(',', features)) && !IsEmpty(x)
  {
    if IsEmpty(features) then []
    else
      var parts := Explode(',', features);
      KeptAreTrimmed(TrimAll(parts));
      KeepNonEmpty(TrimAll(parts))
  }

  /** Entries that are their own trim stay so after the filter. */
  lemma KeptAreTrimmed(t: seq<string>)
    requires forall i :: 0 <= i < |t| ==> Trim(t[i]) == t[i]
    ensures var r := KeepNonEmpty(t); forall i :: 0 <= i < |r| ==> Trim(r[i]) == r[i]
  {
    var r := KeepNonEmpty(t);
    forall i | 0 <= i < |r|
      ensures Trim(r[i]) == r[i]
    {
      assert r[i] in t;
    }
  }

  /** The `features` column the plan is stored with: NULL for no features,
      otherwise the JSON array of their names. */
  function StoredFeatures(features: string): Option<string> {
    var xs := ParseFeatures(features);
    if xs == [] then None else Some(Json.EncodeStringList(xs))
  }

  /** What the license response later reads from the column is exactly the parsed
      list: the stored text round-trips. */
  lemma StoredFeaturesRoundTrip(features: string)
    ensures LicenseGenerator.FeaturesOf(StoredFeatures(features)) == ParseFeatures(features)
  {
    LicenseGenerator.FeaturesOfStored(ParseFeatures(features));
  }

  // ---------------------------------------------------------------------------
  // The column as written: `array_filter` keeps the keys of the entries it keeps,
  // and `json_encode` writes an array whose keys are not 0, 1, 2, ... as an object.

  /** `array_filter` on the trimmed parts, each kept entry with its original index. */
  function FilterKeepingKeys(parts: seq<string>, from: nat): (r: seq<(nat, string)>)
    ensures |r| <= |parts|
  {
    if parts == [] then []
    else (if IsEmpty(parts[0]) then [] else [(from, parts[0])]) + FilterKeepingKeys(parts[1..], from + 1)
  }

  function Values(entries: seq<(nat, string)>): (r: seq<string>)
    ensures |r| == |entries|
  {
    seq(|entries|, i requires 0 <= i < |entries| => entries[i].1)
  }

  /** The kept values are the parsed feature names; only their keys differ. */
  lemma {:induction false} FilterKeepingKeysValues(parts: seq<string>, from: nat)
    ensures Values(FilterKeepingKeys(parts, from)) == KeepNonEmpty(parts)
  {
    if parts != [] {
      FilterKeepingKeysValues(parts[1..], from + 1);
      var head := if IsEmpty(parts[0]) then [] else [(from, parts[0])];
      assert Values(head + FilterKeepingKeys(parts[1..], from + 1)) == Values(head) + Values(FilterKeepingKeys(parts[1..], from + 1));
    }
  }

  /** Whether PHP regards the array as a list (keys 0, 1, 2, ... in order). */
  predicate IsList(entries: seq<(nat, string)>) {
    forall i :: 0 <= i < |entries| ==> entries[i].0 == i
  }

  function Members(entries: seq<(nat, string)>): string {
    if entries == [] then ""
    else
      var m := Json.Quote(Json.NatToString(entries[0].0)) + ":" + Json.Quote(entries[0].1);
      if |entries| == 1 then m else m + "," + Members(entries[1..])
  }

  /** `json_encode` of the filtered array. */
  function EncodeArray(entries: seq<(nat, string)>): string {
    if IsList(entries) then Json.EncodeStringList(Values(entries)) else "{" + Members(entries) + "}"
  }

  /** Lines 40-44 and 77 as written. */
  function StoredFeaturesAsWritten(features: string): Option<string> {
    var entries := if IsEmpty(features) then [] else FilterKeepingKeys(TrimAll(Explode(',', features)), 0);
    if entries == [] then None else Some(EncodeArray(entries))
  }

  /** No empty entry comes before a kept one, so the filtered array is a list. */
  predicate NoGap(features: string) {
    IsEmpty(features) || IsList(FilterKeepingKeys(TrimAll(Explode(',', features)), 0))
  }

  /** As written, the column is NULL exactly when no feature name was entered. */
  lemma AsWrittenNullExactlyWhenNone(features: string)
    ensures StoredFeaturesAsWritten(features).None? <==> ParseFeatures(features) == []
  {
    if !IsEmpty(features) {
      FilterKeepingKeysValues(TrimAll(Explode(',', features)), 0);
    }
  }

  /** The two agree whenever no empty entry comes before a kept one. */
  lemma AsWrittenWithoutGaps(features: string)
    requires !IsEmpty(features) && IsList(FilterKeepingKeys(TrimAll(Explode(',', features)), 0))
    ensures StoredFeaturesAsWritten(features) == StoredFeatures(features)
  {
    FilterKeepingKeysValues(TrimAll(Explode(',', features)), 0);
  }

  lemma ExplodeGap()
    ensures Explode(',', ",a") == ["", "a"]
  {
    var t: string := ",a";
    var a: string := "a";
    assert Explode(',', "") == [""];
    assert a[0] == 'a' && a[1..] == "";
    assert [a[0]] + "" == "a";
    assert Explode(',', a) == ["a"];
    assert t[0] == ',' && t[1..] == a;
  }

  lemma TrimPlain()
    ensures Trim("") == "" && Trim("a") == "a"
  {
    var a: string := "a";
    assert !IsTrimChar(a[0]);
    assert TrimLeft(a) == a;
    assert TrimRight(a) == a;
  }

  lemma TrimGap()
    ensures TrimAll(["", "a"]) == ["", "a"]
  {
    var xs: seq<string> := ["", "a"];
    var r := TrimAll(xs);
    TrimPlain();
    assert r[0] == Trim(xs[0]) == xs[0];
    assert r[1] == Trim(xs[1]) == xs[1];
    assert |r| == 2;
  }

  lemma FilterGap()
    ensures FilterKeepingKeys(["", "a"], 0) == [(1, "a")]
    ensures KeepNonEmpty(["", "a"]) == ["a"]
  {
    var xs: seq<string> := ["", "a"];
    assert xs[1..] == ["a"] && xs[1..][1..] == [];
    assert FilterKeepingKeys(["a"], 1) == [(1, "a")];
    assert KeepNonEmpty(["a"]) == ["a"];
  }

  /** A one-character string with no escape is quoted as is. */
  lemma QuotePlain(c: char)
    requires c != '"' && c != '\\' && c != '/' && c != '\n' && c != '\r' && c != '\t'
    requires c != '\U{0008}' && c != '\U{000C}'
    ensures Json.Quote([c]) == ['"', c, '"']
  {
    assert [c][1..] == [];
    assert Json.Escape([c]) == [c];
  }

  lemma MembersGap()
    ensures Members([(1, "a")]) == ['"', '1', '"', ':', '"', 'a', '"']
  {
    assert Json.NatToString(1) == "1";
    QuotePlain('1');
    QuotePlain('a');
  }

  lemma EncodeGap()
    ensures EncodeArray([(1, "a")]) == "{\"1\":\"a\"}"
  {
    var entries: seq<(nat, string)> := [(1, "a")];
    assert !IsList(entries) by {
      assert entries[0].0 != 0;
    }
    MembersGap();
  }

  lemma ListGap()
    ensures Json.EncodeStringList(["a"]) == "[\"a\"]"
  {
    QuotePlain('a');
    assert Json.Items(["a"]) == ['"', 'a', '"'];
  }

  /** ",a" is stored as the JSON object {"1":"a"}, not as the array ["a"]: the
      feature list a license response carries is then an object. */
  lemma GapStoredAsObject()
    ensures StoredFeaturesAsWritten(",a") == Some("{\"1\":\"a\"}")
    ensures StoredFeatures(",a") == Some("[\"a\"]")
  {
    ExplodeGap();
    TrimGap();
    FilterGap();
    EncodeGap();
    ListGap();
    assert !IsEmpty(",a");
    assert ParseFeatures(",a") == ["a"];
  }

  // ---------------------------------------------------------------------------
  // The POST handlers

  datatype PlanForm = PlanForm(
    name: string, productId: int, duration: int, maxDomains: int, priceCents: int, features: string)

  datatype PlanAction =
    | CreatePlan(form: PlanForm)
    | UpdatePlan(planId: int, form: PlanForm)
    | DeletePlan(planId: int)
    | OtherAction

  /** The entries of `$errors`, in the order the page collects them. */
  datatype PlanError = CsrfInvalid | NameEmpty | NoProduct | TooFewDomains | NegativePrice | PlanInUse

  function Count(failed: bool): nat {
    if failed then 1 else 0
  }

  /** The error list of the checks, given which of them failed, in the page's order. */
  function Collect(nameMissing: bool, noProduct: bool, fewDomains: bool, negativePrice: bool): (errors: seq<PlanError>)
    ensures errors == [] <==> !nameMissing && !noProduct && !fewDomains && !negativePrice
    ensures |errors| == Count(nameMissing) + Count(noProduct) + Count(fewDomains) + Count(negativePrice)
    ensures (NameEmpty in errors <==> nameMissing) && (NoProduct in errors <==> noProduct)
    ensures (TooFewDomains in errors <==> fewDomains) && (NegativePrice in errors <==> negativePrice)
  {
    var a := if nameMissing then [NameEmpty] else [];
    var b := if noProduct then [NoProduct] else [];
    var c := if fewDomains then [TooFewDomains] else [];
    var d := if negativePrice then [NegativePrice] else [];
    assert forall e :: e in a + b + c + d <==> e in a || e in b || e in c || e in d;
    a + b + c + d
  }

  /** Lines 47-61: every failed check adds its error, in this order. */
  function CreateErrors(f: PlanForm): (errors: seq<PlanError>)
    ensures errors == [] <==> !IsEmpty(Trim(f.name)) && f.productId > 0 && f.maxDomains >= 1 && f.priceCents >= 0
    ensures |errors| <= 4
    ensures (NameEmpty in errors <==> IsEmpty(Trim(f.name))) && (NoProduct in errors <==> f.productId <= 0)
    ensures (TooFewDomains in errors <==> f.maxDomains <= 0) && (NegativePrice in errors <==> f.priceCents < 0)
  {
    Collect(IsEmpty(Trim(f.name)), f.productId <= 0, f.maxDomains <= 0, f.priceCents < 0)
  }

  /** Lines 115-125: the same checks without the product. */
  function UpdateErrors(f: PlanForm): (errors: seq<PlanError>)
    ensures errors == [] <==> !IsEmpty(Trim(f.name)) && f.maxDomains >= 1 && f.priceCents >= 0
    ensures NoProduct !in errors && |errors| <= 3
    ensures (NameEmpty in errors <==> IsEmpty(Trim(f.name))) && (TooFewDomains in errors <==> f.maxDomains <= 0)
    ensures NegativePrice in errors <==> f.priceCents < 0
  {
    Collect(IsEmpty(Trim(f.name)), false, f.maxDomains <= 0, f.priceCents < 0)
  }

  /** The row a create inserts, with the features column as line 77 writes it. */
  function NewPlan(f: PlanForm): Plan {
    Plan(f.productId, Trim(f.name), f.duration, f.maxDomains, f.priceCents, StoredFeaturesAsWritten(f.features))
  }

  /** The row an update writes: everything but the product, with the features
      column as line 141 writes it. */
  function UpdatedPlan(old_: Plan, f: PlanForm): Plan {
    old_.(name := Trim(f.name), duration := f.duration, maxDomains := f.maxDomains,
          priceCents := f.priceCents, features := StoredFeaturesAsWritten(f.features))
  }

  /** An accepted plan allows at least one domain, has no negative price and a
      name; its features column is NULL exactly when no feature was entered, and
      reads back as the parsed list when there is no gap in the input. */
  lemma AcceptedPlanSane(f: PlanForm, before: Plan, p: Plan)
    requires (CreateErrors(f) == [] && p == NewPlan(f)) || (UpdateErrors(f) == [] && p == UpdatedPlan(before, f))
    ensures p.maxDomains >= 1 && p.priceCents >= 0 && !IsEmpty(p.name)
    ensures p.features.None? <==> ParseFeatures(f.features) == []
    ensures NoGap(f.features) ==> LicenseGenerator.FeaturesOf(p.features) == ParseFeatures(f.features)
  {
    AsWrittenNullExactlyWhenNone(f.features);
    if NoGap(f.features) {
      if !IsEmpty(f.features) {
        AsWrittenWithoutGaps(f.features);
      }
      StoredFeaturesRoundTrip(f.features);
    }
  }

  /** Lines 31-96. */
  method CreatePlanRow(db: Database, f: PlanForm) returns (errors: seq<PlanError>)
    requires db.Valid()
    modifies db
    ensures db.Valid()
    ensures errors == CreateErrors(f)
    ensures errors == [] ==> db.plans == old(db.plans)[old(db.nextPlanId) := NewPlan(f)] && db.nextPlanId == old(db.nextPlanId) + 1
    ensures errors != [] ==> db.plans == old(db.plans) && db.nextPlanId == old(db.nextPlanId)
    ensures db.customers == old(db.customers) && db.products == old(db.products) && db.licenses == old(db.licenses)
    ensures db.domains == old(db.domains) && db.logs == old(db.logs)
    ensures old(db.IsConsistent()) ==> db.IsConsistent()
  {
    errors := CreateErrors(f);
    if errors == [] {
      var _ := db.InsertPlan(NewPlan(f));
    }
  }

  /** Lines 99-158: an update of a missing row changes nothing. */
  method UpdatePlanRow(db: Database, planId: int, f: PlanForm) returns (errors: seq<PlanError>)
    requires db.Valid()
    modifies db
    ensures db.Valid()
    ensures errors == UpdateErrors(f)
    ensures errors == [] && planId in old(db.plans) ==> db.plans == old(db.plans)[planId := UpdatedPlan(old(db.plans)[planId], f)]
    ensures errors != [] || planId !in old(db.plans) ==> db.plans == old(db.plans)
    ensures db.customers == old(db.customers) && db.products == old(db.products) && db.licenses == old(db.licenses)
    ensures db.domains == old(db.domains) && db.logs == old(db.logs)
    ensures old(db.IsConsistent()) ==> db.IsConsistent()
  {
    errors := UpdateErrors(f);
    if errors == [] && planId in db.plans {
      db.PutPlan(planId, UpdatedPlan(db.plans[planId], f));
    }
  }

  /** `SELECT COUNT(*) FROM licenses WHERE plan_id = ?` is positive. */
  predicate PlanInUseBy(licenses: map<int, License>, planId: int) {
    exists id :: id in licenses && licenses[id].planId == planId
  }

  /** Removing a plan no license uses keeps every license's plan in place. */
  lemma DeletePlanConsistent(
    customers: map<int, Customer>, plans: map<int, Plan>, licenses: map<int, License>,
    domains: map<int, DomainBinding>, logs: seq<LogEntry>, planId: int)
    requires Consistent(customers, plans, licenses, domains, logs)
    requires !PlanInUseBy(licenses, planId)
    ensures Consistent(customers, plans - {planId}, licenses, domains, logs)
  {
  }

  /** Lines 161-189. */
  method DeletePlanRow(db: Database, planId: int) returns (errors: seq<PlanError>)
    requires db.Valid()
    modifies db
    ensures db.Valid()
    ensures errors == [] <==> !PlanInUseBy(old(db.licenses), planId)
    ensures errors != [] ==> errors == [PlanInUse] && db.plans == old(db.plans)
    ensures errors == [] ==> db.plans == old(db.plans) - {planId}
    ensures db.customers == old(db.customers) && db.products == old(db.products) && db.licenses == old(db.licenses)
    ensures db.domains == old(db.domains) && db.logs == old(db.logs)
    ensures db.nextPlanId == old(db.nextPlanId)
    ensures old(db.IsConsistent()) ==> db.IsConsistent()
  {
    if PlanInUseBy(db.licenses, planId) {
      return [PlanInUse];
    }
    if db.IsConsistent() {
      DeletePlanConsistent(db.customers, db.plans, db.licenses, db.domains, db.logs, planId);
    }
    db.plans := db.plans - {planId};
    errors := [];
  }

  /** Lines 22-191: the CSRF check, then the action. */
  method HandlePlanPost(db: Database, sessionToken: Option<string>, csrfToken: string, action: PlanAction)
    returns (errors: seq<PlanError>)
    requires db.Valid()
    modifies db
    ensures db.Valid()
    ensures !Functions.ValidateCsrfToken(sessionToken, csrfToken) ==> errors == [CsrfInvalid] && db.plans == old(db.plans)
    ensures Functions.ValidateCsrfToken(sessionToken, csrfToken) && action.CreatePlan? ==> errors == CreateErrors(action.form)
    ensures Functions.ValidateCsrfToken(sessionToken, csrfToken) && action.UpdatePlan? ==> errors == UpdateErrors(action.form)
    ensures Functions.ValidateCsrfToken(sessionToken, csrfToken) && action.DeletePlan? ==>
      (errors == [] <==> !PlanInUseBy(old(db.licenses), action.planId))
    ensures Functions.ValidateCsrfToken(sessionToken, csrfToken) && action.CreatePlan? && errors == [] ==>
      db.plans == old(db.plans)[old(db.nextPlanId) := NewPlan(action.form)] && db.nextPlanId == old(db.nextPlanId) + 1
    ensures Functions.ValidateCsrfToken(sessionToken, csrfToken) && action.UpdatePlan? && errors == [] && action.planId in old(db.plans) ==>
      db.plans == old(db.plans)[action.planId := UpdatedPlan(old(db.plans)[action.planId], action.form)]
    ensures action.UpdatePlan? && action.planId !in old(db.plans) ==> db.plans == old(db.plans)
    ensures Functions.ValidateCsrfToken(sessionToken, csrfToken) && action.DeletePlan? && errors == [] ==>
      db.plans == old(db.plans) - {action.planId}
    ensures action.OtherAction? || errors != [] ==> db.plans == old(db.plans)
    ensures db.customers == old(db.customers) && db.products == old(db.products) && db.licenses == old(db.licenses)
    ensures db.domains == old(db.domains) && db.logs == old(db.logs)
    ensures old(db.IsConsistent()) ==> db.IsConsistent()
  {
    if !Functions.ValidateCsrfToken(sessionToken, csrfToken) {
      return [CsrfInvalid];
    }
    match action {
      case CreatePlan(f) =>
        errors := CreatePlanRow(db, f);
      case UpdatePlan(planId, f) =>
        errors := UpdatePlanRow(db, planId, f);
      case DeletePlan(planId) =>
        errors := DeletePlanRow(db, planId);
      case OtherAction =>
        errors := [];
    }
  }
}
